/** What both AI endpoints read from a request before anything else: the Gemini key
    from the environment and the `code` property of the JSON body. */
module Requests {
  import opened Wrappers
  import opened JsStrings
  import opened Json

  /** An error response sent instead of calling the upstream model. */
  datatype Rejection = Rejection(status: nat, error: JsString)

  /** The key is usable: the variable is set and not empty. */
  predicate HasApiKey(apiKey: Option<JsString>) {
    apiKey.Some? && apiKey.value != []
  }

  /** The `code` field read from the body: its own `code` property, `undefined`
      when the body is absent, falsy, not an object or has no such property. */
  function CodeField(body: Option<Json>): (r: Option<Json>)
    ensures r.Some? <==> body.Some? && body.value.JObj? && Lit("code") in body.value.fields
    ensures r.Some? ==> r.value == body.value.fields[Lit("code")]
  {
    match body
    case None => None
    case Some(b) => Get(b, Lit("code"))
  }
}
