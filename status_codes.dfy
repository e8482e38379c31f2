/**
  The status-code response factory `rc_factory` of the REST utilities
  (is_core/rest/utils.py:13-39). Reading an attribute such as `rc.NOT_FOUND`
  looks the name up in a fixed table and builds a plain-text response with the
  table's body and status code; a name that is not in the table raises
  `AttributeError`. Python reaches `__getattr__` only after the ordinary
  attribute lookup has failed, so this models the lookup for names that are
  not ordinary attributes of the factory (`rc.CODES`, say, returns the table
  itself). The lazily translated messages are kept in their untranslated
  English form.
*/
module StatusCodes {
  import opened Wrappers

  /** The body a table row gives the response: a bare string (only the empty
      one occurs) or a one-entry dictionary such as `{'error': 'Not Found'}`. */
  datatype Body = Text(text: string) | Message(key: string, text: string)

  datatype Response = Response(body: Body, contentType: string, status: int)

  datatype Error = AttributeError(attr: string)

  const Codes: map<string, (Body, int)> := map[
    "ALL_OK" := (Message("success", "OK"), 200),
    "CREATED" := (Message("success", "The record was created"), 201),
    "DELETED" := (Text(""), 204),
    "BAD_REQUEST" := (Message("error", "Bad Request"), 400),
    "FORBIDDEN" := (Message("error", "Forbidden"), 401),
    "NOT_FOUND" := (Message("error", "Not Found"), 404),
    "DUPLICATE_ENTRY" := (Message("error", "Conflict/Duplicate"), 409),
    "NOT_HERE" := (Message("error", "Gone"), 410),
    "UNSUPPORTED_MEDIA_TYPE" := (Message("error", "Unsupported Media Type"), 415),
    "INTERNAL_ERROR" := (Message("error", "Internal server error"), 500),
    "NOT_IMPLEMENTED" := (Message("error", "Not implemented"), 501),
    "THROTTLED" := (Message("error", "The resource was throttled"), 503)
  ]

  /** `rc_factory.__getattr__(attr)`: the table row's body and status in a
      `text/plain` response, or `AttributeError(attr)` for a name the table
      lacks. */
  function Rc(attr: string): (r: Result<Response, Error>)
    ensures r.Failure? <==> attr !in Codes
    ensures r.Failure? ==> r.error == AttributeError(attr)
    ensures r.Success? ==> r.value.contentType == "text/plain"
    ensures r.Success? ==> (r.value.body, r.value.status) == Codes[attr]
  {
    if attr in Codes then Success(Response(Codes[attr].0, "text/plain", Codes[attr].1))
    else Failure(AttributeError(attr))
  }
}
