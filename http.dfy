/** The small part of net/http the delay middleware relies on: a request
    whose headers can be read by name. Everything else about the request
    (its verb and path) is carried only so that conditions can look at it. */
module Http {

  /** Request headers: each name maps to the first value the client sent. */
  type Headers = map<string, string>

  datatype Request = Request(verb: string, path: string, header: Headers)

  /** Header.Get: the value for a name, or the empty string when it is absent.
      Go canonicalises the key first; here names are compared as given. */
  function Get(h: Headers, name: string): string
  {
    if name in h then h[name] else ""
  }
}
