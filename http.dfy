/** The network as plain values: requests, responses and the external services the core consults. */
module Http {
  import opened Wrappers
  import opened Strs

  /** One entry of a Go `http.Header` map: a canonical name and its values. */
  datatype Header = Header(name: string, values: seq<string>)

  /** A received response: status code, `resp.Status` text, headers, the names of the cookies it
      sets, the body read so far and whether reading the body failed. */
  datatype Response = Response(
    status: int,
    statusText: string,
    header: seq<Header>,
    cookies: seq<string>,
    body: string,
    bodyErr: bool)

  /** An outgoing GET request: the URL and the request headers set on it. */
  datatype Request = Request(url: string, header: map<string, string>)

  /** The outcome of `client.Do`: a transport error, or a response. */
  datatype Outcome = Failed | Got(resp: Response)

  /** What `url.Parse` yields: scheme, host and the keys of `Query()`. */
  datatype Url = Url(scheme: string, host: string, query: set<string>)

  /** The external collaborators of one run, supplied as values:
      - web: what the network answers to each request;
      - parse: `url.Parse` (also the check `http.NewRequest` makes), None on a parse error;
      - crtShNames: the `name_value` of every record of a crt.sh JSON body (gjson);
      - otxHostnames: `passive_dns.#.hostname` of an OTX JSON body (gjson);
      - findAll: `regexp.MustCompile(pattern).FindAllString(body, -1)`;
      - aiSubdomains: what the AI suggestion source sends. */
  datatype Env = Env(
    web: Request -> Outcome,
    parse: string -> Option<Url>,
    crtShNames: string -> seq<string>,
    otxHostnames: string -> seq<string>,
    findAll: (string, string) -> seq<string>,
    aiSubdomains: seq<string>)

  /** `http.NewRequestWithContext` followed by `client.Do`: a URL that does not parse fails before
      anything is sent. */
  function Do(env: Env, req: Request): (o: Outcome)
    ensures env.parse(req.url).None? ==> o == Failed
  {
    if env.parse(req.url).None? then Failed else env.web(req)
  }

  /** A plain GET with no request headers. */
  function Get(env: Env, url: string): Outcome
  {
    Do(env, Request(url, map[]))
  }

  /** A response with status 200 whose body was read completely. */
  predicate FetchedOk(o: Outcome)
  {
    o.Got? && o.resp.status == 200 && !o.resp.bodyErr
  }

  /** `resp.Header.Get(name)`: the first value of the header with that name, compared ignoring ASCII
      case as Go's key canonicalisation does, or "" when there is none. */
  function HeaderGet(hs: seq<Header>, name: string): (v: string)
    ensures (forall h :: h in hs ==> !EqualFold(h.name, name)) ==> v == ""
  {
    if hs == [] then ""
    else if EqualFold(hs[0].name, name) then (if hs[0].values == [] then "" else hs[0].values[0])
    else HeaderGet(hs[1..], name)
  }
}
