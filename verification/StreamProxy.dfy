/** The `/stream_proxy` route of app.py: the login and `url` checks, the one
    request header passed upstream, and the filtering of the upstream response
    headers.  The upstream request itself is a `fetch` parameter; the streamed
    body is not modelled. */
module StreamProxy {
  import opened Wrappers
  import opened Text

  /** A header line: name and value. */
  type Header = (string, string)

  /** What the route reads from the incoming request: whether the session is
      logged in, the `url` query argument, and the request headers. */
  datatype ClientRequest = ClientRequest(loggedIn: bool, url: Option<string>, headers: seq<Header>)

  /** The request sent upstream. */
  datatype UpstreamRequest = UpstreamRequest(url: string, headers: seq<Header>)

  /** The upstream answer: `Unreachable` when `requests.get` raised. */
  datatype UpstreamReply = Unreachable(reason: string) | Answered(status: int, headers: seq<Header>)

  /** What the route answers: a plain text body with a status, or the relayed
      stream with its status, headers and content type. */
  datatype Response =
    | Plain(status: int, body: string)
    | Relay(status: int, headers: seq<Header>, contentType: Option<string>)

  /** The response together with the upstream requests the route made. */
  datatype Exchange = Exchange(upstream: seq<UpstreamRequest>, response: Response)

  /** Header names are compared without regard to ASCII case. */
  predicate SameName(a: string, b: string) {
    Lower(a) == Lower(b)
  }

  /** The value of the first header called `name`, ignoring case. */
  function HeaderValue(headers: seq<Header>, name: string): (v: Option<string>)
    ensures v.None? <==> forall i :: 0 <= i < |headers| ==> !SameName(headers[i].0, name)
    ensures v.Some? ==> exists i :: 0 <= i < |headers| && SameName(headers[i].0, name)
                                    && headers[i].1 == v.value
                                    && forall j :: 0 <= j < i ==> !SameName(headers[j].0, name)
  {
    if |headers| == 0 then None
    else if SameName(headers[0].0, name) then Some(headers[0].1)
    else
      var v := HeaderValue(headers[1..], name);
      assert forall j :: 1 <= j < |headers| ==> headers[j] == headers[1..][j - 1];
      v
  }

  /** The headers sent upstream: only `Range`, with the client's value. */
  function ForwardedHeaders(client: seq<Header>): (r: seq<Header>)
    ensures |r| <= 1
    ensures forall i :: 0 <= i < |r| ==> r[i].0 == "Range"
    ensures r == [] <==> HeaderValue(client, "Range").None?
    ensures |r| == 1 ==> Some(r[0].1) == HeaderValue(client, "Range")
  {
    match HeaderValue(client, "Range")
    case Some(v) => [("Range", v)]
    case None => []
  }

  /** The hop-by-hop headers the relay must not copy: its chunked body makes
      their values wrong. */
  predicate HopByHop(name: string)
    ensures HopByHop(name) <==>
              || SameName(name, "Content-Encoding") || SameName(name, "Content-Length")
              || SameName(name, "Transfer-Encoding") || SameName(name, "Connection")
  {
    LowerSpelled();
    Lower(name) in ["content-encoding", "content-length", "transfer-encoding", "connection"]
  }

  /** The lower-case spellings of the hop-by-hop names. */
  lemma LowerSpelled()
    ensures Lower("Content-Encoding") == "content-encoding"
    ensures Lower("Content-Length") == "content-length"
    ensures Lower("Transfer-Encoding") == "transfer-encoding"
    ensures Lower("Connection") == "connection"
  {
  }

  /** The upstream headers that are passed back to the client. */
  function EndToEnd(headers: seq<Header>): (r: seq<Header>)
    ensures |r| <= |headers|
    ensures IsSubsequence(r, headers)
    ensures forall h :: h in r <==> h in headers && !HopByHop(h.0)
    decreases |headers|
  {
    if |headers| == 0 then []
    else if HopByHop(headers[0].0) then
      var r := EndToEnd(headers[1..]);
      assert forall h :: h in headers <==> h == headers[0] || h in headers[1..];
      r
    else
      var tail := EndToEnd(headers[1..]);
      var r := [headers[0]] + tail;
      assert r[1..] == tail;
      assert forall h :: h in headers <==> h == headers[0] || h in headers[1..];
      r
  }

  /** Filtering twice is filtering once. */
  lemma {:induction false} EndToEndIdempotent(headers: seq<Header>)
    ensures EndToEnd(EndToEnd(headers)) == EndToEnd(headers)
    decreases |headers|
  {
    if |headers| > 0 {
      EndToEndIdempotent(headers[1..]);
      if !HopByHop(headers[0].0) {
        var tail := EndToEnd(headers[1..]);
        assert ([headers[0]] + tail)[1..] == tail;
      }
    }
  }

  /** The filter keeps the headers exactly when none of them is hop-by-hop. */
  lemma {:induction false} EndToEndUnchanged(headers: seq<Header>)
    ensures EndToEnd(headers) == headers <==> forall i :: 0 <= i < |headers| ==> !HopByHop(headers[i].0)
    decreases |headers|
  {
    if |headers| > 0 {
      EndToEndUnchanged(headers[1..]);
      assert forall i :: 1 <= i < |headers| ==> headers[i] == headers[1..][i - 1];
      if HopByHop(headers[0].0) {
        assert |EndToEnd(headers)| < |headers|;
      }
    }
  }

  /** Filtering distributes over concatenation, so the kept headers stay in
      their upstream order. */
  lemma {:induction false} EndToEndAppend(a: seq<Header>, b: seq<Header>)
    ensures EndToEnd(a + b) == EndToEnd(a) + EndToEnd(b)
    decreases |a|
  {
    if |a| == 0 {
      assert a + b == b;
    } else {
      assert (a + b)[0] == a[0] && (a + b)[1..] == a[1..] + b;
      EndToEndAppend(a[1..], b);
    }
  }

  /** The checks made before anything is sent upstream. */
  function Gate(req: ClientRequest): (r: Option<Response>)
    ensures !req.loggedIn ==> r == Some(Plain(401, "Unauthorized"))
    ensures req.loggedIn && (req.url.None? || req.url.value == "") ==> r == Some(Plain(400, "No URL"))
    ensures r.None? <==> req.loggedIn && req.url.Some? && req.url.value != ""
  {
    if !req.loggedIn then Some(Plain(401, "Unauthorized"))
    else if req.url.None? || req.url.value == "" then Some(Plain(400, "No URL"))
    else None
  }

  /** `stream_proxy()` with the upstream request answered by `fetch`. */
  function Proxy(req: ClientRequest, fetch: UpstreamRequest -> UpstreamReply): (r: Exchange)
    ensures Gate(req).Some? ==> r == Exchange([], Gate(req).value)
    ensures Gate(req).None? ==>
              r.upstream == [UpstreamRequest(req.url.value, ForwardedHeaders(req.headers))]
    ensures r.response.Relay? ==>
              && |r.upstream| == 1
              && fetch(r.upstream[0]).Answered?
              && r.response.status == fetch(r.upstream[0]).status
              && r.response.headers == EndToEnd(fetch(r.upstream[0]).headers)
              && r.response.contentType == HeaderValue(fetch(r.upstream[0]).headers, "content-type")
    ensures Gate(req).None? ==> (fetch(r.upstream[0]).Answered? <==> r.response.Relay?)
    ensures Gate(req).None? && fetch(r.upstream[0]).Unreachable? ==>
              r.response == Plain(500, "Error: " + fetch(r.upstream[0]).reason)
  {
    match Gate(req)
    case Some(refusal) => Exchange([], refusal)
    case None =>
      var upstream := UpstreamRequest(req.url.value, ForwardedHeaders(req.headers));
      match fetch(upstream)
      case Unreachable(reason) => Exchange([upstream], Plain(500, "Error: " + reason))
      case Answered(status, headers) =>
        Exchange([upstream], Relay(status, EndToEnd(headers), HeaderValue(headers, "content-type")))
  }
}
