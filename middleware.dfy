/** The webhook interceptor: a middleware that lets every request through to
    the application, captures the response body, logs the exchange, hands the
    request and response to the background webhook worker, and re-emits the
    response unchanged; any failure on the way becomes a plain 500. */
module Webhook {
  import opened Wrappers
  import opened Text

  newtype byte = b: int | 0 <= b < 256

  type Bytes = seq<byte>

  /** Header fields in order, duplicates allowed, as the response carries them. */
  type Headers = seq<(String, String)>

  /** The parts of an incoming request the middleware reads: its method
      (`verb`) and its URL path. */
  datatype Request = Request(verb: String, path: String)

  /** How the body iterator of a downstream response finishes once it has
      yielded its chunks: it stops, or it raises. */
  datatype StreamEnd = Exhausted | Raises

  datatype BodyStream = BodyStream(chunks: seq<Bytes>, end: StreamEnd)

  /** The response `call_next` returns: status, headers and a body that can
      only be read by iterating over it. */
  datatype StreamingResponse = StreamingResponse(status: int, headers: Headers, stream: BodyStream)

  /** What `call_next` does: it raises, or returns a streaming response. */
  datatype CallResult = CallRaised | Returned(response: StreamingResponse)

  /** A response with its body in memory, as the middleware returns it. */
  datatype Response = Response(status: int, headers: Headers, body: Bytes)

  /** What the middleware does besides answering: a debug log line with the
      path, the upper-cased method and the status; the hand-off of request and
      response to the worker; and an error log line. The response handed off
      is the downstream one as it stands after draining, its body iterator
      already exhausted. `captured` is not passed to the worker: it records,
      for the proofs, what the middleware's own buffer held at that moment. */
  datatype Effect =
    | Debug(catchPath: String, catchMethod: String, catchStatus: int)
    | HandOff(request: Request, response: StreamingResponse, captured: Bytes)
    | ErrorLogged

  /** A streaming response whose body iterator has been run to its end: the
      same status and headers, and nothing left to yield. */
  function Drained(response: StreamingResponse): (r: StreamingResponse)
    ensures r.status == response.status && r.headers == response.headers
    ensures Concat(r.stream.chunks) == [] && r.stream.end == Exhausted
  {
    response.(stream := BodyStream([], Exhausted))
  }

  // ---------------------------------------------------------------------------
  // The body

  /** The chunks of a body, one after the other. */
  function Concat(chunks: seq<Bytes>): Bytes
  {
    if chunks == [] then [] else chunks[0] + Concat(chunks[1..])
  }

  lemma {:induction false} ConcatAppend(a: seq<Bytes>, b: seq<Bytes>)
    ensures Concat(a + b) == Concat(a) + Concat(b)
  {
    if a == [] {
      assert a + b == b;
    } else {
      assert (a + b)[1..] == a[1..] + b;
      ConcatAppend(a[1..], b);
    }
  }

  /** Chunk `k` sits in the body right after the chunks before it: the body
      keeps every chunk, in order. */
  lemma {:induction false} ChunkInPlace(chunks: seq<Bytes>, k: nat)
    requires k < |chunks|
    ensures Concat(chunks[..k]) + chunks[k] <= Concat(chunks)
  {
    assert chunks == chunks[..k] + [chunks[k]] + chunks[k + 1..];
    ConcatAppend(chunks[..k] + [chunks[k]], chunks[k + 1..]);
    ConcatAppend(chunks[..k], [chunks[k]]);
    assert Concat([chunks[k]]) == chunks[k] + Concat([]);
  }

  /** The body is as long as its chunks together. */
  lemma {:induction false} ConcatLength(chunks: seq<Bytes>)
    ensures |Concat(chunks)| == TotalLength(chunks)
  {
    if chunks != [] {
      ConcatLength(chunks[1..]);
    }
  }

  function TotalLength(chunks: seq<Bytes>): nat
  {
    if chunks == [] then 0 else |chunks[0]| + TotalLength(chunks[1..])
  }

  /** The draining loop over the response's body iterator, appending each
      chunk to a byte buffer that starts empty: the captured body is every
      chunk the iterator yields, in order, and the loop ends in an exception
      exactly when the iterator raises. */
  method DrainBody(stream: BodyStream) returns (body: Bytes, raised: bool)
    ensures body == Concat(stream.chunks)
    ensures stream.chunks == [] ==> body == []
    ensures raised <==> stream.end == Raises
  {
    body := [];
    var i := 0;
    while i < |stream.chunks|
      invariant 0 <= i <= |stream.chunks|
      invariant body == Concat(stream.chunks[..i])
    {
      ConcatAppend(stream.chunks[..i], [stream.chunks[i]]);
      assert stream.chunks[..i + 1] == stream.chunks[..i] + [stream.chunks[i]];
      assert Concat([stream.chunks[i]]) == stream.chunks[i] + Concat([]);
      body := body + stream.chunks[i];
      i := i + 1;
    }
    assert stream.chunks[..i] == stream.chunks;
    raised := stream.end == Raises;
  }

  // ---------------------------------------------------------------------------
  // Headers

  /** The first value of header `name`, if any. */
  function Lookup(h: Headers, name: String): (r: Option<String>)
    ensures r.None? <==> forall i :: 0 <= i < |h| ==> h[i].0 != name
    ensures r.Some? ==>
      exists i :: 0 <= i < |h| && h[i] == (name, r.value) && forall j :: 0 <= j < i ==> h[j].0 != name
  {
    if h == [] then None
    else if h[0].0 == name then Some(h[0].1)
    else
      var r := Lookup(h[1..], name);
      assert forall i :: 1 <= i < |h| ==> h[i] == h[1..][i - 1];
      assert r.Some? ==>
        exists i :: 0 <= i < |h| && h[i] == (name, r.value) && forall j :: 0 <= j < i ==> h[j].0 != name by {
        if r.Some? {
          var k :| 0 <= k < |h[1..]| && h[1..][k] == (name, r.value) && forall j :: 0 <= j < k ==> h[1..][j].0 != name;
          assert h[k + 1] == (name, r.value);
          assert forall j :: 0 <= j < k + 1 ==> h[j].0 != name by {
            forall j | 0 <= j < k + 1 ensures h[j].0 != name {
              if j > 0 { assert h[j] == h[1..][j - 1]; }
            }
          }
        }
      }
      r
  }

  /** No header name occurs twice. */
  predicate DistinctNames(h: Headers) {
    forall i, j :: 0 <= i < j < |h| ==> h[i].0 != h[j].0
  }

  /** The headers without any field called `name`. */
  function WithoutName(h: Headers, name: String): (r: Headers)
    ensures |r| <= |h|
    ensures forall i :: 0 <= i < |r| ==> r[i].0 != name
    ensures forall m :: Lookup(r, m) == if m == name then None else Lookup(h, m)
    ensures (forall i :: 0 <= i < |h| ==> h[i].0 != name) ==> r == h
  {
    if h == [] then []
    else if h[0].0 == name then WithoutName(h[1..], name)
    else [h[0]] + WithoutName(h[1..], name)
  }

  /** `dict(response.headers)`: iterating over the headers yields every name,
      repeated names included, and indexing yields the first value of a name,
      so the dictionary holds each name once, with its first value. Nothing
      is looked up differently. The order of the names is not stated. */
  function HeaderDict(h: Headers): (r: Headers)
    ensures |r| <= |h|
    ensures DistinctNames(r)
    ensures forall name :: Lookup(r, name) == Lookup(h, name)
    decreases |h|
  {
    if h == [] then []
    else
      var rest := HeaderDict(WithoutName(h[1..], h[0].0));
      assert Lookup(rest, h[0].0).None?;
      var r := [h[0]] + rest;
      assert forall i :: 1 <= i < |r| ==> r[i] == rest[i - 1];
      assert forall name :: name != h[0].0 ==> Lookup(r, name) == Lookup(rest, name);
      r
  }

  /** Headers whose names are all different pass through `dict` unchanged, so
      the re-emitted response then carries exactly the downstream headers. */
  lemma {:induction false} HeaderDictDistinct(h: Headers)
    requires DistinctNames(h)
    ensures HeaderDict(h) == h
    decreases |h|
  {
    if h != [] {
      assert forall i :: 0 <= i < |h[1..]| ==> h[1..][i].0 != h[0].0 by {
        forall i | 0 <= i < |h[1..]| ensures h[1..][i].0 != h[0].0 {
          assert h[1..][i] == h[i + 1];
        }
      }
      assert DistinctNames(h[1..]) by {
        forall i, j | 0 <= i < j < |h[1..]| ensures h[1..][i].0 != h[1..][j].0 {
          assert h[1..][i] == h[i + 1] && h[1..][j] == h[j + 1];
        }
      }
      HeaderDictDistinct(h[1..]);
    }
  }

  /** A repeated header keeps only its first value: of two `set-cookie`
      fields, the re-emitted response carries the first alone. */
  lemma {:induction false} RepeatedHeaderCollapses(name: String, first: String, second: String)
    requires first != second
    ensures HeaderDict([(name, first), (name, second)]) == [(name, first)]
    ensures HeaderDict([(name, first), (name, second)]) != [(name, first), (name, second)]
  {
  }

  // ---------------------------------------------------------------------------
  // The middleware

  /** The ASCII bytes of a string of ASCII characters. */
  function AsciiBytes(s: String): (r: Bytes)
    requires forall i :: 0 <= i < |s| ==> s[i] as int < 128
    ensures |r| == |s|
    ensures forall i :: 0 <= i < |s| ==> r[i] as int == s[i] as int
  {
    seq(|s|, i requires 0 <= i < |s| => s[i] as int as byte)
  }

  /** `Response("Internal Server Error", status_code=500)`. */
  function InternalServerError(): (r: Response)
    ensures r.status == 500 && r.headers == []
    ensures |r.body| == |"Internal Server Error"|
    ensures forall i :: 0 <= i < |r.body| ==> r.body[i] as int == "Internal Server Error"[i] as int
  {
    Response(500, [], AsciiBytes("Internal Server Error"))
  }

  /** The downstream response came back and its body could be read, so the
      request is answered with the captured response. */
  predicate Passes(next: CallResult) {
    next.Returned? && next.response.stream.end == Exhausted
  }

  class WebhooksMiddleware {
    /** Everything the middleware has logged or handed off so far. */
    ghost var effects: seq<Effect>

    constructor()
      ensures effects == []
    {
      effects := [];
    }

    /** `WebhooksMiddleware.dispatch`. `next` is what `call_next(request)`
        does and `handOffRaises` whether scheduling the worker raises. */
    method Dispatch(request: Request, next: CallResult, handOffRaises: bool) returns (reply: Response)
      modifies this
      // success: the downstream response, unchanged, after one debug line and
      // one hand-off of the drained response, made once the whole body is in
      // the middleware's buffer
      ensures Passes(next) && !handOffRaises ==>
        var response := next.response;
        && reply.status == response.status
        && reply.body == Concat(response.stream.chunks)
        && reply.headers == HeaderDict(response.headers)
        && (DistinctNames(response.headers) ==> reply.headers == response.headers)
        && effects == old(effects) + [Debug(request.path, Upper(request.verb), response.status),
                                      HandOff(request, Drained(response), Concat(response.stream.chunks))]
      // `call_next` or the body iterator raised: nothing logged but the error
      ensures !Passes(next) ==> reply == InternalServerError() && effects == old(effects) + [ErrorLogged]
      // the hand-off raised: the debug line was written before it
      ensures Passes(next) && handOffRaises ==>
        && reply == InternalServerError()
        && effects == old(effects) + [Debug(request.path, Upper(request.verb), next.response.status), ErrorLogged]
    {
      if next.CallRaised? {
        effects := effects + [ErrorLogged];
        return InternalServerError();
      }
      var response := next.response;
      var body, raised := DrainBody(response.stream);
      if raised {
        effects := effects + [ErrorLogged];
        return InternalServerError();
      }
      effects := effects + [Debug(request.path, Upper(request.verb), response.status)];
      if handOffRaises {
        effects := effects + [ErrorLogged];
        return InternalServerError();
      }
      effects := effects + [HandOff(request, Drained(response), body)];
      reply := Response(response.status, HeaderDict(response.headers), body);
      if DistinctNames(response.headers) {
        HeaderDictDistinct(response.headers);
      }
    }
  }
}
