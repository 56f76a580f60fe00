// The serve loop: requests framed on a connection, each answered under the same header.
module LinkServer {
  import opened Base
  import opened LinkService
  import opened LinkWire

  function Header(first: u32, len: nat): seq<Field>
    requires len <= BUF_CAP
  {
    [FU32(first), FU32(0), FU32(len)]
  }

  /** A response: status, flags, the length of the result, and the result. */
  function Response(status: u32, result: seq<byte>): seq<byte>
    requires |result| <= BUF_CAP
  {
    Encode(Header(status, |result|)) + result
  }

  lemma ServedFits(st: Hse, op: nat, payload: seq<byte>)
    ensures |Bytes(Serve(st, op, payload).reply)| <= BUF_CAP
  {
    hide Reply, Decode, Effect, Admit;
    var row := RowOf(op);
    if row.Some? && Decode(row.value.kinds, payload).Some? {
      var (fs, tail) := Decode(row.value.kinds, payload).value;
      ReplyFits(Effect(st, op, fs), op, fs, |tail|);
    }
  }

  function ResponseTo(st: Hse, req: Request): seq<byte> {
    var served := Serve(st, req.op, req.payload);
    ServedFits(st, req.op, req.payload);
    Response(served.status, Bytes(served.reply))
  }

  const HEADER_KINDS: seq<Kind> := [KU32, KU32, KU32]

  /** One request off the front of a connection: op, flags, length and payload. */
  function SplitRequest(s: seq<byte>): Option<(Request, seq<byte>)> {
    var (fs, rest) :- Decode(HEADER_KINDS, s);
    if WordAt(fs, 2) > BUF_CAP || WordAt(fs, 2) > |rest| then None
    else Some((Request(WordAt(fs, 0), rest[..WordAt(fs, 2)]), rest[WordAt(fs, 2)..]))
  }

  lemma HeaderDecodes(first: u32, len: nat, rest: seq<byte>)
    requires len <= BUF_CAP
    ensures Decode(HEADER_KINDS, Encode(Header(first, len)) + rest) == Some((Header(first, len), rest))
  {
    hide Decode, Encode;
    var fs := Header(first, len);
    FieldsRoundTrip(fs, rest);
    assert Kinds(fs) == [KU32] + Kinds(fs[1..]) && Kinds(fs[1..]) == [KU32] + Kinds(fs[2..]);
    assert Kinds(fs[2..]) == [KU32] + Kinds(fs[3..]);
    assert Kinds(fs) == HEADER_KINDS;
  }

  lemma SplitShrinks(s: seq<byte>)
    requires SplitRequest(s).Some?
    ensures |SplitRequest(s).value.1| < |s|
  {
    hide Decode;
    DecodeLeavesSuffix(HEADER_KINDS, s);
  }

  /** The requests of a connection, up to a short or oversized frame. */
  function Frames(s: seq<byte>): seq<Request>
    decreases |s|
  {
    match SplitRequest(s)
    case None => []
    case Some((req, rest)) =>
      SplitShrinks(s);
      [req] + Frames(rest)
  }

  function Framed(reqs: seq<Request>): seq<byte>
    requires forall r :: r in reqs ==> |r.payload| <= BUF_CAP
  {
    if reqs == [] then []
    else Encode(Header(reqs[0].op, |reqs[0].payload|)) + (reqs[0].payload + Framed(reqs[1..]))
  }

  /** Requests sent back to back are read one by one as they were sent. */
  lemma {:induction false} FramesRoundTrip(reqs: seq<Request>)
    requires forall r :: r in reqs ==> |r.payload| <= BUF_CAP
    ensures Frames(Framed(reqs)) == reqs
    decreases |reqs|
  {
    if reqs == [] {
      assert Decode(HEADER_KINDS, []) == None;
    } else {
      assert reqs[0] in reqs;
      var payload, rest := reqs[0].payload, Framed(reqs[1..]);
      HeaderDecodes(reqs[0].op, |payload|, payload + rest);
      assert (payload + rest)[..|payload|] == payload && (payload + rest)[|payload|..] == rest;
      FramesRoundTrip(reqs[1..]);
      hide Decode, Encode;
    }
  }

  /** The octets sent back for a list of requests. */
  function Responses(st: Hse, reqs: seq<Request>): seq<byte>
    decreases |reqs|
  {
    if reqs == [] then []
    else ResponseTo(st, reqs[0]) + Responses(Serve(st, reqs[0].op, reqs[0].payload).st, reqs[1..])
  }

  /** Read one frame into the payload buffer: its op, its length and where it ends. */
  method ReadFrame(input: array<byte>, at: nat, payload: array<byte>) returns (r: Option<(u32, nat, nat)>)
    requires at <= input.Length && payload.Length == BUF_CAP && payload != input
    modifies payload
    ensures r.Some? <==> SplitRequest(input[at..]).Some?
    ensures r.Some? ==>
              var (req, rest) := SplitRequest(input[at..]).value;
              && at < r.value.2 <= input.Length && rest == input[r.value.2..]
              && r.value.0 == req.op && r.value.1 == |req.payload| <= BUF_CAP && payload[..r.value.1] == req.payload
  {
    hide Decode;
    ghost var s := input[at..];
    var header := new Reader(input, input.Length);
    header.pos := at;
    assert header.Rest() == s;
    var fs, tail := header.ReadAll(HEADER_KINDS);
    if !header.ok || WordAt(fs, 2) > BUF_CAP || WordAt(fs, 2) > |tail| {
      assert input[at..] == s;
      return None;
    }
    var plen := WordAt(fs, 2);
    ghost var split := SplitRequest(s);
    assert split == Some((Request(WordAt(fs, 0), tail[..plen]), tail[plen..]));
    forall j | 0 <= j < plen {
      payload[j] := tail[j];
    }
    DecodeLeavesSuffix(HEADER_KINDS, s);
    var end := input.Length - |tail| + plen;
    assert input[at..] == s && input[end..] == tail[plen..];
    assert payload[..plen] == tail[..plen];
    r := Some((WordAt(fs, 0), plen, end));
  }

  lemma OneFrame(s: seq<byte>)
    ensures Frames(s) == match SplitRequest(s) case None => [] case Some((req, rest)) => [req] + Frames(rest)
  {
  }

  lemma NoResponse(st: Hse)
    ensures Responses(st, []) == [] && After(st, []) == st
  {
  }

  lemma OneResponse(st: Hse, reqs: seq<Request>)
    requires reqs != []
    ensures Responses(st, reqs)
            == ResponseTo(st, reqs[0]) + Responses(Serve(st, reqs[0].op, reqs[0].payload).st, reqs[1..])
    ensures After(st, reqs) == After(Serve(st, reqs[0].op, reqs[0].payload).st, reqs[1..])
  {
    hide Serve, Bytes, Encode;
  }

  /** Serve a connection's octets: every frame is answered, in order, until one is short or too large. */
  method ServeConnection(service: Service, input: array<byte>) returns (sent: seq<byte>)
    requires service.Valid()
    modifies service, service.cells
    ensures input[..] == old(input[..])
    ensures sent == Responses(old(service.View()), Frames(old(input[..])))
    ensures service.Valid() && service.View() == After(old(service.View()), Frames(old(input[..])))
  {
    hide Serve, Bytes, Encode, Responses, Response, Frames, Decode, After;
    sent := [];
    var payload := new byte[BUF_CAP](_ => 0);
    var out := new byte[BUF_CAP](_ => 0);
    var at := 0;
    ghost var was := input[..];
    assert input[0..] == was;
    assert [] + Responses(service.View(), Frames(was)) == Responses(service.View(), Frames(was));
    while true
      invariant service.Valid() && payload != out && fresh(payload) && fresh(out)
      invariant at <= input.Length && input[..] == was
      invariant Responses(old(service.View()), Frames(was)) == sent + Responses(service.View(), Frames(input[at..]))
      invariant After(old(service.View()), Frames(was)) == After(service.View(), Frames(input[at..]))
      decreases input.Length - at
    {
      ghost var st := service.View();
      OneFrame(input[at..]);
      var next := ReadFrame(input, at, payload);
      if next.None? {
        NoResponse(st);
        assert sent + [] == sent;
        return;
      }
      var (op, plen, end) := next.value;
      ghost var req := SplitRequest(was[at..]).value.0;
      OneResponse(st, [req] + Frames(was[end..]));
      var status, outLen := service.HandleOp(op, payload, plen, out);
      ghost var rest := Responses(service.View(), Frames(was[end..]));
      assert sent + (ResponseTo(st, req) + rest) == sent + ResponseTo(st, req) + rest;
      sent := sent + Response(status, out[..outLen]);
      at := end;
    }
  }

  /** One response off the front of what was sent. */
  function SplitResponse(s: seq<byte>): Option<(u32, seq<byte>, seq<byte>)> {
    var (fs, rest) :- Decode(HEADER_KINDS, s);
    if WordAt(fs, 2) <= |rest| then Some((WordAt(fs, 0), rest[..WordAt(fs, 2)], rest[WordAt(fs, 2)..])) else None
  }

  /** Every response's header announces exactly the octets that follow it. */
  lemma ResponseSplits(status: u32, result: seq<byte>, rest: seq<byte>)
    requires |result| <= BUF_CAP
    ensures SplitResponse(Response(status, result) + rest) == Some((status, result, rest))
  {
    hide Decode, Encode;
    HeaderDecodes(status, |result|, result + rest);
    assert Response(status, result) + rest == Encode(Header(status, |result|)) + (result + rest);
    assert (result + rest)[..|result|] == result && (result + rest)[|result|..] == rest;
  }
}
