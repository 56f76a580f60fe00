// The SUIT envelope header parser: reads an envelope from a byte stream, keeps every
// entry that is not an integrated payload, and leaves the payload bytes unread.
module EnvelopeParser {
  import opened Base
  import opened Cbor

  /** A payload announced by the envelope whose bytes are still in the stream. */
  datatype Pending = Pending(key: seq<byte>, len: nat)

  /** Entries as read so far: the octets kept, the payloads announced, what is unread. */
  datatype Body = Body(kept: seq<byte>, payloads: seq<Pending>, rest: seq<byte>)

  /** What the parser returns, and the stream it leaves behind. */
  datatype Header = Header(bytes: seq<byte>, payloads: seq<Pending>, count: nat, rest: seq<byte>)

  const FIRMWARE_KEY: seq<byte> := [0x23, 0x66, 0x69, 0x72, 0x6D, 0x77, 0x61, 0x72, 0x65]

  // ----------------------------------------------------------------------
  // What the parser computes
  // ----------------------------------------------------------------------

  function ReadByte(s: seq<byte>): Option<(byte, seq<byte>)> {
    if s == [] then None else Some((s[0], s[1..]))
  }

  /** An argument followed by that many octets. */
  function StringRest(additional: nat, s: seq<byte>): Option<Body> {
    var u :- StreamUint(additional, s);
    var d :- Take(u.rest, u.value);
    Some(Body(u.raw + d.0, [], d.1))
  }

  /** The rest of a non-text key, its initial byte already read. */
  function KeyRest(initial: byte, s: seq<byte>): Option<Body> {
    var major := initial / 32;
    if major == 0 || major == 1 then
      var u :- StreamUint(initial % 32, s);
      Some(Body(u.raw, [], u.rest))
    else if major == 2 then
      StringRest(initial % 32, s)
    else if major == 6 then
      var tag :- StreamUint(initial % 32, s);
      var inner :- ReadByte(tag.rest);
      if inner.0 / 32 > 1 then Some(Body(tag.raw + [inner.0], [], inner.1))
      else
        var u :- StreamUint(inner.0 % 32, inner.1);
        Some(Body(tag.raw + [inner.0] + u.raw, [], u.rest))
    else None
  }

  /** The rest of a value: strings with their octets, anything else by its argument alone. */
  function ValueRest(initial: byte, s: seq<byte>): Option<Body> {
    if initial / 32 == 2 || initial / 32 == 3 then StringRest(initial % 32, s)
    else
      var u :- StreamUint(initial % 32, s);
      Some(Body(u.raw, [], u.rest))
  }

  /** One map entry: a text key announces a payload, any other key is kept with its value. */
  function EntryAt(s: seq<byte>): (r: Option<Body>)
    ensures r.Some? ==> |r.value.payloads| <= 1
  {
    var k :- ReadByte(s);
    if k.0 / 32 == 3 then
      var n :- StreamUint(k.0 % 32, k.1);
      var name :- Take(n.rest, n.value);
      var v :- ReadByte(name.1);
      if v.0 / 32 != 2 then None
      else
        var len :- StreamUint(v.0 % 32, v.1);
        Some(Body([], [Pending(name.0, len.value)], len.rest))
    else
      var key :- KeyRest(k.0, k.1);
      var v :- ReadByte(key.rest);
      var value :- ValueRest(v.0, v.1);
      Some(Body([k.0] + key.kept + [v.0] + value.kept, [], value.rest))
  }

  /** `body` with `kept` and `payloads` in front. */
  function Behind(kept: seq<byte>, payloads: seq<Pending>, body: Option<Body>): Option<Body> {
    match body
    case None => None
    case Some(b) => Some(Body(kept + b.kept, payloads + b.payloads, b.rest))
  }

  function EntriesAt(n: nat, s: seq<byte>): Option<Body> {
    if n == 0 then Some(Body([], [], s))
    else
      var e :- EntryAt(s);
      Behind(e.kept, e.payloads, EntriesAt(n - 1, e.rest))
  }

  /** The map header, behind an optional tag: its octets and the entry count. */
  function HeadAt(s: seq<byte>): Option<Uint> {
    var first :- ReadByte(s);
    if first.0 / 32 == 6 then
      var tag :- StreamUint(first.0 % 32, first.1);
      var m :- ReadByte(tag.rest);
      if m.0 / 32 != 5 then None
      else
        var count :- StreamUint(m.0 % 32, m.1);
        Some(Uint(count.value, [first.0] + tag.raw + [m.0] + count.raw, count.rest))
    else if first.0 / 32 == 5 then
      var count :- StreamUint(first.0 % 32, first.1);
      Some(Uint(count.value, [first.0] + count.raw, count.rest))
    else None
  }

  /** Where the map header of a buffered envelope starts and ends; the slices must exist. */
  predicate HeadInBounds(raw: seq<byte>) {
    && raw != []
    && SliceUintFits(raw[0] % 32, raw[1..])
    && (raw[0] / 32 == 6 ==>
          var mapAt := 1 + SliceUint(raw[0] % 32, raw[1..]).1;
          mapAt < |raw| && SliceUintFits(raw[mapAt] % 32, raw[mapAt + 1..]))
  }

  /** Replaces the entry count in the map header, keeping a tag and every entry as they are. */
  function RewriteMapCount(raw: seq<byte>, count: nat): Option<seq<byte>>
    requires count < U64_LIMIT && HeadInBounds(raw)
  {
    var skip := SliceUint(raw[0] % 32, raw[1..]).1;
    if raw[0] / 32 == 6 then
      var mapAt := 1 + skip;
      var entriesAt := mapAt + 1 + SliceUint(raw[mapAt] % 32, raw[mapAt + 1..]).1;
      Some(raw[..mapAt] + EncodeUint(5, count) + raw[entriesAt..])
    else if raw[0] / 32 == 5 then Some(EncodeUint(5, count) + raw[1 + skip..])
    else None
  }

  /** The original count put back and the payload appended under the key `#firmware`. */
  function Rebuild(header: seq<byte>, count: nat, payload: seq<byte>): Option<seq<byte>>
    requires count < U64_LIMIT && |payload| < U64_LIMIT && HeadInBounds(header)
  {
    var head :- RewriteMapCount(header, count);
    Some(head + EncodeUint(3, |FIRMWARE_KEY|) + FIRMWARE_KEY + EncodeUint(2, |payload|) + payload)
  }

  /** An argument read from a stream is read alike from any slice that starts with its octets. */
  lemma SliceOfRaw(additional: nat, s: seq<byte>, tail: seq<byte>)
    requires StreamUint(additional, s).Some?
    ensures var u := StreamUint(additional, s).value;
            SliceUintFits(additional, u.raw + tail) && SliceUint(additional, u.raw + tail) == (u.value, |u.raw|)
  {
    var u := StreamUint(additional, s).value;
    assert (u.raw + tail)[..|u.raw|] == u.raw;
    if additional >= 24 {
      SliceIsValue(additional, u.raw + tail);
    }
    hide SliceUint, BeValue;
  }

  /** The tag octets in front of the map header, if there are any. */
  function TagOf(s: seq<byte>): seq<byte>
    requires HeadAt(s).Some?
  {
    if s[0] / 32 == 6 then [s[0]] + StreamUint(s[0] % 32, s[1..]).value.raw else []
  }

  lemma TaggedHeadInBounds(s: seq<byte>, kept: seq<byte>, count: nat)
    requires HeadAt(s).Some? && count < U64_LIMIT && s[0] / 32 == 6
    ensures HeadInBounds(HeadAt(s).value.raw + kept)
    ensures RewriteMapCount(HeadAt(s).value.raw + kept, count) == Some(TagOf(s) + EncodeUint(5, count) + kept)
  {
    hide StreamUint, SliceUint, EncodeUint, SliceUintFits;
    var raw := HeadAt(s).value.raw + kept;
    var tag := StreamUint(s[0] % 32, s[1..]).value;
    var m := tag.rest[0];
    var cnt := StreamUint(m % 32, tag.rest[1..]).value;
    var mapAt := 1 + |tag.raw|;
    assert raw[1..] == tag.raw + ([m] + cnt.raw + kept);
    assert raw[mapAt] == m;
    assert raw[mapAt + 1..] == cnt.raw + kept;
    assert raw[..mapAt] == [s[0]] + tag.raw;
    assert raw[mapAt + 1 + |cnt.raw|..] == kept;
    SliceOfRaw(s[0] % 32, s[1..], [m] + cnt.raw + kept);
    SliceOfRaw(m % 32, tag.rest[1..], kept);
  }

  /**
   * The slices the rewriter takes exist in every buffer the parser accepted, for every
   * input whatsoever, and it replaces exactly the map header the parser read.
   */
  lemma AcceptedHeadInBounds(s: seq<byte>, kept: seq<byte>, count: nat)
    requires HeadAt(s).Some? && count < U64_LIMIT
    ensures HeadInBounds(HeadAt(s).value.raw + kept)
    ensures RewriteMapCount(HeadAt(s).value.raw + kept, count) == Some(TagOf(s) + EncodeUint(5, count) + kept)
  {
    hide StreamUint, SliceUint, EncodeUint, SliceUintFits;
    if s[0] / 32 == 6 {
      TaggedHeadInBounds(s, kept, count);
    } else {
      var raw := HeadAt(s).value.raw + kept;
      var cnt := StreamUint(s[0] % 32, s[1..]).value;
      assert raw[1..] == cnt.raw + kept;
      assert raw[1 + |cnt.raw|..] == kept;
      assert [] + EncodeUint(5, count) == EncodeUint(5, count);
      SliceOfRaw(s[0] % 32, s[1..], kept);
    }
  }

  lemma {:induction false} PayloadsWithinCount(n: nat, s: seq<byte>)
    requires EntriesAt(n, s).Some?
    ensures |EntriesAt(n, s).value.payloads| <= n
  {
    hide EntryAt;
    if n == 0 {
    } else {
      PayloadsWithinCount(n - 1, EntryAt(s).value.rest);
    }
  }

  lemma HeadCountBound(s: seq<byte>)
    requires HeadAt(s).Some?
    ensures HeadAt(s).value.value < U64_LIMIT
  {
    DecodersAgree(s[0] % 32, s[1..]);
    if s[0] / 32 == 6 {
      var tag := StreamUint(s[0] % 32, s[1..]).value;
      DecodersAgree(tag.rest[0] % 32, tag.rest[1..]);
    }
  }

  function ParseHeader(s: seq<byte>): Option<Header> {
    var head :- HeadAt(s);
    var body :- EntriesAt(head.value, head.rest);
    var all := head.raw + body.kept;
    if body.payloads == [] then Some(Header(all, [], head.value, body.rest))
    else
      HeadCountBound(s);
      PayloadsWithinCount(head.value, head.rest);
      AcceptedHeadInBounds(s, body.kept, head.value - |body.payloads|);
      var bytes :- RewriteMapCount(all, head.value - |body.payloads|);
      Some(Header(bytes, body.payloads, head.value, body.rest))
  }

  // ----------------------------------------------------------------------
  // The parser
  // ----------------------------------------------------------------------

  /** A byte stream being read; `rest` is what no read has taken yet. */
  class ByteReader {
    var rest: seq<byte>

    constructor (data: seq<byte>)
      ensures rest == data
    {
      rest := data;
    }

    method ReadExact(n: nat) returns (r: Option<seq<byte>>)
      modifies this
      ensures r.Some? <==> n <= |old(rest)|
      ensures r.Some? ==> old(rest) == r.value + rest && |r.value| == n
    {
      if n > |rest| {
        return None;
      }
      r := Some(rest[..n]);
      rest := rest[n..];
    }

    method ReadOne() returns (r: Option<byte>)
      modifies this
      ensures r.None? <==> ReadByte(old(rest)).None?
      ensures r.Some? ==> ReadByte(old(rest)) == Some((r.value, rest))
    {
      if rest == [] {
        return None;
      }
      r := Some(rest[0]);
      rest := rest[1..];
    }

    /** Reads an argument, recording its octets. */
    method ReadUint(additional: nat) returns (r: Option<(nat, seq<byte>)>)
      modifies this
      ensures r.None? <==> StreamUint(additional, old(rest)).None?
      ensures r.Some? ==> StreamUint(additional, old(rest)) == Some(Uint(r.value.0, r.value.1, rest))
    {
      match Width(additional)
      case None => return None;
      case Some(w) =>
        var raw := ReadExact(w);
        if raw.None? {
          return None;
        }
        r := Some((if w == 0 then additional else BeValue(raw.value), raw.value));
    }

    method ReadString(additional: nat) returns (r: Option<seq<byte>>)
      modifies this
      ensures r.None? <==> StringRest(additional, old(rest)).None?
      ensures r.Some? ==> StringRest(additional, old(rest)) == Some(Body(r.value, [], rest))
    {
      var u := ReadUint(additional);
      if u.None? {
        return None;
      }
      var d := ReadExact(u.value.0);
      if d.None? {
        return None;
      }
      r := Some(u.value.1 + d.value);
    }

    method ReadKeyRest(initial: byte) returns (r: Option<seq<byte>>)
      modifies this
      ensures r.None? <==> KeyRest(initial, old(rest)).None?
      ensures r.Some? ==> KeyRest(initial, old(rest)) == Some(Body(r.value, [], rest))
    {
      var major := initial / 32;
      if major == 0 || major == 1 {
        var u := ReadUint(initial % 32);
        r := if u.None? then None else Some(u.value.1);
      } else if major == 2 {
        r := ReadString(initial % 32);
      } else if major == 6 {
        var tag := ReadUint(initial % 32);
        if tag.None? {
          return None;
        }
        var inner := ReadOne();
        if inner.None? {
          return None;
        }
        r := Some(tag.value.1 + [inner.value]);
        if inner.value / 32 <= 1 {
          var u := ReadUint(inner.value % 32);
          r := if u.None? then None else Some(tag.value.1 + [inner.value] + u.value.1);
        }
      } else {
        r := None;
      }
    }

    method ReadValueRest(initial: byte) returns (r: Option<seq<byte>>)
      modifies this
      ensures r.None? <==> ValueRest(initial, old(rest)).None?
      ensures r.Some? ==> ValueRest(initial, old(rest)) == Some(Body(r.value, [], rest))
    {
      if initial / 32 == 2 || initial / 32 == 3 {
        r := ReadString(initial % 32);
      } else {
        var u := ReadUint(initial % 32);
        r := if u.None? then None else Some(u.value.1);
      }
    }

    /** One entry: octets to keep, and the payload it announces if its key is text. */
    method ReadEntry() returns (r: Option<(seq<byte>, seq<Pending>)>)
      modifies this
      ensures r.None? <==> EntryAt(old(rest)).None?
      ensures r.Some? ==> EntryAt(old(rest)) == Some(Body(r.value.0, r.value.1, rest))
    {
      var k := ReadOne();
      if k.None? {
        return None;
      }
      if k.value / 32 == 3 {
        var n := ReadUint(k.value % 32);
        if n.None? {
          return None;
        }
        var name := ReadExact(n.value.0);
        if name.None? {
          return None;
        }
        var v := ReadOne();
        if v.None? || v.value / 32 != 2 {
          return None;
        }
        var len := ReadUint(v.value % 32);
        r := if len.None? then None else Some(([], [Pending(name.value, len.value.0)]));
      } else {
        var key := ReadKeyRest(k.value);
        if key.None? {
          return None;
        }
        var v := ReadOne();
        if v.None? {
          return None;
        }
        var value := ReadValueRest(v.value);
        r := if value.None? then None else Some(([k.value] + key.value + [v.value] + value.value, []));
      }
    }

    /** The map header, behind an optional tag. */
    method ReadHead() returns (r: Option<(nat, seq<byte>)>)
      modifies this
      ensures r.None? <==> HeadAt(old(rest)).None?
      ensures r.Some? ==> HeadAt(old(rest)) == Some(Uint(r.value.0, r.value.1, rest))
    {
      var first := ReadOne();
      if first.None? {
        return None;
      }
      var initial := first.value;
      if initial / 32 == 6 {
        var tag := ReadUint(initial % 32);
        if tag.None? {
          return None;
        }
        var m := ReadOne();
        if m.None? || m.value / 32 != 5 {
          return None;
        }
        var count := ReadUint(m.value % 32);
        r := if count.None? then None else Some((count.value.0, [initial] + tag.value.1 + [m.value] + count.value.1));
      } else if initial / 32 == 5 {
        var count := ReadUint(initial % 32);
        r := if count.None? then None else Some((count.value.0, [initial] + count.value.1));
      } else {
        r := None;
      }
    }

    /** The envelope header; on success the stream stands on the first payload byte. */
    method ParseEnvelopeHeader() returns (r: Option<Header>)
      modifies this
      ensures r == ParseHeader(old(rest))
      ensures r.Some? ==> r.value.rest == rest
    {
      hide EntryAt, HeadAt, RewriteMapCount, HeadInBounds, TagOf;
      var head := ReadHead();
      if head.None? {
        return None;
      }
      var count, all := head.value.0, head.value.1;
      ghost var entries := EntriesAt(count, rest);
      var kept: seq<byte>, payloads: seq<Pending> := [], [];
      var i := 0;
      if entries.Some? {
        assert [] + entries.value.kept == entries.value.kept;
        assert [] + entries.value.payloads == entries.value.payloads;
      }
      while i < count
        invariant 0 <= i <= count
        invariant entries == Behind(kept, payloads, EntriesAt(count - i, rest))
      {
        var e := ReadEntry();
        if e.None? {
          return None;
        }
        ghost var tail := EntriesAt(count - i - 1, rest);
        if tail.Some? {
          assert kept + (e.value.0 + tail.value.kept) == (kept + e.value.0) + tail.value.kept;
          assert payloads + (e.value.1 + tail.value.payloads) == (payloads + e.value.1) + tail.value.payloads;
        }
        kept, payloads := kept + e.value.0, payloads + e.value.1;
        i := i + 1;
      }
      assert kept + [] == kept && payloads + [] == payloads;
      assert entries == Some(Body(kept, payloads, rest));
      if payloads == [] {
        return Some(Header(all + kept, [], count, rest));
      }
      HeadCountBound(old(rest));
      PayloadsWithinCount(count, HeadAt(old(rest)).value.rest);
      AcceptedHeadInBounds(old(rest), kept, count - |payloads|);
      var bytes := RewriteMapCount(all + kept, count - |payloads|);
      r := if bytes.None? then None else Some(Header(bytes.value, payloads, count, rest));
    }
  }
}
