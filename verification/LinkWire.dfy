// Link-B payload fields: little-endian scalars, length-prefixed blobs and a final unprefixed
// tail, written into a fixed buffer and read back from one.
module LinkWire {
  import opened Base

  // ----------------------------------------------------------------------
  // Little-endian scalars
  // ----------------------------------------------------------------------

  function LeValue(s: seq<byte>): nat {
    if s == [] then 0 else s[0] + 256 * LeValue(s[1..])
  }

  lemma {:induction false} LeValueOfBytes(v: nat, w: nat)
    requires v < Pow256(w)
    ensures LeValue(LeBytes(v, w)) == v
    decreases w
  {
    if w == 0 {
    } else {
      LeValueOfBytes(v / 256, w - 1);
      assert LeBytes(v, w)[1..] == LeBytes(v / 256, w - 1);
    }
  }

  lemma {:induction false} LeBound(s: seq<byte>)
    ensures LeValue(s) < Pow256(|s|)
  {
    if s == [] {
    } else {
      LeBound(s[1..]);
    }
  }

  // ----------------------------------------------------------------------
  // Fields
  // ----------------------------------------------------------------------

  datatype Kind = KByte | KU32 | KU64 | KBlob

  datatype Field = FByte(b: byte) | FU32(w: u32) | FU64(d: u64) | FBlob(data: seq<byte>)

  predicate ValidField(f: Field) {
    f.FBlob? ==> |f.data| < U32_LIMIT
  }

  function KindOf(f: Field): Kind {
    match f
    case FByte(_) => KByte
    case FU32(_) => KU32
    case FU64(_) => KU64
    case FBlob(_) => KBlob
  }

  function EncodeField(f: Field): seq<byte> {
    match f
    case FByte(b) => [b]
    case FU32(w) => LeBytes(w, 4)
    case FU64(d) => LeBytes(d, 8)
    case FBlob(data) => LeBytes(|data|, 4) + data
  }

  function Encode(fs: seq<Field>): seq<byte> {
    if fs == [] then [] else EncodeField(fs[0]) + Encode(fs[1..])
  }

  function ReadU32(s: seq<byte>): u32
    requires |s| >= 4
  {
    LeBound(s[..4]);
    PowerValues();
    LeValue(s[..4])
  }

  function ReadU64(s: seq<byte>): u64
    requires |s| >= 8
  {
    LeBound(s[..8]);
    PowerValues();
    LeValue(s[..8])
  }

  /** One field off the front, `None` on underrun. */
  function DecodeField(k: Kind, s: seq<byte>): Option<(Field, seq<byte>)> {
    match k
    case KByte => if |s| < 1 then None else Some((FByte(s[0]), s[1..]))
    case KU32 => if |s| < 4 then None else Some((FU32(ReadU32(s)), s[4..]))
    case KU64 => if |s| < 8 then None else Some((FU64(ReadU64(s)), s[8..]))
    case KBlob =>
      if |s| < 4 || ReadU32(s) > |s| - 4 then None
      else Some((FBlob(s[4..4 + ReadU32(s)]), s[4 + ReadU32(s)..]))
  }

  function Decode(ks: seq<Kind>, s: seq<byte>): Option<(seq<Field>, seq<byte>)>
    decreases |ks|
  {
    if ks == [] then Some(([], s))
    else
      var (f, rest) :- DecodeField(ks[0], s);
      var (fs, tail) :- Decode(ks[1..], rest);
      Some(([f] + fs, tail))
  }

  function Kinds(fs: seq<Field>): (r: seq<Kind>)
    ensures |r| == |fs|
  {
    if fs == [] then [] else [KindOf(fs[0])] + Kinds(fs[1..])
  }

  lemma FieldRoundTrip(f: Field, rest: seq<byte>)
    requires ValidField(f)
    ensures DecodeField(KindOf(f), EncodeField(f) + rest) == Some((f, rest))
  {
    PowerValues();
    var s := EncodeField(f) + rest;
    match f {
      case FByte(b) =>
        assert s[1..] == rest;
      case FU32(w) =>
        LeValueOfBytes(w, 4);
        assert s[..4] == LeBytes(w, 4) && s[4..] == rest;
      case FU64(d) =>
        LeValueOfBytes(d, 8);
        assert s[..8] == LeBytes(d, 8) && s[8..] == rest;
      case FBlob(data) =>
        LeValueOfBytes(|data|, 4);
        assert s[..4] == LeBytes(|data|, 4) && s[4..4 + |data|] == data && s[4 + |data|..] == rest;
    }
  }

  /** Reading back the kinds of what was written gives the same fields and leaves the tail. */
  lemma {:induction false} FieldsRoundTrip(fs: seq<Field>, tail: seq<byte>)
    requires forall f :: f in fs ==> ValidField(f)
    ensures Decode(Kinds(fs), Encode(fs) + tail) == Some((fs, tail))
    decreases |fs|
  {
    hide DecodeField, EncodeField, ValidField, KindOf;
    if fs == [] {
      assert [] + tail == tail;
    } else {
      assert fs[0] in fs;
      FieldRoundTrip(fs[0], Encode(fs[1..]) + tail);
      FieldsRoundTrip(fs[1..], tail);
      assert Encode(fs) + tail == EncodeField(fs[0]) + (Encode(fs[1..]) + tail);
      assert Kinds(fs)[1..] == Kinds(fs[1..]) && [fs[0]] + fs[1..] == fs;
    }
  }

  /** `rest` is the end of `s`, at least `n` octets shorter. */
  predicate EndOf(rest: seq<byte>, s: seq<byte>, n: nat) {
    |rest| + n <= |s| && rest == s[|s| - |rest|..]
  }

  lemma EndOfEnd(end: seq<byte>, rest: seq<byte>, s: seq<byte>, m: nat, n: nat)
    requires EndOf(end, rest, m) && EndOf(rest, s, n)
    ensures EndOf(end, s, m + n)
  {
    assert s[|s| - |rest|..][|rest| - |end|..] == s[|s| - |end|..];
  }

  lemma FieldLeavesEnd(k: Kind, s: seq<byte>)
    ensures DecodeField(k, s).Some? ==> EndOf(DecodeField(k, s).value.1, s, 1)
  {
    hide LeBytes;
  }

  /** What decoding leaves is the end of what it was given, shorter by every field. */
  lemma {:induction false} DecodeLeavesSuffix(ks: seq<Kind>, s: seq<byte>)
    ensures Decode(ks, s).Some? ==>
              var rest := Decode(ks, s).value.1;
              |rest| + |ks| <= |s| && rest == s[|s| - |rest|..]
    decreases |ks|
  {
    hide DecodeField;
    if ks == [] {
    } else if DecodeField(ks[0], s).Some? && Decode(ks, s).Some? {
      var rest := DecodeField(ks[0], s).value.1;
      FieldLeavesEnd(ks[0], s);
      DecodeLeavesSuffix(ks[1..], rest);
      EndOfEnd(Decode(ks, s).value.1, rest, s, |ks| - 1, 1);
    }
  }

  // ----------------------------------------------------------------------
  // The reader
  // ----------------------------------------------------------------------

  ghost function Prepend(fs: seq<Field>, r: Option<(seq<Field>, seq<byte>)>): Option<(seq<Field>, seq<byte>)> {
    match r
    case None => None
    case Some((gs, tail)) => Some((fs + gs, tail))
  }

  lemma PrependNothing(r: Option<(seq<Field>, seq<byte>)>)
    ensures Prepend([], r) == r
  {
    if r.Some? {
      assert [] + r.value.0 == r.value.0;
    }
  }

  lemma DecodeNone(fs: seq<Field>, s: seq<byte>)
    ensures Prepend(fs, Decode([], s)) == Some((fs, s))
  {
    assert fs + [] == fs;
  }

  lemma DecodeOne(fs: seq<Field>, ks: seq<Kind>, s: seq<byte>)
    requires ks != []
    ensures match DecodeField(ks[0], s)
            case None => Prepend(fs, Decode(ks, s)) == None
            case Some((f, rest)) => Prepend(fs, Decode(ks, s)) == Prepend(fs + [f], Decode(ks[1..], rest))
  {
    hide DecodeField;
    var d := DecodeField(ks[0], s);
    if d.Some? && Decode(ks[1..], d.value.1).Some? {
      var gs := Decode(ks[1..], d.value.1).value.0;
      assert fs + ([d.value.0] + gs) == fs + [d.value.0] + gs;
    }
  }

  class Reader {
    const buf: array<byte>
    const len: nat
    var pos: nat
    var ok: bool

    constructor (buf: array<byte>, len: nat)
      requires len <= buf.Length
      ensures this.buf == buf && this.len == len && pos == 0 && ok
    {
      this.buf, this.len, pos, ok := buf, len, 0, true;
    }

    ghost predicate Valid()
      reads this
    {
      pos <= len <= buf.Length
    }

    ghost function Rest(): seq<byte>
      requires Valid()
      reads this, buf
    {
      buf[pos..len]
    }

    /** `n` octets, or a sticky failure when fewer are left. */
    method Take(n: nat) returns (r: Option<seq<byte>>)
      requires Valid()
      modifies this
      ensures Valid()
      ensures r.Some? <==> old(ok) && n <= |old(Rest())|
      ensures r.Some? ==> ok && r.value == old(Rest())[..n] && Rest() == old(Rest())[n..]
      ensures r.None? ==> !ok && pos == old(pos)
    {
      if !ok || n > len - pos {
        ok := false;
        return None;
      }
      r := Some(buf[pos..pos + n]);
      pos := pos + n;
    }

    /** One field; a failed read gives zero or an empty blob. */
    method Read(k: Kind) returns (f: Field)
      requires Valid()
      modifies this
      ensures Valid() && KindOf(f) == k
      ensures ok <==> old(ok) && DecodeField(k, old(Rest())).Some?
      ensures ok ==> Some((f, Rest())) == DecodeField(k, old(Rest()))
    {
      ghost var s := Rest();
      PowerValues();
      match k {
        case KByte =>
          var p := Take(1);
          f := if p.Some? then FByte(p.value[0]) else FByte(0);
        case KU32 =>
          var p := Take(4);
          f := if p.Some? then FU32(ReadU32(p.value)) else FU32(0);
          assert p.Some? ==> p.value[..4] == s[..4];
        case KU64 =>
          var p := Take(8);
          f := if p.Some? then FU64(ReadU64(p.value)) else FU64(0);
          assert p.Some? ==> p.value[..8] == s[..8];
        case KBlob =>
          var p := Take(4);
          var n := if p.Some? then ReadU32(p.value) else 0;
          assert p.Some? ==> p.value[..4] == s[..4];
          var q := Take(n);
          f := if q.Some? then FBlob(q.value) else FBlob([]);
          assert q.Some? ==> s[4..][..n] == s[4..4 + n] && s[4..][n..] == s[4 + n..];
      }
    }

    /** The fields of a request in order, then whatever is left. */
    method ReadAll(ks: seq<Kind>) returns (fs: seq<Field>, tail: seq<byte>)
      requires Valid() && ok
      modifies this
      ensures Valid() && |fs| == |ks| && (forall i :: 0 <= i < |ks| ==> KindOf(fs[i]) == ks[i])
      ensures ok <==> Decode(ks, old(Rest())).Some?
      ensures ok ==> Decode(ks, old(Rest())) == Some((fs, tail))
    {
      hide Decode, DecodeField, Prepend;
      fs := [];
      PrependNothing(Decode(ks, Rest()));
      assert ks[0..] == ks && ks[|ks|..] == [];
      for i := 0 to |ks|
        invariant Valid() && |fs| == i && (forall j :: 0 <= j < i ==> KindOf(fs[j]) == ks[j])
        invariant ok ==> Decode(ks, old(Rest())) == Prepend(fs, Decode(ks[i..], Rest()))
        invariant !ok ==> Decode(ks, old(Rest())).None?
      {
        ghost var was, before := ok, Rest();
        var f := Read(ks[i]);
        if was {
          DecodeOne(fs, ks[i..], before);
          assert ks[i..][1..] == ks[i + 1..];
        }
        fs := fs + [f];
      }
      DecodeNone(fs, Rest());
      tail := buf[pos..len];
      pos := len;
    }
  }

  // ----------------------------------------------------------------------
  // The writer
  // ----------------------------------------------------------------------

  /** Unsigned 32-bit addition keeps what is left over the limit. */
  function Wrap(n: nat): u32 {
    n % U32_LIMIT
  }

  lemma WrapTwice(a: nat, b: nat)
    ensures Wrap(Wrap(a) + b) == Wrap(a + b)
  {
    var q := a / U32_LIMIT;
    assert a + b == Wrap(a) + b + q * U32_LIMIT;
  }

  /** The bound check on a sum that may wrap says no more than the sum itself would. */
  predicate Checked(len: u32, n: nat, cap: u32) {
    Wrap(len + n) <= cap ==> len + n <= cap
  }

  predicate FieldChecked(len: u32, f: Field, cap: u32) {
    match f
    case FByte(_) => Checked(len, 1, cap)
    case FU32(_) => Checked(len, 4, cap)
    case FU64(_) => Checked(len, 8, cap)
    case FBlob(data) => |data| < U32_LIMIT && Checked(len, 4, cap) && Checked(Wrap(len + 4), |data|, cap)
  }

  class Writer {
    const buf: array<byte>
    const cap: u32
    // octets intended; what does not fit is dropped
    var len: u32

    constructor (buf: array<byte>, cap: u32)
      requires cap <= buf.Length
      ensures this.buf == buf && this.cap == cap && len == 0
    {
      this.buf, this.cap, len := buf, cap, 0;
    }

    ghost predicate Valid()
      reads this
    {
      cap <= buf.Length
    }

    /** The octets written so far, while they fit. */
    ghost function Written(): seq<byte>
      requires Valid() && len <= cap
      reads this, buf
    {
      buf[..len]
    }

    /**
     * Raw octets, under a 32-bit bound check. Where the sum wraps below the capacity the check
     * would let the copy run past the buffer; that is the one case asked of the caller.
     */
    method Tail(data: seq<byte>)
      requires Valid() && Checked(len, |data|, cap)
      modifies this, buf
      ensures Valid() && len == Wrap(old(len) + |data|)
      ensures old(len) + |data| <= cap ==> len == old(len) + |data| && Written() == old(Written()) + data
      ensures old(len) + |data| > cap ==> buf[..] == old(buf[..])
    {
      if Wrap(len + |data|) <= cap {
        forall i | 0 <= i < |data| {
          buf[len + i] := data[i];
        }
      }
      len := Wrap(len + |data|);
    }

    method Field(f: Field)
      requires Valid() && FieldChecked(len, f, cap)
      modifies this, buf
      ensures Valid() && len == Wrap(old(len) + |EncodeField(f)|)
      ensures old(len) + |EncodeField(f)| <= cap ==>
                len == old(len) + |EncodeField(f)| && Written() == old(Written()) + EncodeField(f)
    {
      hide LeBytes, Wrap;
      match f {
        case FByte(b) => Tail([b]);
        case FU32(w) => Tail(LeBytes(w, 4));
        case FU64(d) => Tail(LeBytes(d, 8));
        case FBlob(data) =>
          WrapTwice(len + 4, |data|);
          Tail(LeBytes(|data|, 4));
          Tail(data);
          assert old(len) + 4 + |data| <= cap ==> Written() == old(Written()) + (LeBytes(|data|, 4) + data);
      }
    }
  }

  /** A field that fits the capacity passes. */
  lemma FittingIsChecked(len: u32, f: Field, cap: u32)
    requires ValidField(f) && len + |EncodeField(f)| <= cap
    ensures FieldChecked(len, f, cap)
  {
    hide LeBytes;
  }

  /** Below the 32-bit limit nothing wraps; past it the check fails exactly when it wraps under. */
  lemma WrapIsTheOnlyWay(len: u32, n: u32, cap: u32)
    ensures !Checked(len, n, cap) <==> U32_LIMIT <= len + n <= U32_LIMIT + cap
  {
    assert Wrap(len + n) == if len + n < U32_LIMIT then len + n else len + n - U32_LIMIT;
  }
}
