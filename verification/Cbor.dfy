// CBOR unsigned arguments (sections 3 and 4.1 of RFC 8949): the streaming decoder,
// the slice decoder and the shortest-form encoder.
module Cbor {
  import opened Base

  /** The low `w` octets of `v`, most significant first. */
  function BeBytes(v: nat, w: nat): (r: seq<byte>)
    ensures |r| == w
  {
    if w == 0 then [] else BeBytes(v / 256, w - 1) + [v % 256]
  }

  function BeValue(bs: seq<byte>): nat {
    if bs == [] then 0 else BeValue(bs[..|bs| - 1]) * 256 + bs[|bs| - 1]
  }

  lemma {:induction false} BeValueOfBytes(v: nat, w: nat)
    requires v < Pow256(w)
    ensures BeValue(BeBytes(v, w)) == v
  {
    if w == 0 {
    } else {
      BeValueOfBytes(v / 256, w - 1);
      assert BeBytes(v, w)[..w - 1] == BeBytes(v / 256, w - 1);
    }
  }

  lemma {:induction false} BeBytesOfValue(bs: seq<byte>)
    ensures BeValue(bs) < Pow256(|bs|)
    ensures BeBytes(BeValue(bs), |bs|) == bs
  {
    if bs == [] {
    } else {
      BeBytesOfValue(bs[..|bs| - 1]);
      assert BeValue(bs) / 256 == BeValue(bs[..|bs| - 1]);
    }
  }

  /** The octets that follow an initial byte with this additional information; none are defined above 27. */
  function Width(additional: nat): Option<nat> {
    if additional < 24 then Some(0)
    else if additional == 24 then Some(1)
    else if additional == 25 then Some(2)
    else if additional == 26 then Some(4)
    else if additional == 27 then Some(8)
    else None
  }

  function Take(s: seq<byte>, n: nat): Option<(seq<byte>, seq<byte>)> {
    if n <= |s| then Some((s[..n], s[n..])) else None
  }

  /** An argument as read: its value, the octets it took and what follows. */
  datatype Uint = Uint(value: nat, raw: seq<byte>, rest: seq<byte>)

  /** The streaming decoder's argument: fails on a short stream and on additional information above 27. */
  function StreamUint(additional: nat, s: seq<byte>): Option<Uint> {
    var w :- Width(additional);
    var t :- Take(s, w);
    Some(Uint(if w == 0 then additional else BeValue(t.0), t.0, t.1))
  }

  predicate SliceUintFits(additional: nat, s: seq<byte>) {
    Width(additional).Some? ==> Width(additional).value <= |s|
  }

  function Be16(high: nat, low: nat): nat {
    high * 0x100 + low
  }

  /** Four octets from an index, most significant first. */
  function Word(data: seq<byte>, i: nat): nat
    requires i + 4 <= |data|
  {
    Be16(data[i], data[i + 1]) * 0x1_0000 + Be16(data[i + 2], data[i + 3])
  }

  /** The slice decoder: value and octets consumed, (0, 0) for additional information above 27. */
  function SliceUint(additional: nat, data: seq<byte>): (nat, nat)
    requires SliceUintFits(additional, data)
  {
    if additional <= 23 then (additional, 0)
    else if additional == 24 then (data[0], 1)
    else if additional == 25 then (Be16(data[0], data[1]), 2)
    else if additional == 26 then (Word(data, 0), 4)
    else if additional == 27 then (Word(data, 0) * U32_LIMIT + Word(data, 4), 8)
    else (0, 0)
  }

  lemma OneMoreDigit(data: seq<byte>, w: nat)
    requires w < |data|
    ensures BeValue(data[..w + 1]) == BeValue(data[..w]) * 256 + data[w]
  {
    assert data[..w + 1][..w] == data[..w];
  }

  lemma WordIsValue(data: seq<byte>, i: nat)
    requires i + 4 <= |data|
    ensures BeValue(data[..i + 4]) == BeValue(data[..i]) * U32_LIMIT + Word(data, i)
  {
    hide BeValue;
    OneMoreDigit(data, i);
    OneMoreDigit(data, i + 1);
    OneMoreDigit(data, i + 2);
    OneMoreDigit(data, i + 3);
  }

  lemma SliceIsValue(additional: nat, data: seq<byte>)
    requires SliceUintFits(additional, data) && 24 <= additional <= 27
    ensures SliceUint(additional, data) == (BeValue(data[..Width(additional).value]), Width(additional).value)
  {
    assert data[..0] == [];
    OneMoreDigit(data, 0);
    if additional == 25 {
      OneMoreDigit(data, 1);
    } else if additional == 26 {
      WordIsValue(data, 0);
    } else if additional == 27 {
      WordIsValue(data, 0);
      WordIsValue(data, 4);
    }
    assert BeValue([]) == 0;
    hide BeValue, Word;
  }

  /** An argument of its own octets: the streaming decoder takes them off the front. */
  lemma StreamTakes(additional: nat, s: seq<byte>)
    requires SliceUintFits(additional, s) && 24 <= additional <= 27
    ensures var w := Width(additional).value;
            && StreamUint(additional, s) == Some(Uint(BeValue(s[..w]), s[..w], s[w..]))
            && BeValue(s[..w]) < U64_LIMIT && |s[..w]| == w && s == s[..w] + s[w..]
  {
    hide BeValue, BeBytes, Pow256;
    var w := Width(additional).value;
    PowerValues();
    BeBytesOfValue(s[..w]);
  }

  /** Where the streaming decoder accepts, the slice decoder reads the same value from as many octets. */
  lemma DecodersAgree(additional: nat, s: seq<byte>)
    ensures StreamUint(additional, s).Some? <==> additional <= 27 && SliceUintFits(additional, s)
    ensures StreamUint(additional, s).Some? ==>
              var u := StreamUint(additional, s).value;
              SliceUint(additional, s) == (u.value, |u.raw|) && s == u.raw + u.rest && u.value < U64_LIMIT
  {
    if additional <= 23 {
      assert s[..0] == [] && s[0..] == s;
    } else if additional <= 27 && SliceUintFits(additional, s) {
      SliceIsValue(additional, s);
      StreamTakes(additional, s);
      hide *;
    }
  }

  /** The shortest-form encoder. */
  function EncodeUint(major: nat, value: nat): (r: seq<byte>)
    requires major < 8 && value < U64_LIMIT
    ensures r != []
  {
    if value < 24 then [major * 32 + value]
    else if value <= 0xFF then [major * 32 + 24, value]
    else if value <= 0xFFFF then [major * 32 + 25] + BeBytes(value, 2)
    else if value <= 0xFFFF_FFFF then [major * 32 + 26] + BeBytes(value, 4)
    else [major * 32 + 27] + BeBytes(value, 8)
  }

  /** An argument in one of the five forms of section 3 of RFC 8949, shortest or not. */
  datatype Arg = Arg(value: nat, width: nat)

  predicate ValidArg(a: Arg) {
    || (a.width == 0 && a.value < 24)
    || (a.width in {1, 2, 4, 8} && a.value < Pow256(a.width))
  }

  function Info(a: Arg): nat {
    if a.width == 0 then a.value
    else if a.width == 1 then 24
    else if a.width == 2 then 25
    else if a.width == 4 then 26
    else 27
  }

  /** An initial byte with its argument. */
  function Item(major: nat, a: Arg): (r: seq<byte>)
    requires major < 8 && ValidArg(a)
    ensures r != []
  {
    [major * 32 + Info(a)] + BeBytes(a.value, a.width)
  }

  /** The shortest form (section 4.1 of RFC 8949). */
  function Shortest(v: nat): Arg {
    Arg(v, if v < 24 then 0 else if v <= 0xFF then 1 else if v <= 0xFFFF then 2 else if v <= 0xFFFF_FFFF then 4 else 8)
  }

  lemma ArgFits(a: Arg)
    requires ValidArg(a)
    ensures a.value < U64_LIMIT
  {
    PowerValues();
  }

  lemma InitialByte(major: nat, info: nat)
    requires info < 32
    ensures (major * 32 + info) / 32 == major && (major * 32 + info) % 32 == info
  {
  }

  /** The octets of an argument stream back as its value. */
  lemma ArgStreams(a: Arg, tail: seq<byte>)
    requires ValidArg(a)
    ensures var raw := BeBytes(a.value, a.width); StreamUint(Info(a), raw + tail) == Some(Uint(a.value, raw, tail))
  {
    hide BeBytes, BeValue, Pow256;
    var raw := BeBytes(a.value, a.width);
    assert (raw + tail)[..a.width] == raw && (raw + tail)[a.width..] == tail;
    if a.width > 0 {
      BeValueOfBytes(a.value, a.width);
    }
  }

  /** Any valid form of an argument reads back as its value, its octets and the tail. */
  lemma ArgReads(major: nat, a: Arg, tail: seq<byte>)
    requires major < 8 && ValidArg(a)
    ensures (Item(major, a) + tail)[0] == Item(major, a)[0]
    ensures (Item(major, a) + tail)[1..] == Item(major, a)[1..] + tail
    ensures Item(major, a)[0] / 32 == major
    ensures StreamUint(Item(major, a)[0] % 32, Item(major, a)[1..] + tail) == Some(Uint(a.value, Item(major, a)[1..], tail))
  {
    InitialByte(major, Info(a));
    ArgStreams(a, tail);
    assert Item(major, a)[0] == major * 32 + Info(a) && Item(major, a)[1..] == BeBytes(a.value, a.width);
    hide *;
  }

  lemma EncodeIsShortest(major: nat, v: nat)
    requires major < 8 && v < U64_LIMIT
    ensures ValidArg(Shortest(v)) && EncodeUint(major, v) == Item(major, Shortest(v))
  {
    PowerValues();
    assert BeBytes(v, 1) == [v % 256];
  }

  /** No valid form of a value is shorter than the encoder's, and only that one is as short. */
  lemma NoShorterForm(major: nat, a: Arg)
    requires major < 8 && ValidArg(a)
    ensures a.value < U64_LIMIT && |EncodeUint(major, a.value)| <= |Item(major, a)|
    ensures |EncodeUint(major, a.value)| == |Item(major, a)| <==> a == Shortest(a.value)
  {
    hide Pow256, BeBytes;
    PowerValues();
    EncodeIsShortest(major, a.value);
  }

  /** Two forms of the same value that differ already differ in their initial byte. */
  lemma InitialByteTellsForm(major: nat, a: Arg, b: Arg)
    requires major < 8 && ValidArg(a) && ValidArg(b) && Item(major, a)[0] == Item(major, b)[0]
    ensures a.width == b.width
    ensures a.width == 0 ==> a.value == b.value
  {
  }

  /** Reading back what the encoder wrote gives the major type, the value and the untouched tail. */
  lemma EncodeThenDecode(major: nat, value: nat, tail: seq<byte>)
    requires major < 8 && value < U64_LIMIT
    ensures var e := EncodeUint(major, value);
            && e[0] / 32 == major
            && StreamUint(e[0] % 32, e[1..] + tail) == Some(Uint(value, e[1..], tail))
  {
    EncodeIsShortest(major, value);
    ArgReads(major, Shortest(value), tail);
  }
}
