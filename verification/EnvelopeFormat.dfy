// The envelope format as a grammar, independent of the parser, and the two laws that
// tie the parser and the rebuilder to it.
module EnvelopeFormat {
  import opened Base
  import opened Cbor
  import opened EnvelopeParser

  /** Map keys other than payload names: integers, byte strings, tagged integers. */
  datatype Key =
    | IntKey(negative: bool, arg: Arg)
    | BytesKey(len: Arg, data: seq<byte>)
    | TaggedIntKey(tag: Arg, negative: bool, arg: Arg)

  /** A kept entry: a key with a byte-string or text-string value. */
  datatype Entry = Entry(key: Key, text: bool, len: Arg, data: seq<byte>)

  /** A payload entry up to its first payload byte. */
  datatype Payload = Payload(nameLen: Arg, name: seq<byte>, len: Arg)

  datatype Envelope = Envelope(tag: Option<Arg>, count: Arg, entries: seq<Entry>, payload: Option<Payload>)

  predicate ValidKey(k: Key) {
    match k
    case IntKey(_, a) => ValidArg(a)
    case BytesKey(n, data) => ValidArg(n) && n.value == |data|
    case TaggedIntKey(t, _, a) => ValidArg(t) && ValidArg(a)
  }

  predicate ValidEntry(e: Entry) {
    ValidKey(e.key) && ValidArg(e.len) && e.len.value == |e.data|
  }

  predicate ValidPayload(p: Payload) {
    ValidArg(p.nameLen) && p.nameLen.value == |p.name| && ValidArg(p.len)
  }

  predicate ValidEnvelope(env: Envelope) {
    && (env.tag.Some? ==> ValidArg(env.tag.value))
    && ValidArg(env.count)
    && env.count.value == |env.entries| + (if env.payload.Some? then 1 else 0)
    && (forall i :: 0 <= i < |env.entries| ==> ValidEntry(env.entries[i]))
    && (env.payload.Some? ==> ValidPayload(env.payload.value))
  }

  function KeyBytes(k: Key): (r: seq<byte>)
    requires ValidKey(k)
    ensures r != []
  {
    match k
    case IntKey(neg, a) => Item(if neg then 1 else 0, a)
    case BytesKey(n, data) => Item(2, n) + data
    case TaggedIntKey(t, neg, a) => Item(6, t) + Item(if neg then 1 else 0, a)
  }

  function EntryBytes(e: Entry): seq<byte>
    requires ValidEntry(e)
  {
    KeyBytes(e.key) + (Item(if e.text then 3 else 2, e.len) + e.data)
  }

  function EntriesBytes(es: seq<Entry>): seq<byte>
    requires forall i :: 0 <= i < |es| ==> ValidEntry(es[i])
  {
    if es == [] then [] else EntryBytes(es[0]) + EntriesBytes(es[1..])
  }

  function PayloadHead(p: Payload): seq<byte>
    requires ValidPayload(p)
  {
    Item(3, p.nameLen) + (p.name + Item(2, p.len))
  }

  function TagBytes(env: Envelope): seq<byte>
    requires ValidEnvelope(env)
  {
    if env.tag.Some? then Item(6, env.tag.value) else []
  }

  function TailBytes(env: Envelope): seq<byte>
    requires ValidEnvelope(env)
  {
    if env.payload.Some? then PayloadHead(env.payload.value) else []
  }

  /** The envelope up to its first payload byte, or to its end when it carries none. */
  function Encode(env: Envelope): seq<byte>
    requires ValidEnvelope(env)
  {
    TagBytes(env) + Item(5, env.count) + EntriesBytes(env.entries) + TailBytes(env)
  }

  lemma CountFits(env: Envelope)
    requires ValidEnvelope(env)
    ensures env.count.value < U64_LIMIT && |env.entries| < U64_LIMIT
  {
    ArgFits(env.count);
  }

  /** What the header must be: the same entries under a count that leaves the payload out. */
  function Stripped(env: Envelope): seq<byte>
    requires ValidEnvelope(env)
  {
    if env.payload.None? then Encode(env)
    else
      CountFits(env);
      TagBytes(env) + EncodeUint(5, |env.entries|) + EntriesBytes(env.entries)
  }

  function Announced(env: Envelope): seq<Pending> {
    if env.payload.Some? then [Pending(env.payload.value.name, env.payload.value.len.value)] else []
  }

  // ----------------------------------------------------------------------
  // The parser reads the format
  // ----------------------------------------------------------------------

  lemma TakeReads(data: seq<byte>, tail: seq<byte>)
    ensures Take(data + tail, |data|) == Some((data, tail))
  {
    assert (data + tail)[..|data|] == data && (data + tail)[|data|..] == tail;
  }

  lemma StringReads(major: nat, n: Arg, data: seq<byte>, tail: seq<byte>)
    requires major < 8 && ValidArg(n) && n.value == |data|
    ensures var i := Item(major, n);
            StringRest(i[0] % 32, i[1..] + (data + tail)) == Some(Body(i[1..] + data, [], tail))
  {
    ArgReads(major, n, data + tail);
    TakeReads(data, tail);
  }

  ghost predicate ReadsAsKey(b: seq<byte>, tail: seq<byte>) {
    && b != []
    && (b + tail)[0] == b[0] && (b + tail)[1..] == b[1..] + tail
    && b[0] / 32 != 3
    && KeyRest(b[0], b[1..] + tail) == Some(Body(b[1..], [], tail))
  }

  lemma IntKeyReads(neg: bool, a: Arg, tail: seq<byte>)
    requires ValidArg(a)
    ensures ReadsAsKey(KeyBytes(IntKey(neg, a)), tail)
  {
    hide StreamUint, Item;
    ArgReads(if neg then 1 else 0, a, tail);
  }

  lemma BytesKeyReads(n: Arg, data: seq<byte>, tail: seq<byte>)
    requires ValidArg(n) && n.value == |data|
    ensures ReadsAsKey(KeyBytes(BytesKey(n, data)), tail)
  {
    hide StringRest, Item, StreamUint;
    var b := KeyBytes(BytesKey(n, data));
    StringReads(2, n, data, tail);
    ArgReads(2, n, data + tail);
    assert b[1..] == Item(2, n)[1..] + data;
    assert b[1..] + tail == Item(2, n)[1..] + (data + tail);
  }

  lemma TaggedKeyReads(t: Arg, neg: bool, a: Arg, tail: seq<byte>)
    requires ValidArg(t) && ValidArg(a)
    ensures ReadsAsKey(KeyBytes(TaggedIntKey(t, neg, a)), tail)
  {
    hide StreamUint, Item;
    var i := Item(if neg then 1 else 0, a);
    var b := KeyBytes(TaggedIntKey(t, neg, a));
    ArgReads(6, t, i + tail);
    ArgReads(if neg then 1 else 0, a, tail);
    assert b[1..] + tail == Item(6, t)[1..] + (i + tail);
    assert b[1..] == Item(6, t)[1..] + [i[0]] + i[1..];
  }

  lemma KeyReads(k: Key, tail: seq<byte>)
    requires ValidKey(k)
    ensures ReadsAsKey(KeyBytes(k), tail)
  {
    hide ReadsAsKey;
    match k
    case IntKey(neg, a) => IntKeyReads(neg, a, tail);
    case BytesKey(n, data) => BytesKeyReads(n, data, tail);
    case TaggedIntKey(t, neg, a) => TaggedKeyReads(t, neg, a, tail);
  }

  lemma EntryReads(e: Entry, tail: seq<byte>)
    requires ValidEntry(e)
    ensures EntryAt(EntryBytes(e) + tail) == Some(Body(EntryBytes(e), [], tail))
  {
    hide KeyRest, StringRest, KeyBytes, Item, StreamUint;
    var major := if e.text then 3 else 2;
    var k, v := KeyBytes(e.key), Item(major, e.len);
    var after := v + e.data + tail;
    KeyReads(e.key, after);
    ArgReads(major, e.len, e.data + tail);
    StringReads(major, e.len, e.data, tail);
    assert EntryBytes(e) + tail == k + after;
    assert after == v + (e.data + tail);
    assert EntryBytes(e) == [k[0]] + k[1..] + [v[0]] + (v[1..] + e.data);
  }

  lemma PayloadReads(p: Payload, tail: seq<byte>)
    requires ValidPayload(p)
    ensures EntryAt(PayloadHead(p) + tail) == Some(Body([], [Pending(p.name, p.len.value)], tail))
  {
    hide StreamUint, Item;
    var i, v := Item(3, p.nameLen), Item(2, p.len);
    ArgReads(3, p.nameLen, p.name + (v + tail));
    TakeReads(p.name, v + tail);
    ArgReads(2, p.len, tail);
    assert PayloadHead(p) + tail == i + (p.name + (v + tail));
  }

  /** `n` more entries are read behind the listed ones. */
  lemma {:induction false} EntriesRead(es: seq<Entry>, more: nat, tail: seq<byte>)
    requires forall i :: 0 <= i < |es| ==> ValidEntry(es[i])
    ensures EntriesAt(|es| + more, EntriesBytes(es) + tail) == Behind(EntriesBytes(es), [], EntriesAt(more, tail))
    decreases |es|
  {
    hide EntryAt, EntryBytes;
    var after := EntriesAt(more, tail);
    if es == [] {
      assert [] + tail == tail;
      if after.Some? {
        assert [] + after.value.kept == after.value.kept && [] + after.value.payloads == after.value.payloads;
      }
    } else {
      var first, others := EntryBytes(es[0]), EntriesBytes(es[1..]);
      EntryReads(es[0], others + tail);
      EntriesRead(es[1..], more, tail);
      assert EntriesBytes(es) + tail == first + (others + tail);
      if after.Some? {
        assert first + (others + after.value.kept) == first + others + after.value.kept;
        assert [] + ([] + after.value.payloads) == [] + after.value.payloads;
      }
    }
  }

  lemma LastEntry(s: seq<byte>, payloads: seq<Pending>, tail: seq<byte>)
    requires EntryAt(s) == Some(Body([], payloads, tail))
    ensures EntriesAt(1, s) == Some(Body([], payloads, tail))
  {
    hide EntryAt;
    assert EntriesAt(0, tail) == Some(Body([], [], tail));
    var none: seq<byte> := [];
    assert none + none == none;
    assert payloads + [] == payloads;
  }

  lemma HeadReads(env: Envelope, tail: seq<byte>)
    requires ValidEnvelope(env)
    ensures var s := TagBytes(env) + Item(5, env.count) + tail;
            HeadAt(s) == Some(Uint(env.count.value, TagBytes(env) + Item(5, env.count), tail))
            && TagOf(s) == TagBytes(env)
  {
    hide StreamUint, Item;
    var m := Item(5, env.count);
    ArgReads(5, env.count, tail);
    var s := TagBytes(env) + m + tail;
    if env.tag.Some? {
      var t := Item(6, env.tag.value);
      ArgReads(6, env.tag.value, m + tail);
      assert s == t + (m + tail);
      assert t + m == [t[0]] + t[1..] + [m[0]] + m[1..];
    } else {
      assert s == m + tail;
      assert TagBytes(env) + m == [m[0]] + m[1..];
    }
  }

  lemma BodyReads(env: Envelope, tail: seq<byte>)
    requires ValidEnvelope(env)
    ensures EntriesAt(env.count.value, EntriesBytes(env.entries) + (TailBytes(env) + tail)) ==
            Some(Body(EntriesBytes(env.entries), Announced(env), tail))
  {
    hide EntryAt, PayloadHead, EntriesBytes;
    var entries := EntriesBytes(env.entries);
    assert entries + [] == entries && [] + Announced(env) == Announced(env);
    if env.payload.Some? {
      PayloadReads(env.payload.value, tail);
      LastEntry(TailBytes(env) + tail, Announced(env), tail);
      EntriesRead(env.entries, 1, TailBytes(env) + tail);
    } else {
      EntriesRead(env.entries, 0, TailBytes(env) + tail);
      assert [] + tail == tail;
    }
  }

  /**
   * For every envelope of the format, tagged or not and in shortest form or not, followed
   * by any bytes: the parser returns exactly the kept entries under the corrected count,
   * announces the payload's name and length, and leaves the stream on the first payload byte.
   */
  lemma ParserReadsFormat(env: Envelope, tail: seq<byte>)
    requires ValidEnvelope(env)
    ensures ParseHeader(Encode(env) + tail) == Some(Header(Stripped(env), Announced(env), env.count.value, tail))
  {
    hide HeadAt, EntriesAt, Item, PayloadHead, RewriteMapCount, EntriesBytes, TagBytes, HeadInBounds;
    var head := TagBytes(env) + Item(5, env.count);
    var entries := EntriesBytes(env.entries);
    var s := head + (entries + (TailBytes(env) + tail));
    assert Encode(env) + tail == s;
    HeadReads(env, entries + (TailBytes(env) + tail));
    BodyReads(env, tail);
    if env.payload.Some? {
      CountFits(env);
      AcceptedHeadInBounds(s, entries, |env.entries|);
    } else {
      assert Encode(env) == head + entries;
    }
  }

  // ----------------------------------------------------------------------
  // Stripping and rebuilding
  // ----------------------------------------------------------------------

  /** Exactly the envelopes the rebuilder can reproduce. */
  predicate Canonical(env: Envelope) {
    && env.payload.Some?
    && env.count == Shortest(env.count.value)
    && env.payload.value.name == FIRMWARE_KEY
    && env.payload.value.nameLen == Shortest(|FIRMWARE_KEY|)
    && env.payload.value.len == Shortest(env.payload.value.len.value)
  }

  lemma RebuildResult(env: Envelope, payload: seq<byte>)
    requires ValidEnvelope(env) && env.payload.Some? && |payload| < U64_LIMIT
    ensures env.count.value < U64_LIMIT && HeadInBounds(Stripped(env))
    ensures Rebuild(Stripped(env), env.count.value, payload) ==
            Some(TagBytes(env) + EncodeUint(5, env.count.value) + EntriesBytes(env.entries)
                 + EncodeUint(3, |FIRMWARE_KEY|) + FIRMWARE_KEY + EncodeUint(2, |payload|) + payload)
  {
    hide HeadAt, HeadInBounds, RewriteMapCount, EncodeUint;
    CountFits(env);
    var n := |env.entries|;
    var entries := EntriesBytes(env.entries);
    // the stripped header is itself the head of an envelope with one entry fewer
    var env' := env.(count := Shortest(n), payload := None);
    EncodeIsShortest(5, n);
    assert ValidEnvelope(env');
    HeadReads(env', entries);
    AcceptedHeadInBounds(TagBytes(env') + Item(5, env'.count) + entries, entries, env.count.value);
  }

  lemma FormFollowsInitialByte(major: nat, v: nat, a: Arg, x: seq<byte>, y: seq<byte>)
    requires major < 8 && ValidArg(a) && a.value == v && EncodeUint(major, v) + x == Item(major, a) + y && v < U64_LIMIT
    ensures a == Shortest(v) && x == y
  {
    EncodeIsShortest(major, v);
    assert (EncodeUint(major, v) + x)[0] == (Item(major, a) + y)[0];
    InitialByteTellsForm(major, a, Shortest(v));
    var n := |Item(major, a)|;
    assert x == (EncodeUint(major, v) + x)[n..] && y == (Item(major, a) + y)[n..];
  }

  lemma SamePrefix(p: seq<byte>, x: seq<byte>, y: seq<byte>)
    requires p + x == p + y
    ensures x == y
  {
    assert x == (p + x)[|p|..] && y == (p + y)[|p|..];
  }

  /** The payload entry the rebuilder writes, in the format's own terms. */
  lemma FirmwareTail(p: Payload, payload: seq<byte>)
    requires ValidPayload(p) && p.len.value == |payload| && |payload| < U64_LIMIT
    ensures (EncodeUint(3, |FIRMWARE_KEY|) + (FIRMWARE_KEY + (EncodeUint(2, |payload|) + payload)) == PayloadHead(p) + payload)
            <==> (p.name == FIRMWARE_KEY && p.nameLen == Shortest(|FIRMWARE_KEY|) && p.len == Shortest(|payload|))
  {
    EncodeIsShortest(3, |FIRMWARE_KEY|);
    EncodeIsShortest(2, |payload|);
    var mine := EncodeUint(3, |FIRMWARE_KEY|) + (FIRMWARE_KEY + (EncodeUint(2, |payload|) + payload));
    var theirs := Item(3, p.nameLen) + (p.name + (Item(2, p.len) + payload));
    assert theirs == PayloadHead(p) + payload;
    if mine == theirs {
      assert mine[0] == theirs[0] == Item(3, p.nameLen)[0];
      InitialByteTellsForm(3, p.nameLen, Shortest(|FIRMWARE_KEY|));
      FormFollowsInitialByte(3, |FIRMWARE_KEY|, p.nameLen,
        FIRMWARE_KEY + (EncodeUint(2, |payload|) + payload), p.name + (Item(2, p.len) + payload));
      assert (FIRMWARE_KEY + (EncodeUint(2, |payload|) + payload))[..|p.name|] == FIRMWARE_KEY;
      assert (p.name + (Item(2, p.len) + payload))[..|p.name|] == p.name;
      SamePrefix(p.name, EncodeUint(2, |payload|) + payload, Item(2, p.len) + payload);
      FormFollowsInitialByte(2, |payload|, p.len, payload, payload);
    }
  }

  /** The payload entry the rebuilder appends, with the payload. */
  function FirmwareEntry(payload: seq<byte>): seq<byte>
    requires |payload| < U64_LIMIT
  {
    EncodeUint(3, |FIRMWARE_KEY|) + (FIRMWARE_KEY + (EncodeUint(2, |payload|) + payload))
  }

  lemma Regroup(a: seq<byte>, b: seq<byte>, c: seq<byte>, d: seq<byte>, e: seq<byte>, f: seq<byte>, g: seq<byte>)
    ensures a + b + c + d + e + f + g == a + (b + (c + (d + (e + (f + g)))))
  {
  }

  lemma RegroupEncoding(a: seq<byte>, b: seq<byte>, c: seq<byte>, d: seq<byte>, e: seq<byte>)
    ensures a + b + c + d + e == a + (b + (c + (d + e)))
  {
  }

  /** Both sides as tag, count, entries and the rest. */
  lemma BothSides(env: Envelope, payload: seq<byte>)
    requires ValidEnvelope(env) && env.payload.Some? && |payload| < U64_LIMIT
    ensures env.count.value < U64_LIMIT && HeadInBounds(Stripped(env))
    ensures Rebuild(Stripped(env), env.count.value, payload) ==
            Some(TagBytes(env) + (EncodeUint(5, env.count.value) + (EntriesBytes(env.entries) + FirmwareEntry(payload))))
    ensures Encode(env) + payload ==
            TagBytes(env) + (Item(5, env.count) + (EntriesBytes(env.entries) + (PayloadHead(env.payload.value) + payload)))
  {
    RebuildResult(env, payload);
    hide EncodeUint, Item, PayloadHead, HeadInBounds, Rebuild, Stripped, EntriesBytes, TagBytes, ValidEnvelope;
    RegroupEncoding(TagBytes(env), Item(5, env.count), EntriesBytes(env.entries), TailBytes(env), payload);
    Regroup(TagBytes(env), EncodeUint(5, env.count.value), EntriesBytes(env.entries),
            EncodeUint(3, |FIRMWARE_KEY|), FIRMWARE_KEY, EncodeUint(2, |payload|), payload);
  }

  /**
   * Rebuilding the stripped header with its payload gives the original envelope back byte
   * for byte exactly when the payload is named `#firmware` and the map count, the name's
   * length and the payload's length are in shortest form; tag and entries may be anything.
   */
  lemma RebuildRoundTrip(env: Envelope, payload: seq<byte>)
    requires ValidEnvelope(env) && env.payload.Some? && env.payload.value.len.value == |payload|
    requires |payload| < U64_LIMIT
    ensures env.count.value < U64_LIMIT && HeadInBounds(Stripped(env))
    ensures Rebuild(Stripped(env), env.count.value, payload) == Some(Encode(env) + payload) <==> Canonical(env)
  {
    hide EncodeUint, Item, PayloadHead, HeadInBounds, Rebuild, Stripped, EntriesBytes, TagBytes, Encode, Shortest;
    BothSides(env, payload);
    FirmwareTail(env.payload.value, payload);
    EncodeIsShortest(5, env.count.value);
    var tag, entries := TagBytes(env), EntriesBytes(env.entries);
    var count, count' := EncodeUint(5, env.count.value), Item(5, env.count);
    var mine, theirs := FirmwareEntry(payload), PayloadHead(env.payload.value) + payload;
    if tag + (count + (entries + mine)) == tag + (count' + (entries + theirs)) {
      SamePrefix(tag, count + (entries + mine), count' + (entries + theirs));
      FormFollowsInitialByte(5, env.count.value, env.count, entries + mine, entries + theirs);
      SamePrefix(entries, mine, theirs);
    }
  }
}
