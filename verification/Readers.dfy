// The stack of readers a payload passes through: a channel of chunks, an optional streaming
// decryptor, and a prefix put back after peeking at the first four bytes.
module Readers {
  import opened Base

  const ZSTD_MAGIC: seq<byte> := [0x28, 0xB5, 0x2F, 0xFD]

  /** Copy a piece of a sequence into part of a buffer. */
  method CopyInto(buf: array<byte>, lo: nat, src: seq<byte>)
    requires lo + |src| <= buf.Length
    modifies buf
    ensures buf[lo..lo + |src|] == src
    ensures buf[..lo] == old(buf[..lo]) && buf[lo + |src|..] == old(buf[lo + |src|..])
  {
    forall i | 0 <= i < |src| {
      buf[lo + i] := src[i];
    }
  }

  // ----------------------------------------------------------------------
  // The channel
  // ----------------------------------------------------------------------

  class ChannelReader {
    // what the sender will still send, chunk by chunk, before it closes
    var chunks: seq<seq<byte>>
    var current: seq<byte>

    constructor (chunks: seq<seq<byte>>)
      ensures this.chunks == chunks && current == []
    {
      this.chunks, current := chunks, [];
    }

    /** No chunk is empty, so that an empty read can only mean the end. */
    ghost predicate Valid()
      reads this
    {
      forall i :: 0 <= i < |chunks| ==> chunks[i] != []
    }

    ghost function Rest(): seq<byte>
      reads this
    {
      current + Flatten(chunks)
    }

    method Read(buf: array<byte>, lo: nat, hi: nat) returns (n: nat)
      requires Valid() && lo <= hi <= buf.Length
      modifies this, buf
      ensures Valid() && n <= hi - lo && n <= |old(Rest())|
      ensures buf[lo..lo + n] == old(Rest())[..n] && Rest() == old(Rest())[n..]
      ensures buf[..lo] == old(buf[..lo]) && buf[lo + n..] == old(buf[lo + n..])
      ensures n == 0 ==> lo == hi || old(Rest()) == []
    {
      if current == [] {
        if chunks == [] {
          return 0;
        }
        current, chunks := chunks[0], chunks[1..];
      }
      assert Rest() == old(Rest());
      n := Min(hi - lo, |current|);
      CopyInto(buf, lo, current[..n]);
      current := current[n..];
    }
  }

  // ----------------------------------------------------------------------
  // The decryptor
  // ----------------------------------------------------------------------

  const OUT_CAPACITY: nat := 4096 + 256
  const IN_CAPACITY: nat := 4096

  /**
   * A streaming decryptor: the plaintext released once a ciphertext prefix is in, whether that
   * prefix is rejected, and what the end of the ciphertext releases, `None` if it fails
   * authentication.
   */
  datatype Decryptor = Decryptor(
    released: seq<byte> -> seq<byte>, rejects: seq<byte> -> bool, finish: seq<byte> -> Option<seq<byte>>)

  /** More input releases more output, within the buffer's slack; a rejected prefix stays rejected. */
  ghost predicate Streaming(d: Decryptor) {
    && d.released([]) == [] && !d.rejects([])
    && (forall a, b :: d.released(a) <= d.released(a + b))
    && (forall a, b :: |d.released(a + b)| <= |d.released(a)| + |b| + 256)
    && (forall a, b :: d.rejects(a) ==> d.rejects(a + b))
    && (forall a :: d.finish(a).Some? ==> |d.finish(a).value| <= OUT_CAPACITY)
  }

  /** The plaintext of a whole ciphertext, if it is accepted. */
  ghost function Plaintext(d: Decryptor, whole: seq<byte>): Option<seq<byte>> {
    if d.rejects(whole) || d.finish(whole).None? then None else Some(d.released(whole) + d.finish(whole).value)
  }

  /** The plaintext out of the decryptor so far. */
  ghost function Released(d: Decryptor, consumed: seq<byte>, finished: bool): seq<byte>
    requires finished ==> d.finish(consumed).Some?
  {
    if finished then d.released(consumed) + d.finish(consumed).value else d.released(consumed)
  }

  class DecryptReader {
    const inner: ChannelReader
    const decryptor: Decryptor
    const outBuf: array<byte>
    var outPos: nat
    var outLen: nat
    var finished: bool
    // the decryptor's state: the ciphertext fed to it
    var consumed: seq<byte>
    // the plaintext handed out, and whether a read failed
    ghost var delivered: seq<byte>
    ghost var broken: bool

    constructor (inner: ChannelReader, decryptor: Decryptor)
      requires inner.Valid() && Streaming(decryptor)
      ensures Valid() && fresh(outBuf) && this.inner == inner && this.decryptor == decryptor
      ensures Whole() == inner.Rest() && delivered == [] && !broken && !finished
    {
      this.inner, this.decryptor := inner, decryptor;
      outBuf := new byte[OUT_CAPACITY](_ => 0);
      outPos, outLen, finished := 0, 0, false;
      consumed, delivered, broken := [], [], false;
    }

    ghost function Whole(): seq<byte>
      reads this, inner
    {
      consumed + inner.Rest()
    }

    ghost function Buffered(): seq<byte>
      requires outPos <= outLen <= outBuf.Length
      reads this, outBuf
    {
      outBuf[outPos..outLen]
    }

    ghost predicate Valid()
      reads this, inner, outBuf
    {
      && inner.Valid() && Streaming(decryptor)
      && outBuf.Length == OUT_CAPACITY && outPos <= outLen <= OUT_CAPACITY
      && (broken ==>
            && outPos == outLen
            && (decryptor.rejects(consumed) || (finished && inner.Rest() == [] && decryptor.finish(consumed).None?)))
      && (!broken ==>
            && !decryptor.rejects(consumed)
            && (finished ==> inner.Rest() == [] && decryptor.finish(consumed).Some?)
            && delivered + Buffered() == Released(decryptor, consumed, finished))
    }

    /** Bounds how much a reader that never reports its end can still hand out. */
    ghost function Budget(): nat
      requires Valid()
      reads this, inner, outBuf
    {
      (outLen - outPos) + (if finished then 0 else 300 * |inner.Rest()| + OUT_CAPACITY + 1)
    }

    /** Hand out from the output buffer. */
    method Drain(buf: array<byte>, lo: nat, hi: nat) returns (n: nat)
      requires Valid() && lo <= hi <= buf.Length && buf != outBuf
      modifies this, buf
      ensures Valid() && broken == old(broken) && n == Min(hi - lo, old(outLen) - old(outPos))
      ensures delivered == old(delivered) + buf[lo..lo + n]
      ensures buf[..lo] == old(buf[..lo]) && buf[lo + n..] == old(buf[lo + n..])
      ensures consumed == old(consumed) && finished == old(finished) && outLen == old(outLen) && outPos == old(outPos) + n
    {
      hide Streaming, Released;
      n := Min(hi - lo, outLen - outPos);
      var piece := outBuf[outPos..outPos + n];
      CopyInto(buf, lo, piece);
      assert Buffered() == piece + outBuf[outPos + n..outLen];
      delivered := delivered + piece;
      outPos := outPos + n;
    }

    /** Feed the decryptor what was just read from below; false on rejection. */
    method Update(input: seq<byte>) returns (ok: bool)
      requires Valid() && !finished && outPos == outLen && |input| <= IN_CAPACITY
      modifies this, outBuf
      ensures inner.Valid() && Streaming(decryptor) && outBuf.Length == OUT_CAPACITY && outPos <= outLen <= OUT_CAPACITY
      ensures consumed == old(consumed) + input && !finished && delivered == old(delivered)
      ensures ok <==> !decryptor.rejects(consumed)
      ensures ok ==> !broken && outLen - outPos <= |input| + 256 && delivered + Buffered() == decryptor.released(consumed)
      ensures !ok ==> broken && outPos == outLen
    {
      var before := consumed;
      consumed := consumed + input;
      if decryptor.rejects(consumed) {
        broken := true;
        return false;
      }
      assert Buffered() == [];
      assert delivered + [] == delivered;
      var out := decryptor.released(consumed)[|decryptor.released(before)|..];
      CopyInto(outBuf, 0, out);
      outPos, outLen := 0, |out|;
      assert Buffered() == out;
      ok := true;
    }

    /** Finish at the end of the ciphertext; false when authentication fails. */
    method Finish() returns (ok: bool)
      requires Valid() && !finished && outPos == outLen && inner.Rest() == []
      modifies this, outBuf
      ensures Valid() && finished && consumed == old(consumed) && delivered == old(delivered)
      ensures ok <==> !old(broken) && decryptor.finish(consumed).Some?
      ensures ok ==> !broken && outLen - outPos <= OUT_CAPACITY
      ensures !ok ==> broken && outPos == outLen
    {
      finished := true;
      if decryptor.rejects(consumed) || decryptor.finish(consumed).None? {
        broken := true;
        return false;
      }
      assert old(Buffered()) == [];
      assert delivered + [] == delivered;
      var out := decryptor.finish(consumed).value;
      CopyInto(outBuf, 0, out);
      outPos, outLen := 0, |out|;
      assert Buffered() == out;
      ok := true;
    }

    /** Read once from below and decrypt; false on rejection or failed authentication. */
    method Refill() returns (ok: bool)
      requires Valid() && !finished && outPos == outLen
      modifies this, inner, outBuf
      ensures Valid() && Whole() == old(Whole()) && delivered == old(delivered)
      ensures ok ==> !old(broken) && !broken && Budget() < old(Budget())
      ensures ok && !finished ==> |inner.Rest()| < old(|inner.Rest()|)
      ensures !ok ==> broken && Plaintext(decryptor, Whole()) == None
    {
      hide Flatten;
      var inBuf := new byte[IN_CAPACITY](_ => 0);
      var n := inner.Read(inBuf, 0, IN_CAPACITY);
      if n == 0 {
        ok := Finish();
        assert Whole() == consumed;
      } else {
        ok := Update(inBuf[..n]);
        assert Whole() == old(Whole());
      }
    }

    /**
     * `None` is an error. The bytes handed out are the plaintext, in order; an end is reported
     * only after all of an accepted plaintext, an error only for a ciphertext that is not
     * accepted. A reader read again after failing at the end reports an end.
     */
    method Read(buf: array<byte>, lo: nat, hi: nat) returns (r: Option<nat>)
      requires Valid() && lo <= hi <= buf.Length && buf != outBuf
      modifies this, inner, outBuf, buf
      ensures Valid() && Whole() == old(Whole())
      ensures r.Some? ==> r.value <= hi - lo && buf[..lo] == old(buf[..lo]) && buf[lo + r.value..] == old(buf[lo + r.value..])
      ensures r.Some? && !old(broken) ==> !broken && delivered == old(delivered) + buf[lo..lo + r.value]
      ensures r.Some? && !old(broken) && r.value == 0 && lo < hi ==> Plaintext(decryptor, Whole()) == Some(delivered)
      ensures r.Some? && !old(broken) && r.value > 0 ==> Budget() < old(Budget())
      ensures r.None? ==> broken && Plaintext(decryptor, Whole()) == None && delivered == old(delivered)
      ensures old(broken) ==> r == if old(finished) then Some(0) else None
      decreases |inner.Rest()|
    {
      hide Streaming, Plaintext, Released, Flatten;
      if outPos < outLen || finished {
        var n := Drain(buf, lo, hi);
        AtEnd();
        return Some(n);
      }
      var ok := Refill();
      if !ok {
        return None;
      }
      if outPos == outLen && !finished {
        r := Read(buf, lo, hi);
        return;
      }
      var n := Drain(buf, lo, hi);
      AtEnd();
      r := Some(n);
    }

    lemma AtEnd()
      requires Valid()
      ensures finished && outPos == outLen && !broken ==> Plaintext(decryptor, Whole()) == Some(delivered)
    {
      if finished && outPos == outLen && !broken {
        assert Whole() == consumed && delivered + Buffered() == delivered;
      }
    }
  }

  // ----------------------------------------------------------------------
  // Either source, and bytes put back in front of it
  // ----------------------------------------------------------------------

  /** What a reader stands on: the channel, or the decryptor over it. */
  datatype Source = Plain(channel: ChannelReader) | Encrypted(decrypt: DecryptReader)

  ghost function Footprint(s: Source): set<object> {
    match s
    case Plain(ch) => {ch}
    case Encrypted(d) => {d, d.inner, d.outBuf}
  }

  ghost predicate Sound(s: Source)
    reads Footprint(s)
  {
    match s
    case Plain(ch) => ch.Valid()
    case Encrypted(d) => d.Valid() && !d.broken
  }

  ghost function Past(whole: Option<seq<byte>>, delivered: seq<byte>): Option<seq<byte>> {
    if whole.Some? && delivered <= whole.value then Some(whole.value[|delivered|..]) else None
  }

  /** What a source still has to hand out; `None` if it will not be accepted. */
  ghost function Remaining(s: Source): Option<seq<byte>>
    reads Footprint(s)
  {
    match s
    case Plain(ch) => Some(ch.Rest())
    case Encrypted(d) => Past(Plaintext(d.decryptor, d.Whole()), d.delivered)
  }

  ghost function Budget(s: Source): nat
    requires Sound(s)
    reads Footprint(s)
  {
    match s
    case Plain(ch) => |ch.Rest()|
    case Encrypted(d) => d.Budget()
  }

  /** What was handed out is the front of an accepted plaintext. */
  lemma DeliveredIsPrefix(d: DecryptReader)
    requires d.Valid() && !d.broken && Plaintext(d.decryptor, d.Whole()).Some?
    ensures d.delivered <= Plaintext(d.decryptor, d.Whole()).value
  {
    var whole, rest := Plaintext(d.decryptor, d.Whole()).value, d.inner.Rest();
    assert d.decryptor.released(d.consumed) <= d.decryptor.released(d.consumed + rest);
    if d.finished {
      assert d.Whole() == d.consumed;
    }
    assert d.delivered <= d.delivered + d.Buffered();
  }

  /** One read: `now` is `before` less the bytes read; nothing read means the end. */
  ghost predicate Advances(before: Option<seq<byte>>, now: Option<seq<byte>>, read: seq<byte>) {
    && (before.None? ==> now.None?)
    && (before.Some? ==> now.Some? && before.value == read + now.value)
  }

  lemma AdvanceTwice(before: Option<seq<byte>>, mid: Option<seq<byte>>, now: Option<seq<byte>>, a: seq<byte>, b: seq<byte>)
    requires Advances(before, mid, a) && Advances(mid, now, b)
    ensures Advances(before, now, a + b)
  {
    if before.Some? {
      assert a + (b + now.value) == a + b + now.value;
    }
  }

  lemma NothingRead(o: Option<seq<byte>>)
    ensures Advances(o, o, [])
  {
    if o.Some? {
      assert [] + o.value == o.value;
    }
  }

  lemma FailingFromTheStart(before: Option<seq<byte>>, now: Option<seq<byte>>, read: seq<byte>)
    requires Advances(before, now, read)
    ensures now.None? <==> before.None?
  {
  }

  lemma NothingAdvances(before: Option<seq<byte>>, now: Option<seq<byte>>)
    requires Advances(before, now, [])
    ensures now == before
  {
    if now.Some? {
      assert [] + now.value == now.value;
    }
  }

  lemma PastAdvances(whole: Option<seq<byte>>, delivered: seq<byte>, read: seq<byte>)
    requires whole.Some? ==> delivered + read <= whole.value
    ensures Advances(Past(whole, delivered), Past(whole, delivered + read), read)
  {
    if whole.Some? {
      assert delivered <= delivered + read;
      assert whole.value[|delivered|..] == read + whole.value[|delivered + read|..];
    }
  }

  method ReadDecrypted(d: DecryptReader, buf: array<byte>, lo: nat, hi: nat) returns (r: Option<nat>)
    requires d.Valid() && !d.broken && lo <= hi <= buf.Length && buf != d.outBuf
    modifies d, d.inner, d.outBuf, buf
    ensures d.Whole() == old(d.Whole())
    ensures r.Some? ==> d.Valid() && !d.broken && r.value <= hi - lo
    ensures r.Some? ==> Advances(Past(Plaintext(d.decryptor, d.Whole()), old(d.delivered)),
                                 Past(Plaintext(d.decryptor, d.Whole()), d.delivered), buf[lo..lo + r.value])
    ensures r.Some? ==> buf[..lo] == old(buf[..lo]) && buf[lo + r.value..] == old(buf[lo + r.value..])
    ensures r.Some? && r.value == 0 && lo < hi ==> Past(Plaintext(d.decryptor, d.Whole()), old(d.delivered)) == Some([])
    ensures r.Some? && r.value > 0 ==> d.Budget() < old(d.Budget())
    ensures r.None? ==> Plaintext(d.decryptor, d.Whole()) == None
  {
    hide Streaming, Plaintext, Released, Flatten;
    ghost var before := d.delivered;
    r := d.Read(buf, lo, hi);
    if r.Some? {
      if Plaintext(d.decryptor, d.Whole()).Some? {
        DeliveredIsPrefix(d);
      }
      PastAdvances(Plaintext(d.decryptor, d.Whole()), before, buf[lo..lo + r.value]);
      assert r.value == 0 ==> before + buf[lo..lo + r.value] == before;
    }
  }

  /** An error is reported only for a source that is not accepted, an end only at its end. */
  method ReadSource(s: Source, buf: array<byte>, lo: nat, hi: nat) returns (r: Option<nat>)
    requires Sound(s) && lo <= hi <= buf.Length && buf !in Footprint(s)
    modifies Footprint(s), buf
    ensures r.Some? ==> Sound(s) && r.value <= hi - lo && Advances(old(Remaining(s)), Remaining(s), buf[lo..lo + r.value])
    ensures r.Some? ==> buf[..lo] == old(buf[..lo]) && buf[lo + r.value..] == old(buf[lo + r.value..])
    ensures r.Some? && r.value == 0 && lo < hi ==> old(Remaining(s)) == Some([])
    ensures r.Some? && r.value > 0 ==> Budget(s) < old(Budget(s))
    ensures r.None? ==> old(Remaining(s)) == None
  {
    hide Streaming, Plaintext, Released, Flatten;
    match s {
      case Plain(ch) =>
        var n := ch.Read(buf, lo, hi);
        r := Some(n);
      case Encrypted(d) =>
        r := ReadDecrypted(d, buf, lo, hi);
    }
  }

  class PrefixReader {
    const prefix: seq<byte>
    const inner: Source
    var prefixPos: nat

    constructor (prefix: seq<byte>, inner: Source)
      ensures this.inner == inner && this.prefix == prefix && prefixPos == 0
    {
      this.prefix, this.inner, prefixPos := prefix, inner, 0;
    }

    ghost predicate Valid()
      reads this, Footprint(inner)
    {
      prefixPos <= |prefix| && Sound(inner) && this !in Footprint(inner)
    }

    /** What is still to be read. */
    ghost function Content(): Option<seq<byte>>
      requires prefixPos <= |prefix|
      reads this, Footprint(inner)
    {
      match Remaining(inner)
      case None => None
      case Some(rest) => Some(prefix[prefixPos..] + rest)
    }

    ghost function Left(): nat
      requires Valid()
      reads this, Footprint(inner)
    {
      |prefix| - prefixPos + Budget(inner)
    }

    method Read(buf: array<byte>, lo: nat, hi: nat) returns (r: Option<nat>)
      requires Valid() && lo <= hi <= buf.Length && buf !in Footprint(inner)
      modifies this, Footprint(inner), buf
      ensures r.Some? ==> Valid() && r.value <= hi - lo && Advances(old(Content()), Content(), buf[lo..lo + r.value])
      ensures r.Some? ==> buf[..lo] == old(buf[..lo]) && buf[lo + r.value..] == old(buf[lo + r.value..])
      ensures r.Some? && r.value == 0 && lo < hi ==> old(Content()) == Some([])
      ensures r.Some? && r.value > 0 ==> Left() < old(Left())
      ensures r.None? ==> old(Content()) == None
    {
      hide Sound, Remaining, Budget;
      if prefixPos < |prefix| {
        var n := Min(hi - lo, |prefix| - prefixPos);
        var piece := prefix[prefixPos..prefixPos + n];
        CopyInto(buf, lo, piece);
        assert prefix[prefixPos..] == piece + prefix[prefixPos + n..];
        prefixPos := prefixPos + n;
        r := Some(n);
      } else {
        r := ReadSource(inner, buf, lo, hi);
      }
    }
  }

  // ----------------------------------------------------------------------
  // Peeking
  // ----------------------------------------------------------------------

  /** Fill the buffer as far as the source goes. */
  method ReadExactOrEof(s: Source, buf: array<byte>) returns (r: Option<nat>)
    requires Sound(s) && buf !in Footprint(s)
    modifies Footprint(s), buf
    ensures r.Some? ==> Sound(s) && r.value <= buf.Length && Advances(old(Remaining(s)), Remaining(s), buf[..r.value])
    ensures r.Some? && r.value < buf.Length ==> Remaining(s) == Some([])
    ensures r.None? ==> old(Remaining(s)) == None
  {
    hide Sound, Remaining, Budget, Footprint, Advances;
    var total := 0;
    NothingRead(Remaining(s));
    assert buf[..0] == [];
    while total < buf.Length
      invariant 0 <= total <= buf.Length && Sound(s) && Advances(old(Remaining(s)), Remaining(s), buf[..total])
      decreases Budget(s)
    {
      ghost var had, mid := buf[..total], Remaining(s);
      var n := ReadSource(s, buf, total, buf.Length);
      if n.None? {
        FailingFromTheStart(old(Remaining(s)), mid, had);
        return None;
      }
      if n.value == 0 {
        assert buf[total..total + n.value] == [];
        NothingAdvances(mid, Remaining(s));
        return Some(total);
      }
      assert buf[..total + n.value] == had + buf[total..total + n.value];
      AdvanceTwice(old(Remaining(s)), mid, Remaining(s), had, buf[total..total + n.value]);
      total := total + n.value;
    }
    r := Some(total);
  }

  /**
   * Look at the first four bytes and put them back. The reader that results holds the whole
   * source; it is taken for compressed exactly when the source starts with the magic.
   */
  method OpenPayload(s: Source) returns (r: PrefixReader?, compressed: bool)
    requires Sound(s)
    modifies Footprint(s)
    ensures r != null ==> fresh(r) && r.Valid() && r.inner == s && r.Content() == old(Remaining(s))
    ensures r != null && old(Remaining(s)).Some? ==> (compressed <==> ZSTD_MAGIC <= old(Remaining(s)).value)
    ensures r == null ==> old(Remaining(s)) == None
  {
    hide Budget, Plaintext, Past, Released, Streaming;
    var first := new byte[4](_ => 0);
    var n := ReadExactOrEof(s, first);
    if n.None? {
      return null, false;
    }
    compressed := n.value >= 4 && first[..4] == ZSTD_MAGIC;
    r := new PrefixReader(first[..n.value], s);
    assert first[..n.value][0..] == first[..n.value];
  }

  // ----------------------------------------------------------------------
  // Hashing and writing
  // ----------------------------------------------------------------------

  const READ_BUF: nat := 64 * 1024

  /** The provider's sink: it takes `landing` more writes, and flushes if `flushes`. */
  class Sink {
    var written: seq<byte>
    var landing: nat
    const flushes: bool
    // a write or flush has failed
    var failed: bool

    constructor (landing: nat, flushes: bool)
      ensures written == [] && !failed && this.landing == landing && this.flushes == flushes
    {
      written, failed, this.landing, this.flushes := [], false, landing, flushes;
    }

    method WriteAll(data: seq<byte>) returns (ok: bool)
      modifies this
      ensures ok ==> written == old(written) + data && failed == old(failed)
      ensures !ok ==> failed
    {
      if landing == 0 {
        failed := true;
        return false;
      }
      landing, written := landing - 1, written + data;
      ok := true;
    }

    method Flush() returns (ok: bool)
      modifies this
      ensures ok == flushes && written == old(written) && failed == (old(failed) || !ok)
    {
      ok := flushes;
      if !ok {
        failed := true;
      }
    }
  }

  datatype Processed = Processed(total: nat, digest: seq<byte>)

  lemma AllRead(before: Option<seq<byte>>, now: Option<seq<byte>>, read: seq<byte>)
    requires Advances(before, now, read) && now == Some([])
    ensures before == Some(read)
  {
    if before.Some? {
      assert read + [] == read;
    }
  }

  /**
   * A plain payload succeeds exactly when it is accepted, the sink failed nowhere and the
   * digest matches any expected one; the sink then has every byte of it in order.
   */
  method ProcessPlain(p: PrefixReader, expected: Option<seq<byte>>, sink: Sink?, sha: seq<byte> -> seq<byte>)
    returns (r: Option<Processed>)
    requires p.Valid() && (sink != null ==> sink !in Footprint(p.inner) && !sink.failed && sink.written == [])
    modifies p, Footprint(p.inner), sink
    ensures r.Some? ==>
              && old(p.Content()).Some?
              && var w := old(p.Content()).value;
                 && r.value == Processed(|w|, sha(w))
                 && (sink != null ==> sink.written == w && !sink.failed)
                 && (expected.Some? ==> expected.value == sha(w))
    ensures r.None? ==>
              || old(p.Content()).None?
              || (sink != null && sink.failed)
              || (expected.Some? && expected.value != sha(old(p.Content()).value))
  {
    hide Sound, Remaining, Budget, Advances;
    var hashed, total := [], 0;
    var buf := new byte[READ_BUF](_ => 0);
    NothingRead(p.Content());
    while true
      invariant p.Valid() && (sink != null ==> sink !in Footprint(p.inner) && !sink.failed && sink.written == hashed)
      invariant Advances(old(p.Content()), p.Content(), hashed) && total == |hashed|
      decreases p.Left()
    {
      ghost var mid := p.Content();
      var n := p.Read(buf, 0, buf.Length);
      if n.None? {
        FailingFromTheStart(old(p.Content()), mid, hashed);
        return None;
      }
      if n.value == 0 {
        AllRead(old(p.Content()), mid, hashed);
        break;
      }
      AdvanceTwice(old(p.Content()), mid, p.Content(), hashed, buf[0..n.value]);
      hashed := hashed + buf[..n.value];
      if sink != null {
        var ok := sink.WriteAll(buf[..n.value]);
        if !ok {
          return None;
        }
      }
      total := total + n.value;
    }
    if sink != null {
      var ok := sink.Flush();
      if !ok {
        return None;
      }
    }
    if expected.Some? && expected.value != sha(hashed) {
      return None;
    }
    r := Some(Processed(total, sha(hashed)));
  }

  // ----------------------------------------------------------------------
  // The feeders
  // ----------------------------------------------------------------------

  datatype Fed = Forwarded | ReceiverGone | ReadFailed

  /** The octets a connection yields before its end or before the read that fails. */
  function Readable(input: seq<byte>, failsAt: Option<nat>): (n: nat)
    ensures n <= |input|
  {
    if failsAt.Some? then Min(failsAt.value, |input|) else |input|
  }

  /**
   * Forward a payload of announced length to the channel, however the network splits it.
   * Every chunk sent is non-empty and they concatenate to the payload, cut short only where
   * the input ends, a read fails or the receiver is gone.
   */
  method FeedAnnounced(input: seq<byte>, announced: nat, failsAt: Option<nat>, accepts: nat)
    returns (sent: seq<seq<byte>>, fed: Fed, taken: nat)
    ensures forall i :: 0 <= i < |sent| ==> 0 < |sent[i]| <= READ_BUF
    ensures taken <= announced && taken <= |input| && Flatten(sent) <= input[..taken]
    ensures fed.Forwarded? ==> Flatten(sent) == input[..Min(announced, |input|)]
    ensures fed.Forwarded? ==> failsAt.None? || failsAt.value >= announced || failsAt.value > |input|
    ensures fed.ReadFailed? ==> failsAt == Some(taken) && taken < announced && Flatten(sent) == input[..taken]
    ensures fed.ReceiverGone? ==> |sent| == accepts
  {
    sent, taken := [], 0;
    var remaining := announced;
    while remaining > 0
      invariant 0 <= remaining == announced - taken && taken <= Readable(input, failsAt) && |sent| <= accepts
      invariant Flatten(sent) == input[..taken]
      invariant forall i :: 0 <= i < |sent| ==> 0 < |sent[i]| <= READ_BUF
    {
      if failsAt == Some(taken) {
        return sent, ReadFailed, taken;
      }
      var most := Min(Min(READ_BUF, remaining), Readable(input, failsAt) - taken);
      if most == 0 {
        break;
      }
      var n: nat :| 1 <= n <= most;
      var chunk := input[taken..taken + n];
      remaining := remaining - n;
      if |sent| == accepts {
        taken := taken + n;
        assert input[..taken - n] <= input[..taken];
        return sent, ReceiverGone, taken;
      }
      FlattenAppend(sent, chunk);
      assert input[..taken + n] == input[..taken] + chunk;
      sent, taken := sent + [chunk], taken + n;
    }
    fed := Forwarded;
  }

  /** Forward everything up to the end of the input. */
  method FeedAll(input: seq<byte>, failsAt: Option<nat>, accepts: nat)
    returns (sent: seq<seq<byte>>, fed: Fed, inbound: nat)
    ensures forall i :: 0 <= i < |sent| ==> 0 < |sent[i]| <= READ_BUF
    ensures inbound <= |input| && Flatten(sent) <= input[..inbound]
    ensures fed.Forwarded? ==> Flatten(sent) == input && inbound == |input|
    ensures fed.Forwarded? ==> failsAt.None? || failsAt.value > |input|
    ensures fed.ReadFailed? ==> failsAt == Some(inbound) && Flatten(sent) == input[..inbound]
    ensures fed.ReceiverGone? ==> |sent| == accepts
  {
    sent, inbound := [], 0;
    while true
      invariant inbound <= Readable(input, failsAt) && |sent| <= accepts && Flatten(sent) == input[..inbound]
      invariant forall i :: 0 <= i < |sent| ==> 0 < |sent[i]| <= READ_BUF
      decreases |input| - inbound
    {
      if failsAt == Some(inbound) {
        return sent, ReadFailed, inbound;
      }
      var most := Min(READ_BUF, Readable(input, failsAt) - inbound);
      if most == 0 {
        break;
      }
      var n: nat :| 1 <= n <= most;
      var chunk := input[inbound..inbound + n];
      inbound := inbound + n;
      if |sent| == accepts {
        assert input[..inbound - n] <= input[..inbound];
        return sent, ReceiverGone, inbound;
      }
      FlattenAppend(sent, chunk);
      assert input[..inbound] == input[..inbound - n] + chunk;
      sent := sent + [chunk];
    }
    assert input[..|input|] == input;
    fed := Forwarded;
  }
}
