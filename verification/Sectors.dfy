// A rotated NV region: a record is written to the oldest sector under the next sequence
// number and read from the newest sector whose checksum holds. A power cut may leave any
// debris that fails the checksum in the sector being written.
module Sectors {
  import opened Base

  const U32_MAX: u32 := 0xFFFF_FFFF

  /** A sector: no magic; magic and sequence number over a bad checksum; or an intact record. */
  datatype Sector<T> = Blank | Torn(num: u32) | Good(num: u32, rec: T)

  // ----------------------------------------------------------------------
  // Reading
  // ----------------------------------------------------------------------

  /** The first sector, among the first `n`, holding the greatest intact sequence number. */
  function Latest<T>(s: seq<Sector<T>>, n: nat): (r: Option<nat>)
    requires n <= |s|
    ensures r.None? ==> forall j :: 0 <= j < n ==> !s[j].Good?
    ensures r.Some? ==> r.value < n && s[r.value].Good?
    ensures r.Some? ==> forall j :: 0 <= j < n && s[j].Good? ==> s[j].num <= s[r.value].num
    ensures r.Some? ==> forall j :: 0 <= j < r.value && s[j].Good? ==> s[j].num < s[r.value].num
  {
    if n == 0 then None
    else
      var best := Latest(s, n - 1);
      if s[n - 1].Good? && (best.None? || s[n - 1].num > s[best.value].num) then Some(n - 1) else best
  }

  /** What the region reads as. */
  function Stored<T>(s: seq<Sector<T>>): Option<T> {
    match Latest(s, |s|)
    case None => None
    case Some(i) => Some(s[i].rec)
  }

  method ReadRecord<T>(dev: array<Sector<T>>) returns (r: Option<T>)
    ensures r == Stored(dev[..])
  {
    var best: Option<(u32, T)> := None;
    for i := 0 to dev.Length
      invariant var l := Latest(dev[..], i);
                best == if l.None? then None else Some((dev[l.value].num, dev[l.value].rec))
    {
      if dev[i].Good? && (best.None? || dev[i].num > best.value.0) {
        best := Some((dev[i].num, dev[i].rec));
      }
    }
    r := if best.Some? then Some(best.value.1) else None;
  }

  // ----------------------------------------------------------------------
  // Writing
  // ----------------------------------------------------------------------

  /** The first sector without magic, or the length. */
  function FirstBlank<T>(s: seq<Sector<T>>, n: nat): (r: nat)
    requires n <= |s|
    ensures r <= n && (r < n ==> s[r].Blank?)
    ensures forall j :: 0 <= j < r ==> !s[j].Blank?
  {
    if n == 0 then 0
    else if FirstBlank(s, n - 1) < n - 1 then FirstBlank(s, n - 1)
    else if s[n - 1].Blank? then n - 1 else n
  }

  /** The smallest and greatest sequence number in any header, intact or torn, of the first `n`. */
  function MinSeq<T>(s: seq<Sector<T>>, n: nat): (r: u32)
    requires n <= |s|
    ensures forall j :: 0 <= j < n && !s[j].Blank? ==> r <= s[j].num
  {
    if n == 0 then U32_MAX
    else if !s[n - 1].Blank? && s[n - 1].num < MinSeq(s, n - 1) then s[n - 1].num else MinSeq(s, n - 1)
  }

  function MaxSeq<T>(s: seq<Sector<T>>, n: nat): (r: u32)
    requires n <= |s|
    ensures forall j :: 0 <= j < n && !s[j].Blank? ==> s[j].num <= r
  {
    if n == 0 then 0
    else if !s[n - 1].Blank? && s[n - 1].num > MaxSeq(s, n - 1) then s[n - 1].num else MaxSeq(s, n - 1)
  }

  /** The first header carrying the smallest number. */
  function MinAt<T>(s: seq<Sector<T>>, n: nat): (r: nat)
    requires n <= |s|
    ensures n == 0 ==> r == 0
    ensures n > 0 ==> r < n
    ensures FirstBlank(s, n) == n && n > 0 ==> s[r].num == MinSeq(s, n) && forall j :: 0 <= j < r ==> s[j].num > s[r].num
  {
    if n == 0 then 0
    else if !s[n - 1].Blank? && s[n - 1].num < MinSeq(s, n - 1) then n - 1 else MinAt(s, n - 1)
  }

  /** The sector the next write goes to. */
  function Target<T>(s: seq<Sector<T>>): (r: nat)
    requires s != []
    ensures r < |s|
  {
    if FirstBlank(s, |s|) < |s| then FirstBlank(s, |s|) else MinAt(s, |s|)
  }

  function WrappingSucc(x: u32): u32 {
    if x == U32_MAX then 0 else x + 1
  }

  function NextSeq<T>(s: seq<Sector<T>>): u32 {
    WrappingSucc(MaxSeq(s, |s|))
  }

  /** A write leaves its record, or the debris of a power cut. */
  function Written<T>(s: seq<Sector<T>>, rec: T, debris: Option<Sector<T>>): (r: seq<Sector<T>>)
    requires s != []
    ensures |r| == |s|
  {
    s[Target(s) := if debris.Some? then debris.value else Good(NextSeq(s), rec)]
  }

  method WriteRecord<T>(dev: array<Sector<T>>, rec: T, debris: Option<Sector<T>>)
    requires dev.Length > 0
    modifies dev
    ensures dev[..] == Written(old(dev[..]), rec, debris)
  {
    var maxSeq: u32, minSeq: u32, minIdx, emptyIdx := 0, U32_MAX, 0, None;
    for i := 0 to dev.Length
      invariant dev[..] == old(dev[..])
      invariant maxSeq == MaxSeq(dev[..], i) && minSeq == MinSeq(dev[..], i) && minIdx == MinAt(dev[..], i) < dev.Length
      invariant emptyIdx == if FirstBlank(dev[..], i) < i then Some(FirstBlank(dev[..], i)) else None
    {
      if dev[i].Blank? {
        if emptyIdx.None? {
          emptyIdx := Some(i);
        }
      } else {
        if dev[i].num > maxSeq {
          maxSeq := dev[i].num;
        }
        if dev[i].num < minSeq {
          minSeq := dev[i].num;
          minIdx := i;
        }
      }
    }
    var target := if emptyIdx.Some? then emptyIdx.value else minIdx;
    var newSeq := WrappingSucc(maxSeq);
    dev[target] := if debris.Some? then debris.value else Good(newSeq, rec);
  }

  // ----------------------------------------------------------------------
  // What a write promises
  // ----------------------------------------------------------------------

  /** Sector `i` reads back as the region: it is what `Latest` finds. */
  lemma LatestIs<T>(s: seq<Sector<T>>, i: nat)
    requires i < |s| && s[i].Good?
    requires forall j :: 0 <= j < |s| && s[j].Good? ==> s[j].num <= s[i].num
    requires forall j :: 0 <= j < i && s[j].Good? ==> s[j].num < s[i].num
    ensures Latest(s, |s|) == Some(i)
  {
  }

  /**
   * A completed write reads back exactly when the sequence number does not wrap, or no intact
   * sector is left to outrank the wrapped one.
   */
  lemma WriteReadsBack<T>(s: seq<Sector<T>>, rec: T)
    requires s != []
    ensures var after, t := Written(s, rec, None), Target(s);
            Latest(after, |after|) == Some(t)
            <==> MaxSeq(s, |s|) < U32_MAX
                 || forall j :: 0 <= j < |s| && j != t && s[j].Good? ==> s[j].num == 0 && t < j
    ensures MaxSeq(s, |s|) < U32_MAX ==> Stored(Written(s, rec, None)) == Some(rec)
  {
    var after, t := Written(s, rec, None), Target(s);
    if MaxSeq(s, |s|) < U32_MAX || forall j :: 0 <= j < |s| && j != t && s[j].Good? ==> s[j].num == 0 && t < j {
      LatestIs(after, t);
    } else {
      var j :| 0 <= j < |s| && j != t && s[j].Good? && !(s[j].num == 0 && t < j);
      assert after[j] == s[j] && after[t].num == 0;
    }
  }

  /** The sectors a write would take before the one holding the current record. */
  predicate Older<T>(s: seq<Sector<T>>, cur: nat, j: nat)
    requires cur < |s| && j < |s| && s[cur].Good?
  {
    s[j].Blank? || s[j].num < s[cur].num || (s[j].num == s[cur].num && j < cur)
  }

  /** A write takes the current sector only when no other is older. */
  lemma TakesOldest<T>(s: seq<Sector<T>>, cur: nat)
    requires cur < |s| && s[cur].Good?
    ensures Target(s) == cur || Older(s, cur, Target(s))
    ensures Target(s) == cur <==> forall j :: 0 <= j < |s| ==> !Older(s, cur, j)
  {
  }

  /** What a cut may leave in the sector being written: anything not intact, or what was there. */
  ghost predicate CutLeaves<T>(s: seq<Sector<T>>, debris: Sector<T>)
    requires s != []
  {
    debris.Good? ==> debris == s[Target(s)]
  }

  /**
   * A power cut during a write keeps the record that was stored exactly when some other sector
   * is blank or carries an older header, or the sector it would have taken was left as it was.
   */
  lemma TornWriteKeeps<T>(s: seq<Sector<T>>, rec: T, debris: Sector<T>)
    requires s != [] && CutLeaves(s, debris) && Latest(s, |s|).Some?
    ensures var cur, after := Latest(s, |s|).value, Written(s, rec, Some(debris));
            Latest(after, |after|) == Some(cur) <==> debris == s[Target(s)] || exists j :: 0 <= j < |s| && Older(s, cur, j)
  {
    var cur, after := Latest(s, |s|).value, Written(s, rec, Some(debris));
    TakesOldest(s, cur);
    if debris == s[Target(s)] {
      assert after == s;
    } else if exists j :: 0 <= j < |s| && Older(s, cur, j) {
      LatestIs(after, cur);
    }
  }

  // ----------------------------------------------------------------------
  // How many power cuts in a row a record survives
  // ----------------------------------------------------------------------

  /** Writes that were all cut, each leaving its own debris. */
  function TornRun<T>(s: seq<Sector<T>>, debris: seq<Sector<T>>): (r: seq<Sector<T>>)
    requires s != []
    ensures |r| == |s|
    decreases |debris|
  {
    if debris == [] then s else TornRun(s[Target(s) := debris[0]], debris[1..])
  }

  /** How many of the first `n` sectors are older than the current one. */
  function OlderCount<T>(s: seq<Sector<T>>, cur: nat, n: nat): (r: nat)
    requires cur < |s| && n <= |s| && s[cur].Good?
    ensures r > 0 <==> exists j :: 0 <= j < n && Older(s, cur, j)
  {
    if n == 0 then 0 else OlderCount(s, cur, n - 1) + (if Older(s, cur, n - 1) then 1 else 0)
  }

  /** Cut writes in a row, each leaving what a cut may leave. */
  ghost predicate AllCuts<T>(s: seq<Sector<T>>, debris: seq<Sector<T>>)
    requires s != []
    decreases |debris|
  {
    debris == [] || (CutLeaves(s, debris[0]) && AllCuts(s[Target(s) := debris[0]], debris[1..]))
  }

  predicate NoneGood<T>(s: seq<Sector<T>>) {
    forall j :: 0 <= j < |s| ==> !s[j].Good?
  }

  lemma {:induction false} CountUpdate<T>(s: seq<Sector<T>>, cur: nat, t: nat, d: Sector<T>, n: nat)
    requires cur < |s| && t < |s| && n <= |s| && t != cur && s[cur].Good? && Older(s, cur, t)
    ensures OlderCount(s[t := d], cur, n)
            == OlderCount(s, cur, n) - (if t < n && !Older(s[t := d], cur, t) then 1 else 0)
    decreases n
  {
    if n == 0 {
    } else {
      CountUpdate(s, cur, t, d, n - 1);
    }
  }

  /** A cut costs at most one older sector, and the current one only when none is left. */
  lemma OneCut<T>(s: seq<Sector<T>>, cur: nat, debris: Sector<T>)
    requires cur < |s| && Latest(s, |s|) == Some(cur) && CutLeaves(s, debris) && OlderCount(s, cur, |s|) > 0
    ensures var after := s[Target(s) := debris];
            && Older(s, cur, Target(s)) && Target(s) != cur
            && Latest(after, |after|) == Some(cur)
            && OlderCount(after, cur, |s|) == OlderCount(s, cur, |s|) - (if Older(after, cur, Target(s)) then 0 else 1)
  {
    TakesOldest(s, cur);
    CountUpdate(s, cur, Target(s), debris, |s|);
    if debris.Good? {
      assert s[Target(s) := debris] == s;
    } else {
      LatestIs(s[Target(s) := debris], cur);
    }
  }

  lemma {:induction false} SurvivesCuts<T>(s: seq<Sector<T>>, cur: nat, debris: seq<Sector<T>>)
    requires cur < |s| && Latest(s, |s|) == Some(cur) && AllCuts(s, debris) && |debris| <= OlderCount(s, cur, |s|)
    ensures Latest(TornRun(s, debris), |s|) == Some(cur) && TornRun(s, debris)[cur] == s[cur]
    decreases |debris|
  {
    if debris == [] {
    } else {
      OneCut(s, cur, debris[0]);
      SurvivesCuts(s[Target(s) := debris[0]], cur, debris[1..]);
    }
  }

  lemma {:induction false} CountAll<T>(s: seq<Sector<T>>, cur: nat, n: nat)
    requires cur < |s| && n <= |s| && s[cur].Good? && forall j :: 0 <= j < |s| && j != cur ==> Older(s, cur, j)
    ensures OlderCount(s, cur, n) == if cur < n then n - 1 else n
  {
    if n == 0 {
    } else {
      CountAll(s, cur, n - 1);
    }
  }

  /** After a completed write every other sector is older. */
  lemma AllOthersOlder<T>(s: seq<Sector<T>>, rec: T)
    requires s != [] && MaxSeq(s, |s|) < U32_MAX
    ensures var after := Written(s, rec, None);
            Latest(after, |s|) == Some(Target(s)) && OlderCount(after, Target(s), |s|) == |s| - 1
  {
    WriteReadsBack(s, rec);
    CountAll(Written(s, rec, None), Target(s), |s|);
  }

  /**
   * A completed write in a region of N sectors survives any N - 1 cut writes in a row, whatever
   * a cut may leave.
   */
  lemma CompletedWriteSurvives<T>(s: seq<Sector<T>>, rec: T, debris: seq<Sector<T>>)
    requires s != [] && MaxSeq(s, |s|) < U32_MAX && AllCuts(Written(s, rec, None), debris) && |debris| < |s|
    ensures Stored(TornRun(Written(s, rec, None), debris)) == Some(rec)
  {
    AllOthersOlder(s, rec);
    SurvivesCuts(Written(s, rec, None), Target(s), debris);
  }

  /** A write, and what a power cut left in its sector, if it was cut. */
  datatype Attempt<T> = Attempt(rec: T, debris: Option<Sector<T>>)

  function Attempts<T>(s: seq<Sector<T>>, ws: seq<Attempt<T>>): (r: seq<Sector<T>>)
    requires s != []
    ensures |r| == |s|
    decreases |ws|
  {
    if ws == [] then s else Attempts(Written(s, ws[0].rec, ws[0].debris), ws[1..])
  }

  /** The record last written completely. */
  function LastWhole<T>(rec: T, ws: seq<Attempt<T>>): T {
    if ws == [] then rec else LastWhole(if ws[0].debris.Some? then rec else ws[0].rec, ws[1..])
  }

  /** No number wraps, and between two completed writes at most `spare` are cut, `left` until the next. */
  ghost predicate Bearable<T>(s: seq<Sector<T>>, ws: seq<Attempt<T>>, left: nat, spare: nat)
    requires s != []
    decreases |ws|
  {
    ws == []
    || (match ws[0].debris
        case Some(d) =>
          left > 0 && CutLeaves(s, d) && Bearable(Written(s, ws[0].rec, Some(d)), ws[1..], left - 1, spare)
        case None => MaxSeq(s, |s|) < U32_MAX && Bearable(Written(s, ws[0].rec, None), ws[1..], spare, spare))
  }

  lemma {:induction false} AttemptsKeepLast<T>(s: seq<Sector<T>>, cur: nat, ws: seq<Attempt<T>>, left: nat)
    requires cur < |s| && Latest(s, |s|) == Some(cur) && left <= OlderCount(s, cur, |s|)
    requires Bearable(s, ws, left, |s| - 1)
    ensures Stored(Attempts(s, ws)) == Some(LastWhole(s[cur].rec, ws))
    decreases |ws|
  {
    hide Latest, OlderCount, Target, MaxSeq;
    if ws == [] {
    } else if ws[0].debris.Some? {
      OneCut(s, cur, ws[0].debris.value);
      AttemptsKeepLast(s[Target(s) := ws[0].debris.value], cur, ws[1..], left - 1);
    } else {
      AllOthersOlder(s, ws[0].rec);
      AttemptsKeepLast(Written(s, ws[0].rec, None), Target(s), ws[1..], |s| - 1);
    }
  }

  /**
   * From a completed write on, a region of N sectors is an atomic register: through any writes,
   * completed or cut, with at most N - 1 cuts in a row, it reads as the one last completed.
   */
  lemma AtomicRegister<T>(s: seq<Sector<T>>, rec: T, ws: seq<Attempt<T>>)
    requires s != [] && MaxSeq(s, |s|) < U32_MAX && Bearable(Written(s, rec, None), ws, |s| - 1, |s| - 1)
    ensures Stored(Attempts(Written(s, rec, None), ws)) == Some(LastWhole(rec, ws))
  {
    hide Latest, OlderCount, Target, MaxSeq, Bearable, Attempts, LastWhole;
    AllOthersOlder(s, rec);
    AttemptsKeepLast(Written(s, rec, None), Target(s), ws, |s| - 1);
  }

  /** `n` cut writes that each get as far as the new header. */
  function HeaderOnlyRun<T>(s: seq<Sector<T>>, n: nat): (r: seq<Sector<T>>)
    requires s != []
    ensures |r| == |s|
    decreases n
  {
    if n == 0 then s else HeaderOnlyRun(s[Target(s) := Torn(NextSeq(s))], n - 1)
  }

  lemma {:induction false} MaxAfter<T>(s: seq<Sector<T>>, t: nat, d: Sector<T>, n: nat)
    requires t < |s| && n <= |s| && !d.Blank?
    ensures MaxSeq(s[t := d], n) <= Max(MaxSeq(s, n), d.num)
    decreases n
  {
    if n == 0 {
    } else {
      MaxAfter(s, t, d, n - 1);
    }
  }

  /** Sector `cur` is intact and newer than every other intact one. */
  predicate Newest<T>(s: seq<Sector<T>>, cur: nat) {
    cur < |s| && s[cur].Good? && forall j :: 0 <= j < |s| && j != cur && s[j].Good? ==> s[j].num < s[cur].num
  }

  lemma LastOne<T>(s: seq<Sector<T>>, cur: nat, h: u32)
    requires Newest(s, cur) && OlderCount(s, cur, |s|) == 0
    ensures NoneGood(s[Target(s) := Torn(h)])
  {
    hide OlderCount, Target;
    TakesOldest(s, cur);
    forall j | 0 <= j < |s| && j != cur ensures !s[j].Good? {
      assert !Older(s, cur, j);
    }
  }

  lemma OneHeader<T>(s: seq<Sector<T>>, cur: nat)
    requires Newest(s, cur) && OlderCount(s, cur, |s|) > 0 && MaxSeq(s, |s|) < U32_MAX
    ensures var after := s[Target(s) := Torn(NextSeq(s))];
            && Newest(after, cur)
            && OlderCount(after, cur, |s|) == OlderCount(s, cur, |s|) - 1
            && MaxSeq(after, |s|) <= MaxSeq(s, |s|) + 1
  {
    hide OlderCount, Target;
    LatestIs(s, cur);
    OneCut(s, cur, Torn(NextSeq(s)));
    MaxAfter(s, Target(s), Torn(NextSeq(s)), |s|);
  }

  lemma {:induction false} HeadersLose<T>(s: seq<Sector<T>>, cur: nat)
    requires Newest(s, cur)
    requires MaxSeq(s, |s|) + OlderCount(s, cur, |s|) < U32_MAX
    ensures NoneGood(HeaderOnlyRun(s, OlderCount(s, cur, |s|) + 1))
    decreases OlderCount(s, cur, |s|)
  {
    var n := OlderCount(s, cur, |s|);
    var after: seq<Sector<T>> := s[Target(s) := Torn(NextSeq(s))];
    assert HeaderOnlyRun(s, n + 1) == HeaderOnlyRun(after, n);
    if n == 0 {
      LastOne(s, cur, NextSeq(s));
    } else {
      OneHeader(s, cur);
      hide OlderCount, Target, MaxSeq, Newest, NextSeq;
      HeadersLose(after, cur);
    }
  }

  /**
   * One more is too many: N cut writes in a row that each reach the new header leave nothing
   * to read. The boot record has two sectors, so two such cuts lose it.
   */
  lemma RegionLost<T>(s: seq<Sector<T>>, rec: T)
    requires s != [] && MaxSeq(s, |s|) + |s| < U32_MAX
    ensures Stored(HeaderOnlyRun(Written(s, rec, None), |s|)) == None
  {
    AllOthersOlder(s, rec);
    MaxAfter(s, Target(s), Good(NextSeq(s), rec), |s|);
    assert Newest(Written(s, rec, None), Target(s));
    hide Target, OlderCount, MaxSeq, Newest, Written;
    HeadersLose(Written(s, rec, None), Target(s));
  }
}
