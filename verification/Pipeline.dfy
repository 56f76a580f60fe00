// The pipelined decompressor: a producer thread that decompresses and a consumer
// thread that hashes and writes, joined by two bounded channels and a fixed pool
// of recycled buffers.
//
// The two threads are one state machine. A label names which thread moves and what
// the outside world (decoder, sink) answered; `Next` is undefined when the move is
// blocked. A run is any list of labels, so it covers every interleaving.
module Pipeline {
  import opened Base

  const POOL: nat := 256
  const CHUNK: nat := 65536

  type Buffer = seq<byte>
  type Digest = seq<byte>

  /** What one call works on: the decompressed stream, the sink, the digest wanted. */
  datatype Job = Job(stream: seq<byte>, hasWriter: bool, expected: Option<Digest>, hash: seq<byte> -> Digest)

  datatype Outcome = Success(total: nat, digest: Digest) | Failure

  /** What the consumer thread hands to `join`; a panic and an error both read as `Broken`. */
  datatype Verdict = Finished(total: nat, digest: Digest) | Broken

  datatype Producer =
    | Starting
    | Taking
    | Reading(buf: Buffer)
    | Sending(buf: Buffer)
    | Stopped(ok: bool)
    | Joining(ok: bool)
    | Returned(outcome: Outcome)

  datatype Consumer =
    | Receiving
    | Hashing(chunk: Buffer)
    | Writing(chunk: Buffer)
    | Recycling(spare: Buffer)
    | Flushing
    | Leaving(verdict: Verdict)

  datatype State = State(
    remaining: seq<byte>,
    free: seq<Buffer>,
    full: seq<Buffer>,
    fullTx: bool,
    fullRx: bool,
    freeTx: bool,
    producer: Producer,
    consumer: Consumer,
    hashed: seq<byte>,
    sink: seq<byte>,
    total: nat)

  datatype Label =
    // producer
    | InitOk | InitFail
    | Take | TakeFresh
    | ReadSome(n: nat) | ReadEnd | ReadFail
    | Send | SendRefused
    | Hangup | Join
    // consumer
    | Receive | NoMore
    | Hash
    | WriteOk | WriteFail(written: nat)
    | Recycle
    | FlushOk | FlushFail
    | DropFullRx | DropFreeTx

  /** The labels on which the outside world reports an error. */
  predicate IsFault(l: Label) {
    l.InitFail? || l.ReadFail? || l.WriteFail? || l.FlushFail?
  }

  function Initial(job: Job): State {
    State(job.stream, seq(POOL, _ => Zeros(CHUNK)), [], true, true, true, Starting, Receiving, [], [], 0)
  }

  /** `Vec::resize(n, 0)`. */
  function Resize(buf: Buffer, n: nat): (r: Buffer)
    ensures |r| == n
  {
    if n <= |buf| then buf[..n] else buf + Zeros(n - |buf|)
  }

  /** The buffer after a read put `data` at its start, cut to what was read. */
  function Filled(buf: Buffer, data: seq<byte>): (r: Buffer)
    requires |data| <= |buf|
    ensures r == data
  {
    (data + buf[|data|..])[..|data|]
  }

  /** How the joined thread's verdict, the producer's own result and the digest combine. */
  function Conclude(job: Job, verdict: Verdict, producerOk: bool): Outcome {
    if verdict.Broken? || !producerOk then Failure
    else if job.expected.Some? && job.expected.value != verdict.digest then Failure
    else Success(verdict.total, verdict.digest)
  }

  function ProducerNext(job: Job, s: State, l: Label): Option<State> {
    match (l, s.producer)
    case (InitOk, Starting) => Some(s.(producer := Taking))
    case (InitFail, Starting) => Some(s.(producer := Stopped(false)))
    case (Take, Taking) =>
      if s.free == [] then None
      else Some(s.(free := s.free[1..], producer := Reading(Resize(s.free[0], CHUNK))))
    case (TakeFresh, Taking) =>
      // `recv` fails only once the queue is empty and its sender is gone.
      if s.free != [] || s.freeTx then None
      else Some(s.(producer := Reading(Resize(Zeros(CHUNK), CHUNK))))
    case (ReadSome(n), Reading(buf)) =>
      if n == 0 || n > |buf| || n > |s.remaining| then None
      else Some(s.(remaining := s.remaining[n..], producer := Sending(Filled(buf, s.remaining[..n]))))
    case (ReadEnd, Reading(_)) =>
      if s.remaining != [] then None else Some(s.(producer := Stopped(true)))
    case (ReadFail, Reading(_)) => Some(s.(producer := Stopped(false)))
    case (Send, Sending(buf)) =>
      if !s.fullRx || |s.full| >= POOL then None
      else Some(s.(full := s.full + [buf], producer := Taking))
    case (SendRefused, Sending(_)) =>
      if s.fullRx then None else Some(s.(producer := Stopped(true)))
    case (Hangup, Stopped(ok)) => Some(s.(fullTx := false, producer := Joining(ok)))
    case (Join, Joining(ok)) =>
      if s.consumer.Leaving? && !s.fullRx && !s.freeTx
      then Some(s.(producer := Returned(Conclude(job, s.consumer.verdict, ok))))
      else None
    case _ => None
  }

  function ConsumerNext(job: Job, s: State, l: Label): Option<State> {
    match (l, s.consumer)
    case (Receive, Receiving) =>
      if s.full == [] then None else Some(s.(full := s.full[1..], consumer := Hashing(s.full[0])))
    case (NoMore, Receiving) =>
      if s.full != [] || s.fullTx then None else Some(s.(consumer := Flushing))
    case (Hash, Hashing(chunk)) => Some(s.(hashed := s.hashed + chunk, consumer := Writing(chunk)))
    case (WriteOk, Writing(chunk)) =>
      Some(s.(sink := if job.hasWriter then s.sink + chunk else s.sink,
              total := s.total + |chunk|, consumer := Recycling([])))
    case (WriteFail(k), Writing(chunk)) =>
      if !job.hasWriter || k > |chunk| then None
      else Some(s.(sink := s.sink + chunk[..k], consumer := Leaving(Broken)))
    case (Recycle, Recycling(spare)) =>
      if |s.free| >= POOL then None else Some(s.(free := s.free + [spare], consumer := Receiving))
    case (FlushOk, Flushing) => Some(s.(consumer := Leaving(Finished(s.total, job.hash(s.hashed)))))
    case (FlushFail, Flushing) => if job.hasWriter then Some(s.(consumer := Leaving(Broken))) else None
    case (DropFullRx, Leaving(_)) => if s.fullRx then Some(s.(fullRx := false, full := [])) else None
    case (DropFreeTx, Leaving(_)) => if s.freeTx then Some(s.(freeTx := false)) else None
    case _ => None
  }

  /** One move of either thread; `None` when it is blocked or not its turn. */
  function Next(job: Job, s: State, l: Label): Option<State> {
    match ProducerNext(job, s, l)
    case Some(t) => Some(t)
    case None => ConsumerNext(job, s, l)
  }

  function Exec(job: Job, s: State, ls: seq<Label>): Option<State>
    decreases |ls|
  {
    if ls == [] then Some(s)
    else match Next(job, s, ls[0])
         case Some(t) => Exec(job, t, ls[1..])
         case None => None
  }

  // ----------------------------------------------------------------------
  // The invariant
  // ----------------------------------------------------------------------

  function ProducerHolds(s: State): nat {
    if s.producer.Reading? || s.producer.Sending? then 1 else 0
  }

  function ConsumerHolds(s: State): nat {
    if s.consumer.Hashing? || s.consumer.Writing? || s.consumer.Recycling? then 1 else 0
  }

  /** Every buffer of the pool: queued on either channel or in a thread's hand. */
  function Buffers(s: State): nat {
    |s.free| + |s.full| + ProducerHolds(s) + ConsumerHolds(s)
  }

  predicate Looping(p: Producer) {
    p.Starting? || p.Taking? || p.Reading? || p.Sending?
  }

  /** Bytes decompressed and not yet hashed, in stream order, then those still to come. */
  function InFlight(s: State): seq<byte> {
    (if s.consumer.Hashing? then s.consumer.chunk else []) + Flatten(s.full)
    + (if s.producer.Sending? then s.producer.buf else []) + s.remaining
  }

  /** Buffer conservation and who may have closed what. */
  ghost predicate ChannelInv(s: State) {
    && (s.producer.Reading? ==> |s.producer.buf| == CHUNK)
    && (!s.consumer.Leaving? ==> s.fullRx && s.freeTx)
    && (s.fullTx <==> Looping(s.producer) || s.producer.Stopped?)
    && (!s.fullRx ==> s.full == [])
    && (!s.consumer.Leaving? ==> Buffers(s) <= POOL)
    && (!s.consumer.Leaving? && Looping(s.producer) ==> Buffers(s) == POOL)
    && (s.consumer.Flushing? ==> s.full == [] && !s.fullTx)
    && (s.producer.Returned? ==> s.consumer.Leaving? && !s.fullRx && !s.freeTx)
  }

  function Unwritten(s: State): seq<byte> {
    if s.consumer.Writing? then s.consumer.chunk else []
  }

  /** The hashed, the written and the counted bytes are the same bytes. */
  ghost predicate InStep(job: Job, s: State) {
    && (job.hasWriter ==> s.hashed == s.sink + Unwritten(s))
    && |s.hashed| == s.total + |Unwritten(s)|
  }

  /** The whole stream reached the hasher, the counter and the sink. */
  ghost predicate Delivered(job: Job, s: State) {
    s.remaining == [] && s.hashed == job.stream && s.total == |job.stream| && (job.hasWriter ==> s.sink == job.stream)
  }

  /** What a run without faults must return. */
  function Ideal(job: Job): Outcome {
    Conclude(job, Finished(|job.stream|, job.hash(job.stream)), true)
  }

  /** Nothing is lost, repeated or reordered while the consumer is healthy. */
  ghost predicate DataInv(job: Job, s: State) {
    && (!s.consumer.Leaving? ==> InStep(job, s) && s.hashed + InFlight(s) == job.stream)
    && (!s.consumer.Leaving? && (s.producer.Stopped? || s.producer.Joining?) && s.producer.ok ==> s.remaining == [])
    && (s.consumer.Leaving? && s.consumer.verdict.Finished? ==>
          && !s.fullTx
          && s.consumer.verdict == Finished(s.total, job.hash(s.hashed))
          && (s.producer.Joining? && s.producer.ok ==> Delivered(job, s)))
    && (s.producer.Returned? && s.producer.outcome.Success? ==>
          Delivered(job, s) && s.producer.outcome == Ideal(job))
  }

  /** The sink never holds anything but the front of the stream, whatever failed. */
  ghost predicate SinkInv(job: Job, s: State) {
    job.hasWriter ==> s.sink <= job.stream
  }

  ghost predicate Inv(job: Job, s: State) {
    ChannelInv(s) && DataInv(job, s) && SinkInv(job, s)
  }

  lemma InitialInv(job: Job)
    ensures Inv(job, Initial(job))
  {
  }

  lemma ProducerKeepsChannels(job: Job, s: State, l: Label)
    requires ChannelInv(s) && ProducerNext(job, s, l).Some?
    ensures ChannelInv(ProducerNext(job, s, l).value)
  {
  }

  lemma ProducerKeepsOrder(job: Job, s: State, l: Label)
    requires ProducerNext(job, s, l).Some? && (l.SendRefused? ==> s.consumer.Leaving?)
    ensures var t := ProducerNext(job, s, l).value;
            !t.consumer.Leaving? ==> InFlight(t) == InFlight(s)
  {
    hide Flatten, Resize, Filled, Conclude, Zeros;
    if l.ReadSome? {
      assert s.remaining[..l.n] + s.remaining[l.n..] == s.remaining;
    } else if l.Send? {
      FlattenAppend(s.full, s.producer.buf);
    }
  }

  lemma ProducerKeepsData(job: Job, s: State, l: Label)
    requires Inv(job, s) && ProducerNext(job, s, l).Some?
    ensures DataInv(job, ProducerNext(job, s, l).value)
  {
    ProducerKeepsOrder(job, s, l);
    hide InFlight, InStep;
  }

  lemma ConsumerKeepsChannels(job: Job, s: State, l: Label)
    requires ChannelInv(s) && ConsumerNext(job, s, l).Some?
    ensures ChannelInv(ConsumerNext(job, s, l).value)
  {
  }

  /** What the consumer takes from the front of the queue it adds to the hashed bytes. */
  lemma ConsumerKeepsOrder(job: Job, s: State, l: Label)
    requires ConsumerNext(job, s, l).Some?
    ensures var t := ConsumerNext(job, s, l).value;
            !l.DropFullRx? ==> t.hashed + InFlight(t) == s.hashed + InFlight(s)
  {
    hide Flatten;
    if l.Receive? && s.full != [] {
      FlattenFirst(s.full);
    }
  }

  lemma ConsumerKeepsData(job: Job, s: State, l: Label)
    requires Inv(job, s) && ConsumerNext(job, s, l).Some?
    ensures DataInv(job, ConsumerNext(job, s, l).value)
  {
    ConsumerKeepsOrder(job, s, l);
  }

  /** A failed write leaves the part of its chunk that was written. */
  lemma ConsumerKeepsSink(job: Job, s: State, l: Label)
    requires Inv(job, s) && ConsumerNext(job, s, l).Some?
    ensures SinkInv(job, ConsumerNext(job, s, l).value)
  {
    hide InFlight;
    if s.consumer.Writing? && job.hasWriter {
      var chunk := s.consumer.chunk;
      assert s.sink + chunk <= job.stream by {
        assert s.sink + chunk + InFlight(s) == job.stream;
      }
      if l.WriteFail? && l.written <= |chunk| {
        assert s.sink + chunk == s.sink + chunk[..l.written] + chunk[l.written..];
      }
    }
  }

  lemma StepKeepsInv(job: Job, s: State, l: Label)
    requires Inv(job, s) && Next(job, s, l).Some?
    ensures Inv(job, Next(job, s, l).value)
  {
    if ProducerNext(job, s, l).Some? {
      ProducerKeepsChannels(job, s, l);
      ProducerKeepsData(job, s, l);
    } else {
      ConsumerKeepsChannels(job, s, l);
      ConsumerKeepsData(job, s, l);
      ConsumerKeepsSink(job, s, l);
    }
  }

  lemma {:induction false} ExecKeepsInv(job: Job, s: State, ls: seq<Label>)
    requires Inv(job, s) && Exec(job, s, ls).Some?
    ensures Inv(job, Exec(job, s, ls).value)
    decreases |ls|
  {
    if ls == [] {
    } else {
      StepKeepsInv(job, s, ls[0]);
      ExecKeepsInv(job, Next(job, s, ls[0]).value, ls[1..]);
    }
  }

  /** A state some run of the pipeline reaches. */
  ghost predicate Reachable(job: Job, s: State) {
    exists ls :: Exec(job, Initial(job), ls) == Some(s)
  }

  lemma ReachableInv(job: Job, s: State)
    requires Reachable(job, s)
    ensures Inv(job, s)
  {
    var ls :| Exec(job, Initial(job), ls) == Some(s);
    InitialInv(job);
    ExecKeepsInv(job, Initial(job), ls);
  }

  // ----------------------------------------------------------------------
  // Safety
  // ----------------------------------------------------------------------

  /** Something already went wrong, whatever the threads do next. */
  ghost predicate Doomed(s: State) {
    if s.producer.Returned? then s.producer.outcome == Failure
    else s.consumer == Leaving(Broken) || ((s.producer.Stopped? || s.producer.Joining?) && !s.producer.ok)
  }

  /** No error so far, and if the call has returned it returned what it should. */
  ghost predicate Healthy(job: Job, s: State) {
    && s.consumer != Leaving(Broken)
    && (s.producer.Stopped? || s.producer.Joining? ==> s.producer.ok)
    && (s.producer.Returned? ==> s.producer.outcome == Ideal(job))
  }

  lemma FaultDooms(job: Job, s: State, l: Label)
    requires Inv(job, s) && Next(job, s, l).Some? && (IsFault(l) || Doomed(s))
    ensures Doomed(Next(job, s, l).value)
  {
  }

  lemma NoFaultKeepsHealth(job: Job, s: State, l: Label)
    requires Inv(job, s) && Next(job, s, l).Some? && !IsFault(l) && Healthy(job, s)
    ensures Healthy(job, Next(job, s, l).value)
  {
  }

  ghost predicate FaultFree(ls: seq<Label>) {
    forall i :: 0 <= i < |ls| ==> !IsFault(ls[i])
  }

  lemma {:induction false} FaultsDecide(job: Job, s: State, ls: seq<Label>)
    requires Inv(job, s) && Exec(job, s, ls).Some?
    ensures Doomed(s) || !FaultFree(ls) ==> Doomed(Exec(job, s, ls).value)
    ensures Healthy(job, s) && FaultFree(ls) ==> Healthy(job, Exec(job, s, ls).value)
    decreases |ls|
  {
    if ls == [] {
    } else {
      var t := Next(job, s, ls[0]).value;
      StepKeepsInv(job, s, ls[0]);
      FaultsDecide(job, t, ls[1..]);
      if IsFault(ls[0]) || Doomed(s) {
        FaultDooms(job, s, ls[0]);
      } else if FaultFree(ls) && Healthy(job, s) {
        NoFaultKeepsHealth(job, s, ls[0]);
      }
    }
  }

  /** In every reachable state, failed or not, the sink holds the front of the stream. */
  lemma SinkIsPrefix(job: Job, s: State)
    requires Reachable(job, s) && job.hasWriter
    ensures s.sink <= job.stream
  {
    ReachableInv(job, s);
  }

  /**
   * In every interleaving, a call that returns does so with success exactly when no
   * decoder, sink or flush error happened and the digest is the one asked for; and
   * success means that the sink holds the whole stream in order.
   */
  lemma ReturnIsExact(job: Job, ls: seq<Label>, s: State)
    requires Exec(job, Initial(job), ls) == Some(s) && s.producer.Returned?
    ensures s.producer.outcome.Success? <==>
              FaultFree(ls) && (job.expected.Some? ==> job.expected.value == job.hash(job.stream))
    ensures s.producer.outcome.Success? ==>
              && s.producer.outcome == Success(|job.stream|, job.hash(job.stream))
              && (job.hasWriter ==> s.sink == job.stream)
  {
    InitialInv(job);
    ExecKeepsInv(job, Initial(job), ls);
    FaultsDecide(job, Initial(job), ls);
  }

  // ----------------------------------------------------------------------
  // Conservation and progress
  // ----------------------------------------------------------------------

  /**
   * While both threads loop the pool is neither short nor over; while the consumer
   * lives it is never over, so neither thread's send ever waits for room.
   */
  lemma PoolIsConserved(job: Job, s: State)
    requires Reachable(job, s) && !s.consumer.Leaving?
    ensures Buffers(s) <= POOL
    ensures Looping(s.producer) ==> Buffers(s) == POOL
    ensures s.producer.Sending? ==> Next(job, s, Send).Some?
    ensures s.consumer.Recycling? ==> Next(job, s, Recycle).Some?
  {
    ReachableInv(job, s);
  }

  /** A move the producer can make once it need not wait for the consumer. */
  function ProducerMove(s: State): Label {
    match s.producer
    case Starting => InitOk
    case Taking => if s.free == [] then TakeFresh else Take
    case Reading(_) => if s.remaining == [] then ReadEnd else ReadSome(1)
    case Sending(_) => if s.fullRx then Send else SendRefused
    case Stopped(_) => Hangup
    case Joining(_) => Join
    case Returned(_) => Join
  }

  /** A label that can be taken now, for a state that has not returned. */
  function SomeMove(s: State): Label {
    match s.consumer
    case Hashing(_) => Hash
    case Writing(_) => WriteOk
    case Recycling(_) => Recycle
    case Flushing => FlushOk
    case Leaving(_) => if s.fullRx then DropFullRx else if s.freeTx then DropFreeTx else ProducerMove(s)
    case Receiving => if s.full != [] then Receive else if s.fullTx then ProducerMove(s) else NoMore
  }

  /** No interleaving deadlocks, whatever failed: some thread can move without a further fault. */
  lemma NoDeadlock(job: Job, s: State)
    requires Inv(job, s) && !s.producer.Returned?
    ensures Next(job, s, SomeMove(s)).Some? && !IsFault(SomeMove(s))
  {
  }

  lemma ReadIsTaken(job: Job, s: State, n: nat)
    requires ChannelInv(s) && s.producer.Reading? && 0 < n <= CHUNK && n <= |s.remaining|
    ensures Next(job, s, ReadSome(n)).Some?
  {
    hide ConsumerNext, Filled, Resize, Zeros;
  }

  lemma EndIsTaken(job: Job, s: State)
    requires s.producer.Reading?
    ensures s.remaining == [] ==> Next(job, s, ReadEnd).Some?
    ensures Next(job, s, ReadFail).Some?
  {
    hide ConsumerNext, Filled, Resize, Zeros;
  }

  lemma WriteIsTaken(job: Job, s: State, k: nat)
    requires s.consumer.Writing?
    ensures Next(job, s, WriteOk).Some?
    ensures job.hasWriter && k <= |s.consumer.chunk| ==> Next(job, s, WriteFail(k)).Some?
  {
    hide Filled, Resize, Zeros;
  }

  lemma FlushIsTaken(job: Job, s: State)
    requires s.consumer.Flushing?
    ensures Next(job, s, FlushOk).Some? && (job.hasWriter ==> Next(job, s, FlushFail).Some?)
  {
    hide Filled, Resize, Zeros;
  }

  /**
   * The pipeline takes every answer the decoder and the sink may give: any non-empty read
   * that fits the buffer and the stream, its end, a write of the whole chunk, and an error
   * at each of them.
   */
  lemma EveryAnswerIsTaken(job: Job, s: State)
    requires Reachable(job, s)
    ensures s.producer.Reading? ==>
              && (forall n: nat :: 0 < n <= CHUNK && n <= |s.remaining| ==> Next(job, s, ReadSome(n)).Some?)
              && (s.remaining == [] ==> Next(job, s, ReadEnd).Some?)
              && Next(job, s, ReadFail).Some?
    ensures s.consumer.Writing? ==>
              && Next(job, s, WriteOk).Some?
              && (job.hasWriter ==>
                    forall k: nat :: k <= |s.consumer.chunk| ==> Next(job, s, WriteFail(k)).Some?)
    ensures s.consumer.Flushing? ==> Next(job, s, FlushOk).Some? && (job.hasWriter ==> Next(job, s, FlushFail).Some?)
  {
    hide Next, Reachable, ChannelInv, DataInv, SinkInv;
    ReachableInv(job, s);
    if s.producer.Reading? {
      EndIsTaken(job, s);
      forall n: nat | 0 < n <= CHUNK && n <= |s.remaining| ensures Next(job, s, ReadSome(n)).Some? {
        ReadIsTaken(job, s, n);
      }
    }
    if s.consumer.Writing? {
      forall k: nat | k <= |s.consumer.chunk| ensures job.hasWriter ==> Next(job, s, WriteFail(k)).Some? {
        WriteIsTaken(job, s, k);
      }
      WriteIsTaken(job, s, 0);
    }
    if s.consumer.Flushing? {
      FlushIsTaken(job, s);
    }
  }

  function ProducerRank(p: Producer): nat {
    match p
    case Starting => 20
    case Taking => 12
    case Reading(_) => 11
    case Sending(_) => 18
    case Stopped(_) => 2
    case Joining(_) => 1
    case Returned(_) => 0
  }

  function ConsumerRank(s: State): nat {
    match s.consumer
    case Receiving => 6
    case Hashing(_) => 10
    case Writing(_) => 9
    case Recycling(_) => 8
    case Flushing => 5
    case Leaving(_) => (if s.fullRx then 1 else 0) + (if s.freeTx then 1 else 0)
  }

  /** An upper bound on the moves left. */
  function Rank(s: State): nat {
    10 * |s.remaining| + ProducerRank(s.producer) + 5 * |s.full| + ConsumerRank(s)
  }

  lemma StepLowersRank(job: Job, s: State, l: Label)
    requires Next(job, s, l).Some?
    ensures Rank(Next(job, s, l).value) < Rank(s)
  {
  }

  /** Every run is finite; together with `NoDeadlock`, every maximal run returns. */
  lemma {:induction false} RunsAreFinite(job: Job, s: State, ls: seq<Label>)
    requires Exec(job, s, ls).Some?
    ensures |ls| + Rank(Exec(job, s, ls).value) <= Rank(s)
    decreases |ls|
  {
    if ls == [] {
    } else {
      StepLowersRank(job, s, ls[0]);
      RunsAreFinite(job, Next(job, s, ls[0]).value, ls[1..]);
    }
  }

  lemma {:induction false} ExecConcat(job: Job, s: State, ls: seq<Label>, rest: seq<Label>)
    requires Exec(job, s, ls).Some?
    ensures Exec(job, s, ls + rest) == Exec(job, Exec(job, s, ls).value, rest)
    decreases |ls|
  {
    if ls == [] {
      assert ls + rest == rest;
    } else {
      assert (ls + rest)[1..] == ls[1..] + rest;
      ExecConcat(job, Next(job, s, ls[0]).value, ls[1..], rest);
    }
  }

  lemma {:induction false} RunOn(job: Job, s: State) returns (rest: seq<Label>)
    requires Inv(job, s)
    ensures Exec(job, s, rest).Some? && Exec(job, s, rest).value.producer.Returned? && FaultFree(rest)
    decreases Rank(s)
  {
    if s.producer.Returned? {
      rest := [];
    } else {
      var l := SomeMove(s);
      NoDeadlock(job, s);
      StepLowersRank(job, s, l);
      StepKeepsInv(job, s, l);
      var more := RunOn(job, Next(job, s, l).value);
      rest := [l] + more;
      assert rest[1..] == more;
    }
  }

  /**
   * Every run, however it was scheduled so far and whatever failed, can still be completed
   * to a return without a further fault, and no run is longer than a bound set by the stream.
   */
  lemma EveryRunReturns(job: Job, ls: seq<Label>) returns (rest: seq<Label>)
    requires Exec(job, Initial(job), ls).Some?
    ensures Exec(job, Initial(job), ls + rest).Some?
    ensures Exec(job, Initial(job), ls + rest).value.producer.Returned?
    ensures FaultFree(rest) && |ls + rest| <= 10 * |job.stream| + 26
  {
    InitialInv(job);
    ExecKeepsInv(job, Initial(job), ls);
    rest := RunOn(job, Exec(job, Initial(job), ls).value);
    ExecConcat(job, Initial(job), ls, rest);
    RunsAreFinite(job, Initial(job), ls + rest);
  }

  /**
   * A run that met no fault so far can be completed to success when the digest is the one
   * asked for, with the whole stream in the sink; a run that met one can only fail.
   */
  lemma HealthyRunSucceeds(job: Job, ls: seq<Label>) returns (rest: seq<Label>)
    requires Exec(job, Initial(job), ls).Some?
    ensures Exec(job, Initial(job), ls + rest).Some?
    ensures var s := Exec(job, Initial(job), ls + rest).value;
            if FaultFree(ls) && (job.expected.Some? ==> job.expected.value == job.hash(job.stream))
            then
              && s.producer == Returned(Success(|job.stream|, job.hash(job.stream)))
              && (job.hasWriter ==> s.sink == job.stream)
            else s.producer == Returned(Failure)
  {
    rest := EveryRunReturns(job, ls);
    var all := ls + rest;
    assert FaultFree(all) <==> FaultFree(ls) by {
      assert forall i :: 0 <= i < |ls| ==> all[i] == ls[i];
      assert forall i :: |ls| <= i < |all| ==> all[i] == rest[i - |ls|];
    }
    ReturnIsExact(job, all, Exec(job, Initial(job), all).value);
    hide Exec, FaultFree;
  }
}
