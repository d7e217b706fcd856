/** When a sequencer that starts on what an earlier one left can settle again: a condition on the pending
    blocks, the registry and the blob of the last settle, and both directions of it over all runs. */
module SettlementRecovery {
  import opened Wrappers
  import opened Wire
  import opened Finalizer
  import opened Sorted
  import opened SettlementStall

  // ---------- which batches a start can publish ----------

  /** The size estimate of a buffer. */
  function Buffered(batch: seq<Block>): nat {
    Min(TotalBytes(batch), U64_MAX)
  }

  predicate Full(env: Env, batch: seq<Block>) {
    env.sizeLimit <= Buffered(batch)
  }

  /** The re-queued blocks and then new ones. */
  predicate Extends(env: Env, queue: seq<Block>, blocks: seq<Block>) {
    && queue <= blocks && Increasing(blocks)
    && forall i :: |queue| <= i < |blocks| ==> env.decodable(blocks[i].data)
  }

  /** What a buffer filled from `queue`, and then from new blocks, can hold when it is flushed: no
      part of it was full before, and it is flushed by the timer, by its size or when the channel closes. */
  predicate Flushable(env: Env, queue: seq<Block>, batch: seq<Block>) {
    && batch != []
    && (Extends(env, queue, batch) || batch <= queue)
    && (forall n :: 0 < n < |batch| ==> !Full(env, batch[..n]))
    && (env.flushAfter.Some? || Full(env, batch) || queue <= batch)
  }

  /** The blocks recovery re-queues. */
  function Queue(env: Env, d: Durable): seq<Block> {
    Recovery(env, d, AscendingOf(d.pending)).0
  }

  /** A first flush can settle the next height. */
  ghost predicate NextSettles(env: Env, latest: nat, queue: seq<Block>) {
    exists batch: seq<Block> :: Flushable(env, queue, batch) && Encodable(batch) && batch[0].header.height == latest + 1
  }

  /** The batch the latest height was settled from. */
  function Recorded(d: Durable): Result<seq<Block>, Error> {
    if d.registry.latest in d.registry.commitments && d.registry.commitments[d.registry.latest] in d.blobs then
      Decode(d.blobs[d.registry.commitments[d.registry.latest]])
    else Err(Serde)
  }

  /** The first pending block is settled already, but the start can publish the batch it was settled
      from once more, and what follows it there, or else in the queue, settles next. */
  ghost predicate Resettles(env: Env, d: Durable, queue: seq<Block>) {
    && queue != [] && queue[0].header.height == d.registry.latest
    && Recorded(d).Ok? && Flushable(env, queue, Recorded(d).value)
    && (if |Recorded(d).value| > 1 then Recorded(d).value[1].header.height == d.registry.latest + 1
        else NextSettles(env, d.registry.latest, queue[1..]))
  }

  ghost predicate Recoverable(env: Env, d: Durable) {
    NextSettles(env, d.registry.latest, Queue(env, d)) || Resettles(env, d, Queue(env, d))
  }

  // ---------- runs ----------

  /** Some legal run after a start settles a new height. */
  ghost predicate CanSettle(env: Env, journal: seq<Op>) {
    exists evs: seq<Event> ::
      LegalRun(env, Start(env, journal), evs) &&
      Run(env, Start(env, journal), evs).world.registry.latest > Replay(env, journal).registry.latest
  }

  ghost predicate Moves(env: Env, s: State, s1: State) {
    |s.arrived| == |s.batch| && exists ev: Event :: Legal(env, s, ev) && Step(env, s, ev) == s1
  }

  ghost predicate IsPath(env: Env, path: seq<State>) {
    path != [] && forall i, j :: 0 <= i && j == i + 1 && j < |path| ==> Moves(env, path[i], path[j])
  }

  /** Some legal run leads from one state to the other. */
  ghost predicate Leads(env: Env, s: State, s1: State) {
    exists path :: IsPath(env, path) && path[0] == s && path[|path| - 1] == s1
  }

  lemma LeadsNowhere(env: Env, s: State)
    ensures Leads(env, s, s)
  {
    assert IsPath(env, [s]) && [s][0] == s;
  }

  lemma LeadsStep(env: Env, s: State, ev: Event)
    requires |s.arrived| == |s.batch| && Legal(env, s, ev)
    ensures Leads(env, s, Step(env, s, ev))
  {
    var s1 := Step(env, s, ev);
    assert Moves(env, s, s1);
    assert IsPath(env, [s, s1]) && [s, s1][0] == s && [s, s1][1] == s1;
  }

  lemma LeadsThen(env: Env, s: State, s1: State, s2: State)
    requires Leads(env, s, s1) && Leads(env, s1, s2)
    ensures Leads(env, s, s2)
  {
    var a :| IsPath(env, a) && a[0] == s && a[|a| - 1] == s1;
    var b :| IsPath(env, b) && b[0] == s1 && b[|b| - 1] == s2;
    var path := a + b[1..];
    forall i, j | 0 <= i && j == i + 1 && j < |path| ensures Moves(env, path[i], path[j]) {
      if i < |a| - 1 {
        assert path[i] == a[i] && path[j] == a[j];
      } else {
        assert path[i] == b[i - (|a| - 1)] && path[j] == b[j - (|a| - 1)];
      }
    }
    assert IsPath(env, path);
  }

  lemma RunFirst(env: Env, s: State, ev: Event, rest: seq<Event>)
    requires |s.arrived| == |s.batch|
    ensures Run(env, s, [ev] + rest) == Run(env, Step(env, s, ev), rest)
    ensures LegalRun(env, s, [ev] + rest) <==> Legal(env, s, ev) && LegalRun(env, Step(env, s, ev), rest)
  {
    assert ([ev] + rest)[1..] == rest;
  }

  /** A path is a run. */
  lemma {:induction false} PathIsRun(env: Env, path: seq<State>) returns (evs: seq<Event>)
    requires IsPath(env, path) && |path[0].arrived| == |path[0].batch|
    ensures LegalRun(env, path[0], evs) && Run(env, path[0], evs) == path[|path| - 1]
  {
    if |path| == 1 {
      evs := [];
    } else {
      assert Moves(env, path[0], path[1]);
      var ev: Event :| Legal(env, path[0], ev) && Step(env, path[0], ev) == path[1];
      forall i, j | 0 <= i && j == i + 1 && j < |path[1..]| ensures Moves(env, path[1..][i], path[1..][j]) {
        assert path[1..][i] == path[i + 1] && path[1..][j] == path[j + 1];
      }
      var rest := PathIsRun(env, path[1..]);
      evs := [ev] + rest;
      RunFirst(env, path[0], ev, rest);
    }
  }

  lemma LeadsUp(env: Env, journal: seq<Op>, s: State)
    requires Leads(env, Start(env, journal), s)
    requires s.world.registry.latest > Replay(env, journal).registry.latest
    ensures CanSettle(env, journal)
  {
    var path :| IsPath(env, path) && path[0] == Start(env, journal) && path[|path| - 1] == s;
    var evs := PathIsRun(env, path);
  }

  // ---------- a flushable batch can be published ----------

  /** An idle process with an empty buffer. */
  ghost predicate Ready(env: Env, s: State) {
    && Inv(env, s) && TimerInv(env, s) && s.phase == Idle && !s.stopped && !s.shuttingDown
    && s.local == [] && s.batch == [] && s.batchBytes == 0 && s.finalized == []
  }

  /** One more block is produced. */
  lemma SupplyOne(env: Env, s: State, b: Block)
    requires CollisionFree(env) && Ready(env, s) && Legal(env, s, Produce(b))
    ensures var s1 := Step(env, s, Produce(b));
      && Ready(env, s1) && s1.sent == s.sent + [b]
      && s1.world.registry == s.world.registry && s1.world.blobs == s.world.blobs
  {
    StepKeepsInv(env, s, Produce(b));
    StepKeepsTimer(env, s, Produce(b));
  }

  lemma NextLegal(sent: seq<Block>, more: seq<Block>)
    requires Increasing(sent + more) && more != []
    ensures sent == [] || sent[|sent| - 1].header.height < more[0].header.height
    ensures (sent + [more[0]]) + more[1..] == sent + more
  {
    var all := sent + more;
    assert all[|sent|] == more[0];
    if sent != [] {
      assert all[|sent| - 1] == sent[|sent| - 1];
    }
  }

  ghost predicate Supplied(env: Env, s: State, s1: State, more: seq<Block>) {
    && Ready(env, s1) && s1.sent == s.sent + more
    && s1.world.registry == s.world.registry && s1.world.blobs == s.world.blobs
  }

  lemma SuppliedThen(env: Env, s: State, s1: State, s2: State, more: seq<Block>)
    requires more != [] && Supplied(env, s, s1, [more[0]]) && Supplied(env, s1, s2, more[1..])
    ensures Supplied(env, s, s2, more)
  {
    assert s.sent + [more[0]] + more[1..] == s.sent + more;
  }

  lemma {:induction false} Supply(env: Env, s: State, more: seq<Block>) returns (s1: State)
    requires CollisionFree(env) && Ready(env, s)
    requires Increasing(s.sent + more) && forall b :: b in more ==> env.decodable(b.data)
    ensures Leads(env, s, s1) && Supplied(env, s, s1, more)
    ensures more == [] ==> s1 == s
    decreases |more|
  {
    if more == [] {
      LeadsNowhere(env, s);
      assert s.sent + more == s.sent;
      s1 := s;
    } else {
      NextLegal(s.sent, more);
      SupplyOne(env, s, more[0]);
      LeadsStep(env, s, Produce(more[0]));
      var next := Step(env, s, Produce(more[0]));
      s1 := Supply(env, next, more[1..]);
      LeadsThen(env, s, next, s1);
      SuppliedThen(env, s, next, s1, more);
    }
  }

  /** A buffer that is being filled with `batch`, everything at time zero. */
  ghost predicate FilledTo(env: Env, s: State, s0: State, n: nat) {
    && Inv(env, s) && TimerInv(env, s) && !s.stopped && !s.shuttingDown
    && n <= |s0.sent| && s.sent == s0.sent && s.batch == s0.sent[..n] && s.world == s0.world
    && s.past == s0.past && s.own == s0.own
    && s.local == [] && s.finalized == [] && s.batchBytes == Buffered(s.batch)
    && (forall i :: 0 <= i < |s.arrived| ==> s.arrived[i] == 0)
  }

  lemma BufferedThen(batch: seq<Block>, b: Block)
    ensures SaturatingAdd(Buffered(batch), |b.data|) == Buffered(batch + [b])
  {
    TotalThen(batch, b);
  }

  lemma TakeIs(env: Env, s: State, now: nat)
    requires |s.arrived| == |s.batch| && s.phase == Idle && !s.stopped && s.channel != []
    ensures var s1 := Step(env, s, Receive(now));
      && s1 == Take(env, s, now)
      && s1.batch == s.batch + [s.channel[0]] && s1.arrived == s.arrived + [now]
      && s1.batchBytes == SaturatingAdd(s.batchBytes, |s.channel[0].data|)
      && s1.phase == (if env.sizeLimit <= s1.batchBytes then Publishing(false) else Idle)
      && s1.sent == s.sent && s1.world == s.world && s1.past == s.past && s1.own == s.own && s1.local == s.local
      && s1.finalized == s.finalized && s1.stopped == s.stopped && s1.shuttingDown == s.shuttingDown
  {
  }

  lemma ChannelIs(s: State, n: nat)
    requires Conserved(s) && s.finalized == [] && s.local == [] && n < |s.sent| && s.batch == s.sent[..n]
    ensures s.channel != [] && s.channel[0] == s.sent[n] && s.batch + [s.sent[n]] == s.sent[..n + 1]
  {
    assert s.batch + s.channel == s.sent;
    assert s.sent[n] == (s.batch + s.channel)[n];
  }

  lemma TakeOne(env: Env, s: State, s0: State, n: nat)
    requires CollisionFree(env) && FilledTo(env, s, s0, n) && s.phase == Idle && n < |s0.sent|
    ensures var s1 := Step(env, s, Receive(0));
      && Legal(env, s, Receive(0)) && FilledTo(env, s1, s0, n + 1)
      && s1.phase == (if Full(env, s1.batch) then Publishing(false) else Idle)
  {
    ChannelIs(s, n);
    TakeIs(env, s, 0);
    BufferedThen(s.batch, s.sent[n]);
    StepKeepsInv(env, s, Receive(0));
    StepKeepsTimer(env, s, Receive(0));
  }

  lemma {:induction false} Fill(env: Env, s0: State, n: nat) returns (s: State)
    requires CollisionFree(env) && Ready(env, s0) && n <= |s0.sent|
    requires forall k :: 0 < k < n ==> !Full(env, s0.sent[..k])
    ensures Leads(env, s0, s) && FilledTo(env, s, s0, n)
    ensures s.phase == if n > 0 && Full(env, s.batch) then Publishing(false) else Idle
  {
    if n == 0 {
      LeadsNowhere(env, s0);
      s := s0;
    } else {
      var before := Fill(env, s0, n - 1);
      assert n - 1 > 0 ==> !Full(env, s0.sent[..n - 1]);
      TakeOne(env, before, s0, n - 1);
      s := Step(env, before, Receive(0));
      LeadsStep(env, before, Receive(0));
      LeadsThen(env, s0, before, s);
    }
  }

  lemma FireIs(env: Env, s: State)
    requires CollisionFree(env) && Inv(env, s) && s.phase == Idle && !s.stopped && s.timer.Some? && s.batch != []
    ensures Leads(env, s, s.(phase := Publishing(false))) && Inv(env, s.(phase := Publishing(false)))
  {
    LeadsStep(env, s, TimerFires(s.timer.value));
    StepKeepsInv(env, s, TimerFires(s.timer.value));
  }

  lemma CloseIs(env: Env, s: State)
    requires CollisionFree(env) && Inv(env, s) && s.phase == Idle && !s.stopped && s.channel == [] && s.batch != []
    ensures var s1 := s.(timer := None, phase := Publishing(true)); Leads(env, s, s1) && Inv(env, s1)
  {
    LeadsStep(env, s, ChannelClosed);
    StepKeepsInv(env, s, ChannelClosed);
  }

  /** A filled buffer is flushed. */
  lemma Trigger(env: Env, s: State, s0: State, n: nat) returns (s1: State)
    requires CollisionFree(env) && FilledTo(env, s, s0, n) && n > 0
    requires s.phase == if Full(env, s.batch) then Publishing(false) else Idle
    requires env.flushAfter.Some? || Full(env, s.batch) || n == |s0.sent|
    ensures Leads(env, s, s1) && Inv(env, s1) && s1.phase.Publishing? && !s1.shuttingDown
    ensures s1.batch == s.batch && s1.sent == s.sent && s1.world == s.world && s1.finalized == [] && s1.local == []
  {
    if Full(env, s.batch) {
      LeadsNowhere(env, s);
      s1 := s;
    } else if env.flushAfter.Some? {
      FireIs(env, s);
      s1 := s.(phase := Publishing(false));
    } else {
      assert s.batch + s.channel == s.sent;
      CloseIs(env, s);
      s1 := s.(timer := None, phase := Publishing(true));
    }
  }

  /** What is produced before the flush, and what is sent then. */
  lemma Excess(env: Env, sent: seq<Block>, batch: seq<Block>) returns (more: seq<Block>)
    requires Flushable(env, sent, batch) && Increasing(sent)
    ensures batch <= sent ==> more == []
    ensures !(batch <= sent) ==> sent + more == batch
    ensures batch <= sent + more && Increasing(sent + more) && forall b :: b in more ==> env.decodable(b.data)
    ensures env.flushAfter.Some? || Full(env, batch) || |batch| == |sent + more|
    ensures forall k :: 0 < k < |batch| ==> !Full(env, (sent + more)[..k])
  {
    more := if batch <= sent then [] else batch[|sent|..];
    assert batch <= sent ==> sent + more == sent;
    assert !(batch <= sent) ==> sent + more == batch;
    forall k | 0 < k < |batch| ensures !Full(env, (sent + more)[..k]) {
      assert (sent + more)[..k] == batch[..k];
    }
  }

  /** Whatever is flushable from the queue of a ready process can get published. */
  lemma Publishes(env: Env, s: State, batch: seq<Block>) returns (s1: State)
    requires CollisionFree(env) && Ready(env, s) && Flushable(env, s.sent, batch)
    ensures Leads(env, s, s1) && Inv(env, s1) && s1.phase.Publishing? && !s1.shuttingDown
    ensures s1.batch == batch && s1.finalized == [] && s1.local == []
    ensures s1.world.registry == s.world.registry && s1.world.blobs == s.world.blobs
    ensures batch <= s.sent ==> s1.world == s.world && s1.sent == s.sent
  {
    var more := Excess(env, s.sent, batch);
    var s0 := Supply(env, s, more);
    assert s0.sent[..|batch|] == batch;
    s1 := PublishesSent(env, s0, |batch|);
    LeadsThen(env, s, s0, s1);
  }

  lemma PublishesSent(env: Env, s: State, n: nat) returns (s1: State)
    requires CollisionFree(env) && Ready(env, s) && 0 < n <= |s.sent|
    requires forall k :: 0 < k < n ==> !Full(env, s.sent[..k])
    requires env.flushAfter.Some? || Full(env, s.sent[..n]) || n == |s.sent|
    ensures Leads(env, s, s1) && Inv(env, s1) && s1.phase.Publishing? && !s1.shuttingDown
    ensures s1.batch == s.sent[..n] && s1.finalized == [] && s1.local == []
    ensures s1.world == s.world && s1.sent == s.sent
  {
    var filled := Fill(env, s, n);
    s1 := Trigger(env, filled, s, n);
    LeadsThen(env, s, filled, s1);
  }

  // ---------- the condition suffices ----------

  lemma StartReady(env: Env, journal: seq<Op>)
    requires CollisionFree(env) && Sound(env, journal)
    ensures var s := Start(env, journal);
      && Ready(env, s) && s.world == Replay(env, journal) && s.sent == Queue(env, s.world)
      && DurableInv(env, s.world) && Increasing(s.sent) && Journal(s) == journal + [Boot]
  {
    StartRecovers(env, journal);
    StartWritesNothing(env, journal);
  }

  /** A published batch whose front the registry takes. */
  lemma SettlesFront(env: Env, s: State) returns (s1: State)
    requires CollisionFree(env) && Inv(env, s) && s.phase.Publishing? && !s.shuttingDown && Encodable(s.batch)
    requires Settle(s.world.registry, s.batch[0], BlobOf(env, s.batch)).Some?
    ensures Leads(env, s, s1) && Inv(env, s1) && !s1.shuttingDown && s1.batch == s.batch[1..]
    ensures s1.phase == if |s.batch| == 1 then Idle else Settling(BlobOf(env, s.batch), s.phase.last)
    ensures s1.world.registry == Settle(s.world.registry, s.batch[0], BlobOf(env, s.batch)).value
    ensures s1.world.pending == s.world.pending - {s.batch[0].header.height} && s1.world.stored == s.world.stored
  {
    PublishAttempt(env, s);
    PublishedState(env, s, Settling(BlobOf(env, s.batch), s.phase.last));
    var published := FlushStep(env, s, FLAWLESS);
    LeadsStep(env, s, Flush(FLAWLESS));
    PublishingKeepsInv(env, s, FLAWLESS);
    s1 := FlushStep(env, published, FLAWLESS);
    LeadsStep(env, published, Flush(FLAWLESS));
    FlushKeepsInv(env, published, FLAWLESS);
    FlawlessFront(env, published);
    FrontKeepsStored(env, published);
    LeadsThen(env, s, published, s1);
  }

  lemma FrontKeepsStored(env: Env, s: State)
    requires Conserved(s) && s.phase.Settling? && !s.shuttingDown
    requires Settle(s.world.registry, s.batch[0], s.phase.blob).Some?
    ensures FlushStep(env, s, FLAWLESS).world.stored == s.world.stored
  {
    var s1 := Write(env, s, Commit(s.batch[0], s.phase.blob));
    assert FlushStep(env, s, FLAWLESS) == FinalizeFront(env, s1, s.phase.last, FLAWLESS);
  }

  lemma NextBatch(env: Env, latest: nat, queue: seq<Block>) returns (batch: seq<Block>)
    requires NextSettles(env, latest, queue)
    ensures Flushable(env, queue, batch) && Encodable(batch) && batch[0].header.height == latest + 1
  {
    batch :| Flushable(env, queue, batch) && Encodable(batch) && batch[0].header.height == latest + 1;
  }

  lemma SettlesBatch(env: Env, s: State, batch: seq<Block>) returns (s1: State)
    requires CollisionFree(env) && Ready(env, s)
    requires Flushable(env, s.sent, batch) && Encodable(batch)
    requires Settle(s.world.registry, batch[0], BlobOf(env, batch)).Some?
    ensures Leads(env, s, s1) && s1.world.registry == Settle(s.world.registry, batch[0], BlobOf(env, batch)).value
  {
    var published := Publishes(env, s, batch);
    s1 := SettlesFront(env, published);
    LeadsThen(env, s, published, s1);
  }

  lemma SettlesNext(env: Env, s: State) returns (s1: State)
    requires CollisionFree(env) && Ready(env, s) && NextSettles(env, s.world.registry.latest, s.sent)
    ensures Leads(env, s, s1) && s1.world.registry.latest == s.world.registry.latest + 1
  {
    var batch := NextBatch(env, s.world.registry.latest, s.sent);
    s1 := SettlesBatch(env, s, batch);
  }

  lemma RecordedFirst(env: Env, d: Durable, queue: seq<Block>)
    requires CollisionFree(env) && DurableInv(env, d) && Resettles(env, d, queue) && Increasing(queue)
    ensures var batch := Recorded(d).value;
      && batch != [] && batch[0] == queue[0] && Encodable(batch) && Increasing(batch)
      && Settle(d.registry, batch[0], BlobOf(env, batch)) == Some(d.registry)
  {
    var bytes := d.blobs[d.registry.commitments[d.registry.latest]];
    var batch := Recorded(d).value;
    EncodeInvertsDecode(bytes);
    assert Carries(d.blobs, d.registry.commitments[d.registry.latest], d.registry.settled[d.registry.latest]);
    PutBackResettles(env, d, batch);
  }

  /** The recorded batch goes on: what follows its first block there settles next. */
  lemma RecordedContinues(env: Env, s: State) returns (s1: State)
    requires CollisionFree(env) && Ready(env, s) && DurableInv(env, s.world) && Increasing(s.sent)
    requires Resettles(env, s.world, s.sent) && |Recorded(s.world).value| > 1
    ensures Leads(env, s, s1) && s1.world.registry.latest == s.world.registry.latest + 1
  {
    RecordedFirst(env, s.world, s.sent);
    var published := Publishes(env, s, Recorded(s.world).value);
    var resettled := SettlesFront(env, published);
    s1 := FlushStep(env, resettled, FLAWLESS);
    FlawlessFront(env, resettled);
    LeadsStep(env, resettled, Flush(FLAWLESS));
    LeadsThen(env, s, published, resettled);
    LeadsThen(env, s, resettled, s1);
  }

  lemma {:induction false} RecoveryReads(env: Env, d: Durable, d1: Durable, heights: seq<nat>)
    requires d.stored == d1.stored
    ensures Recovery(env, d, heights) == Recovery(env, d1, heights)
  {
    if heights != [] {
      RecoveryReads(env, d, d1, heights[1..]);
    }
  }

  /** Without its first block the queue is its rest. */
  lemma QueueRest(env: Env, d: Durable, d1: Durable)
    requires DurableInv(env, d) && d1.stored == d.stored && Queue(env, d) != []
    requires d1.pending == d.pending - {Queue(env, d)[0].header.height}
    ensures Queue(env, d1) == Queue(env, d)[1..]
  {
    var heights := AscendingOf(d.pending);
    forall h | h in heights ensures h in d.pending {
      assert h in Elements(heights);
    }
    RecoveryFindsAll(env, d, heights);
    assert forall h :: h in Elements(heights[1..]) <==> h in Elements(heights) && h != heights[0];
    AscendingUnique(AscendingOf(d1.pending), heights[1..]);
    RecoveryReads(env, d, d1, heights[1..]);
  }

  /** A restart that interrupts nothing. */
  lemma Restarts(env: Env, s: State)
    requires CollisionFree(env) && Inv(env, s)
    ensures Leads(env, s, Start(env, Journal(s))) && Step(env, s, Crash(ShutdownSignal, 0)) == Start(env, Journal(s))
    ensures Sound(env, Journal(s)) && Replay(env, Journal(s)) == s.world
  {
    assert Left(Journal(s), Journal(s), 0) == Journal(s);
    assert Step(env, s, Crash(ShutdownSignal, 0)) == Start(env, Journal(s));
    LeadsStep(env, s, Crash(ShutdownSignal, 0));
  }

  lemma FirstAgain(env: Env, s: State) returns (s1: State)
    requires CollisionFree(env) && Ready(env, s) && DurableInv(env, s.world) && Increasing(s.sent)
    requires Resettles(env, s.world, s.sent) && |Recorded(s.world).value| <= 1
    ensures Leads(env, s, s1) && Inv(env, s1) && s1.world.registry == s.world.registry
    ensures s1.world.pending == s.world.pending - {s.sent[0].header.height} && s1.world.stored == s.world.stored
  {
    RecordedFirst(env, s.world, s.sent);
    assert Recorded(s.world).value == [s.sent[0]];
    assert [s.sent[0]] <= s.sent;
    var published := Publishes(env, s, [s.sent[0]]);
    s1 := SettlesFront(env, published);
    LeadsThen(env, s, published, s1);
  }

  /** The recorded batch was one block: it is settled again, and the rest of the queue is next. */
  lemma RecordedEnds(env: Env, s: State) returns (s1: State)
    requires CollisionFree(env) && Ready(env, s) && DurableInv(env, s.world) && Increasing(s.sent)
    requires s.sent == Queue(env, s.world)
    requires Resettles(env, s.world, s.sent) && |Recorded(s.world).value| <= 1
    ensures Leads(env, s, s1) && s1.world.registry.latest == s.world.registry.latest + 1
  {
    var again := FirstAgain(env, s);
    Restarts(env, again);
    StartReady(env, Journal(again));
    QueueRest(env, s.world, again.world);
    s1 := SettlesNext(env, Start(env, Journal(again)));
    LeadsThen(env, s, again, Start(env, Journal(again)));
    LeadsThen(env, s, Start(env, Journal(again)), s1);
  }

  lemma RecoverableSettles(env: Env, journal: seq<Op>)
    requires CollisionFree(env) && Sound(env, journal) && Recoverable(env, Replay(env, journal))
    ensures CanSettle(env, journal)
  {
    StartReady(env, journal);
    var s := Start(env, journal);
    var s1: State;
    if NextSettles(env, s.world.registry.latest, s.sent) {
      s1 := SettlesNext(env, s);
    } else if |Recorded(s.world).value| > 1 {
      s1 := RecordedContinues(env, s);
    } else {
      s1 := RecordedEnds(env, s);
    }
    LeadsUp(env, journal, s1);
  }

  // ---------- a longer queue settles no more ----------

  /** Stored blocks are decodable, and recovery lists them in ascending order. */
  predicate Recovered(env: Env, queue: seq<Block>) {
    Extends(env, [], queue)
  }

  lemma PrefixIncreases(blocks: seq<Block>, prefix: seq<Block>)
    requires Increasing(blocks) && prefix <= blocks
    ensures Increasing(prefix)
  {
    assert forall i :: 0 <= i < |prefix| ==> prefix[i] == blocks[i];
  }

  /** What can be flushed from a longer queue can be flushed from a shorter one and new blocks. */
  lemma ShorterFlushes(env: Env, queue: seq<Block>, longer: seq<Block>, batch: seq<Block>)
    requires queue <= longer && Recovered(env, longer) && Flushable(env, longer, batch)
    ensures Flushable(env, queue, batch)
  {
    if batch <= longer {
      PrefixIncreases(longer, batch);
      assert forall i :: 0 <= i < |batch| ==> batch[i] == longer[i];
    } else {
      assert forall i :: 0 <= i < |longer| ==> batch[i] == longer[i];
    }
    assert queue <= batch || batch <= queue;
  }

  lemma ShorterSettles(env: Env, latest: nat, queue: seq<Block>, longer: seq<Block>)
    requires queue <= longer && Recovered(env, longer) && NextSettles(env, latest, longer)
    ensures NextSettles(env, latest, queue)
  {
    var batch := NextBatch(env, latest, longer);
    ShorterFlushes(env, queue, longer, batch);
  }

  lemma TailRecovered(env: Env, queue: seq<Block>)
    requires Recovered(env, queue) && queue != []
    ensures Recovered(env, queue[1..])
  {
    assert forall i :: 0 <= i < |queue[1..]| ==> queue[1..][i] == queue[i + 1];
  }

  /** The registry and the blob of the latest height are the same. */
  predicate SameTip(d0: Durable, d: Durable) {
    d.registry == d0.registry && Recorded(d) == Recorded(d0)
  }

  lemma LongerStaysHopeless(env: Env, d0: Durable, d: Durable)
    requires SameTip(d0, d) && Recovered(env, Queue(env, d))
    requires Queue(env, d0) != [] && Queue(env, d0) <= Queue(env, d) && !Recoverable(env, d0)
    ensures !Recoverable(env, d)
  {
    var q, p, latest := Queue(env, d0), Queue(env, d), d.registry.latest;
    if NextSettles(env, latest, p) {
      ShorterSettles(env, latest, q, p);
    }
    if Resettles(env, d, p) {
      ShorterFlushes(env, q, p, Recorded(d).value);
      if |Recorded(d).value| <= 1 {
        TailRecovered(env, p);
        assert q[1..] <= p[1..];
        ShorterSettles(env, latest, q[1..], p[1..]);
      }
    }
  }

  /** The start can settle the first pending block again, which does not raise the registry. */
  ghost predicate Republishes(env: Env, d: Durable) {
    && Queue(env, d) != [] && Queue(env, d)[0].header.height == d.registry.latest
    && Recorded(d).Ok? && Flushable(env, Queue(env, d), Recorded(d).value)
  }

  /** Once that block is gone, what is left of the queue, or what follows in its batch, cannot be next. */
  lemma RestStaysHopeless(env: Env, d0: Durable, d: Durable)
    requires SameTip(d0, d) && Recovered(env, Queue(env, d))
    requires Republishes(env, d0) && !Recoverable(env, d0)
    requires forall b :: b in Queue(env, d) ==> b.header.height > d0.registry.latest
    requires |Recorded(d0).value| <= 1 ==> Queue(env, d0)[1..] <= Queue(env, d)
    requires |Recorded(d0).value| > 1 ==>
               Queue(env, d) != [] && Queue(env, d)[0].header.height == Recorded(d0).value[1].header.height
    ensures !Recoverable(env, d)
  {
    var p, latest := Queue(env, d), d.registry.latest;
    assert p != [] ==> p[0] in p;
    if NextSettles(env, latest, p) {
      if |Recorded(d0).value| <= 1 {
        ShorterSettles(env, latest, Queue(env, d0)[1..], p);
      } else {
        var batch := NextBatch(env, latest, p);
        FlushedFirst(env, p, batch);
      }
    }
  }

  lemma FlushedFirst(env: Env, queue: seq<Block>, batch: seq<Block>)
    requires Flushable(env, queue, batch) && queue != []
    ensures batch[0] == queue[0]
  {
  }

  // ---------- nothing left to settle ----------

  lemma {:induction false} PutIsDecodable(env: Env, journal: seq<Op>, b: Block)
    requires Sound(env, journal) && Put(b) in journal
    ensures env.decodable(b.data)
  {
    var before, op := journal[..|journal| - 1], journal[|journal| - 1];
    if op != Put(b) {
      assert Put(b) in before;
      PutIsDecodable(env, before, b);
    }
  }

  /** A committed block could have been settled from an empty queue. */
  lemma CommitSettlesAlone(env: Env, before: seq<Op>, b: Block, blob: BlobId)
    requires CollisionFree(env) && Sound(env, before) && Justified(env, before, Commit(b, blob))
    ensures Flushable(env, [], [b]) && Encodable([b])
  {
    PutIsDecodable(env, before, b);
    EncodeInvertsDecode(Replay(env, before).blobs[blob]);
    assert b in Decode(Replay(env, before).blobs[blob]).value;
  }

  /** If no block of the next height can be settled from an empty queue, none ever is. */
  lemma {:induction false} NothingSettles(env: Env, base: seq<Op>, journal: seq<Op>)
    requires CollisionFree(env) && Sound(env, journal) && base <= journal
    requires !NextSettles(env, Replay(env, base).registry.latest, [])
    ensures Replay(env, journal).registry.latest == Replay(env, base).registry.latest
    decreases |journal|
  {
    if |journal| == |base| {
      assert journal == base;
    } else {
      var before, op := journal[..|journal| - 1], journal[|journal| - 1];
      NothingSettles(env, base, before);
      if op.Commit? {
        CommitSettlesAlone(env, before, op.block, op.blob);
      }
    }
  }

  // ---------- what a process leaves pending ----------

  /** The blocks sent are pending from the `k`-th on, in the form they are stored; what a stopped
      finalizer no longer gets is above them. */
  predicate Pends(d: Durable, sent: seq<Block>, k: nat, stopped: bool) {
    && sent != [] && k <= |sent|
    && (forall i :: k <= i < |sent| ==>
          sent[i].header.height in d.pending && sent[i].header.height in d.stored &&
          d.stored[sent[i].header.height] == sent[i])
    && (forall h :: h in d.pending ==>
          (exists i :: k <= i < |sent| && sent[i].header.height == h) ||
          (stopped && sent[|sent| - 1].header.height < h))
  }

  lemma AscendingConcat(low: seq<nat>, high: seq<nat>, m: nat)
    requires Ascending(low) && Ascending(high)
    requires (forall h :: h in low ==> h <= m) && (forall h :: h in high ==> m < h)
    ensures Ascending(low + high) && Elements(low + high) == Elements(low) + Elements(high)
  {
    var both := low + high;
    forall i, j | 0 <= i < j < |both| ensures both[i] < both[j] {
      if i < |low| <= j {
        assert both[i] in low && both[j] in high;
      }
    }
  }

  /** The heights of an increasing sequence from its `k`-th block on. */
  lemma LowHeights(sent: seq<Block>, k: nat)
    requires Increasing(sent) && sent != [] && k <= |sent|
    ensures Ascending(HeightsOf(sent[k..]))
    ensures forall h :: h in HeightsOf(sent[k..]) ==> h <= sent[|sent| - 1].header.height
    ensures forall h :: h in HeightsOf(sent[k..]) <==> exists i :: k <= i < |sent| && sent[i].header.height == h
  {
    var low := HeightsOf(sent[k..]);
    assert forall i :: 0 <= i < |low| ==> low[i] == sent[k + i].header.height;
    forall h | h in low ensures h <= sent[|sent| - 1].header.height {
      var i :| 0 <= i < |low| && low[i] == h;
      assert k + i < |sent| - 1 ==> sent[k + i].header.height < sent[|sent| - 1].header.height;
    }
    forall i | k <= i < |sent| ensures sent[i].header.height in low {
      assert low[i - k] == sent[i].header.height;
    }
  }

  lemma PendingSplits(d: Durable, sent: seq<Block>, k: nat, stopped: bool)
    requires Increasing(sent) && Pends(d, sent, k, stopped)
    ensures HeightsOf(sent[k..]) <= AscendingOf(d.pending)
  {
    LowHeights(sent, k);
    SplitAt(d.pending, HeightsOf(sent[k..]), sent[|sent| - 1].header.height);
  }

  lemma SplitAt(heights: set<nat>, low: seq<nat>, last: nat)
    requires Ascending(low) && forall h :: h in low ==> h <= last && h in heights
    requires forall h :: h in heights && h <= last ==> h in low
    ensures low <= AscendingOf(heights)
  {
    var above := set h | h in heights && last < h;
    var high := AscendingOf(above);
    forall h | h in high ensures last < h {
      assert h in Elements(high);
    }
    AscendingConcat(low, high, last);
    assert Elements(low + high) == heights;
    AscendingUnique(AscendingOf(heights), low + high);
  }

  lemma QueueFound(env: Env, d: Durable)
    requires DurableInv(env, d)
    ensures var queue, heights := Queue(env, d), AscendingOf(d.pending);
      && Recovered(env, queue) && |queue| == |heights| && HeightsOf(queue) == heights
      && (forall i :: 0 <= i < |queue| ==> heights[i] in d.stored && queue[i] == d.stored[heights[i]])
      && (forall b :: b in queue ==> b.header.height in d.pending)
  {
    var queue, heights := Queue(env, d), AscendingOf(d.pending);
    forall h | h in heights ensures h in d.pending {
      assert h in Elements(heights);
    }
    RecoveryFindsAll(env, d, heights);
    forall i, j | 0 <= i < j < |queue| ensures queue[i].header.height < queue[j].header.height {
      assert heights[i] < heights[j];
    }
    forall b | b in queue ensures b.header.height in d.pending {
      var i :| 0 <= i < |queue| && queue[i] == b;
      assert heights[i] in heights;
    }
  }

  /** The queue of the next start begins with them. */
  lemma QueueContinues(env: Env, d: Durable, sent: seq<Block>, k: nat, stopped: bool)
    requires DurableInv(env, d) && Increasing(sent) && Pends(d, sent, k, stopped)
    ensures sent[k..] <= Queue(env, d) && Recovered(env, Queue(env, d))
  {
    QueueFound(env, d);
    PendingSplits(d, sent, k, stopped);
    var queue, heights := Queue(env, d), AscendingOf(d.pending);
    forall i | 0 <= i < |sent[k..]| ensures queue[i] == sent[k..][i] {
      assert HeightsOf(sent[k..])[i] == heights[i];
      assert sent[k..][i] == sent[k + i];
    }
  }

  /** The block the process began with is settled again, and the batch it was settled from was sent. */
  ghost predicate Resent(env: Env, d0: Durable, sent: seq<Block>) {
    && Republishes(env, d0)
    && (|Recorded(d0).value| > 1 ==> |sent| > 1 && sent[1] == Recorded(d0).value[1])
  }

  lemma RestIsHigher(d: Durable, sent: seq<Block>, stopped: bool, h: nat)
    requires Increasing(sent) && Pends(d, sent, 1, stopped) && h in d.pending
    ensures sent[0].header.height < h
  {
    assert |sent| > 1 ==> sent[0].header.height < sent[|sent| - 1].header.height;
  }

  lemma RestHopeless(env: Env, d0: Durable, d: Durable, sent: seq<Block>, stopped: bool)
    requires DurableInv(env, d) && SameTip(d0, d) && !Recoverable(env, d0)
    requires Queue(env, d0) <= sent && Increasing(sent)
    requires Pends(d, sent, 1, stopped) && Resent(env, d0, sent)
    ensures !Recoverable(env, d)
  {
    QueueContinues(env, d, sent, 1, stopped);
    QueueFound(env, d);
    var first := Queue(env, d0)[0];
    assert sent[0] == first;
    forall b | b in Queue(env, d) ensures b.header.height > d0.registry.latest {
      RestIsHigher(d, sent, stopped, b.header.height);
    }
    assert Queue(env, d0)[1..] <= sent[1..];
    assert |sent| > 1 ==> sent[1..][0] == sent[1];
    RestStaysHopeless(env, d0, d);
  }

  /** Nothing the next start finds is recoverable either. */
  lemma PendsHopeless(env: Env, d0: Durable, d: Durable, sent: seq<Block>, k: nat, stopped: bool)
    requires DurableInv(env, d) && SameTip(d0, d) && !Recoverable(env, d0)
    requires Queue(env, d0) != [] && Queue(env, d0) <= sent && Increasing(sent)
    requires Pends(d, sent, k, stopped) && k <= 1 && (k == 1 ==> Resent(env, d0, sent))
    ensures !Recoverable(env, d)
  {
    if k == 0 {
      QueueContinues(env, d, sent, 0, stopped);
      assert sent[0..] == sent;
      LongerStaysHopeless(env, d0, d);
    } else {
      RestHopeless(env, d0, d, sent, stopped);
    }
  }

  // ---------- a process that starts on an unrecoverable registry ----------

  /** The buffer holds what a first flush of `queue` can hold. */
  predicate Filling(env: Env, queue: seq<Block>, s: State) {
    && (s.phase.Idle? ==>
          s.batchBytes == Buffered(s.batch) && forall n :: 0 < n <= |s.batch| ==> !Full(env, s.batch[..n]))
    && (!s.phase.Idle? ==> Flushable(env, queue, s.batch))
    && (s.phase.Settling? ==> Encodable(s.batch))
  }

  /** The part of the queue that is to be flushed next. */
  function Rest(env: Env, d0: Durable, s: State): seq<Block>
    requires Queue(env, d0) != []
  {
    if s.finalized == [] then Queue(env, d0) else Queue(env, d0)[1..]
  }

  /** The first block may be published again and again once that is known to work, and a recorded batch
      of several blocks is flushed to its end. */
  ghost predicate Excused(env: Env, d0: Durable, s: State) {
    if s.finalized == [] then Republishes(env, d0) else Recorded(d0).Ok? && |Recorded(d0).value| > 1
  }

  ghost predicate Buffers(env: Env, d0: Durable, s: State)
    requires Queue(env, d0) != []
  {
    s.shuttingDown || s.stopped ||
    (&& (Excused(env, d0, s) || Filling(env, Rest(env, d0, s), s))
     && (s.finalized == [] && s.phase.Settling? ==>
           s.phase.blob in s.world.blobs && Decode(s.world.blobs[s.phase.blob]) == Ok(s.batch)))
  }

  predicate StillPends(s: State) {
    Pends(s.world, s.sent, 0, s.stopped) || (|s.finalized| == 1 && Pends(s.world, s.sent, 1, s.stopped))
  }

  /** What such a process keeps: the registry is where it was, at most the first block is finalized, and
      all others sent are pending. */
  ghost predicate Held(env: Env, d0: Durable, s: State) {
    && SameTip(d0, s.world) && Queue(env, d0) != [] && Extends(env, Queue(env, d0), s.sent)
    && |s.finalized| <= 1 && (|s.finalized| == 1 ==> Resent(env, d0, s.sent))
    && StillPends(s) && Buffers(env, d0, s)
  }

  ghost predicate Doomed(env: Env, d0: Durable, s: State) {
    Inv(env, s) && TimerInv(env, s) && Held(env, d0, s)
  }

  ghost predicate Hopeless(env: Env, d0: Durable, d: Durable) {
    SameTip(d0, d) && !Recoverable(env, d)
  }

  lemma DoomedHopeless(env: Env, d0: Durable, s: State)
    requires CollisionFree(env) && !Recoverable(env, d0) && Doomed(env, d0, s)
    ensures Hopeless(env, d0, s.world) && Replay(env, Journal(s)) == s.world && DurableInv(env, s.world)
  {
    SoundDurable(env, Journal(s));
    var k := if Pends(s.world, s.sent, 0, s.stopped) then 0 else 1;
    PendsHopeless(env, d0, s.world, s.sent, k, s.stopped);
  }

  lemma QueuePends(env: Env, d: Durable)
    requires DurableInv(env, d) && Queue(env, d) != []
    ensures Pends(d, Queue(env, d), 0, false) && Extends(env, Queue(env, d), Queue(env, d))
  {
    QueueFound(env, d);
    var queue, heights := Queue(env, d), AscendingOf(d.pending);
    forall h | h in d.pending ensures exists i :: 0 <= i < |queue| && queue[i].header.height == h {
      assert h in Elements(heights);
      var i :| 0 <= i < |heights| && heights[i] == h;
      assert queue[i].header.height == h;
    }
    forall i | 0 <= i < |queue| ensures queue[i].header.height in d.pending {
      assert queue[i] in queue;
    }
  }

  lemma StartHeld(env: Env, d: Durable, s: State)
    requires Queue(env, d) != [] && s.world == d && s.sent == Queue(env, d)
    requires Pends(d, Queue(env, d), 0, false) && Extends(env, Queue(env, d), Queue(env, d))
    requires s.finalized == [] && s.batch == [] && s.batchBytes == 0 && s.phase == Idle && !s.stopped
    ensures Held(env, d, s)
  {
  }

  lemma StartDoomed(env: Env, journal: seq<Op>)
    requires CollisionFree(env) && Sound(env, journal) && Queue(env, Replay(env, journal)) != []
    ensures Doomed(env, Replay(env, journal), Start(env, journal))
  {
    StartReady(env, journal);
    QueuePends(env, Replay(env, journal));
    StartHeld(env, Replay(env, journal), Start(env, journal));
  }

  /** What is buffered and what is still in the channel. */
  lemma BufferIs(env: Env, s: State)
    requires Conserved(s) && s.local == []
    ensures s.batch + s.channel == s.sent[|s.finalized|..] && s.batch <= s.sent[|s.finalized|..]
  {
    assert s.finalized + s.local + s.batch + s.channel == s.finalized + (s.batch + s.channel);
  }

  /** A batch that begins what is sent is flushable once something triggers it. */
  lemma TriggerFlushes(env: Env, queue: seq<Block>, sent: seq<Block>, batch: seq<Block>)
    requires Extends(env, queue, sent) && batch <= sent && batch != []
    requires forall n :: 0 < n < |batch| ==> !Full(env, batch[..n])
    requires env.flushAfter.Some? || Full(env, batch) || batch == sent
    ensures Flushable(env, queue, batch)
  {
    PrefixIncreases(sent, batch);
    assert forall i :: 0 <= i < |batch| ==> batch[i] == sent[i];
    assert queue <= batch || batch <= queue;
  }

  lemma RestExtends(env: Env, queue: seq<Block>, sent: seq<Block>)
    requires Extends(env, queue, sent) && queue != []
    ensures Extends(env, queue[1..], sent[1..])
  {
    assert forall i :: 0 <= i < |sent[1..]| ==> sent[1..][i] == sent[i + 1];
  }

  lemma ReceiveFills(env: Env, queue: seq<Block>, s: State, now: nat)
    requires Conserved(s) && s.local == [] && s.phase == Idle && !s.stopped && s.channel != []
    requires Extends(env, queue, s.sent[|s.finalized|..]) && Filling(env, queue, s)
    ensures Filling(env, queue, Take(env, s, now))
  {
    var s1 := Take(env, s, now);
    BufferIs(env, s);
    BufferedThen(s.batch, s.channel[0]);
    assert s1.batch <= s.sent[|s.finalized|..];
    forall n | 0 < n < |s1.batch| ensures !Full(env, s1.batch[..n]) {
      assert s1.batch[..n] == s.batch[..n];
    }
    assert s1.batch[..|s1.batch|] == s1.batch;
    if Full(env, s1.batch) {
      TriggerFlushes(env, queue, s.sent[|s.finalized|..], s1.batch);
    }
  }

  /** The timer and the end of the channel trigger a flush of what is buffered. */
  lemma SignalFills(env: Env, queue: seq<Block>, s: State, ev: Event)
    requires Conserved(s) && TimerInv(env, s) && s.local == []
    requires Extends(env, queue, s.sent[|s.finalized|..]) && Filling(env, queue, s)
    requires ev.TimerFires? || ev.ChannelClosed?
    ensures Step(env, s, ev).stopped || Filling(env, queue, Step(env, s, ev))
  {
    BufferIs(env, s);
    if s.phase == Idle && s.batch != [] {
      if env.flushAfter.Some? || s.channel == [] {
        assert s.channel == [] ==> s.batch == s.sent[|s.finalized|..];
        TriggerFlushes(env, queue, s.sent[|s.finalized|..], s.batch);
      }
    }
  }

  lemma StageExtends(env: Env, d0: Durable, s: State)
    requires Held(env, d0, s)
    ensures Extends(env, Rest(env, d0, s), s.sent[|s.finalized|..])
  {
    if s.finalized == [] {
      assert s.sent[0..] == s.sent;
    } else {
      RestExtends(env, Queue(env, d0), s.sent);
    }
  }

  /** A step that writes nothing and finalizes nothing. */
  lemma HeldOn(env: Env, d0: Durable, s: State, s1: State)
    requires Held(env, d0, s) && (s.stopped ==> s1.stopped)
    requires s1.world == s.world && s1.sent == s.sent && s1.finalized == s.finalized
    requires Buffers(env, d0, s1)
    ensures Held(env, d0, s1)
  {
  }

  lemma ReceiveHeld(env: Env, d0: Durable, s: State, now: nat)
    requires Conserved(s) && Held(env, d0, s)
    ensures Held(env, d0, Step(env, s, Receive(now)))
  {
    if s.phase == Idle && !s.stopped && s.channel != [] {
      var s1 := Step(env, s, Receive(now));
      TakeIs(env, s, now);
      if !s.shuttingDown && !Excused(env, d0, s) {
        StageExtends(env, d0, s);
        ReceiveFills(env, Rest(env, d0, s), s, now);
      }
      HeldOn(env, d0, s, s1);
    }
  }

  lemma SignalHeld(env: Env, d0: Durable, s: State, ev: Event)
    requires Conserved(s) && TimerInv(env, s) && Held(env, d0, s)
    requires ev.TimerFires? || ev.ChannelClosed? || ev.ShutdownSignal? || ev.ShutdownSeen?
    ensures Held(env, d0, Step(env, s, ev))
  {
    var s1 := Step(env, s, ev);
    SignalKeepsTip(env, s, ev);
    if (ev.TimerFires? || ev.ChannelClosed?) && !s.stopped && !s.shuttingDown && !Excused(env, d0, s) {
      StageExtends(env, d0, s);
      SignalFills(env, Rest(env, d0, s), s, ev);
    }
    HeldOn(env, d0, s, s1);
  }

  lemma SignalKeepsTip(env: Env, s: State, ev: Event)
    requires Conserved(s)
    requires ev.TimerFires? || ev.ChannelClosed? || ev.ShutdownSignal? || ev.ShutdownSeen?
    ensures var s1 := Step(env, s, ev);
      && s1.world == s.world && s1.past == s.past && s1.own == s.own && s1.sent == s.sent && s1.finalized == s.finalized
      && (s.stopped ==> s1.stopped) && (s.shuttingDown ==> s1.shuttingDown)
      && (ev.ShutdownSignal? ==> s1.shuttingDown) && (ev.ShutdownSeen? ==> s1 == s || s1.stopped)
      && (s1.phase.Settling? ==> s1.phase == s.phase && s1.batch == s.batch)
  {
  }

  lemma PutPends(env: Env, d: Durable, sent: seq<Block>, k: nat, stopped: bool, b: Block)
    requires Pends(d, sent, k, stopped) && Increasing(sent)
    requires sent[|sent| - 1].header.height < b.header.height
    ensures Pends(ApplyOp(env, d, Put(b)), sent, k, stopped)
  {
    assert forall i :: 0 <= i < |sent| - 1 ==> sent[i].header.height < sent[|sent| - 1].header.height;
  }

  /** A new block is pending above those sent before. */
  lemma MarkPends(env: Env, d: Durable, sent: seq<Block>, k: nat, stopped: bool, b: Block)
    requires Pends(d, sent, k, stopped) && sent[|sent| - 1].header.height < b.header.height
    requires b.header.height in d.stored && d.stored[b.header.height] == b
    ensures Pends(ApplyOp(env, d, Mark(b.header.height)), if stopped then sent else sent + [b], k, stopped)
  {
    var more := sent + [b];
    assert more[|sent|] == b && forall i :: 0 <= i < |sent| ==> more[i] == sent[i];
  }

  lemma SendIs(env: Env, s: State, b: Block)
    requires |s.arrived| == |s.batch|
    ensures var s1 := Step(env, s, Produce(b));
      && s1.world == ApplyOp(env, ApplyOp(env, s.world, Put(b)), Mark(b.header.height))
      && s1.world.registry == s.world.registry && s1.world.blobs == s.world.blobs
      && s1.sent == (if s.stopped then s.sent else s.sent + [b])
      && s1.finalized == s.finalized && s1.phase == s.phase && s1.batch == s.batch && s1.batchBytes == s.batchBytes
      && s1.stopped == s.stopped && s1.shuttingDown == s.shuttingDown
      && s1.past == s.past && s1.own == s.own + [Put(b), Mark(b.header.height)]
  {
  }

  lemma ExtendsOn(env: Env, queue: seq<Block>, sent: seq<Block>, b: Block)
    requires Extends(env, queue, sent) && sent != [] && env.decodable(b.data)
    requires sent[|sent| - 1].header.height < b.header.height
    ensures Extends(env, queue, sent + [b])
  {
    var more := sent + [b];
    forall i, j | 0 <= i < j < |more| ensures more[i].header.height < more[j].header.height {
      assert i < |sent| - 1 ==> sent[i].header.height < sent[|sent| - 1].header.height;
    }
  }

  lemma SentPends(env: Env, s: State, b: Block)
    requires |s.arrived| == |s.batch| && StillPends(s) && Increasing(s.sent) && Legal(env, s, Produce(b))
    ensures StillPends(Step(env, s, Produce(b)))
  {
    SendIs(env, s, b);
    var k := if Pends(s.world, s.sent, 0, s.stopped) then 0 else 1;
    PutPends(env, s.world, s.sent, k, s.stopped, b);
    MarkPends(env, ApplyOp(env, s.world, Put(b)), s.sent, k, s.stopped, b);
  }

  lemma BuffersOn(env: Env, d0: Durable, s: State, s1: State)
    requires Queue(env, d0) != [] && Buffers(env, d0, s)
    requires s1.phase == s.phase && s1.batch == s.batch && s1.batchBytes == s.batchBytes
    requires s1.stopped == s.stopped && s1.shuttingDown == s.shuttingDown && s1.finalized == s.finalized
    requires s1.world.blobs == s.world.blobs
    ensures Buffers(env, d0, s1)
  {
  }

  lemma ProduceHeld(env: Env, d0: Durable, s: State, b: Block)
    requires |s.arrived| == |s.batch| && Held(env, d0, s) && Legal(env, s, Produce(b))
    ensures Held(env, d0, Step(env, s, Produce(b)))
  {
    var s1 := Step(env, s, Produce(b));
    SendIs(env, s, b);
    ExtendsOn(env, Queue(env, d0), s.sent, b);
    SentPends(env, s, b);
    BuffersOn(env, d0, s, s1);
    SentHeld(env, d0, s, s1);
  }

  lemma SentHeld(env: Env, d0: Durable, s: State, s1: State)
    requires Held(env, d0, s) && Extends(env, Queue(env, d0), s1.sent) && s.sent <= s1.sent
    requires s1.world.registry == s.world.registry && s1.world.blobs == s.world.blobs && s1.finalized == s.finalized
    requires StillPends(s1) && Buffers(env, d0, s1)
    ensures Held(env, d0, s1)
  {
  }

  lemma ShutFlushIs(env: Env, s: State, a: Attempt)
    requires Conserved(s) && s.shuttingDown
    ensures var s1 := FlushStep(env, s, a);
      && s1.world == s.world && s1.sent == s.sent && s1.finalized == s.finalized && s1.shuttingDown
      && (s.stopped ==> s1.stopped) && s1.past == s.past && s1.own == s.own
  {
  }

  lemma ShutFlushHeld(env: Env, d0: Durable, s: State, a: Attempt)
    requires Conserved(s) && Held(env, d0, s) && s.shuttingDown
    ensures Held(env, d0, FlushStep(env, s, a)) && Journal(FlushStep(env, s, a)) == Journal(s)
  {
    ShutFlushIs(env, s, a);
    HeldOn(env, d0, s, FlushStep(env, s, a));
  }

  lemma TipBlob(env: Env, d: Durable)
    requires DurableInv(env, d) && d.registry.latest in d.registry.commitments
    ensures var blob := d.registry.commitments[d.registry.latest];
      blob in d.blobs && env.digest(d.blobs[blob]) == blob
  {
    assert Carries(d.blobs, d.registry.commitments[d.registry.latest], d.registry.settled[d.registry.latest]);
  }

  /** Publishing again leaves the blob of the latest height as it is. */
  lemma PublishKeepsTip(env: Env, d: Durable, batch: seq<Block>)
    requires CollisionFree(env) && Encodable(batch)
    requires d.registry.latest in d.registry.commitments ==>
               var blob := d.registry.commitments[d.registry.latest];
               blob in d.blobs && env.digest(d.blobs[blob]) == blob
    ensures SameTip(d, ApplyOp(env, d, Publish(batch)))
  {
  }

  lemma PublishIs(env: Env, s: State, a: Attempt)
    requires Conserved(s) && s.phase.Publishing? && !s.shuttingDown && Encodable(s.batch) && a.net != RequestLost
    ensures var s1 := FlushStep(env, s, a);
      && s1.world == ApplyOp(env, s.world, Publish(s.batch)) && s1.sent == s.sent && s1.finalized == s.finalized
      && s1.batch == s.batch && s1.batchBytes == s.batchBytes && s1.stopped == s.stopped && s1.past == s.past
      && s1.own == s.own + [Publish(s.batch)]
      && (s1.phase == s.phase || s1.phase == Settling(BlobOf(env, s.batch), s.phase.last))
      && s1.world.pending == s.world.pending && s1.world.stored == s.world.stored
      && BlobOf(env, s.batch) in s1.world.blobs && s1.world.blobs[BlobOf(env, s.batch)] == Encode(s.batch).value
  {
  }

  lemma PublishBuffers(env: Env, d0: Durable, s: State, s1: State)
    requires Conserved(s) && Queue(env, d0) != [] && Buffers(env, d0, s) && s.phase.Publishing? && !s.shuttingDown
    requires Encodable(s.batch) && s1.finalized == s.finalized && s1.batch == s.batch && s1.stopped == s.stopped
    requires s1.phase == s.phase || s1.phase == Settling(BlobOf(env, s.batch), s.phase.last)
    requires BlobOf(env, s.batch) in s1.world.blobs && s1.world.blobs[BlobOf(env, s.batch)] == Encode(s.batch).value
    ensures Buffers(env, d0, s1)
  {
    DecodeInvertsEncode(s.batch);
    assert !s.stopped;
  }

  lemma PublishHeld(env: Env, d0: Durable, s: State, a: Attempt)
    requires CollisionFree(env) && Conserved(s) && DurableInv(env, s.world) && Held(env, d0, s)
    requires s.phase.Publishing? && !s.shuttingDown && Encodable(s.batch) && a.net != RequestLost
    ensures Held(env, d0, FlushStep(env, s, a))
  {
    var s1 := FlushStep(env, s, a);
    PublishIs(env, s, a);
    if s.world.registry.latest in s.world.registry.commitments {
      TipBlob(env, s.world);
    }
    PublishKeepsTip(env, s.world, s.batch);
    PublishBuffers(env, d0, s, s1);
    WrittenHeld(env, d0, s, s1);
  }

  lemma WrittenHeld(env: Env, d0: Durable, s: State, s1: State)
    requires Held(env, d0, s) && s1.sent == s.sent && s1.finalized == s.finalized && s1.stopped == s.stopped
    requires SameTip(s.world, s1.world)
    requires s1.world.pending == s.world.pending && s1.world.stored == s.world.stored
    requires Buffers(env, d0, s1)
    ensures Held(env, d0, s1)
  {
  }

  lemma NotNext(env: Env, latest: nat, queue: seq<Block>, batch: seq<Block>)
    requires !NextSettles(env, latest, queue) && Flushable(env, queue, batch) && Encodable(batch)
    ensures batch[0].header.height != latest + 1
  {
  }

  lemma FirstTaken(env: Env, d0: Durable, s: State)
    requires Conserved(s) && Held(env, d0, s) && !Recoverable(env, d0) && s.finalized == []
    requires s.phase.Settling? && !s.shuttingDown && Settle(s.world.registry, s.batch[0], s.phase.blob).Some?
    requires s.batch[0] == s.sent[0]
    ensures Republishes(env, d0) && Recorded(d0) == Ok(s.batch)
    ensures Settle(s.world.registry, s.batch[0], s.phase.blob) == Some(s.world.registry)
  {
    var q := Queue(env, d0);
    assert s.sent[0] == q[0];
    if Filling(env, q, s) {
      NotNext(env, d0.registry.latest, q, s.batch);
    }
  }

  lemma SecondRefused(env: Env, d0: Durable, s: State)
    requires Conserved(s) && Held(env, d0, s) && !Recoverable(env, d0) && |s.finalized| == 1
    requires s.phase.Settling? && !s.shuttingDown && s.batch[0] == s.sent[1]
    ensures Settle(s.world.registry, s.batch[0], s.phase.blob) == None
  {
    var q := Queue(env, d0);
    assert s.sent[0] == q[0] && s.sent[0].header.height < s.sent[1].header.height;
    if |Recorded(d0).value| <= 1 {
      NotNext(env, d0.registry.latest, q[1..], s.batch);
    }
  }

  /** The registry takes nothing of such a process but the first block again. */
  lemma TakesOnlyFirst(env: Env, d0: Durable, s: State)
    requires Conserved(s) && Held(env, d0, s) && !Recoverable(env, d0)
    requires s.phase.Settling? && !s.shuttingDown && Settle(s.world.registry, s.batch[0], s.phase.blob).Some?
    ensures s.finalized == [] && Republishes(env, d0) && Recorded(d0) == Ok(s.batch)
    ensures Settle(s.world.registry, s.batch[0], s.phase.blob) == Some(s.world.registry)
  {
    BufferIs(env, s);
    assert s.batch[0] == s.sent[|s.finalized|..][0] == s.sent[|s.finalized|];
    if s.finalized == [] {
      FirstTaken(env, d0, s);
    } else {
      SecondRefused(env, d0, s);
    }
  }

  lemma CommitsAgain(env: Env, s: State)
    requires Conserved(s) && s.phase.Settling?
    requires Settle(s.world.registry, s.batch[0], s.phase.blob) == Some(s.world.registry)
    ensures Write(env, s, Commit(s.batch[0], s.phase.blob)).world == s.world
  {
  }

  /** The first block is settled again, but not finalized: it stays where it is. */
  lemma PutBackHeld(env: Env, d0: Durable, s: State, s1: State, a: Attempt)
    requires Conserved(s) && Held(env, d0, s) && s.phase.Settling? && s.finalized == [] && Republishes(env, d0)
    requires s1 == s.(own := s1.own)
    requires !a.finalized
    ensures Held(env, d0, FinalizeFront(env, s1, s.phase.last, a))
  {
    var end := FinalizeFront(env, s1, s.phase.last, a);
    assert end.world == s.world && end.sent == s.sent && end.finalized == [] && !end.phase.Settling?;
    HeldOn(env, d0, s, end);
  }

  lemma FirstGone(d: Durable, sent: seq<Block>, stopped: bool, more: bool)
    requires Pends(d, sent, 0, stopped) && Increasing(sent)
    ensures Pends(d.(pending := d.pending - {sent[0].header.height}), sent, 1, stopped || more)
  {
  }

  lemma DropIs(env: Env, s: State, a: Attempt)
    requires Conserved(s) && s.phase.Settling? && a.finalized
    ensures var end := FinalizeFront(env, s, s.phase.last, a);
      && end.world == (if a.cleared then s.world.(pending := s.world.pending - {s.batch[0].header.height}) else s.world)
      && end.sent == s.sent && end.finalized == s.finalized + [s.batch[0]] && end.past == s.past
      && end.own == s.own + [Done(s.batch[0])] + (if a.cleared then [Clear(s.batch[0].header.height)] else [])
      && (|s.batch| == 1 ==> end.batch == [] && (end.stopped || (end.phase == Idle && end.batchBytes == 0)))
      && (|s.batch| > 1 ==> end.phase == s.phase && end.stopped == s.stopped)
      && (s.stopped ==> end.stopped)
  {
  }

  lemma DropResent(env: Env, d0: Durable, s: State)
    requires Conserved(s) && s.batch != [] && s.finalized == [] && s.local == []
    requires Republishes(env, d0) && Recorded(d0) == Ok(s.batch)
    ensures s.batch[0] == s.sent[0] && Resent(env, d0, s.sent)
  {
    BufferIs(env, s);
    assert s.sent[0..] == s.sent;
  }

  lemma DropPends(s: State, end: State, cleared: bool)
    requires Pends(s.world, s.sent, 0, s.stopped) && Increasing(s.sent) && s.batch != [] && s.batch[0] == s.sent[0]
    requires end.sent == s.sent && end.finalized == [s.batch[0]] && (s.stopped ==> end.stopped)
    requires end.world == if cleared then s.world.(pending := s.world.pending - {s.batch[0].header.height}) else s.world
    ensures StillPends(end)
  {
    FirstGone(s.world, s.sent, s.stopped, end.stopped);
  }

  lemma DropBuffers(env: Env, d0: Durable, end: State)
    requires Queue(env, d0) != [] && Recorded(d0).Ok? && |end.finalized| == 1
    requires |Recorded(d0).value| <= 1 ==> end.stopped || (end.phase == Idle && end.batch == [] && end.batchBytes == 0)
    ensures Buffers(env, d0, end)
  {
  }

  lemma DroppedHeld(env: Env, d0: Durable, s: State, end: State)
    requires Held(env, d0, s) && end.sent == s.sent && |end.finalized| == 1 && SameTip(s.world, end.world)
    requires Resent(env, d0, s.sent) && StillPends(end) && Buffers(env, d0, end)
    ensures Held(env, d0, end)
  {
  }

  /** The first block is settled again and finalized. */
  lemma DropHeld(env: Env, d0: Durable, s: State, s1: State, a: Attempt)
    requires Conserved(s) && Held(env, d0, s) && s.phase.Settling? && s.finalized == [] && s.local == []
    requires Republishes(env, d0) && Recorded(d0) == Ok(s.batch) && s1 == s.(own := s1.own) && a.finalized
    ensures Held(env, d0, FinalizeFront(env, s1, s.phase.last, a))
  {
    var end := FinalizeFront(env, s1, s.phase.last, a);
    DropIs(env, s1, a);
    DropResent(env, d0, s);
    DropPends(s, end, a.cleared);
    DropBuffers(env, d0, end);
    DroppedHeld(env, d0, s, end);
  }

  lemma SettleIs(env: Env, s: State, a: Attempt)
    requires Conserved(s) && s.phase.Settling? && !s.shuttingDown
    requires Settle(s.world.registry, s.batch[0], s.phase.blob) == Some(s.world.registry) && a.net != RequestLost
    ensures var s1 := s.(own := s.own + [Commit(s.batch[0], s.phase.blob)]);
      FlushStep(env, s, a) == if a.net == Delivered then FinalizeFront(env, s1, s.phase.last, a) else s1
  {
    CommitsAgain(env, s);
    assert Write(env, s, Commit(s.batch[0], s.phase.blob)) == s.(own := s.own + [Commit(s.batch[0], s.phase.blob)]);
  }

  /** The registry takes the first block again. */
  lemma AgainHeld(env: Env, d0: Durable, s: State, a: Attempt)
    requires Conserved(s) && Held(env, d0, s) && !Recoverable(env, d0)
    requires s.phase.Settling? && !s.shuttingDown && a.net != RequestLost
    requires Settle(s.world.registry, s.batch[0], s.phase.blob).Some?
    ensures Held(env, d0, FlushStep(env, s, a))
  {
    TakesOnlyFirst(env, d0, s);
    SettleIs(env, s, a);
    var s1 := s.(own := s.own + [Commit(s.batch[0], s.phase.blob)]);
    if a.net != Delivered {
      HeldOn(env, d0, s, s1);
    } else if a.finalized {
      DropHeld(env, d0, s, s1, a);
    } else {
      PutBackHeld(env, d0, s, s1, a);
    }
  }

  lemma FlushHeld(env: Env, d0: Durable, s: State, a: Attempt)
    requires CollisionFree(env) && Conserved(s) && DurableInv(env, s.world) && Held(env, d0, s) && !Recoverable(env, d0)
    ensures Held(env, d0, FlushStep(env, s, a))
  {
    if s.shuttingDown {
      ShutFlushHeld(env, d0, s, a);
    } else if s.phase.Publishing? && Encodable(s.batch) && a.net != RequestLost {
      PublishHeld(env, d0, s, a);
    } else if s.phase.Settling? && a.net != RequestLost && Settle(s.world.registry, s.batch[0], s.phase.blob).Some? {
      AgainHeld(env, d0, s, a);
    }
  }

  // ---------- and every crash leaves it unrecoverable ----------

  /** Every journal between the two leaves a hopeless world. */
  ghost predicate AllHopeless(env: Env, d0: Durable, before: seq<Op>, after: seq<Op>) {
    before <= after && forall k :: |before| <= k <= |after| ==> Hopeless(env, d0, Replay(env, after[..k]))
  }

  lemma HopelessNow(env: Env, d0: Durable, journal: seq<Op>)
    requires Hopeless(env, d0, Replay(env, journal))
    ensures AllHopeless(env, d0, journal, journal)
  {
    assert journal[..|journal|] == journal;
  }

  lemma HopelessThen(env: Env, d0: Durable, before: seq<Op>, after: seq<Op>, op: Op)
    requires AllHopeless(env, d0, before, after)
    requires Hopeless(env, d0, ApplyOp(env, Replay(env, after), op))
    ensures AllHopeless(env, d0, before, after + [op])
  {
    Replayed(env, after, op);
    var more := after + [op];
    forall k | |before| <= k <= |more| ensures Hopeless(env, d0, Replay(env, more[..k])) {
      if k <= |after| {
        assert more[..k] == after[..k];
      } else {
        assert more[..k] == more;
      }
    }
  }

  lemma OnePut(env: Env, d0: Durable, s: State, b: Block)
    requires CollisionFree(env) && !Recoverable(env, d0) && Doomed(env, d0, s) && Legal(env, s, Produce(b))
    ensures Hopeless(env, d0, ApplyOp(env, s.world, Put(b)))
  {
    DoomedHopeless(env, d0, s);
    var put := ApplyOp(env, s.world, Put(b));
    var k := if Pends(s.world, s.sent, 0, s.stopped) then 0 else 1;
    PutPends(env, s.world, s.sent, k, s.stopped, b);
    PutKeepsDurable(env, s.world, b);
    PendsHopeless(env, d0, put, s.sent, k, s.stopped);
  }

  lemma PutKeepsDurable(env: Env, d: Durable, b: Block)
    requires DurableInv(env, d) && env.decodable(b.data)
    ensures DurableInv(env, ApplyOp(env, d, Put(b)))
  {
  }

  lemma TwoWrites(env: Env, d0: Durable, journal: seq<Op>, op: Op, op1: Op)
    requires var d := Replay(env, journal);
      && Hopeless(env, d0, d) && Hopeless(env, d0, ApplyOp(env, d, op))
      && Hopeless(env, d0, ApplyOp(env, ApplyOp(env, d, op), op1))
    ensures AllHopeless(env, d0, journal, journal + [op] + [op1])
  {
    HopelessNow(env, d0, journal);
    HopelessThen(env, d0, journal, journal, op);
    Replayed(env, journal, op);
    HopelessThen(env, d0, journal, journal + [op], op1);
  }

  lemma ProduceJournals(env: Env, d0: Durable, s: State, s1: State, b: Block)
    requires Hopeless(env, d0, s.world) && Replay(env, Journal(s)) == s.world
    requires Hopeless(env, d0, ApplyOp(env, s.world, Put(b))) && Hopeless(env, d0, s1.world)
    requires s1.world == ApplyOp(env, ApplyOp(env, s.world, Put(b)), Mark(b.header.height))
    requires s1.past == s.past && s1.own == s.own + [Put(b), Mark(b.header.height)]
    ensures AllHopeless(env, d0, Journal(s), Journal(s1))
  {
    TwoWrites(env, d0, Journal(s), Put(b), Mark(b.header.height));
    assert Journal(s1) == Journal(s) + [Put(b)] + [Mark(b.header.height)];
  }

  /** What one attempt writes: nothing, a blob, or a settle again with what follows from it. */
  lemma FlushWrites(env: Env, d0: Durable, s: State, a: Attempt)
    requires CollisionFree(env) && !Recoverable(env, d0) && Doomed(env, d0, s)
    ensures var s1 := FlushStep(env, s, a);
      || Journal(s1) == Journal(s)
      || Journal(s1) == Journal(s) + [Publish(s.batch)]
      || (s.phase.Settling? && s.batch != [] &&
          Settle(s.world.registry, s.batch[0], s.phase.blob) == Some(s.world.registry) &&
          (|| Journal(s1) == Journal(s) + [Commit(s.batch[0], s.phase.blob)]
           || Journal(s1) == Journal(s) + [Commit(s.batch[0], s.phase.blob)] + [Done(s.batch[0])]
           || Journal(s1) == Journal(s) + [Commit(s.batch[0], s.phase.blob)] + [Done(s.batch[0])] +
                             [Clear(s.batch[0].header.height)]))
  {
    if s.shuttingDown {
      ShutFlushHeld(env, d0, s, a);
    } else if s.phase.Publishing? && Encodable(s.batch) && a.net != RequestLost {
      PublishIs(env, s, a);
      assert s.past + (s.own + [Publish(s.batch)]) == Journal(s) + [Publish(s.batch)];
    } else if s.phase.Settling? && a.net != RequestLost && Settle(s.world.registry, s.batch[0], s.phase.blob).Some? {
      TakesOnlyFirst(env, d0, s);
      SettleIs(env, s, a);
      SettleWrites(env, s, a);
    }
  }

  lemma SettleWrites(env: Env, s: State, a: Attempt)
    requires Conserved(s) && s.phase.Settling?
    ensures var s1 := s.(own := s.own + [Commit(s.batch[0], s.phase.blob)]);
      var end := if a.net == Delivered then FinalizeFront(env, s1, s.phase.last, a) else s1;
      var committed := Journal(s) + [Commit(s.batch[0], s.phase.blob)];
      || Journal(end) == committed
      || Journal(end) == committed + [Done(s.batch[0])]
      || Journal(end) == committed + [Done(s.batch[0])] + [Clear(s.batch[0].header.height)]
  {
    var s1 := s.(own := s.own + [Commit(s.batch[0], s.phase.blob)]);
    if a.net == Delivered && a.finalized {
      DropIs(env, s1, a);
    }
  }

  lemma FlushJournals(env: Env, d0: Durable, s: State, a: Attempt)
    requires CollisionFree(env) && !Recoverable(env, d0) && Doomed(env, d0, s)
    requires Doomed(env, d0, FlushStep(env, s, a))
    ensures AllHopeless(env, d0, Journal(s), Journal(FlushStep(env, s, a)))
  {
    var s1 := FlushStep(env, s, a);
    DoomedHopeless(env, d0, s);
    DoomedHopeless(env, d0, s1);
    FlushWrites(env, d0, s, a);
    HopelessNow(env, d0, Journal(s));
    if Journal(s1) == Journal(s) + [Publish(s.batch)] {
      Replayed(env, Journal(s), Publish(s.batch));
      HopelessThen(env, d0, Journal(s), Journal(s), Publish(s.batch));
    } else if Journal(s1) != Journal(s) {
      SettleJournals(env, d0, s, s1);
    }
  }

  lemma SettleJournals(env: Env, d0: Durable, s: State, s1: State)
    requires Hopeless(env, d0, s.world) && Replay(env, Journal(s)) == s.world
    requires Hopeless(env, d0, s1.world) && Replay(env, Journal(s1)) == s1.world
    requires Conserved(s) && s.phase.Settling? && s.batch != []
    requires Settle(s.world.registry, s.batch[0], s.phase.blob) == Some(s.world.registry)
    requires var committed := Journal(s) + [Commit(s.batch[0], s.phase.blob)];
      || Journal(s1) == committed
      || Journal(s1) == committed + [Done(s.batch[0])]
      || Journal(s1) == committed + [Done(s.batch[0])] + [Clear(s.batch[0].header.height)]
    ensures AllHopeless(env, d0, Journal(s), Journal(s1))
  {
    CommitsAgain(env, s);
    AgainJournals(env, d0, s.world, Journal(s), Journal(s1), s.batch[0], s.phase.blob);
  }

  /** Only the marker that goes changes anything. */
  lemma AgainJournals(env: Env, d0: Durable, d: Durable, journal: seq<Op>, end: seq<Op>, front: Block, blob: BlobId)
    requires Hopeless(env, d0, d) && Replay(env, journal) == d && Hopeless(env, d0, Replay(env, end))
    requires ApplyOp(env, d, Commit(front, blob)) == d
    requires var committed := journal + [Commit(front, blob)];
      || end == committed
      || end == committed + [Done(front)]
      || end == committed + [Done(front)] + [Clear(front.header.height)]
    ensures AllHopeless(env, d0, journal, end)
  {
    var commit, done, clear := Commit(front, blob), Done(front), Clear(front.header.height);
    HopelessNow(env, d0, journal);
    Replayed(env, journal, commit);
    HopelessThen(env, d0, journal, journal, commit);
    Replayed(env, journal + [commit], done);
    HopelessThen(env, d0, journal, journal + [commit], done);
    if end == journal + [commit] + [done] + [clear] {
      Replayed(env, journal + [commit] + [done], clear);
      HopelessThen(env, d0, journal, journal + [commit] + [done], clear);
    }
  }

  lemma SignalJournals(env: Env, d0: Durable, s: State, ev: Event)
    requires CollisionFree(env) && !Recoverable(env, d0) && Doomed(env, d0, s)
    requires !ev.Produce? && !ev.Flush? && !ev.Crash?
    ensures AllHopeless(env, d0, Journal(s), Journal(Step(env, s, ev)))
  {
    DoomedHopeless(env, d0, s);
    HopelessNow(env, d0, Journal(s));
    SignalWrites(env, s, ev);
  }

  lemma SignalWrites(env: Env, s: State, ev: Event)
    requires |s.arrived| == |s.batch| && !ev.Produce? && !ev.Flush? && !ev.Crash?
    ensures Journal(Step(env, s, ev)) == Journal(s)
  {
  }

  lemma StepHeld(env: Env, d0: Durable, s: State, ev: Event)
    requires CollisionFree(env) && !Recoverable(env, d0) && Doomed(env, d0, s) && Legal(env, s, ev) && !ev.Crash?
    ensures Held(env, d0, Step(env, s, ev))
  {
    match ev
    case Produce(b) => ProduceHeld(env, d0, s, b);
    case Receive(now) => ReceiveHeld(env, d0, s, now);
    case Flush(a) =>
      SoundDurable(env, Journal(s));
      FlushHeld(env, d0, s, a);
    case _ => SignalHeld(env, d0, s, ev);
  }

  lemma StepDoomed(env: Env, d0: Durable, s: State, ev: Event)
    requires CollisionFree(env) && !Recoverable(env, d0) && Doomed(env, d0, s) && Legal(env, s, ev) && !ev.Crash?
    ensures Doomed(env, d0, Step(env, s, ev))
    ensures AllHopeless(env, d0, Journal(s), Journal(Step(env, s, ev)))
  {
    StepHeld(env, d0, s, ev);
    StepKeepsInv(env, s, ev);
    StepKeepsTimer(env, s, ev);
    match ev
    case Produce(b) =>
      DoomedHopeless(env, d0, s);
      DoomedHopeless(env, d0, Step(env, s, ev));
      OnePut(env, d0, s, b);
      SendIs(env, s, b);
      ProduceJournals(env, d0, s, Step(env, s, ev), b);
    case Flush(a) => FlushJournals(env, d0, s, a);
    case _ => SignalJournals(env, d0, s, ev);
  }

  lemma HopelessPrefix(env: Env, d0: Durable, before: seq<Op>, after: seq<Op>, kept: nat)
    requires AllHopeless(env, d0, before, after)
    ensures AllHopeless(env, d0, before, Left(before, after, kept))
    ensures Hopeless(env, d0, Replay(env, Left(before, after, kept)))
  {
    var left := Left(before, after, kept);
    assert forall k :: |before| <= k <= |left| ==> left[..k] == after[..k];
    assert left[..|left|] == left;
  }

  lemma CrashJournals(env: Env, d0: Durable, before: seq<Op>, written: seq<Op>, kept: nat)
    requires CollisionFree(env) && AllHopeless(env, d0, before, written) && Sound(env, written)
    ensures AllHopeless(env, d0, before, Journal(Start(env, Left(before, written, kept))))
    ensures Sound(env, Left(before, written, kept)) && Hopeless(env, d0, Replay(env, Left(before, written, kept)))
  {
    var left := Left(before, written, kept);
    HopelessPrefix(env, d0, before, written, kept);
    HopelessThen(env, d0, before, left, Boot);
    SoundPrefix(env, written, |left|);
    StartReady(env, left);
  }

  lemma StepSound(env: Env, s: State, ev: Event)
    requires CollisionFree(env) && Inv(env, s) && Legal(env, s, ev)
    ensures Sound(env, Journal(Step(env, s, ev)))
  {
    StepKeepsInv(env, s, ev);
  }

  /** What any step may leave, and what a crash during it may leave of that. */
  lemma {:induction false} StepJournals(env: Env, d0: Durable, s: State, ev: Event)
    requires CollisionFree(env) && !Recoverable(env, d0) && Doomed(env, d0, s) && Legal(env, s, ev)
    ensures AllHopeless(env, d0, Journal(s), Journal(Step(env, s, ev)))
    decreases ev
  {
    if ev.Crash? {
      StepJournals(env, d0, s, ev.during);
      StepSound(env, s, ev.during);
      CrashJournals(env, d0, Journal(s), Journal(Step(env, s, ev.during)), ev.kept);
    } else {
      StepDoomed(env, d0, s, ev);
    }
  }

  // ---------- the theorem ----------

  /** The next start after a crash is of the same kind. */
  lemma CrashLeaves(env: Env, d0: Durable, s: State, ev: Event) returns (left: seq<Op>)
    requires CollisionFree(env) && !Recoverable(env, d0) && Doomed(env, d0, s) && Legal(env, s, ev) && ev.Crash?
    ensures Step(env, s, ev) == Start(env, left) && Sound(env, left) && Hopeless(env, d0, Replay(env, left))
  {
    StepJournals(env, d0, s, ev.during);
    StepSound(env, s, ev.during);
    left := Left(Journal(s), Journal(Step(env, s, ev.during)), ev.kept);
    CrashJournals(env, d0, Journal(s), Journal(Step(env, s, ev.during)), ev.kept);
  }

  lemma RunRest(env: Env, s: State, evs: seq<Event>)
    requires |s.arrived| == |s.batch| && LegalRun(env, s, evs) && evs != []
    ensures Legal(env, s, evs[0]) && LegalRun(env, Step(env, s, evs[0]), evs[1..])
    ensures Run(env, s, evs) == Run(env, Step(env, s, evs[0]), evs[1..])
  {
  }

  lemma RunStops(env: Env, s: State)
    requires |s.arrived| == |s.batch|
    ensures Run(env, s, []) == s
  {
  }

  lemma {:induction false} DoomedRun(env: Env, d0: Durable, s: State, evs: seq<Event>)
    requires CollisionFree(env) && !Recoverable(env, d0) && Doomed(env, d0, s) && LegalRun(env, s, evs)
    ensures Run(env, s, evs).world.registry.latest == d0.registry.latest
    decreases |evs|, 0
  {
    if evs == [] {
      RunStops(env, s);
    } else {
      RunRest(env, s, evs);
      if evs[0].Crash? {
        var left := CrashLeaves(env, d0, s, evs[0]);
        HopelessRun(env, left, evs[1..]);
      } else {
        StepDoomed(env, d0, s, evs[0]);
        DoomedRun(env, d0, Step(env, s, evs[0]), evs[1..]);
      }
    }
  }

  lemma {:induction false} RunGrows(env: Env, s: State, evs: seq<Event>)
    requires CollisionFree(env) && Inv(env, s) && LegalRun(env, s, evs)
    ensures Inv(env, Run(env, s, evs)) && Journal(s) <= Journal(Run(env, s, evs))
    decreases |evs|
  {
    if evs == [] {
      RunStops(env, s);
    } else {
      RunRest(env, s, evs);
      StepKeepsInv(env, s, evs[0]);
      JournalGrows(env, s, evs[0]);
      RunGrows(env, Step(env, s, evs[0]), evs[1..]);
    }
  }

  lemma EmptyRun(env: Env, journal: seq<Op>, evs: seq<Event>)
    requires CollisionFree(env) && Sound(env, journal) && LegalRun(env, Start(env, journal), evs)
    requires !NextSettles(env, Replay(env, journal).registry.latest, [])
    ensures Run(env, Start(env, journal), evs).world.registry.latest == Replay(env, journal).registry.latest
  {
    StartReady(env, journal);
    var s := Start(env, journal);
    RunGrows(env, s, evs);
    NothingSettles(env, journal, Journal(Run(env, s, evs)));
  }

  lemma {:induction false} HopelessRun(env: Env, journal: seq<Op>, evs: seq<Event>)
    requires CollisionFree(env) && Sound(env, journal) && !Recoverable(env, Replay(env, journal))
    requires LegalRun(env, Start(env, journal), evs)
    ensures Run(env, Start(env, journal), evs).world.registry.latest == Replay(env, journal).registry.latest
    decreases |evs|, 1
  {
    if Queue(env, Replay(env, journal)) == [] {
      EmptyRun(env, journal, evs);
    } else {
      StartDoomed(env, journal);
      DoomedRun(env, Replay(env, journal), Start(env, journal), evs);
    }
  }

  /** After a start on any journal some run settles a new height if and only if the pending blocks, the
      registry and the blob of the last settle are as `Recoverable` says. */
  lemma SettlesAgainExactly(env: Env, journal: seq<Op>)
    requires CollisionFree(env) && Sound(env, journal)
    ensures CanSettle(env, journal) <==> Recoverable(env, Replay(env, journal))
  {
    if Recoverable(env, Replay(env, journal)) {
      RecoverableSettles(env, journal);
    } else if CanSettle(env, journal) {
      var evs: seq<Event> :| LegalRun(env, Start(env, journal), evs) &&
        Run(env, Start(env, journal), evs).world.registry.latest > Replay(env, journal).registry.latest;
      HopelessRun(env, journal, evs);
    }
  }

  // ---------- what that means for an operator, and for a crash ----------

  /** With a flush timer and a first block that fits a blob, the head of the queue decides: above the
      settled heights exactly the next one settles, below the latest none does. */
  lemma HeadDecides(env: Env, journal: seq<Op>)
    requires CollisionFree(env) && Sound(env, journal) && env.flushAfter.Some?
    requires var d := Replay(env, journal);
      Queue(env, d) != [] && |Queue(env, d)[0].data| <= MAX_SEQUENCE_LENGTH &&
      Queue(env, d)[0].header.height != d.registry.latest
    ensures CanSettle(env, journal) <==>
            Queue(env, Replay(env, journal))[0].header.height == Replay(env, journal).registry.latest + 1
  {
    SettlesAgainExactly(env, journal);
    var d := Replay(env, journal);
    var q := Queue(env, d);
    assert [q[0]] <= q;
    assert Flushable(env, q, [q[0]]) && Encodable([q[0]]);
    HeadSettles(env, d.registry.latest, q);
  }

  lemma HeadSettles(env: Env, latest: nat, queue: seq<Block>)
    requires queue != []
    ensures NextSettles(env, latest, queue) ==> queue[0].header.height == latest + 1
  {
    if NextSettles(env, latest, queue) {
      var batch := NextBatch(env, latest, queue);
      FlushedFirst(env, queue, batch);
    }
  }

  /** A block pending below the latest settled height is enough to stop it all. */
  lemma BehindIsHopeless(env: Env, d: Durable, h: nat)
    requires DurableInv(env, d) && h in d.pending && h < d.registry.latest
    ensures !Recoverable(env, d)
  {
    var q, heights := Queue(env, d), AscendingOf(d.pending);
    QueueFound(env, d);
    assert h in Elements(heights);
    var i :| 0 <= i < |heights| && heights[i] == h;
    assert q[0].header.height == heights[0] <= h;
    HeadSettles(env, d.registry.latest, q);
  }

  lemma SameQueue(env: Env, d: Durable, d1: Durable)
    requires d1.pending == d.pending && d1.stored == d.stored
    ensures Queue(env, d1) == Queue(env, d)
  {
    RecoveryReads(env, d, d1, AscendingOf(d.pending));
  }

  lemma HeadIsLowest(env: Env, d: Durable, m: nat)
    requires DurableInv(env, d) && m in d.pending && forall h :: h in d.pending ==> m <= h
    ensures Queue(env, d) != [] && Queue(env, d)[0].header.height == m
  {
    var heights := AscendingOf(d.pending);
    QueueFound(env, d);
    assert m in Elements(heights);
    assert heights[0] in Elements(heights);
    assert forall i :: 0 < i < |heights| ==> heights[0] < heights[i];
  }

  /** A crash between the settle of the lowest pending block and the removal of its marker: settlement
      goes on after it if and only if that block is the first of its batch, the restart can publish the
      batch once more, and what comes next there, or else in the queue, is the next height. */
  lemma CrashAfterSettleExactly(env: Env, s: State)
    requires CollisionFree(env) && Inv(env, s) && MarkersHeld(s) && s.phase.Settling? && !s.shuttingDown
    requires s.batch[0].header.height == s.world.registry.latest + 1
    requires forall h :: h in s.world.pending ==> s.batch[0].header.height <= h
    ensures var after := Journal(s) + [Commit(s.batch[0], s.phase.blob)];
      var queue := Queue(env, s.world);
      && Step(env, s, Crash(Flush(FLAWLESS), 1)) == Start(env, after)
      && Decode(s.world.blobs[s.phase.blob]).Ok?
      && var batch := Decode(s.world.blobs[s.phase.blob]).value;
         CanSettle(env, after) <==>
           queue != [] && Flushable(env, queue, batch) &&
           (if |batch| > 1 then batch[1].header.height == s.batch[0].header.height + 1
            else NextSettles(env, s.batch[0].header.height, queue[1..]))
  {
    var front, blob := s.batch[0], s.phase.blob;
    var after := Journal(s) + [Commit(front, blob)];
    var d := ApplyOp(env, s.world, Commit(front, blob));
    assert front == s.sent[|s.finalized|];
    CommitLogged(env, s);
    CrashAfterCommit(env, s);
    SettlesAgainExactly(env, after);
    SoundDurable(env, Journal(s));
    AfterCommit(env, s.world, front, blob);
  }

  lemma CommittedTip(env: Env, d: Durable, front: Block, blob: BlobId)
    requires front.header.height == d.registry.latest + 1 && blob in d.blobs
    ensures var d1 := ApplyOp(env, d, Commit(front, blob));
      && d1.registry.latest == front.header.height && Recorded(d1) == Decode(d.blobs[blob])
      && d1.pending == d.pending && d1.stored == d.stored
  {
  }

  lemma AfterCommit(env: Env, d: Durable, front: Block, blob: BlobId)
    requires DurableInv(env, d) && front.header.height == d.registry.latest + 1 && blob in d.blobs
    requires front.header.height in d.pending && forall h :: h in d.pending ==> front.header.height <= h
    requires Decode(d.blobs[blob]).Ok?
    ensures var queue, batch := Queue(env, d), Decode(d.blobs[blob]).value;
      Recoverable(env, ApplyOp(env, d, Commit(front, blob))) <==>
        queue != [] && Flushable(env, queue, batch) &&
        (if |batch| > 1 then batch[1].header.height == front.header.height + 1
         else NextSettles(env, front.header.height, queue[1..]))
  {
    var d1 := ApplyOp(env, d, Commit(front, blob));
    CommittedTip(env, d, front, blob);
    SameQueue(env, d, d1);
    HeadIsLowest(env, d, front.header.height);
    HeadSettles(env, front.header.height, Queue(env, d));
    TipDecides(env, d1, Queue(env, d), Decode(d.blobs[blob]).value);
  }

  lemma TipDecides(env: Env, d: Durable, queue: seq<Block>, batch: seq<Block>)
    requires queue == Queue(env, d) != [] && Recorded(d) == Ok(batch)
    requires queue[0].header.height == d.registry.latest && !NextSettles(env, d.registry.latest, queue)
    ensures Recoverable(env, d) <==>
      Flushable(env, queue, batch) &&
      (if |batch| > 1 then batch[1].header.height == d.registry.latest + 1
       else NextSettles(env, d.registry.latest, queue[1..]))
  {
  }

  lemma FrontIsPending(s: State)
    requires Conserved(s) && MarkersHeld(s) && s.batch != [] && s.local == []
    ensures s.batch[0].header.height in s.world.pending
  {
    assert s.sent[|s.finalized|] == s.batch[0];
  }

  /** A start with a block pending below the latest settled height. */
  lemma BehindStalls(env: Env, journal: seq<Op>, h: nat)
    requires CollisionFree(env) && Sound(env, journal)
    requires h in Replay(env, journal).pending && h < Replay(env, journal).registry.latest
    ensures !CanSettle(env, journal)
  {
    SoundDurable(env, journal);
    BehindIsHopeless(env, Replay(env, journal), h);
    SettlesAgainExactly(env, journal);
  }

  /** The first of two blocks is settled and finalized but keeps its marker, the second loses it. */
  lemma OneMarkerLeft(env: Env, s: State) returns (s2: State)
    requires CollisionFree(env) && Inv(env, s) && MarkersHeld(s) && s.phase.Settling? && !s.shuttingDown
    requires |s.batch| > 1 && Consecutive(s.batch, s.world.registry.latest + 1)
    ensures s2 == FlushStep(env, FlushStep(env, s, Attempt(Delivered, true, false)), FLAWLESS) && Inv(env, s2)
    ensures s2.world.registry.latest == s.world.registry.latest + 2
    ensures s.batch[0].header.height in s2.world.pending
  {
    var a := Attempt(Delivered, true, false);
    var s1 := FlushStep(env, s, a);
    FrontIsPending(s);
    UnclearedFront(env, s);
    FlushKeepsInv(env, s, a);
    FlawlessStep(env, s1);
    s2 := FlushStep(env, s1, FLAWLESS);
  }

  /** A marker that could not be removed: once the next block is settled, every restart stalls. */
  lemma LostMarkerStalls(env: Env, s: State)
    requires CollisionFree(env) && Inv(env, s) && MarkersHeld(s) && s.phase.Settling? && !s.shuttingDown
    requires |s.batch| > 1 && Consecutive(s.batch, s.world.registry.latest + 1)
    ensures var s2 := FlushStep(env, FlushStep(env, s, Attempt(Delivered, true, false)), FLAWLESS);
      && s2.world.registry.latest == s.world.registry.latest + 2
      && Step(env, s2, Crash(ShutdownSignal, 0)) == Start(env, Journal(s2)) && !CanSettle(env, Journal(s2))
  {
    var s2 := OneMarkerLeft(env, s);
    Restarts(env, s2);
    BehindStalls(env, Journal(s2), s.batch[0].header.height);
  }

  lemma UnclearedFront(env: Env, s: State)
    requires Conserved(s) && s.phase.Settling? && !s.shuttingDown && |s.batch| > 1
    requires Consecutive(s.batch, s.world.registry.latest + 1)
    ensures var s1 := FlushStep(env, s, Attempt(Delivered, true, false));
      && s1.phase == s.phase && !s1.shuttingDown && s1.batch == s.batch[1..]
      && s1.world.registry.latest == s.world.registry.latest + 1 && s1.world.pending == s.world.pending
      && Consecutive(s1.batch, s1.world.registry.latest + 1)
  {
    var s1 := Write(env, s, Commit(s.batch[0], s.phase.blob));
    assert FlushStep(env, s, Attempt(Delivered, true, false)) ==
           FinalizeFront(env, s1, s.phase.last, Attempt(Delivered, true, false));
  }
}
