/** When the sequencer can no longer settle: a pending block the registry will never take again stops
    every later one, through every restart. */
module SettlementStall {
  import opened Wrappers
  import opened Wire
  import opened Finalizer
  import opened Sorted

  // ---------- markers outlive everything but a finished settlement ----------

  /** Every block sent and not yet finalized holds its marker. */
  predicate MarkersHeld(s: State) {
    forall i :: |s.finalized| <= i < |s.sent| ==> s.sent[i].header.height in s.world.pending
  }

  /** One attempt takes at most the marker of the block it finalizes. */
  predicate TakesOwnMarker(s: State, s1: State) {
    && s1.sent == s.sent
    && (|| (s1.finalized == s.finalized && s1.world.pending == s.world.pending)
        || (s.batch != [] && s.local == [] && s1.finalized == s.finalized + [s.batch[0]] &&
            s.world.pending - {s.batch[0].header.height} <= s1.world.pending))
  }

  lemma SettlingPending(env: Env, s: State, a: Attempt)
    requires Conserved(s) && s.phase.Settling? && !s.shuttingDown
    ensures TakesOwnMarker(s, FlushStep(env, s, a))
  {
    var s1 := Write(env, s, Commit(s.batch[0], s.phase.blob));
    assert FlushStep(env, s, a) in {s, s1, FinalizeFront(env, s1, s.phase.last, a)};
  }

  lemma FlushPending(env: Env, s: State, a: Attempt)
    requires Conserved(s)
    ensures TakesOwnMarker(s, FlushStep(env, s, a))
  {
    if s.phase.Settling? && !s.shuttingDown {
      SettlingPending(env, s, a);
    }
  }

  lemma ProducePending(env: Env, s: State, b: Block)
    requires |s.arrived| == |s.batch|
    ensures var s1 := Step(env, s, Produce(b));
      && Journal(s1) == Journal(s) + [Put(b), Mark(b.header.height)]
      && s1.world.pending == s.world.pending + {b.header.height} && s1.world.blobs == s.world.blobs
  {
    assert Journal(Step(env, s, Produce(b))) == Journal(s) + [Put(b), Mark(b.header.height)];
  }

  /** No crash, failed call or shutdown takes the marker of a block that is not finalized. */
  lemma StepKeepsMarkers(env: Env, s: State, ev: Event)
    requires CollisionFree(env) && Inv(env, s) && MarkersHeld(s) && Legal(env, s, ev)
    ensures MarkersHeld(Step(env, s, ev))
  {
    match ev
    case Produce(b) => ProducePending(env, s, b);
    case Flush(a) =>
      FlushPending(env, s, a);
      assert s.batch != [] && s.local == [] ==> s.sent[|s.finalized|] == s.batch[0];
    case Crash(during, kept) =>
      StepKeepsInv(env, s, during);
      CrashMarkers(env, Journal(s), Journal(Step(env, s, during)), kept);
    case _ =>
  }

  lemma CrashMarkers(env: Env, before: seq<Op>, written: seq<Op>, kept: nat)
    requires CollisionFree(env) && Sound(env, written)
    ensures MarkersHeld(Start(env, Left(before, written, kept)))
  {
    SoundPrefix(env, written, Min(|before| + kept, |written|));
    StartRecovers(env, Left(before, written, kept));
    var s := Start(env, Left(before, written, kept));
    forall i | 0 <= i < |s.sent| ensures s.sent[i].header.height in s.world.pending {
      assert HeightsOf(s.channel)[i] in Elements(HeightsOf(s.channel));
    }
  }

  lemma {:induction false} RunKeepsMarkers(env: Env, s: State, evs: seq<Event>)
    requires CollisionFree(env) && Inv(env, s) && MarkersHeld(s) && LegalRun(env, s, evs)
    ensures MarkersHeld(Run(env, s, evs))
    decreases |evs|
  {
    if evs != [] {
      StepKeepsInv(env, s, evs[0]);
      StepKeepsMarkers(env, s, evs[0]);
      RunKeepsMarkers(env, Step(env, s, evs[0]), evs[1..]);
    }
  }

  // ---------- a stalled registry ----------

  function FirstHeight(bytes: Bytes): Option<nat> {
    match Decode(bytes)
    case Ok(batch) => if batch == [] then None else Some(batch[0].header.height)
    case Err(_) => None
  }

  /** No batch that starts at height `m` is ever accepted: `m` leaves a gap above what is settled, or it
      is settled, and either it is not the latest or the blob it was settled with starts elsewhere. */
  ghost predicate Refused(r: Registry, blobs: map<BlobId, Bytes>, m: nat) {
    || m > r.latest + 1
    || m < r.latest
    || (m == r.latest && (m in r.commitments ==>
          r.commitments[m] in blobs && FirstHeight(blobs[r.commitments[m]]) != Some(m)))
  }

  /** The lowest pending height is one the registry refuses. */
  ghost predicate Stalled(d: Durable, m: nat) {
    && m in d.pending && (forall h :: h in d.pending ==> m <= h)
    && Refused(d.registry, d.blobs, m)
  }

  /** What a sequencer that settles nothing may write. */
  predicate Quiet(op: Op, m: nat) {
    match op
    case Mark(h) => m <= h
    case Put(_) => true
    case Publish(_) => true
    case Boot => true
    case _ => false
  }

  predicate QuietSince(base: seq<Op>, journal: seq<Op>, m: nat) {
    base <= journal && forall i :: |base| <= i < |journal| ==> Quiet(journal[i], m)
  }

  lemma QuietOpKeepsStall(env: Env, d: Durable, op: Op, m: nat)
    requires CollisionFree(env) && DurableInv(env, d) && Stalled(d, m) && Quiet(op, m)
    ensures Stalled(ApplyOp(env, d, op), m) && ApplyOp(env, d, op).registry == d.registry
  {
    if op.Publish? && Encodable(op.batch) {
      var blob := BlobOf(env, op.batch);
      assert blob in d.blobs ==> d.blobs[blob] == Encode(op.batch).value;
    }
  }

  lemma {:induction false} QuietKeepsStall(env: Env, base: seq<Op>, journal: seq<Op>, m: nat)
    requires CollisionFree(env) && Sound(env, journal) && QuietSince(base, journal, m)
    requires Stalled(Replay(env, base), m)
    ensures Stalled(Replay(env, journal), m) && Replay(env, journal).registry == Replay(env, base).registry
    decreases |journal|
  {
    if |journal| == |base| {
      assert journal == base;
    } else {
      var before, op := journal[..|journal| - 1], journal[|journal| - 1];
      QuietKeepsStall(env, base, before, m);
      SoundDurable(env, before);
      QuietOpKeepsStall(env, Replay(env, before), op, m);
    }
  }

  /** A process that started on a stalled registry: its first block is the refused one. */
  ghost predicate StallInv(env: Env, base: seq<Op>, s: State, m: nat) {
    && Inv(env, s)
    && QuietSince(base, Journal(s), m)
    && s.finalized == [] && s.sent != [] && s.sent[0].header.height == m
    && (s.phase.Settling? ==> FirstHeight(s.world.blobs[s.phase.blob]) == Some(m))
  }

  lemma FrontIsRefused(env: Env, base: seq<Op>, s: State, m: nat)
    requires CollisionFree(env) && Stalled(Replay(env, base), m) && StallInv(env, base, s, m)
    requires s.phase.Settling? && !s.shuttingDown
    ensures Settle(s.world.registry, s.batch[0], s.phase.blob) == None
  {
    QuietKeepsStall(env, base, Journal(s), m);
    assert s.batch[0] == s.sent[0];
  }

  lemma PublishedFirst(env: Env, s: State)
    requires CollisionFree(env) && Inv(env, s) && s.phase.Publishing? && Encodable(s.batch)
    ensures var blobs := Write(env, s, Publish(s.batch)).world.blobs;
      BlobOf(env, s.batch) in blobs && FirstHeight(blobs[BlobOf(env, s.batch)]) == Some(s.batch[0].header.height)
  {
    DecodeInvertsEncode(s.batch);
  }

  lemma PublishingStaysStalled(env: Env, base: seq<Op>, s: State, m: nat, a: Attempt)
    requires CollisionFree(env) && StallInv(env, base, s, m) && s.phase.Publishing?
    requires !s.shuttingDown && Encodable(s.batch) && a.net != RequestLost
    ensures StallInv(env, base, FlushStep(env, s, a), m)
  {
    PublishingKeepsInv(env, s, a);
    assert s.local == [] && s.batch[0] == s.sent[0];
    PublishedFirst(env, s);
    QuietGrows(base, Journal(s), [Publish(s.batch)], m);
    PublishStep(env, s, a);
  }

  lemma PublishStep(env: Env, s: State, a: Attempt)
    requires Conserved(s) && s.phase.Publishing?
    requires !s.shuttingDown && Encodable(s.batch) && a.net != RequestLost
    ensures var s1 := Write(env, s, Publish(s.batch));
      var s2 := FlushStep(env, s, a);
      && Journal(s2) == Journal(s) + [Publish(s.batch)] && s2.world == s1.world
      && s2.sent == s.sent && s2.finalized == s.finalized
      && (s2.phase == s.phase || s2.phase == Settling(BlobOf(env, s.batch), s.phase.last))
  {
  }

  /** An attempt that reaches nobody, or whose settle is refused. */
  lemma IdleAttempt(env: Env, s: State, a: Attempt)
    requires Conserved(s)
    requires s.shuttingDown || s.phase == Idle
      || (s.phase.Publishing? && (a.net == RequestLost || !Encodable(s.batch)))
      || (s.phase.Settling? && Settle(s.world.registry, s.batch[0], s.phase.blob) == None)
    ensures var s1 := FlushStep(env, s, a);
      && s1.past == s.past && s1.own == s.own && s1.sent == s.sent && s1.finalized == s.finalized
      && (s1.phase == Idle || s1.phase == s.phase)
  {
  }

  lemma FlushStaysStalled(env: Env, base: seq<Op>, s: State, m: nat, a: Attempt)
    requires CollisionFree(env) && Stalled(Replay(env, base), m) && StallInv(env, base, s, m)
    ensures StallInv(env, base, FlushStep(env, s, a), m)
  {
    if s.phase.Publishing? && !s.shuttingDown && Encodable(s.batch) && a.net != RequestLost {
      PublishingStaysStalled(env, base, s, m, a);
    } else {
      if s.phase.Settling? && !s.shuttingDown {
        FrontIsRefused(env, base, s, m);
      }
      FlushKeepsInv(env, s, a);
      IdleAttempt(env, s, a);
    }
  }

  lemma ProduceKeepsFront(env: Env, s: State, b: Block)
    requires |s.arrived| == |s.batch| && s.sent != []
    ensures var s1 := Step(env, s, Produce(b));
      s1.phase == s.phase && s1.finalized == s.finalized && s1.sent != [] && s1.sent[0] == s.sent[0]
  {
  }

  lemma FirstBelow(blocks: seq<Block>, b: Block)
    requires Increasing(blocks) && blocks != [] && blocks[|blocks| - 1].header.height < b.header.height
    ensures blocks[0].header.height < b.header.height
  {
    assert |blocks| > 1 ==> blocks[0].header.height < blocks[|blocks| - 1].header.height;
  }

  lemma ProduceStaysStalled(env: Env, base: seq<Op>, s: State, m: nat, b: Block)
    requires CollisionFree(env) && StallInv(env, base, s, m) && Legal(env, s, Produce(b))
    ensures StallInv(env, base, Step(env, s, Produce(b)), m)
  {
    FirstBelow(s.sent, b);
    ProduceKeepsInv(env, s, b);
    ProducePending(env, s, b);
    ProduceKeepsFront(env, s, b);
    QuietGrows(base, Journal(s), [Put(b), Mark(b.header.height)], m);
  }

  lemma QuietGrows(base: seq<Op>, journal: seq<Op>, ops: seq<Op>, m: nat)
    requires QuietSince(base, journal, m) && forall i :: 0 <= i < |ops| ==> Quiet(ops[i], m)
    ensures QuietSince(base, journal + ops, m)
  {
  }

  lemma StartStaysStalled(env: Env, base: seq<Op>, journal: seq<Op>, m: nat)
    requires CollisionFree(env) && Sound(env, journal) && QuietSince(base, journal, m)
    requires Stalled(Replay(env, base), m)
    ensures StallInv(env, base, Start(env, journal), m)
  {
    QuietKeepsStall(env, base, journal, m);
    StartsAtLowest(env, base, journal, m);
  }

  lemma BootQuiet(env: Env, base: seq<Op>, journal: seq<Op>, m: nat)
    requires CollisionFree(env) && Sound(env, journal) && QuietSince(base, journal, m)
    ensures QuietSince(base, Journal(Start(env, journal)), m)
  {
    QuietGrows(base, journal, [Boot], m);
    StartsIdle(env, journal);
  }

  lemma StartInv(env: Env, journal: seq<Op>)
    requires CollisionFree(env) && Sound(env, journal)
    ensures Inv(env, Start(env, journal))
  {
    StartRecovers(env, journal);
  }

  lemma StartsAtLowest(env: Env, base: seq<Op>, journal: seq<Op>, m: nat)
    requires CollisionFree(env) && Sound(env, journal) && QuietSince(base, journal, m)
    requires m in Replay(env, journal).pending && forall h :: h in Replay(env, journal).pending ==> m <= h
    ensures StallInv(env, base, Start(env, journal), m)
  {
    StartInv(env, journal);
    BootQuiet(env, base, journal, m);
    StartsIdle(env, journal);
    StartsLowest(env, journal, m);
  }

  lemma StartsIdle(env: Env, journal: seq<Op>)
    requires CollisionFree(env) && Sound(env, journal)
    ensures var s := Start(env, journal); Journal(s) == journal + [Boot] && s.finalized == [] && s.phase == Idle
  {
    StartWritesNothing(env, journal);
  }

  lemma StartsLowest(env: Env, journal: seq<Op>, m: nat)
    requires CollisionFree(env) && Sound(env, journal)
    requires m in Replay(env, journal).pending && forall h :: h in Replay(env, journal).pending ==> m <= h
    ensures var s := Start(env, journal); s.sent != [] && s.sent[0].header.height == m
  {
    StartWritesNothing(env, journal);
    FirstIsLowest(Start(env, journal).channel, m);
  }

  lemma FirstIsLowest(blocks: seq<Block>, m: nat)
    requires m in Elements(HeightsOf(blocks))
    requires Ascending(HeightsOf(blocks))
    requires forall h :: h in Elements(HeightsOf(blocks)) ==> m <= h
    ensures blocks != [] && blocks[0].header.height == m
  {
    var heights := HeightsOf(blocks);
    assert heights[0] in Elements(heights);
  }

  lemma CrashStaysStalled(env: Env, base: seq<Op>, before: seq<Op>, written: seq<Op>, m: nat, kept: nat)
    requires CollisionFree(env) && Stalled(Replay(env, base), m) && Sound(env, written)
    requires base <= before && QuietSince(base, written, m)
    ensures StallInv(env, base, Start(env, Left(before, written, kept)), m)
  {
    SoundPrefix(env, written, Min(|before| + kept, |written|));
    var left := Left(before, written, kept);
    assert QuietSince(base, left, m);
    StartStaysStalled(env, base, left, m);
  }

  lemma SignalKeepsLog(env: Env, s: State, ev: Event)
    requires |s.arrived| == |s.batch| && !ev.Produce? && !ev.Flush? && !ev.Crash?
    ensures var s1 := Step(env, s, ev);
      && s1.past == s.past && s1.own == s.own && s1.sent == s.sent && s1.finalized == s.finalized
      && (s1.phase.Settling? ==> s1.phase == s.phase)
  {
  }

  lemma SignalStaysStalled(env: Env, base: seq<Op>, s: State, m: nat, ev: Event)
    requires CollisionFree(env) && StallInv(env, base, s, m) && Legal(env, s, ev)
    requires !ev.Produce? && !ev.Flush? && !ev.Crash?
    ensures StallInv(env, base, Step(env, s, ev), m)
  {
    StepKeepsInv(env, s, ev);
    SignalKeepsLog(env, s, ev);
  }

  lemma {:induction false} StepStaysStalled(env: Env, base: seq<Op>, s: State, m: nat, ev: Event)
    requires CollisionFree(env) && Stalled(Replay(env, base), m) && StallInv(env, base, s, m) && Legal(env, s, ev)
    ensures StallInv(env, base, Step(env, s, ev), m)
    decreases ev
  {
    match ev
    case Produce(b) => ProduceStaysStalled(env, base, s, m, b);
    case Flush(a) => FlushStaysStalled(env, base, s, m, a);
    case Crash(during, kept) =>
      StepStaysStalled(env, base, s, m, during);
      CrashStaysStalled(env, base, Journal(s), Journal(Step(env, s, during)), m, kept);
    case _ => SignalStaysStalled(env, base, s, m, ev);
  }

  lemma {:induction false} RunStaysStalled(env: Env, base: seq<Op>, s: State, m: nat, evs: seq<Event>)
    requires CollisionFree(env) && Stalled(Replay(env, base), m) && StallInv(env, base, s, m)
    requires LegalRun(env, s, evs)
    ensures StallInv(env, base, Run(env, s, evs), m)
    decreases |evs|
  {
    if evs != [] {
      StepStaysStalled(env, base, s, m, evs[0]);
      RunStaysStalled(env, base, Step(env, s, evs[0]), m, evs[1..]);
    }
  }

  /** Settlement never moves again: whatever the sequencer does after a start on a stalled registry,
      further restarts included, nothing is settled and nothing is finalized after a settle. */
  lemma StallIsForever(env: Env, journal: seq<Op>, m: nat, evs: seq<Event>)
    requires CollisionFree(env) && Sound(env, journal) && Stalled(Replay(env, journal), m)
    requires LegalRun(env, Start(env, journal), evs)
    ensures var end := Run(env, Start(env, journal), evs);
      end.finalized == [] && end.world.registry == Replay(env, journal).registry && Stalled(end.world, m)
  {
    StartStaysStalled(env, journal, journal, m);
    RunStaysStalled(env, journal, Start(env, journal), m, evs);
    QuietKeepsStall(env, journal, Journal(Run(env, Start(env, journal), evs)), m);
  }

  // ---------- an ordinary crash is enough ----------

  lemma CommitStalls(env: Env, d: Durable, front: Block, blob: BlobId)
    requires DurableInv(env, d) && blob in d.blobs
    requires var m := front.header.height;
      && m == d.registry.latest + 1 && FirstHeight(d.blobs[blob]) != Some(m)
      && m in d.pending && forall h :: h in d.pending ==> m <= h
    ensures Stalled(ApplyOp(env, d, Commit(front, blob)), front.header.height)
  {
  }

  lemma CommitLogged(env: Env, s: State)
    requires CollisionFree(env) && Inv(env, s) && s.phase.Settling? && !s.shuttingDown
    requires Settle(s.world.registry, s.batch[0], s.phase.blob).Some?
    ensures var op := Commit(s.batch[0], s.phase.blob);
      Sound(env, Journal(s) + [op]) && Replay(env, Journal(s) + [op]) == ApplyOp(env, s.world, op)
  {
    CommitKeepsInv(env, s);
    assert Journal(Write(env, s, Commit(s.batch[0], s.phase.blob))) == Journal(s) + [Commit(s.batch[0], s.phase.blob)];
  }

  lemma CrashAfterCommit(env: Env, s: State)
    requires Conserved(s) && s.phase.Settling? && !s.shuttingDown
    requires Settle(s.world.registry, s.batch[0], s.phase.blob).Some?
    ensures Step(env, s, Crash(Flush(FLAWLESS), 1)) == Start(env, Journal(s) + [Commit(s.batch[0], s.phase.blob)])
  {
    FlawlessFront(env, s);
    var written := Journal(FlushStep(env, s, FLAWLESS));
    assert written == Journal(s) + FrontOps(s.batch[0], s.phase.blob);
    assert Left(Journal(s), written, 1) == Journal(s) + [Commit(s.batch[0], s.phase.blob)];
  }

  /** The block in hand is the next to settle, the lowest pending, and not the first of its blob. */
  ghost predicate Exposed(env: Env, s: State) {
    && s.phase.Settling? && !s.shuttingDown && s.batch != []
    && var m := s.batch[0].header.height;
    && m == s.world.registry.latest + 1
    && s.phase.blob in s.world.blobs && FirstHeight(s.world.blobs[s.phase.blob]) != Some(m)
    && forall h :: h in s.world.pending ==> m <= h
  }

  /** A crash right after the settle of a block that is not the first of its batch, before its marker
      is gone, stalls settlement for ever: the block re-queued first can only be published in a batch
      that it starts. */
  lemma CrashMidBatchStalls(env: Env, s: State)
    requires CollisionFree(env) && Inv(env, s) && MarkersHeld(s) && Exposed(env, s)
    ensures Stalled(Step(env, s, Crash(Flush(FLAWLESS), 1)).world, s.batch[0].header.height)
  {
    var front, blob := s.batch[0], s.phase.blob;
    assert front == s.sent[|s.finalized|];
    SoundDurable(env, Journal(s));
    CommitStalls(env, s.world, front, blob);
    CommitLogged(env, s);
    CrashAfterCommit(env, s);
    StartKeepsWorld(env, Journal(s) + [Commit(front, blob)]);
  }

  lemma PublishedOnce(env: Env, s: State) returns (s1: State)
    requires CollisionFree(env) && Inv(env, s) && MarkersHeld(s) && s.phase.Publishing? && !s.shuttingDown
    requires Encodable(s.batch)
    ensures s1 == FlushStep(env, s, FLAWLESS) && Inv(env, s1) && MarkersHeld(s1)
    ensures s1.phase.Settling? && !s1.shuttingDown && s1.batch == s.batch
    ensures s1.world.registry == s.world.registry && s1.world.pending == s.world.pending
    ensures FirstHeight(s1.world.blobs[s1.phase.blob]) == Some(s.batch[0].header.height)
  {
    s1 := FlushStep(env, s, FLAWLESS);
    StepKeepsInv(env, s, Flush(FLAWLESS));
    StepKeepsMarkers(env, s, Flush(FLAWLESS));
    PublishedFirst(env, s);
  }

  /** After a settle that meets no failure the blobs are the same and the marker is gone. */
  lemma SettledOnce(env: Env, s: State) returns (s1: State)
    requires CollisionFree(env) && Inv(env, s) && MarkersHeld(s) && s.phase.Settling? && !s.shuttingDown
    requires Consecutive(s.batch, s.world.registry.latest + 1) && |s.batch| > 1
    ensures s1 == FlushStep(env, s, FLAWLESS) && Inv(env, s1) && MarkersHeld(s1)
    ensures s1.phase == s.phase && !s1.shuttingDown && s1.batch == s.batch[1..]
    ensures s1.world.registry.latest == s.world.registry.latest + 1
    ensures s1.world.blobs == s.world.blobs
    ensures s1.world.pending == s.world.pending - {s.batch[0].header.height}
  {
    s1 := FlushStep(env, s, FLAWLESS);
    FlawlessStep(env, s);
    StepKeepsMarkers(env, s, Flush(FLAWLESS));
  }

  lemma NextLowest(heights: set<nat>, m: nat)
    requires forall h :: h in heights ==> m <= h
    ensures forall h :: h in heights - {m} ==> m + 1 <= h
  {
  }

  lemma SecondIsExposed(env: Env, s: State) returns (s1: State)
    requires CollisionFree(env) && Inv(env, s) && MarkersHeld(s) && s.phase.Settling? && !s.shuttingDown
    requires |s.batch| > 1 && Consecutive(s.batch, s.world.registry.latest + 1)
    requires FirstHeight(s.world.blobs[s.phase.blob]) == Some(s.batch[0].header.height)
    requires forall h :: h in s.world.pending ==> s.batch[0].header.height <= h
    ensures s1 == FlushStep(env, s, FLAWLESS) && Inv(env, s1) && MarkersHeld(s1)
    ensures Exposed(env, s1) && s1.batch[0] == s.batch[1]
  {
    var m := s.batch[0].header.height;
    assert s.batch[1].header.height == m + 1;
    NextLowest(s.world.pending, m);
    s1 := SettledOnce(env, s);
  }

  /** So it does in a run in which nothing else fails: publish a batch of two or more, settle the first
      block, and crash while settling the second. */
  lemma CrashOnSecondBlockStalls(env: Env, s: State)
    requires CollisionFree(env) && Inv(env, s) && MarkersHeld(s) && s.phase.Publishing? && !s.shuttingDown
    requires Encodable(s.batch) && |s.batch| > 1 && Consecutive(s.batch, s.world.registry.latest + 1)
    requires forall h :: h in s.world.pending ==> s.batch[0].header.height <= h
    ensures var s2 := FlushStep(env, FlushStep(env, s, FLAWLESS), FLAWLESS);
      Stalled(Step(env, s2, Crash(Flush(FLAWLESS), 1)).world, s.batch[1].header.height)
  {
    var s1 := PublishedOnce(env, s);
    var s2 := SecondIsExposed(env, s1);
    CrashMidBatchStalls(env, s2);
  }
}
