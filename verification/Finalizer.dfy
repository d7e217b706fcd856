/** The sequencer's finalizer: blocks are buffered, published as one blob, settled in order on Sui,
    finalized, and re-queued after a crash. */
module Finalizer {
  import opened Wrappers
  import opened Wire
  import opened Sorted

  type BlobId = nat

  // ---------- what outlives a crash ----------

  /** The settlement registry on Sui; `settled` is the block behind each commitment. */
  datatype Registry = Registry(latest: nat, commitments: map<nat, BlobId>, settled: map<nat, Block>)

  /** The durable effects of the sequencer, in the order they happen. */
  datatype Op =
    | Put(block: Block)
    | Mark(height: nat)
    | Publish(batch: seq<Block>)
    | Commit(block: Block, blob: BlobId)
    | Done(block: Block)
    | Clear(height: nat)
    | Boot

  datatype Durable = Durable(stored: map<nat, Block>, pending: set<nat>, registry: Registry, blobs: map<BlobId, Bytes>)

  /** `digest` is the content address of a blob; `decodable` says which block data holds a payload. */
  datatype Env = Env(digest: Bytes -> BlobId, decodable: Bytes -> bool, flushAfter: Option<nat>, sizeLimit: nat)

  ghost predicate CollisionFree(env: Env) {
    forall a: Bytes, b: Bytes :: env.digest(a) == env.digest(b) ==> a == b
  }

  function BlobOf(env: Env, batch: seq<Block>): BlobId
    requires Encodable(batch)
  {
    env.digest(Encode(batch).value)
  }

  /** The settle transaction: the next height is recorded; the latest height again is a no-op if it
      names the blob and the state root recorded for it; everything else aborts. */
  function Settle(r: Registry, b: Block, blob: BlobId): Option<Registry> {
    var height := b.header.height;
    if height == r.latest then
      if height in r.commitments && r.commitments[height] == blob &&
         height in r.settled && r.settled[height].header.stateRoot == b.header.stateRoot
      then Some(r) else None
    else if height == r.latest + 1 then
      Some(Registry(height, r.commitments[height := blob], r.settled[height := b]))
    else None
  }

  function ApplyOp(env: Env, d: Durable, op: Op): Durable {
    match op
    case Put(b) => d.(stored := d.stored[b.header.height := b])
    case Mark(h) => d.(pending := d.pending + {h})
    case Publish(batch) =>
      if Encodable(batch) then d.(blobs := d.blobs[BlobOf(env, batch) := Encode(batch).value]) else d
    case Commit(b, blob) =>
      (match Settle(d.registry, b, blob) case None => d case Some(r) => d.(registry := r))
    case Done(_) => d
    case Clear(h) => d.(pending := d.pending - {h})
    case Boot => d
  }

  const EMPTY: Durable := Durable(map[], {}, Registry(0, map[], map[]), map[])

  function Replay(env: Env, journal: seq<Op>): Durable {
    if journal == [] then EMPTY
    else ApplyOp(env, Replay(env, journal[..|journal| - 1]), journal[|journal| - 1])
  }

  function ReplayFrom(env: Env, d: Durable, ops: seq<Op>): Durable
    decreases |ops|
  {
    if ops == [] then d else ReplayFrom(env, ApplyOp(env, d, ops[0]), ops[1..])
  }

  lemma Replayed(env: Env, journal: seq<Op>, op: Op)
    ensures Replay(env, journal + [op]) == ApplyOp(env, Replay(env, journal), op)
  {
    assert (journal + [op])[..|journal|] == journal;
  }

  // ---------- the process ----------

  /** Where a flush stands; `last` marks the one made because the channel closed. */
  datatype Phase = Idle | Publishing(last: bool) | Settling(blob: BlobId, last: bool)

  /** `own` is the journal of this process, `past` that of the ones before it, `world` what they left.
      `arrived` dates the buffered blocks. */
  datatype State = State(
    world: Durable, past: seq<Op>, own: seq<Op>, sent: seq<Block>, channel: seq<Block>,
    batch: seq<Block>, arrived: seq<nat>, batchBytes: nat, timer: Option<nat>,
    finalized: seq<Block>, local: seq<Block>, phase: Phase, shuttingDown: bool, stopped: bool)

  function Journal(s: State): seq<Op> {
    s.past + s.own
  }

  function Write(env: Env, s: State, op: Op): State {
    s.(own := s.own + [op], world := ApplyOp(env, s.world, op))
  }

  function Disarmed(s: State): State {
    if s.batch == [] then s.(timer := None) else s
  }

  /** Hands what is left to local finalization, without settling it. */
  function Abandon(s: State): State {
    s.(local := s.local + s.batch, batch := [], arrived := [])
  }

  function EndFlush(s: State, last: bool): State {
    if last then Abandon(s).(phase := Idle, stopped := true) else Disarmed(s.(phase := Idle))
  }

  /** One attempt of a flush. `net` is what becomes of the publish or settle call, an abort over an
      inclusion deadline counting as a lost request; `finalized` and `cleared` say whether the
      execution client confirms and whether the marker file can be written. */
  datatype Attempt = Attempt(net: Net, finalized: bool, cleared: bool)

  /** The front block is finalized: its marker goes, if the file can be written, and so does it. */
  function DropFront(env: Env, s: State, cleared: bool): (r: State)
    requires s.batch != [] && |s.arrived| == |s.batch|
    ensures |r.arrived| == |r.batch|
  {
    var front := s.batch[0];
    var s1 := Write(env, s, Done(front));
    var s2 := if cleared then Write(env, s1, Clear(front.header.height)) else s1;
    s2.(batch := s.batch[1..], arrived := s.arrived[1..], finalized := s.finalized + [front])
  }

  /** The front block is settled: finalize it, or leave it in place. */
  function FinalizeFront(env: Env, s: State, last: bool, a: Attempt): State
    requires s.batch != [] && |s.arrived| == |s.batch|
  {
    if !a.finalized then EndFlush(s, last)
    else
      var s1 := DropFront(env, s, a.cleared);
      if s1.batch == [] then EndFlush(s1.(batchBytes := 0), last) else s1
  }

  function FlushStep(env: Env, s: State, a: Attempt): (r: State)
    requires |s.arrived| == |s.batch|
    ensures |r.arrived| == |r.batch|
  {
    match s.phase
    case Idle => s
    case Publishing(last) =>
      if s.shuttingDown then EndFlush(s, last)
      else if !Encodable(s.batch) || a.net == RequestLost then s
      else
        var s1 := Write(env, s, Publish(s.batch));
        if a.net == Delivered then s1.(phase := Settling(BlobOf(env, s.batch), last)) else s1
    case Settling(blob, last) =>
      if s.batch == [] || s.shuttingDown then EndFlush(Abandon(s).(batchBytes := 0), last)
      else if a.net == RequestLost || Settle(s.world.registry, s.batch[0], blob) == None then s
      else
        var s1 := Write(env, s, Commit(s.batch[0], blob));
        if a.net == Delivered then FinalizeFront(env, s1, last, a) else s1
  }

  function Attempts(env: Env, s: State, script: seq<Attempt>): (r: State)
    requires |s.arrived| == |s.batch|
    ensures |r.arrived| == |r.batch|
    decreases |script|
  {
    if script == [] then s else Attempts(env, FlushStep(env, s, script[0]), script[1..])
  }

  function TotalBytes(batch: seq<Block>): nat {
    if batch == [] then 0 else |batch[0].data| + TotalBytes(batch[1..])
  }

  /** What can happen next. Production is another task, so it comes between any two attempts of a
      flush; a crash keeps some of what the step it interrupts would have written. */
  datatype Event =
    | Produce(block: Block)
    | Receive(now: nat)
    | TimerFires(now: nat)
    | ChannelClosed
    | ShutdownSignal
    | ShutdownSeen
    | Flush(attempt: Attempt)
    | Crash(during: Event, kept: nat)

  /** What recovery re-queues, and the markers it drops for blocks that are missing or undecodable. */
  function Recovery(env: Env, d: Durable, heights: seq<nat>): (seq<Block>, seq<Op>) {
    if heights == [] then ([], [])
    else
      var (queue, ops) := Recovery(env, d, heights[1..]);
      var h := heights[0];
      if h in d.stored && env.decodable(d.stored[h].data) then ([d.stored[h]] + queue, ops)
      else (queue, [Clear(h)] + ops)
  }

  /** A start on what the journal left behind. */
  function Start(env: Env, journal: seq<Op>): State {
    var past := journal + [Boot];
    var d := Replay(env, past);
    var (queue, ops) := Recovery(env, d, AscendingOf(d.pending));
    State(ReplayFrom(env, d, ops), past, ops, queue, queue, [], [], 0, None, [], [], Idle, false, false)
  }

  function Arm(env: Env, timer: Option<nat>, now: nat): Option<nat> {
    if timer.Some? || env.flushAfter == None then timer else Some(now + env.flushAfter.value)
  }

  function Take(env: Env, s: State, now: nat): (r: State)
    requires s.channel != [] && |s.arrived| == |s.batch|
    ensures |r.arrived| == |r.batch|
  {
    var b := s.channel[0];
    var s1 := s.(channel := s.channel[1..], batch := s.batch + [b], arrived := s.arrived + [now],
                 timer := if s.batch == [] then Arm(env, s.timer, now) else s.timer,
                 batchBytes := SaturatingAdd(s.batchBytes, |b.data|));
    if env.sizeLimit <= s1.batchBytes then s1.(phase := Publishing(false)) else s1
  }

  /** A produced block is stored, marked and sent; a stopped finalizer no longer gets it. */
  function Send(env: Env, s: State, b: Block): (r: State)
    requires |s.arrived| == |s.batch|
    ensures |r.arrived| == |r.batch|
  {
    var s1 := Write(env, Write(env, s, Put(b)), Mark(b.header.height));
    if s.stopped then s1 else s1.(sent := s.sent + [b], channel := s.channel + [b])
  }

  function Fire(s: State, now: nat): (r: State)
    requires |s.arrived| == |s.batch|
    ensures |r.arrived| == |r.batch|
  {
    if s.phase != Idle || s.stopped || s.timer == None || now < s.timer.value then s
    else if s.batch == [] then Disarmed(s)
    else s.(phase := Publishing(false))
  }

  function CloseChannel(s: State): (r: State)
    requires |s.arrived| == |s.batch|
    ensures |r.arrived| == |r.batch|
  {
    if s.phase != Idle || s.stopped || s.channel != [] then s
    else if s.batch == [] then s.(timer := None, stopped := true)
    else s.(timer := None, phase := Publishing(true))
  }

  function SeeShutdown(s: State): (r: State)
    requires |s.arrived| == |s.batch|
    ensures |r.arrived| == |r.batch|
  {
    if s.phase != Idle || s.stopped || !s.shuttingDown || s.batch == [] then s
    else Abandon(s).(timer := None, stopped := true)
  }

  /** What a crash leaves of a journal that was to grow from `before` to `written`. */
  function Left(before: seq<Op>, written: seq<Op>, kept: nat): seq<Op> {
    written[..Min(|before| + kept, |written|)]
  }

  function Step(env: Env, s: State, ev: Event): (r: State)
    requires |s.arrived| == |s.batch|
    ensures |r.arrived| == |r.batch|
    decreases ev
  {
    match ev
    case Produce(b) => Send(env, s, b)
    case Receive(now) => if s.phase != Idle || s.stopped || s.channel == [] then s else Take(env, s, now)
    case TimerFires(now) => Fire(s, now)
    case ChannelClosed => CloseChannel(s)
    case ShutdownSignal => s.(shuttingDown := true)
    case ShutdownSeen => SeeShutdown(s)
    case Flush(a) => FlushStep(env, s, a)
    case Crash(during, kept) => Start(env, Left(Journal(s), Journal(Step(env, s, during)), kept))
  }

  function Run(env: Env, s: State, evs: seq<Event>): (r: State)
    requires |s.arrived| == |s.batch|
    ensures |r.arrived| == |r.batch|
    decreases |evs|
  {
    if evs == [] then s else Run(env, Step(env, s, evs[0]), evs[1..])
  }

  // ---------- what every run keeps ----------

  predicate Increasing(blocks: seq<Block>) {
    forall i, j :: 0 <= i < j < |blocks| ==> blocks[i].header.height < blocks[j].header.height
  }

  /** The bytes decode to a batch of distinct heights that holds `b`. */
  predicate Holds(bytes: Bytes, b: Block) {
    match Decode(bytes)
    case Ok(batch) => b in batch && Increasing(batch)
    case Err(_) => false
  }

  predicate Carries(blobs: map<BlobId, Bytes>, blob: BlobId, b: Block) {
    blob in blobs && Holds(blobs[blob], b)
  }

  /** What justifies an operation, given those before it. A marker goes only right after its block was
      finalized, and a block is finalized only right after it was settled. */
  ghost predicate Justified(env: Env, before: seq<Op>, op: Op) {
    var d := Replay(env, before);
    var previous := if before == [] then Boot else before[|before| - 1];
    match op
    case Put(b) => env.decodable(b.data)
    case Mark(h) => h in d.stored
    case Publish(batch) => batch != [] && Encodable(batch) && Increasing(batch)
    case Commit(b, blob) => Put(b) in before && Settle(d.registry, b, blob).Some? && Carries(d.blobs, blob, b)
    case Done(b) => previous.Commit? && previous.block == b
    case Clear(h) => previous.Done? && previous.block.header.height == h
    case Boot => true
  }

  ghost predicate Sound(env: Env, journal: seq<Op>) {
    journal == [] ||
    (var before := journal[..|journal| - 1];
     Sound(env, before) && Justified(env, before, journal[|journal| - 1]))
  }

  lemma SoundThen(env: Env, journal: seq<Op>, op: Op)
    requires Sound(env, journal) && Justified(env, journal, op)
    ensures Sound(env, journal + [op])
  {
    assert (journal + [op])[..|journal|] == journal;
  }

  /** What a crash at any point leaves is sound too. */
  lemma {:induction false} SoundPrefix(env: Env, journal: seq<Op>, k: nat)
    requires Sound(env, journal) && k <= |journal|
    ensures Sound(env, journal[..k])
    decreases |journal|
  {
    if k < |journal| {
      var before := journal[..|journal| - 1];
      SoundPrefix(env, before, k);
      assert before[..k] == journal[..k];
    } else {
      assert journal[..k] == journal;
    }
  }

  /** The blocks finalized so far. */
  function DoneOf(ops: seq<Op>): seq<Block> {
    if ops == [] then []
    else
      var before := DoneOf(ops[..|ops| - 1]);
      if ops[|ops| - 1].Done? then before + [ops[|ops| - 1].block] else before
  }

  /** Every settle of this process is of the block that follows those already finalized. */
  ghost predicate InOrder(ops: seq<Op>, sent: seq<Block>) {
    ops == [] ||
    (var before := ops[..|ops| - 1];
     var op := ops[|ops| - 1];
     && InOrder(before, sent)
     && (op.Commit? ==> |DoneOf(before)| < |sent| && sent[|DoneOf(before)|] == op.block))
  }

  /** The bytes decode to a batch of distinct heights that ends in `batch`. */
  predicate EndsIn(bytes: Bytes, batch: seq<Block>) {
    match Decode(bytes)
    case Ok(all) => |batch| <= |all| && all[|all| - |batch|..] == batch && Increasing(all)
    case Err(_) => false
  }

  predicate Published(blobs: map<BlobId, Bytes>, blob: BlobId, batch: seq<Block>) {
    blob in blobs && EndsIn(blobs[blob], batch)
  }

  predicate AllPut(blocks: seq<Block>, journal: seq<Op>) {
    forall b :: b in blocks ==> Put(b) in journal
  }

  /** Every block is accounted for once, in the order it was sent. */
  predicate Conserved(s: State) {
    && |s.arrived| == |s.batch|
    && s.finalized + s.local + s.batch + s.channel == s.sent
    && (s.local != [] ==> s.shuttingDown || s.stopped)
    && (s.stopped ==> s.batch == [])
    && (s.phase != Idle ==> s.batch != [])
  }

  ghost predicate Logged(env: Env, world: Durable, past: seq<Op>, own: seq<Op>, sent: seq<Block>,
                         finalized: seq<Block>) {
    && world == Replay(env, past + own)
    && Increasing(sent)
    && AllPut(sent, past + own)
    && Sound(env, past + own)
    && DoneOf(own) == finalized
    && InOrder(own, sent)
  }

  ghost predicate Inv(env: Env, s: State) {
    && Conserved(s)
    && Logged(env, s.world, s.past, s.own, s.sent, s.finalized)
    && (s.phase.Settling? ==> Published(s.world.blobs, s.phase.blob, s.batch))
  }

  predicate Closing(s: State) {
    s.stopped || (s.phase != Idle && s.phase.last)
  }

  ghost predicate TimerInv(env: Env, s: State)
    requires |s.arrived| == |s.batch|
  {
    && (s.timer.Some? <==> env.flushAfter.Some? && s.batch != [] && !Closing(s))
    && (s.timer.Some? ==> s.timer.value <= s.arrived[0] + env.flushAfter.value)
    && (forall i, j :: 0 <= i < j < |s.arrived| ==> s.arrived[i] <= s.arrived[j])
    && Min(TotalBytes(s.batch), U64_MAX) <= s.batchBytes
  }

  /** The blocks of one process have increasing heights, and its clock does not step back. */
  ghost predicate Legal(env: Env, s: State, ev: Event)
    decreases ev
  {
    match ev
    case Produce(b) =>
      env.decodable(b.data) && (s.sent == [] || s.sent[|s.sent| - 1].header.height < b.header.height)
    case Receive(now) => s.arrived == [] || s.arrived[|s.arrived| - 1] <= now
    case Crash(during, _) => Legal(env, s, during)
    case _ => true
  }

  ghost predicate LegalRun(env: Env, s: State, evs: seq<Event>)
    requires |s.arrived| == |s.batch|
    decreases |evs|
  {
    evs == [] || (Legal(env, s, evs[0]) && LegalRun(env, Step(env, s, evs[0]), evs[1..]))
  }

  // ---------- the durable state of a sound journal ----------

  ghost predicate DurableInv(env: Env, d: Durable) {
    && d.pending <= d.stored.Keys
    && (forall h :: h in d.stored ==> d.stored[h].header.height == h && env.decodable(d.stored[h].data))
    && RegistryInv(d.registry, d.blobs)
    && (forall blob :: blob in d.blobs ==> env.digest(d.blobs[blob]) == blob)
  }

  /** The settled heights are 1 to `latest`, and the blob of each carries the block settled there. */
  ghost predicate RegistryInv(r: Registry, blobs: map<BlobId, Bytes>) {
    && r.commitments.Keys == r.settled.Keys
    && (forall h :: h in r.settled <==> 0 < h <= r.latest)
    && (forall h :: h in r.settled ==>
          r.settled[h].header.height == h && Carries(blobs, r.commitments[h], r.settled[h]))
  }

  lemma {:induction false} SoundDurable(env: Env, journal: seq<Op>)
    requires CollisionFree(env) && Sound(env, journal)
    ensures DurableInv(env, Replay(env, journal))
    decreases |journal|
  {
    if journal != [] {
      var before := journal[..|journal| - 1];
      SoundDurable(env, before);
      ApplyKeepsDurable(env, before, journal[|journal| - 1]);
    }
  }

  lemma PublishKeepsDurable(env: Env, d: Durable, batch: seq<Block>)
    requires CollisionFree(env) && DurableInv(env, d) && Encodable(batch)
    ensures DurableInv(env, ApplyOp(env, d, Publish(batch)))
  {
    var d1 := ApplyOp(env, d, Publish(batch));
    forall blob, b | Carries(d.blobs, blob, b) ensures Carries(d1.blobs, blob, b) {
      assert blob == BlobOf(env, batch) ==> d.blobs[blob] == Encode(batch).value;
    }
  }

  lemma CommitKeepsRegistry(r: Registry, blobs: map<BlobId, Bytes>, b: Block, blob: BlobId)
    requires RegistryInv(r, blobs) && Settle(r, b, blob).Some? && Carries(blobs, blob, b)
    ensures RegistryInv(Settle(r, b, blob).value, blobs)
  {
    var height := b.header.height;
    if height != r.latest {
      var r1 := Settle(r, b, blob).value;
      assert r1 == Registry(height, r.commitments[height := blob], r.settled[height := b]);
      assert r1.commitments.Keys == r1.settled.Keys;
      forall h | h in r1.settled
        ensures r1.settled[h].header.height == h && Carries(blobs, r1.commitments[h], r1.settled[h])
      {
        if h != height {
          assert h in r.settled;
        }
      }
    }
  }

  lemma ApplyKeepsDurable(env: Env, before: seq<Op>, op: Op)
    requires CollisionFree(env) && DurableInv(env, Replay(env, before)) && Justified(env, before, op)
    ensures DurableInv(env, ApplyOp(env, Replay(env, before), op))
  {
    var d := Replay(env, before);
    match op
    case Publish(batch) => PublishKeepsDurable(env, d, batch);
    case Commit(b, blob) => CommitKeepsRegistry(d.registry, d.blobs, b, blob);
    case _ =>
  }

  // ---------- every step keeps the invariant ----------

  lemma OwnThen(own: seq<Op>, sent: seq<Block>, op: Op)
    requires InOrder(own, sent)
    requires op.Commit? ==> |DoneOf(own)| < |sent| && sent[|DoneOf(own)|] == op.block
    ensures InOrder(own + [op], sent)
    ensures DoneOf(own + [op]) == if op.Done? then DoneOf(own) + [op.block] else DoneOf(own)
  {
    assert (own + [op])[..|own|] == own;
  }

  lemma Written(env: Env, s: State, op: Op)
    requires Logged(env, s.world, s.past, s.own, s.sent, s.finalized) && Justified(env, Journal(s), op)
    requires op.Commit? ==> |s.finalized| < |s.sent| && s.sent[|s.finalized|] == op.block
    ensures var s1 := Write(env, s, op);
      && Journal(s1) == Journal(s) + [op]
      && Logged(env, s1.world, s1.past, s1.own, s.sent, if op.Done? then s.finalized + [op.block] else s.finalized)
  {
    assert Journal(Write(env, s, op)) == Journal(s) + [op];
    SoundThen(env, Journal(s), op);
    Replayed(env, Journal(s), op);
    OwnThen(s.own, s.sent, op);
  }

  lemma {:induction false} OrderExtends(own: seq<Op>, sent: seq<Block>, more: seq<Block>)
    requires InOrder(own, sent)
    ensures InOrder(own, sent + more)
  {
    if own != [] {
      OrderExtends(own[..|own| - 1], sent, more);
    }
  }

  lemma Queued(env: Env, s: State, b: Block)
    requires Logged(env, s.world, s.past, s.own, s.sent, s.finalized) && Put(b) in Journal(s)
    requires s.sent == [] || s.sent[|s.sent| - 1].header.height < b.header.height
    ensures Logged(env, s.world, s.past, s.own, s.sent + [b], s.finalized)
  {
    OrderExtends(s.own, s.sent, [b]);
    var sent := s.sent + [b];
    forall i, j | 0 <= i < j < |sent| ensures sent[i].header.height < sent[j].header.height {
      assert i < |s.sent| - 1 ==> s.sent[i].header.height < s.sent[|s.sent| - 1].header.height;
    }
  }

  lemma ProduceLogged(env: Env, s: State, b: Block)
    requires Logged(env, s.world, s.past, s.own, s.sent, s.finalized) && env.decodable(b.data)
    ensures var s1 := Write(env, Write(env, s, Put(b)), Mark(b.header.height));
      && Logged(env, s1.world, s.past, s1.own, s.sent, s.finalized)
      && Put(b) in s.past + s1.own
  {
    Written(env, s, Put(b));
    Written(env, Write(env, s, Put(b)), Mark(b.header.height));
    assert Journal(Write(env, Write(env, s, Put(b)), Mark(b.header.height)))[|Journal(s)|] == Put(b);
  }

  lemma SendConserved(s: State, b: Block)
    requires Conserved(s) && !s.stopped
    ensures Conserved(s.(sent := s.sent + [b], channel := s.channel + [b]))
  {
    assert s.finalized + s.local + s.batch + (s.channel + [b]) == s.sent + [b];
  }

  lemma ProduceKeepsInv(env: Env, s: State, b: Block)
    requires CollisionFree(env) && Inv(env, s) && Legal(env, s, Produce(b))
    ensures Inv(env, Step(env, s, Produce(b)))
  {
    ProduceLogged(env, s, b);
    var s1 := Write(env, Write(env, s, Put(b)), Mark(b.header.height));
    if !s.stopped {
      Queued(env, s1, b);
      SendConserved(s1, b);
    }
  }

  lemma EndKeepsInv(env: Env, s: State, last: bool)
    requires Inv(env, s)
    ensures Inv(env, EndFlush(s, last))
  {
    assert s.finalized + (s.local + s.batch) + [] + s.channel == s.sent;
  }

  lemma BatchIncreasing(s: State)
    requires Conserved(s) && Increasing(s.sent)
    ensures Increasing(s.batch)
  {
    var k := |s.finalized| + |s.local|;
    assert forall i :: 0 <= i < |s.batch| ==> s.batch[i] == s.sent[k + i];
  }

  lemma PublishKeepsInv(env: Env, s: State)
    requires CollisionFree(env) && Inv(env, s) && s.phase.Publishing? && Encodable(s.batch)
    ensures Inv(env, Write(env, s, Publish(s.batch)))
    ensures Published(Write(env, s, Publish(s.batch)).world.blobs, BlobOf(env, s.batch), s.batch)
  {
    BatchIncreasing(s);
    Written(env, s, Publish(s.batch));
    DecodeInvertsEncode(s.batch);
    assert s.batch[|s.batch| - |s.batch|..] == s.batch;
  }

  lemma FrontCarried(blobs: map<BlobId, Bytes>, blob: BlobId, batch: seq<Block>)
    requires batch != [] && Published(blobs, blob, batch)
    ensures Carries(blobs, blob, batch[0]) && Published(blobs, blob, batch[1..])
  {
    var all := Decode(blobs[blob]).value;
    assert batch[0] == all[|all| - |batch|];
    assert all[|all| - |batch[1..]|..] == all[|all| - |batch|..][1..];
  }

  lemma CommitKeepsInv(env: Env, s: State)
    requires CollisionFree(env) && Inv(env, s) && s.phase.Settling? && !s.shuttingDown
    requires Settle(s.world.registry, s.batch[0], s.phase.blob).Some?
    ensures Inv(env, Write(env, s, Commit(s.batch[0], s.phase.blob)))
  {
    var front, blob := s.batch[0], s.phase.blob;
    assert s.sent[|s.finalized|] == front;
    assert Put(front) in Journal(s) by { assert front in s.sent; }
    FrontCarried(s.world.blobs, blob, s.batch);
    Written(env, s, Commit(front, blob));
  }

  /** The journal entries of a confirmed finalization. */
  lemma FrontLogged(env: Env, s: State, cleared: bool)
    requires Logged(env, s.world, s.past, s.own, s.sent, s.finalized)
    requires s.own != [] && s.own[|s.own| - 1].Commit?
    ensures var front := s.own[|s.own| - 1].block;
      var s1 := Write(env, s, Done(front));
      var s2 := if cleared then Write(env, s1, Clear(front.header.height)) else s1;
      Logged(env, s2.world, s2.past, s2.own, s.sent, s.finalized + [front]) && s2.world.blobs == s.world.blobs
  {
    var front := s.own[|s.own| - 1].block;
    Written(env, s, Done(front));
    var s1 := Write(env, s, Done(front)).(finalized := s.finalized + [front]);
    if cleared {
      Written(env, s1, Clear(front.header.height));
    }
  }

  lemma FrontConserved(s: State)
    requires Conserved(s) && s.batch != [] && s.local == []
    ensures Conserved(s.(batch := s.batch[1..], arrived := s.arrived[1..], finalized := s.finalized + [s.batch[0]],
                         phase := if |s.batch| == 1 then Idle else s.phase))
  {
    assert s.finalized + [s.batch[0]] + s.local + s.batch[1..] + s.channel == s.sent;
  }

  lemma FrontKeepsInv(env: Env, s: State, a: Attempt)
    requires CollisionFree(env) && Inv(env, s) && s.phase.Settling?
    requires s.own != [] && s.own[|s.own| - 1] == Commit(s.batch[0], s.phase.blob) && s.local == []
    ensures Inv(env, FinalizeFront(env, s, s.phase.last, a))
  {
    var front, last := s.batch[0], s.phase.last;
    if !a.finalized {
      EndKeepsInv(env, s, last);
    } else {
      FrontLogged(env, s, a.cleared);
      FrontCarried(s.world.blobs, s.phase.blob, s.batch);
      FrontConserved(s);
      var s3 := DropFront(env, s, a.cleared);
      assert s3.world.blobs == s.world.blobs;
      if |s.batch| == 1 {
        EndKeepsInv(env, s3.(phase := Idle, batchBytes := 0), last);
      } else {
        assert s3.(phase := s.phase) == s3;
        assert Inv(env, s3);
      }
    }
  }

  lemma AbandonKeepsInv(env: Env, s: State)
    requires Inv(env, s) && (s.shuttingDown || s.stopped)
    ensures Inv(env, Abandon(s).(batchBytes := 0, phase := Idle))
    ensures Inv(env, Abandon(s).(timer := None, phase := Idle))
  {
    assert s.finalized + (s.local + s.batch) + [] + s.channel == s.sent;
  }

  lemma PublishingKeepsInv(env: Env, s: State, a: Attempt)
    requires CollisionFree(env) && Inv(env, s) && s.phase.Publishing?
    ensures Inv(env, FlushStep(env, s, a))
  {
    if s.shuttingDown {
      EndKeepsInv(env, s, s.phase.last);
    } else if Encodable(s.batch) && a.net != RequestLost {
      PublishKeepsInv(env, s);
      var s1 := Write(env, s, Publish(s.batch));
      var s2 := s1.(phase := Settling(BlobOf(env, s.batch), s.phase.last));
      assert s2.world == s1.world;
    }
  }

  lemma SettlingKeepsInv(env: Env, s: State, a: Attempt)
    requires CollisionFree(env) && Inv(env, s) && s.phase.Settling?
    ensures Inv(env, FlushStep(env, s, a))
  {
    if s.shuttingDown {
      AbandonKeepsInv(env, s);
      EndKeepsInv(env, Abandon(s).(batchBytes := 0, phase := Idle), s.phase.last);
    } else if a.net != RequestLost && Settle(s.world.registry, s.batch[0], s.phase.blob).Some? {
      CommitKeepsInv(env, s);
      var s1 := Write(env, s, Commit(s.batch[0], s.phase.blob));
      assert s1.own[|s1.own| - 1] == Commit(s1.batch[0], s1.phase.blob);
      FrontKeepsInv(env, s1, a);
    }
  }

  lemma FlushKeepsInv(env: Env, s: State, a: Attempt)
    requires CollisionFree(env) && Inv(env, s)
    ensures Inv(env, FlushStep(env, s, a))
  {
    match s.phase
    case Idle =>
    case Publishing(_) => PublishingKeepsInv(env, s, a);
    case Settling(_, _) => SettlingKeepsInv(env, s, a);
  }

  lemma TakeKeepsInv(env: Env, s: State, now: nat)
    requires Inv(env, s) && s.phase == Idle && !s.stopped && s.channel != []
    ensures Inv(env, Take(env, s, now))
  {
    assert s.finalized + s.local + (s.batch + [s.channel[0]]) + s.channel[1..] == s.sent;
    assert Take(env, s, now).world == s.world;
  }

  /** Recovery finds every pending block and drops no marker. */
  lemma {:induction false} RecoveryFindsAll(env: Env, d: Durable, heights: seq<nat>)
    requires DurableInv(env, d) && forall h :: h in heights ==> h in d.pending
    ensures var (queue, ops) := Recovery(env, d, heights);
      && ops == [] && |queue| == |heights|
      && forall i :: 0 <= i < |heights| ==>
           heights[i] in d.stored && queue[i] == d.stored[heights[i]] && queue[i].header.height == heights[i]
  {
    if heights != [] {
      assert heights[0] in heights;
      forall h | h in heights[1..] ensures h in d.pending {
        assert h in heights;
      }
      RecoveryFindsAll(env, d, heights[1..]);
      assert forall i :: 0 < i < |heights| ==> heights[i] == heights[1..][i - 1];
    }
  }

  /** Whatever is stored was put. */
  lemma {:induction false} StoredWasPut(env: Env, journal: seq<Op>, h: nat)
    requires h in Replay(env, journal).stored
    ensures Put(Replay(env, journal).stored[h]) in journal
  {
    if journal != [] {
      var before, op := journal[..|journal| - 1], journal[|journal| - 1];
      if !(op.Put? && op.block.header.height == h) {
        StoredWasPut(env, before, h);
        assert Put(Replay(env, before).stored[h]) in before;
      } else {
        assert op in journal;
      }
    }
  }

  lemma StartWritesNothing(env: Env, journal: seq<Op>)
    requires CollisionFree(env) && Sound(env, journal)
    ensures var d := Replay(env, journal);
      var s := Start(env, journal);
      && Sound(env, s.past) && Replay(env, s.past) == d && DurableInv(env, d)
      && s.own == [] && s.past + s.own == s.past && s.sent == s.channel
      && HeightsOf(s.channel) == AscendingOf(d.pending)
      && forall b :: b in s.channel ==> b.header.height in d.stored && d.stored[b.header.height] == b
  {
    SoundThen(env, journal, Boot);
    Replayed(env, journal, Boot);
    SoundDurable(env, journal);
    var d := Replay(env, journal);
    var heights := AscendingOf(d.pending);
    forall h | h in heights ensures h in d.pending {
      assert h in Elements(heights);
    }
    RecoveryFindsAll(env, d, heights);
    assert HeightsOf(Recovery(env, d, heights).0) == heights;
  }

  lemma StartLogged(env: Env, journal: seq<Op>)
    requires CollisionFree(env) && Sound(env, journal)
    ensures var s := Start(env, journal); Logged(env, s.world, s.past, s.own, s.sent, [])
  {
    StartWritesNothing(env, journal);
    var s := Start(env, journal);
    assert Increasing(s.sent) by {
      var heights := HeightsOf(s.sent);
      assert forall i :: 0 <= i < |heights| ==> heights[i] == s.sent[i].header.height;
    }
    forall b | b in s.sent ensures Put(b) in s.past {
      StoredWasPut(env, s.past, b.header.height);
    }
  }

  /** A start re-queues exactly the stored blocks of the pending heights, in ascending order, and
      writes nothing. */
  lemma StartRecovers(env: Env, journal: seq<Op>)
    requires CollisionFree(env) && Sound(env, journal)
    ensures var s := Start(env, journal);
      var d := Replay(env, journal);
      && Inv(env, s) && TimerInv(env, s)
      && s.own == [] && s.world == d
      && Elements(HeightsOf(s.channel)) == d.pending
      && forall b :: b in s.channel ==> b.header.height in d.stored && d.stored[b.header.height] == b
  {
    StartWritesNothing(env, journal);
    StartLogged(env, journal);
    var s := Start(env, journal);
    assert [] + [] + [] + s.channel == s.sent;
  }

  lemma StartKeepsWorld(env: Env, journal: seq<Op>)
    requires CollisionFree(env) && Sound(env, journal)
    ensures Start(env, journal).world == Replay(env, journal)
  {
    StartRecovers(env, journal);
  }

  function HeightsOf(blocks: seq<Block>): (r: seq<nat>)
    ensures |r| == |blocks| && forall i :: 0 <= i < |r| ==> r[i] == blocks[i].header.height
  {
    seq(|blocks|, i requires 0 <= i < |blocks| => blocks[i].header.height)
  }

  lemma FrontGrows(env: Env, s: State, last: bool, a: Attempt)
    requires s.batch != [] && |s.arrived| == |s.batch|
    ensures FinalizeFront(env, s, last, a).past == s.past && s.own <= FinalizeFront(env, s, last, a).own
  {
  }

  lemma FlushGrows(env: Env, s: State, a: Attempt)
    requires |s.arrived| == |s.batch|
    ensures FlushStep(env, s, a).past == s.past && s.own <= FlushStep(env, s, a).own
  {
    if s.phase.Settling? && s.batch != [] && !s.shuttingDown {
      FrontGrows(env, Write(env, s, Commit(s.batch[0], s.phase.blob)), s.phase.last, a);
    }
  }

  /** Nothing written is ever unwritten. */
  lemma {:induction false} JournalGrows(env: Env, s: State, ev: Event)
    requires |s.arrived| == |s.batch|
    ensures Journal(s) <= Journal(Step(env, s, ev))
    decreases ev
  {
    match ev
    case Flush(a) =>
      FlushGrows(env, s, a);
      assert forall a: seq<Op>, b, c: seq<Op> :: b <= c ==> a + b <= a + c;
    case Crash(during, kept) =>
      JournalGrows(env, s, during);
      var left := Left(Journal(s), Journal(Step(env, s, during)), kept);
      assert Journal(s) <= left <= left + [Boot];
    case _ =>
  }

  lemma CrashKeepsInv(env: Env, before: seq<Op>, written: seq<Op>, kept: nat)
    requires CollisionFree(env) && Sound(env, written)
    ensures Inv(env, Start(env, Left(before, written, kept))) && TimerInv(env, Start(env, Left(before, written, kept)))
  {
    SoundPrefix(env, written, Min(|before| + kept, |written|));
    StartRecovers(env, Left(before, written, kept));
  }

  lemma SignalKeepsInv(env: Env, s: State, ev: Event)
    requires Inv(env, s) && (ev.TimerFires? || ev.ChannelClosed? || ev.ShutdownSignal?)
    ensures Inv(env, Step(env, s, ev))
  {
    var s1 := Step(env, s, ev);
    assert Conserved(s1);
    assert s1.phase.Settling? ==> s1.phase == s.phase && s1.world == s.world;
  }

  lemma {:induction false} StepKeepsInv(env: Env, s: State, ev: Event)
    requires CollisionFree(env) && Inv(env, s) && Legal(env, s, ev)
    ensures Inv(env, Step(env, s, ev))
    decreases ev
  {
    match ev
    case Produce(b) => ProduceKeepsInv(env, s, b);
    case Receive(now) =>
      if s.phase == Idle && !s.stopped && s.channel != [] {
        TakeKeepsInv(env, s, now);
      }
    case ShutdownSeen =>
      if s.phase == Idle && s.shuttingDown {
        AbandonKeepsInv(env, s);
      }
    case Flush(a) => FlushKeepsInv(env, s, a);
    case Crash(during, kept) =>
      StepKeepsInv(env, s, during);
      CrashKeepsInv(env, Journal(s), Journal(Step(env, s, during)), kept);
    case _ => SignalKeepsInv(env, s, ev);
  }

  // ---------- the flush timer and the size estimate ----------

  lemma {:induction false} TotalThen(batch: seq<Block>, b: Block)
    ensures TotalBytes(batch + [b]) == TotalBytes(batch) + |b.data|
  {
    if batch != [] {
      TotalThen(batch[1..], b);
      assert (batch + [b])[1..] == batch[1..] + [b];
    } else {
      assert ([b])[1..] == [];
    }
  }

  lemma TakeKeepsTimer(env: Env, s: State, now: nat)
    requires Conserved(s) && TimerInv(env, s) && s.phase == Idle && !s.stopped && s.channel != []
    requires s.arrived == [] || s.arrived[|s.arrived| - 1] <= now
    ensures TimerInv(env, Take(env, s, now))
  {
    TotalThen(s.batch, s.channel[0]);
    var arrived := s.arrived + [now];
    assert forall i, j :: 0 <= i < j < |arrived| ==> arrived[i] <= arrived[j];
    assert s.batch != [] ==> arrived[0] == s.arrived[0];
    assert TimerInv(env, s.(channel := s.channel[1..], batch := s.batch + [s.channel[0]], arrived := arrived,
                            timer := if s.batch == [] then Arm(env, s.timer, now) else s.timer,
                            batchBytes := SaturatingAdd(s.batchBytes, |s.channel[0].data|)));
  }

  lemma EndKeepsTimer(env: Env, s: State, last: bool)
    requires |s.arrived| == |s.batch| && !s.stopped && s.phase != Idle && s.phase.last == last
    requires if s.batch != [] then TimerInv(env, s) else last ==> s.timer == None
    ensures TimerInv(env, EndFlush(s, last))
  {
  }

  lemma FrontKeepsTimer(env: Env, s: State, last: bool, a: Attempt)
    requires Conserved(s) && TimerInv(env, s) && s.phase != Idle && s.phase.last == last
    ensures TimerInv(env, FinalizeFront(env, s, last, a))
  {
    var s1 := s.(batch := s.batch[1..], arrived := s.arrived[1..]);
    if s1.batch != [] {
      assert s.arrived[0] <= s.arrived[1];
      assert TimerInv(env, s1);
    }
  }

  lemma FlushKeepsTimer(env: Env, s: State, a: Attempt)
    requires Conserved(s) && TimerInv(env, s)
    ensures TimerInv(env, FlushStep(env, s, a))
  {
    match s.phase
    case Idle =>
    case Publishing(last) =>
      EndKeepsTimer(env, s, last);
    case Settling(blob, last) =>
      if s.shuttingDown {
        EndKeepsTimer(env, Abandon(s).(batchBytes := 0), last);
      } else {
        FrontKeepsTimer(env, Write(env, s, Commit(s.batch[0], blob)), last, a);
      }
  }

  lemma StepKeepsTimer(env: Env, s: State, ev: Event)
    requires CollisionFree(env) && Inv(env, s) && TimerInv(env, s) && Legal(env, s, ev)
    ensures TimerInv(env, Step(env, s, ev))
  {
    match ev
    case Receive(now) =>
      if s.phase == Idle && !s.stopped && s.channel != [] {
        TakeKeepsTimer(env, s, now);
      }
    case Flush(a) => FlushKeepsTimer(env, s, a);
    case Crash(during, kept) =>
      StepKeepsInv(env, s, during);
      CrashKeepsInv(env, Journal(s), Journal(Step(env, s, during)), kept);
    case _ =>
  }

  // ---------- the flush timer runs for a whole interval ----------

  /** When the block that opened the buffered batch arrived: set as the buffer fills from empty, kept
      while it holds anything, forgotten when it is empty. */
  function Opened(before: Option<nat>, s: State, s1: State, ev: Event): Option<nat> {
    if s1.batch == [] then None
    else if s.batch == [] && ev.Receive? then Some(ev.now)
    else before
  }

  function OpenedAfter(env: Env, s: State, since: Option<nat>, evs: seq<Event>): Option<nat>
    requires |s.arrived| == |s.batch|
    decreases |evs|
  {
    if evs == [] then since
    else
      var s1 := Step(env, s, evs[0]);
      OpenedAfter(env, s1, Opened(since, s, s1, evs[0]), evs[1..])
  }

  /** An armed timer is due one interval after the batch was opened. */
  predicate WholeInterval(env: Env, s: State, since: Option<nat>) {
    && (s.batch != [] ==> since.Some?)
    && (s.timer.Some? && s.batch != [] ==>
          env.flushAfter.Some? && s.timer == Some(since.value + env.flushAfter.value))
  }

  lemma FlushKeepsDue(env: Env, s: State, a: Attempt)
    requires Conserved(s)
    ensures var s1 := FlushStep(env, s, a);
      s1.batch != [] ==> s.batch != [] && (s1.timer == s.timer || s1.timer == None)
  {
  }

  lemma SignalKeepsDue(env: Env, s: State, ev: Event)
    requires Conserved(s) && !ev.Receive? && !ev.Flush? && !ev.Crash?
    ensures var s1 := Step(env, s, ev);
      s1.batch != [] ==> s.batch != [] && (s1.timer == s.timer || s1.timer == None)
  {
  }

  lemma StepKeepsInterval(env: Env, s: State, ev: Event, since: Option<nat>)
    requires Conserved(s) && TimerInv(env, s) && WholeInterval(env, s, since)
    ensures WholeInterval(env, Step(env, s, ev), Opened(since, s, Step(env, s, ev), ev))
  {
    match ev
    case Receive(now) =>
    case Flush(a) => FlushKeepsDue(env, s, a);
    case Crash(during, kept) => assert Step(env, s, ev).batch == [];
    case _ => SignalKeepsDue(env, s, ev);
  }

  /** In every run, while the timer is armed, it is due exactly one interval after the block that opened
      the batch arrived, through later arrivals, partial flushes, put-backs and restarts. */
  lemma {:induction false} TimerIsWholeInterval(env: Env, s: State, evs: seq<Event>, since: Option<nat>)
    requires CollisionFree(env) && Inv(env, s) && TimerInv(env, s) && LegalRun(env, s, evs)
    requires WholeInterval(env, s, since)
    ensures WholeInterval(env, Run(env, s, evs), OpenedAfter(env, s, since, evs))
    decreases |evs|
  {
    if evs != [] {
      var s1 := Step(env, s, evs[0]);
      StepKeepsInv(env, s, evs[0]);
      StepKeepsTimer(env, s, evs[0]);
      StepKeepsInterval(env, s, evs[0], since);
      TimerIsWholeInterval(env, s1, evs[1..], Opened(since, s, s1, evs[0]));
    }
  }

  /** So the timer starts a flush exactly when a whole interval has passed over an idle, unstopped
      finalizer that buffers something. */
  lemma TimerFlushesWhenDue(env: Env, s: State, since: Option<nat>, now: nat)
    requires Conserved(s) && TimerInv(env, s) && WholeInterval(env, s, since) && s.phase == Idle
    ensures Step(env, s, TimerFires(now)).phase.Publishing? <==>
            env.flushAfter.Some? && s.batch != [] && since.value + env.flushAfter.value <= now
  {
  }

  // ---------- the theorems ----------

  lemma {:induction false} RunKeepsEach(env: Env, s: State, evs: seq<Event>)
    requires CollisionFree(env) && Inv(env, s) && TimerInv(env, s) && LegalRun(env, s, evs)
    ensures Inv(env, Run(env, s, evs)) && TimerInv(env, Run(env, s, evs))
    decreases |evs|
  {
    if evs != [] {
      StepKeepsInv(env, s, evs[0]);
      StepKeepsTimer(env, s, evs[0]);
      RunKeepsEach(env, Step(env, s, evs[0]), evs[1..]);
    }
  }

  /** Every run, whatever fails and wherever it crashes: each block sent is in exactly one place, in
      the order it was sent; each settle is of the first block not finalized; each marker goes only
      after its settle and its finalization; the timer runs exactly while blocks are buffered and
      never later than the oldest allows; the size estimate is never below the buffered total. */
  lemma RunKeepsInv(env: Env, s: State, evs: seq<Event>)
    requires CollisionFree(env) && Inv(env, s) && TimerInv(env, s) && LegalRun(env, s, evs)
    ensures var end := Run(env, s, evs);
      && Inv(env, end) && TimerInv(env, end) && DurableInv(env, end.world)
      && end.finalized + end.local + end.batch + end.channel == end.sent
      && Sound(env, Journal(end)) && InOrder(end.own, end.sent)
      && (end.timer.Some? <==> env.flushAfter.Some? && end.batch != [] && !Closing(end))
  {
    RunKeepsEach(env, s, evs);
    SoundDurable(env, Journal(Run(env, s, evs)));
  }

  lemma CommitSettles(r: Registry, blobs: map<BlobId, Bytes>, b: Block, blob: BlobId)
    requires RegistryInv(r, blobs) && Settle(r, b, blob).Some?
    ensures b.header.height in Settle(r, b, blob).value.settled
  {
  }

  /** A block just settled, or just finalized, has its height in the registry. */
  lemma LastIsSettled(env: Env, journal: seq<Op>)
    requires CollisionFree(env) && Sound(env, journal) && journal != []
    requires journal[|journal| - 1].Commit? || journal[|journal| - 1].Done?
    ensures journal[|journal| - 1].block.header.height in Replay(env, journal).registry.settled
    decreases |journal|
  {
    var before, op := journal[..|journal| - 1], journal[|journal| - 1];
    if op.Done? {
      LastIsSettled(env, before);
    } else {
      SoundDurable(env, before);
      var d := Replay(env, before);
      CommitSettles(d.registry, d.blobs, op.block, op.blob);
    }
  }

  /** No produced block is lost: a height once marked is still marked or is settled. */
  lemma {:induction false} MarkedIsPendingOrSettled(env: Env, journal: seq<Op>, h: nat)
    requires CollisionFree(env) && Sound(env, journal) && Mark(h) in journal
    ensures h in Replay(env, journal).pending || h in Replay(env, journal).registry.settled
    decreases |journal|
  {
    var before, op := journal[..|journal| - 1], journal[|journal| - 1];
    if op == Clear(h) {
      LastIsSettled(env, before);
    } else if op != Mark(h) {
      assert Mark(h) in before;
      MarkedIsPendingOrSettled(env, before, h);
    }
  }

  const FLAWLESS: Attempt := Attempt(Delivered, true, true)

  predicate Consecutive(blocks: seq<Block>, next: nat) {
    forall i :: 0 <= i < |blocks| ==> blocks[i].header.height == next + i
  }

  function FrontOps(front: Block, blob: BlobId): seq<Op> {
    [Commit(front, blob), Done(front), Clear(front.header.height)]
  }

  lemma FlawlessFront(env: Env, s: State)
    requires Conserved(s) && s.phase.Settling? && !s.shuttingDown
    requires Settle(s.world.registry, s.batch[0], s.phase.blob).Some?
    ensures var s1 := FlushStep(env, s, FLAWLESS);
      && s1.past == s.past && s1.own == s.own + FrontOps(s.batch[0], s.phase.blob)
      && s1.finalized == s.finalized + [s.batch[0]] && s1.batch == s.batch[1..]
      && s1.sent == s.sent && !s1.shuttingDown && s1.phase == (if |s.batch| == 1 then Idle else s.phase)
      && s1.world.registry == Settle(s.world.registry, s.batch[0], s.phase.blob).value
      && s1.world.pending == s.world.pending - {s.batch[0].header.height} && s1.world.blobs == s.world.blobs
  {
    var front := s.batch[0];
    var s1 := Write(env, s, Commit(front, s.phase.blob));
    assert FlushStep(env, s, FLAWLESS) == FinalizeFront(env, s1, s.phase.last, FLAWLESS);
    assert s.own + FrontOps(front, s.phase.blob) == s1.own + [Done(front)] + [Clear(front.header.height)];
    if |s.batch| == 1 {
      assert s.batch[1..] == [];
    }
  }

  /** One settle that meets no failure. */
  lemma FlawlessStep(env: Env, s: State)
    requires CollisionFree(env) && Inv(env, s) && s.phase.Settling? && !s.shuttingDown
    requires Consecutive(s.batch, s.world.registry.latest + 1)
    ensures var s1 := FlushStep(env, s, FLAWLESS);
      && Inv(env, s1)
      && s1.finalized == s.finalized + [s.batch[0]] && s1.batch == s.batch[1..]
      && s1.sent == s.sent && !s1.shuttingDown && s1.phase == (if |s.batch| == 1 then Idle else s.phase)
      && s1.world.registry.latest == s.world.registry.latest + 1
      && s1.world.pending == s.world.pending - {s.batch[0].header.height} && s1.world.blobs == s.world.blobs
  {
    FlushKeepsInv(env, s, FLAWLESS);
    FlawlessFront(env, s);
  }

  function Repeat(n: nat): seq<Attempt> {
    seq(n, _ => FLAWLESS)
  }

  lemma FlawlessFirst(env: Env, s: State, n: nat)
    requires |s.arrived| == |s.batch|
    ensures Attempts(env, s, Repeat(n + 1)) == Attempts(env, FlushStep(env, s, FLAWLESS), Repeat(n))
    ensures Attempts(env, s, Repeat(0)) == s
  {
    assert Repeat(n + 1)[0] == FLAWLESS && Repeat(n + 1)[1..] == Repeat(n);
    assert Repeat(0) == [];
  }

  /** `end` is what a flawless flush of `batch` leads to. */
  ghost predicate Flushed(env: Env, end: State, finalized: seq<Block>, batch: seq<Block>, latest: nat) {
    && Inv(env, end) && end.phase == Idle && end.batch == [] && end.finalized == finalized + batch
    && end.world.registry.latest == latest + |batch|
  }

  lemma Shifted(done: seq<Block>, batch: seq<Block>, next: nat)
    requires batch != [] && Consecutive(batch, next)
    ensures done + [batch[0]] + batch[1..] == done + batch && Consecutive(batch[1..], next + 1)
  {
  }

  lemma FlawlessSettle(env: Env, s: State, n: nat) returns (s1: State)
    requires CollisionFree(env) && Inv(env, s) && s.phase.Settling? && !s.shuttingDown
    requires Consecutive(s.batch, s.world.registry.latest + 1)
    ensures |s1.arrived| == |s1.batch| && Attempts(env, s, Repeat(n + 1)) == Attempts(env, s1, Repeat(n))
    ensures Inv(env, s1) && s1.finalized + s1.batch == s.finalized + s.batch && |s1.batch| == |s.batch| - 1
    ensures !s1.shuttingDown && s1.phase == (if |s.batch| == 1 then Idle else s.phase)
    ensures Consecutive(s1.batch, s1.world.registry.latest + 1)
    ensures s1.world.registry.latest == s.world.registry.latest + 1
  {
    FlawlessFirst(env, s, n);
    Shifted(s.finalized, s.batch, s.world.registry.latest + 1);
    FlawlessStep(env, s);
    s1 := FlushStep(env, s, FLAWLESS);
  }

  lemma {:induction false} FlawlessSettles(env: Env, s: State, n: nat) returns (end: State)
    requires CollisionFree(env) && Inv(env, s) && s.phase.Settling? && !s.shuttingDown && n + 1 == |s.batch|
    requires Consecutive(s.batch, s.world.registry.latest + 1)
    ensures end == Attempts(env, s, Repeat(n + 1))
    ensures Flushed(env, end, s.finalized, s.batch, s.world.registry.latest)
    decreases n
  {
    var s1 := FlawlessSettle(env, s, n);
    if n > 0 {
      end := FlawlessSettles(env, s1, n - 1);
    } else {
      FlawlessFirst(env, s1, 0);
      end := s1;
    }
  }

  lemma PublishAttempt(env: Env, s: State)
    requires |s.arrived| == |s.batch| && s.phase.Publishing? && !s.shuttingDown && Encodable(s.batch)
    ensures FlushStep(env, s, FLAWLESS) ==
            Write(env, s, Publish(s.batch)).(phase := Settling(BlobOf(env, s.batch), s.phase.last))
  {
  }

  lemma PublishedState(env: Env, s: State, phase: Phase)
    requires |s.arrived| == |s.batch|
    ensures var s1 := Write(env, s, Publish(s.batch)).(phase := phase);
      && s1.world.registry == s.world.registry && s1.world.pending == s.world.pending
      && s1.batch == s.batch && s1.finalized == s.finalized && s1.shuttingDown == s.shuttingDown
  {
  }

  lemma FlawlessPublish(env: Env, s: State, n: nat) returns (s1: State)
    requires CollisionFree(env) && Inv(env, s) && s.phase.Publishing? && !s.shuttingDown && Encodable(s.batch)
    ensures Inv(env, s1) && Attempts(env, s, Repeat(n + 1)) == Attempts(env, s1, Repeat(n))
    ensures s1.phase.Settling? && s1.batch == s.batch && s1.finalized == s.finalized && !s1.shuttingDown
    ensures s1.world.registry == s.world.registry
  {
    PublishAttempt(env, s);
    PublishedState(env, s, Settling(BlobOf(env, s.batch), s.phase.last));
    PublishingKeepsInv(env, s, FLAWLESS);
    FlawlessFirst(env, s, n);
    s1 := Write(env, s, Publish(s.batch)).(phase := Settling(BlobOf(env, s.batch), s.phase.last));
  }

  /** A flush that meets no failure settles and finalizes the whole batch, in as many attempts as it
      has blocks, after the one that publishes it. */
  lemma FlawlessFlush(env: Env, s: State)
    requires CollisionFree(env) && Inv(env, s) && s.phase.Publishing? && !s.shuttingDown && Encodable(s.batch)
    requires Consecutive(s.batch, s.world.registry.latest + 1)
    ensures Flushed(env, Attempts(env, s, Repeat(|s.batch| + 1)), s.finalized, s.batch, s.world.registry.latest)
  {
    var n := |s.batch|;
    var s1 := FlawlessPublish(env, s, n);
    var end := FlawlessSettles(env, s1, n - 1);
    assert end == Attempts(env, s, Repeat(n + 1));
  }

  /** A block put back after a failed finalization is on Sui already. Its retry is accepted exactly
      when the batch it is published in is the one that was published before. */
  lemma PutBackResettles(env: Env, d: Durable, batch: seq<Block>)
    requires CollisionFree(env) && DurableInv(env, d)
    requires batch != [] && Encodable(batch) && Increasing(batch)
    requires batch[0].header.height == d.registry.latest > 0
    ensures Settle(d.registry, batch[0], BlobOf(env, batch)).Some? <==>
            Decode(d.blobs[d.registry.commitments[d.registry.latest]]) == Ok(batch)
  {
    var h := d.registry.latest;
    var blob := d.registry.commitments[h];
    var settled := d.registry.settled[h];
    assert Carries(d.blobs, blob, settled);
    DecodeInvertsEncode(batch);
    if blob == BlobOf(env, batch) {
      assert d.blobs[blob] == Encode(batch).value;
    } else if Decode(d.blobs[blob]) == Ok(batch) {
      EncodeInvertsDecode(d.blobs[blob]);
    }
    if Decode(d.blobs[blob]) == Ok(batch) {
      var i :| 0 <= i < |batch| && batch[i] == settled;
      assert i == 0;
    }
  }

  // ---------- what each attempt, and each way to stop, amounts to ----------

  /** A repeated settle is accepted for the blob and the state root recorded, and changes nothing; a new
      one only for the next height, which it records. */
  lemma SettleExactly(r: Registry, blobs: map<BlobId, Bytes>, b: Block, blob: BlobId)
    requires RegistryInv(r, blobs)
    ensures Settle(r, b, blob).Some? <==>
            b.header.height == r.latest + 1 ||
            (b.header.height == r.latest > 0 && r.commitments[r.latest] == blob &&
             r.settled[r.latest].header.stateRoot == b.header.stateRoot)
    ensures Settle(r, b, blob).Some? ==>
              var r1 := Settle(r, b, blob).value;
              && r1.latest == b.header.height
              && r1.commitments == r.commitments[r1.latest := blob]
              && (b.header.height == r.latest ==> r1 == r)
              && (b.header.height != r.latest ==> r1.settled[r1.latest] == b)
  {
  }

  /** A publish attempt writes a blob exactly when it is not too late, the batch encodes and the request
      arrives; it goes on to settle exactly when the answer arrives too. */
  lemma PublishExactly(env: Env, s: State, a: Attempt)
    requires Conserved(s) && s.phase.Publishing?
    ensures var s1 := FlushStep(env, s, a);
      var writes := !s.shuttingDown && Encodable(s.batch) && a.net != RequestLost;
      && Journal(s1) == Journal(s) + (if writes then [Publish(s.batch)] else [])
      && (s1.phase.Settling? <==> writes && a.net == Delivered)
      && (s1.phase.Settling? ==> s1.phase == Settling(BlobOf(env, s.batch), s.phase.last))
      && (!s.shuttingDown ==> s1.batch == s.batch && s1.timer == s.timer && s1.batchBytes == s.batchBytes &&
                              (s1.phase.Settling? || s1.phase == s.phase))
  {
  }

  /** A settle attempt registers the front block exactly when it is not too late, the request arrives and
      the registry takes it; it finalizes it exactly when the answer arrives and the execution client
      confirms too; and it takes its marker exactly when the file can be written as well. */
  lemma SettleAttemptExactly(env: Env, s: State, a: Attempt)
    requires Conserved(s) && s.phase.Settling?
    ensures var s1 := FlushStep(env, s, a);
      var front, blob := s.batch[0], s.phase.blob;
      var settles := !s.shuttingDown && a.net != RequestLost && Settle(s.world.registry, front, blob).Some?;
      var finalizes := settles && a.net == Delivered && a.finalized;
      && Journal(s1) == Journal(s) + (if settles then [Commit(front, blob)] else []) +
                        (if finalizes then [Done(front)] else []) +
                        (if finalizes && a.cleared then [Clear(front.header.height)] else [])
      && s1.finalized == s.finalized + (if finalizes then [front] else [])
      && (finalizes && |s.batch| > 1 ==>
            s1.batch == s.batch[1..] && s1.phase == s.phase && s1.batchBytes == s.batchBytes)
      && (finalizes && |s.batch| == 1 ==> s1.batch == [] && s1.batchBytes == 0 && s1.phase == Idle)
  {
    var settles := !s.shuttingDown && a.net != RequestLost && Settle(s.world.registry, s.batch[0], s.phase.blob).Some?;
    if settles && a.net == Delivered {
      ConfirmedSettle(env, s, a);
      FrontWrites(env, Write(env, s, Commit(s.batch[0], s.phase.blob)), s.phase.last, a);
    } else {
      UnconfirmedSettle(env, s, a);
    }
    assert Journal(s) + [] == Journal(s) && s.finalized + [] == s.finalized;
  }

  lemma UnconfirmedSettle(env: Env, s: State, a: Attempt)
    requires Conserved(s) && s.phase.Settling?
    requires a.net != Delivered || s.shuttingDown || Settle(s.world.registry, s.batch[0], s.phase.blob) == None
    ensures var s1 := FlushStep(env, s, a);
      var settles := !s.shuttingDown && a.net != RequestLost &&
                     Settle(s.world.registry, s.batch[0], s.phase.blob).Some?;
      && Journal(s1) == (if settles then Journal(s) + [Commit(s.batch[0], s.phase.blob)] else Journal(s))
      && s1.finalized == s.finalized
  {
  }

  lemma ConfirmedSettle(env: Env, s: State, a: Attempt)
    requires Conserved(s) && s.phase.Settling? && !s.shuttingDown && a.net == Delivered
    requires Settle(s.world.registry, s.batch[0], s.phase.blob).Some?
    ensures var s1 := Write(env, s, Commit(s.batch[0], s.phase.blob));
      && FlushStep(env, s, a) == FinalizeFront(env, s1, s.phase.last, a)
      && Journal(s1) == Journal(s) + [Commit(s.batch[0], s.phase.blob)]
      && s1.finalized == s.finalized && s1.batch == s.batch && s1.phase == s.phase && s1.batchBytes == s.batchBytes
  {
  }

  lemma FrontWrites(env: Env, s: State, last: bool, a: Attempt)
    requires s.batch != [] && |s.arrived| == |s.batch|
    ensures var s1 := FinalizeFront(env, s, last, a);
      && Journal(s1) == Journal(s) + (if a.finalized then [Done(s.batch[0])] else []) +
                        (if a.finalized && a.cleared then [Clear(s.batch[0].header.height)] else [])
      && s1.finalized == s.finalized + (if a.finalized then [s.batch[0]] else [])
      && (a.finalized && |s.batch| > 1 ==>
            s1.batch == s.batch[1..] && s1.phase == s.phase && s1.batchBytes == s.batchBytes)
      && (a.finalized && |s.batch| == 1 ==> s1.batch == [] && s1.batchBytes == 0 && s1.phase == Idle)
  {
  }

  /** An attempt that does not finalize keeps trying, or ends the flush: put back after a settle whose
      finalization fails, left for later when shutdown is seen before the blob is there, and handed to
      local finalization when it is seen after, or when the channel has closed. */
  lemma UnfinishedAttempt(env: Env, s: State, a: Attempt)
    requires Conserved(s) && s.phase != Idle && FlushStep(env, s, a).finalized == s.finalized
    ensures var s1 := FlushStep(env, s, a);
      var refused := s.phase.Settling? && Settle(s.world.registry, s.batch[0], s.phase.blob) == None;
      var ends := s.shuttingDown || (s.phase.Settling? && a.net == Delivered && !refused);
      && (s1.phase == Idle <==> ends)
      && (!ends ==> s1.batch == s.batch && s1.local == s.local)
      && (ends && !s.phase.last && !(s.phase.Settling? && s.shuttingDown) ==>
            s1.batch == s.batch && s1.local == s.local && s1.timer == s.timer && s1.batchBytes == s.batchBytes)
      && (ends && (s.phase.last || (s.phase.Settling? && s.shuttingDown)) ==>
            s1.batch == [] && s1.local == s.local + s.batch)
      && (s.phase.Settling? && s.shuttingDown ==> s1.batchBytes == 0)
      && (s1.stopped <==> s.stopped || (ends && s.phase.last))
  {
  }

  /** Shutdown hands what is buffered to local finalization and stops, and so does the end of the channel
      with nothing left to flush. */
  lemma StopsExactly(env: Env, s: State)
    requires Conserved(s) && s.phase == Idle && !s.stopped
    ensures var s1 := Step(env, s, ShutdownSeen);
      && (s1.stopped <==> s.shuttingDown && s.batch != [])
      && (s1.stopped ==> s1.local == s.local + s.batch && s1.batch == [] && s1.timer == None)
      && (!s1.stopped ==> s1 == s)
    ensures var s1 := Step(env, s, ChannelClosed);
      && (s1.stopped <==> s.channel == [] && s.batch == [])
      && (s1.phase == Publishing(true) <==> s.channel == [] && s.batch != [])
      && (s.channel != [] ==> s1 == s) && (s.channel == [] ==> s1.timer == None)
  {
  }

  /** A stopped or a flushing finalizer takes no block and starts no flush. */
  lemma BusyOrStopped(env: Env, s: State, now: nat)
    requires |s.arrived| == |s.batch| && (s.stopped || s.phase != Idle)
    ensures Step(env, s, Receive(now)) == Step(env, s, TimerFires(now)) == Step(env, s, ChannelClosed) == s
    ensures Step(env, s, ShutdownSeen) == s
  {
  }

  predicate Found(env: Env, d: Durable, h: nat) {
    h in d.stored && env.decodable(d.stored[h].data)
  }

  /** Recovery of any store, torn or not, re-queues the blocks it finds and drops the markers of the
      others and of nothing else. */
  lemma {:induction false} RecoveryExactly(env: Env, d: Durable, heights: seq<nat>)
    ensures var (queue, ops) := Recovery(env, d, heights);
      && (forall b :: b in queue <==> exists h :: h in heights && Found(env, d, h) && d.stored[h] == b)
      && (forall op :: op in ops <==> op.Clear? && op.height in heights && !Found(env, d, op.height))
      && |queue| + |ops| == |heights|
  {
    if heights != [] {
      RecoveryExactly(env, d, heights[1..]);
      var (queue, ops) := Recovery(env, d, heights);
      var (queue1, ops1) := Recovery(env, d, heights[1..]);
      assert forall h :: h in heights <==> h == heights[0] || h in heights[1..];
      if Found(env, d, heights[0]) {
        assert forall b :: b in queue <==> b == d.stored[heights[0]] || b in queue1;
      } else {
        assert forall op :: op in ops <==> op == Clear(heights[0]) || op in ops1;
      }
    }
  }
}
