/** The full node's fork choice: optimistic p2p blocks and settled DA blocks drive one engine. */
module FullNode {
  import opened Wrappers
  import opened ExecutionEngine
  import Deadline

  type BlobId = nat

  /** A block as the node handles it: the header height, the payload its data decodes to, and
      whether its signature is the sequencer's. Header and payload are independent values. */
  datatype Block = Block(height: nat, payload: Option<Payload>, signed: bool)

  /** The `state.json` record. */
  datatype Saved = Saved(head: Hash, safe: Hash, finalized: Hash, height: nat)

  datatype Node = Node(
    engine: Engine, head: Hash, headHeight: nat, safe: Hash, finalized: Hash, synced: nat,
    disk: Option<Saved>)

  /** The settlement registry and the blobs behind it. */
  datatype Da = Da(commitments: map<nat, BlobId>, blobs: map<BlobId, seq<Block>>)

  /** How the remote calls made for one height turn out. */
  datatype Io = Io(
    commitment: bool, fetch: bool, query: bool,
    newPayload: Net, advanceHead: Net, skipHead: bool, finalize: Net, skipFinalize: bool,
    save: bool)

  type Reading = Result<Deadline.Status, Deadline.MonitorError>

  /** What one tick of the loop meets. */
  datatype Input = Input(
    reading: Option<Reading>, latest: Option<nat>, io: nat -> Io,
    announce: Option<(nat, Option<Block>)>, p2pIo: Io)

  datatype Event = Tick(input: Input) | Learn(payload: Payload) | Restart

  // ---------- what each operation does ----------

  /** A confirmed halt pauses the node; a failed or unconfirmed reading never does. */
  predicate Pauses(r: Reading) {
    r.Ok? && Deadline.IsHalted(r.value)
  }

  function Forkchoice(w: World, n: Node, net: Net, skip: bool): (Node, bool) {
    if net == RequestLost then (n, false)
    else
      var (e, status) := ForkchoiceUpdated(w, n.engine, n.head, n.safe, n.finalized, skip);
      (n.(engine := e), net == Delivered && status != InvalidForkchoice)
  }

  function ApplyBlock(w: World, n: Node, b: Block, io: Io): (Node, bool) {
    if b.payload == None || io.newPayload == RequestLost then (n, false)
    else
      var p := b.payload.value;
      var n1 := n.(engine := NewPayload(w, n.engine, p));
      if io.newPayload == ReplyLost then (n1, false)
      else Forkchoice(w, n1.(head := p.hash, headHeight := b.height), io.advanceHead, io.skipHead)
  }

  function MarkFinalized(w: World, n: Node, b: Block, io: Io): (Node, bool) {
    if b.payload == None then (n, false)
    else
      var hash := b.payload.value.hash;
      var (n1, ok) := Forkchoice(w, n.(safe := hash, finalized := hash, synced := b.height),
                                 io.finalize, io.skipFinalize);
      if ok && io.save then (n1.(disk := Some(Saved(n1.head, n1.safe, n1.finalized, n1.synced))), true)
      else (n1, ok)
  }

  predicate AlreadyApplied(w: World, n: Node, b: Block)
    requires b.payload.Some?
  {
    b.height <= n.headHeight && BlockByNumber(w, n.engine, b.height) == Some(b.payload.value.hash)
  }

  function ApplyAndFinalize(w: World, n: Node, b: Block, io: Io): (Node, bool) {
    if b.payload == None || (b.height <= n.headHeight && !io.query) then (n, false)
    else if AlreadyApplied(w, n, b) then MarkFinalized(w, n, b, io)
    else
      var (n1, ok) := ApplyBlock(w, n, b, io);
      if ok then MarkFinalized(w, n1, b, io) else (n1, false)
  }

  /** The first block of the batch at `height`. */
  function Find(batch: seq<Block>, height: nat): (r: Option<Block>)
    ensures r.Some? ==> r.value in batch && r.value.height == height
    ensures r.None? ==> forall b :: b in batch ==> b.height != height
  {
    if batch == [] then None
    else if batch[0].height == height then Some(batch[0])
    else Find(batch[1..], height)
  }

  /** The block settled at `height`. */
  function Lookup(da: Da, height: nat): Option<Block> {
    if height in da.commitments && da.commitments[height] in da.blobs
    then Find(da.blobs[da.commitments[height]], height) else None
  }

  /** One height, looked up afresh. The fetch can fail only where the blob differs from the one the
      height before used (`held`). */
  function SyncHeight(w: World, da: Da, n: Node, height: nat, io: Io, held: Option<BlobId>): (r: (Node, bool))
    ensures r.1 ==> height in da.commitments
  {
    if !io.commitment || height !in da.commitments then (n, false)
    else if da.commitments[height] !in da.blobs || (held != Some(da.commitments[height]) && !io.fetch)
    then (n, false)
    else
      var found := Lookup(da, height);
      if found == None || !found.value.signed then (n, false)
      else ApplyAndFinalize(w, n, found.value, io)
  }

  /** Sync without a cache. */
  function SyncFrom(w: World, da: Da, n: Node, height: nat, latest: nat, io: nat -> Io, held: Option<BlobId>)
    : (Node, bool)
    decreases latest + 1 - height
  {
    if height > latest then (n, true)
    else
      var (n1, ok) := SyncHeight(w, da, n, height, io(height), held);
      if ok then SyncFrom(w, da, n1, height + 1, latest, io, Some(da.commitments[height])) else (n1, false)
  }

  function Sync(w: World, da: Da, n: Node, latest: Option<nat>, io: nat -> Io): (Node, bool) {
    if latest == None then (n, false)
    else if latest.value <= n.synced then (n, true)
    else SyncFrom(w, da, n, n.synced + 1, latest.value, io, None)
  }

  function PollP2p(w: World, n: Node, announce: Option<(nat, Option<Block>)>, io: Io): Node {
    match announce
    case None => n
    case Some((height, block)) =>
      if height <= n.synced || block == None || !block.value.signed then n
      else ApplyBlock(w, n, block.value, io).0
  }

  function Step(w: World, da: Da, n: Node, ev: Event): Node {
    match ev
    case Tick(input) =>
      if input.reading.Some? && Pauses(input.reading.value) then n
      else PollP2p(w, Sync(w, da, n, input.latest, input.io).0, input.announce, input.p2pIo)
    case Learn(p) => n.(engine := NewPayload(w, n.engine, p))
    case Restart => Boot(w, n.engine, n.disk)
  }

  /** A start: the persisted fork choice, or else the chain head the engine reports. */
  function Boot(w: World, e: Engine, disk: Option<Saved>): Node {
    match disk
    case Some(s) => Node(e, s.head, s.height, s.safe, s.finalized, s.height, disk)
    case None =>
      var height := w.payload(e.canonical).number;
      Node(e, e.canonical, height, e.canonical, e.canonical, height, disk)
  }

  function Run(w: World, da: Da, n: Node, evs: seq<Event>): Node
    decreases |evs|
  {
    if evs == [] then n else Run(w, da, Step(w, da, n, evs[0]), evs[1..])
  }

  // ---------- the settled chain and the invariant ----------

  /** `settled[h]` is the block settled at height `h`: a parent-linked chain of valid blocks from
      the genesis block, and the block the registry leads to at every height it has settled. */
  ghost predicate SettledChain(w: World, da: Da, settled: seq<Hash>) {
    && settled != []
    && (forall h :: 0 <= h < |settled| ==>
          w.payload(settled[h]).number == h && w.payload(settled[h]).hash == settled[h] != ZERO_HASH)
    && (forall h :: 0 < h < |settled| ==>
          w.payload(settled[h]).parent == settled[h - 1] && w.valid(settled[h]))
    && forall h: nat :: 0 < h && h in da.commitments && Lookup(da, h).Some? ==>
          h < |settled| && (Lookup(da, h).value.signed ==> Lookup(da, h).value.payload == Some(w.payload(settled[h])))
  }

  /** The engine serves the settled chain up to height `n`. */
  ghost predicate Serves(w: World, e: Engine, settled: seq<Hash>, n: nat) {
    n < |settled| && forall m: nat :: m <= n ==> BlockByNumber(w, e, m) == Some(settled[m])
  }

  ghost predicate Inv(w: World, settled: seq<Hash>, n: Node) {
    && Rooted(w, n.engine)
    && Serves(w, n.engine, settled, n.synced)
    && n.finalized == n.safe == settled[n.synced]
    && (n.disk.Some? ==>
          && n.disk.value.height <= n.synced
          && n.disk.value.finalized == n.disk.value.safe == settled[n.disk.value.height])
  }

  /** Without a readable `state.json` the node trusts the head it finds, so that head must be settled. */
  ghost predicate HeadIsSettled(w: World, settled: seq<Hash>, e: Engine) {
    var height := w.payload(e.canonical).number;
    height < |settled| && e.canonical == settled[height]
  }

  ghost predicate LegalRun(w: World, da: Da, settled: seq<Hash>, n: Node, evs: seq<Event>)
    decreases |evs|
  {
    evs == [] ||
    (&& (evs[0].Restart? && n.disk == None ==> HeadIsSettled(w, settled, n.engine))
     && LegalRun(w, da, settled, Step(w, da, n, evs[0]), evs[1..]))
  }

  // ---------- preservation ----------

  lemma {:induction false} SettledAncestors(w: World, da: Da, settled: seq<Hash>, h: nat, m: nat)
    requires SettledChain(w, da, settled) && m <= h < |settled|
    ensures AncestorAt(w, settled[h], m) == Some(settled[m])
  {
    if m < h {
      SettledAncestors(w, da, settled, h - 1, m);
    }
  }

  /** A chain that carries the settled block at `n` carries the settled chain up to `n`. */
  lemma ServesBelow(w: World, da: Da, settled: seq<Hash>, e: Engine, n: nat)
    requires SettledChain(w, da, settled) && n < |settled|
    requires BlockByNumber(w, e, n) == Some(settled[n])
    ensures Serves(w, e, settled, n)
  {
    forall m: nat | m <= n ensures BlockByNumber(w, e, m) == Some(settled[m]) {
      AncestorsAgree(w, e.canonical, n, m);
      SettledAncestors(w, da, settled, n, m);
    }
  }

  /** No fork choice that carries the settled block as finalized can leave the settled chain. */
  lemma ForkchoiceKeepsInv(w: World, da: Da, settled: seq<Hash>, n: Node, net: Net, skip: bool)
    requires SettledChain(w, da, settled) && Inv(w, settled, n)
    ensures Inv(w, settled, Forkchoice(w, n, net, skip).0)
  {
    ServesBelow(w, da, settled, Forkchoice(w, n, net, skip).0.engine, n.synced);
  }

  /** Applying any block at all, p2p or settled, whatever fails on the way. */
  lemma ApplyKeepsInv(w: World, da: Da, settled: seq<Hash>, n: Node, b: Block, io: Io)
    requires SettledChain(w, da, settled) && Inv(w, settled, n)
    ensures Inv(w, settled, ApplyBlock(w, n, b, io).0)
    ensures ApplyBlock(w, n, b, io).0.synced == n.synced
  {
    if b.payload.Some? && io.newPayload == Delivered {
      var p := b.payload.value;
      var n1 := n.(engine := NewPayload(w, n.engine, p), head := p.hash, headHeight := b.height);
      assert Inv(w, settled, n1);
      ForkchoiceKeepsInv(w, da, settled, n1, io.advanceHead, io.skipHead);
    }
  }

  /** Applying the next settled block, when no call fails, puts it on the canonical chain. */
  lemma ApplyNextSettled(w: World, da: Da, settled: seq<Hash>, n: Node, b: Block, io: Io)
    requires SettledChain(w, da, settled) && Inv(w, settled, n)
    requires n.synced + 1 < |settled| && b.height == n.synced + 1
    requires b.payload == Some(w.payload(settled[b.height]))
    ensures io.newPayload == Delivered && io.advanceHead == Delivered ==> ApplyBlock(w, n, b, io).1
    ensures ApplyBlock(w, n, b, io).1 ==>
              && BlockByNumber(w, ApplyBlock(w, n, b, io).0.engine, b.height) == Some(settled[b.height])
              && ApplyBlock(w, n, b, io).0.head == settled[b.height]
              && settled[b.height] in ApplyBlock(w, n, b, io).0.engine.known
  {
    var p := b.payload.value;
    AncestorKnown(w, n.engine, n.engine.canonical, n.synced);
    assert Extends(w, n.engine.known, p);
    SettledAncestors(w, da, settled, b.height, n.synced);
    assert IsAncestor(w, settled[n.synced], p.hash);
  }

  lemma MarkKeepsInv(w: World, da: Da, settled: seq<Hash>, n: Node, b: Block, io: Io)
    requires SettledChain(w, da, settled) && Inv(w, settled, n)
    requires n.synced + 1 < |settled| && b.height == n.synced + 1
    requires b.payload == Some(w.payload(settled[b.height]))
    requires BlockByNumber(w, n.engine, b.height) == Some(settled[b.height])
    ensures Inv(w, settled, MarkFinalized(w, n, b, io).0)
    ensures MarkFinalized(w, n, b, io).0.synced == b.height
  {
    ServesBelow(w, da, settled, n.engine, b.height);
    var hash := settled[b.height];
    var n1 := n.(safe := hash, finalized := hash, synced := b.height);
    ForkchoiceKeepsInv(w, da, settled, n1, io.finalize, io.skipFinalize);
  }

  lemma FinalizeKeepsInv(w: World, da: Da, settled: seq<Hash>, n: Node, b: Block, io: Io)
    requires SettledChain(w, da, settled) && Inv(w, settled, n)
    requires n.synced + 1 < |settled| && b.height == n.synced + 1
    requires b.payload == Some(w.payload(settled[b.height]))
    ensures Inv(w, settled, ApplyAndFinalize(w, n, b, io).0)
    ensures ApplyAndFinalize(w, n, b, io).1 ==> ApplyAndFinalize(w, n, b, io).0.synced == b.height
    ensures ApplyAndFinalize(w, n, b, io).0.synced in {n.synced, b.height}
  {
    if b.height <= n.headHeight && !io.query {
    } else if AlreadyApplied(w, n, b) {
      MarkKeepsInv(w, da, settled, n, b, io);
    } else {
      ApplyKeepsInv(w, da, settled, n, b, io);
      ApplyNextSettled(w, da, settled, n, b, io);
      var (n1, ok) := ApplyBlock(w, n, b, io);
      if ok {
        MarkKeepsInv(w, da, settled, n1, b, io);
      }
    }
  }

  lemma SyncHeightKeepsInv(w: World, da: Da, settled: seq<Hash>, n: Node, height: nat, io: Io, held: Option<BlobId>)
    requires SettledChain(w, da, settled) && Inv(w, settled, n) && height == n.synced + 1
    ensures Inv(w, settled, SyncHeight(w, da, n, height, io, held).0)
    ensures SyncHeight(w, da, n, height, io, held).1 ==> SyncHeight(w, da, n, height, io, held).0.synced == height
    ensures SyncHeight(w, da, n, height, io, held).0.synced in {n.synced, height}
  {
    var found := Lookup(da, height);
    if found.Some? && found.value.signed {
      FinalizeKeepsInv(w, da, settled, n, found.value, io);
    }
  }

  lemma {:induction false} SyncKeepsInv(w: World, da: Da, settled: seq<Hash>, n: Node, height: nat, latest: nat,
                                        io: nat -> Io, held: Option<BlobId>)
    requires SettledChain(w, da, settled) && Inv(w, settled, n) && height == n.synced + 1
    ensures Inv(w, settled, SyncFrom(w, da, n, height, latest, io, held).0)
    ensures n.synced <= SyncFrom(w, da, n, height, latest, io, held).0.synced <= Max(n.synced, latest)
    ensures SyncFrom(w, da, n, height, latest, io, held).1 ==>
              SyncFrom(w, da, n, height, latest, io, held).0.synced == Max(n.synced, latest)
    decreases latest + 1 - height
  {
    if height <= latest {
      SyncHeightKeepsInv(w, da, settled, n, height, io(height), held);
      var (n1, ok) := SyncHeight(w, da, n, height, io(height), held);
      if ok {
        SyncKeepsInv(w, da, settled, n1, height + 1, latest, io, Some(da.commitments[height]));
      }
    }
  }

  lemma PassKeepsInv(w: World, da: Da, settled: seq<Hash>, n: Node, latest: Option<nat>, io: nat -> Io)
    requires SettledChain(w, da, settled) && Inv(w, settled, n)
    ensures Inv(w, settled, Sync(w, da, n, latest, io).0)
    ensures n.synced <= Sync(w, da, n, latest, io).0.synced
    ensures latest.Some? ==> Sync(w, da, n, latest, io).0.synced <= Max(n.synced, latest.value)
  {
    match latest
    case None =>
    case Some(top) =>
      if n.synced < top {
        SyncStarts(w, da, n, top, io);
        SyncKeepsInv(w, da, settled, n, n.synced + 1, top, io, None);
      }
  }

  lemma SyncStarts(w: World, da: Da, n: Node, latest: nat, io: nat -> Io)
    requires n.synced < latest
    ensures Sync(w, da, n, Some(latest), io) == SyncFrom(w, da, n, n.synced + 1, latest, io, None)
  {
  }

  lemma PollKeepsInv(w: World, da: Da, settled: seq<Hash>, n: Node, announce: Option<(nat, Option<Block>)>, io: Io)
    requires SettledChain(w, da, settled) && Inv(w, settled, n)
    ensures Inv(w, settled, PollP2p(w, n, announce, io)) && PollP2p(w, n, announce, io).synced == n.synced
  {
    if announce.Some? && announce.value.1.Some? {
      ApplyKeepsInv(w, da, settled, n, announce.value.1.value, io);
    }
  }

  lemma StepKeepsInv(w: World, da: Da, settled: seq<Hash>, n: Node, ev: Event)
    requires SettledChain(w, da, settled) && Inv(w, settled, n)
    requires ev.Restart? && n.disk == None ==> HeadIsSettled(w, settled, n.engine)
    ensures Inv(w, settled, Step(w, da, n, ev))
    ensures !ev.Restart? ==> n.synced <= Step(w, da, n, ev).synced
  {
    match ev
    case Tick(input) =>
      PassKeepsInv(w, da, settled, n, input.latest, input.io);
      PollKeepsInv(w, da, settled, Sync(w, da, n, input.latest, input.io).0, input.announce, input.p2pIo);
    case Learn(p) =>
    case Restart =>
      BootIsSound(w, da, settled, n.engine, n.disk);
  }

  /** A start re-establishes the invariant exactly when it has a persisted fork choice or the head
      it discovers is settled: a discovered optimistic head is taken for settled. */
  lemma BootIsSound(w: World, da: Da, settled: seq<Hash>, e: Engine, disk: Option<Saved>)
    requires SettledChain(w, da, settled) && Rooted(w, e)
    requires disk.Some? ==>
               && Serves(w, e, settled, disk.value.height)
               && disk.value.finalized == disk.value.safe == settled[disk.value.height]
    ensures Inv(w, settled, Boot(w, e, disk)) <==> disk.Some? || HeadIsSettled(w, settled, e)
  {
    if disk == None && HeadIsSettled(w, settled, e) {
      ServesBelow(w, da, settled, e, w.payload(e.canonical).number);
    }
  }

  // ---------- the theorems ----------

  /** In every run of p2p blocks of any kind, sync passes, lost calls and lost answers, engine-side
      progress and restarts, the engine's chain is the settled chain up to `synced`, and `finalized`
      is the settled block there. */
  lemma {:induction false} SettledPrefixSurvives(w: World, da: Da, settled: seq<Hash>, n: Node, evs: seq<Event>)
    requires SettledChain(w, da, settled) && Inv(w, settled, n) && LegalRun(w, da, settled, n, evs)
    ensures var end := Run(w, da, n, evs);
      && Inv(w, settled, end)
      && end.synced < |settled| && end.finalized == settled[end.synced]
      && forall m: nat :: m <= end.synced ==> BlockByNumber(w, end.engine, m) == Some(settled[m])
    decreases |evs|
  {
    if evs != [] {
      StepKeepsInv(w, da, settled, n, evs[0]);
      SettledPrefixSurvives(w, da, settled, Step(w, da, n, evs[0]), evs[1..]);
    }
  }

  /** A settled height the registry serves with a signed block. */
  predicate Available(da: Da, height: nat) {
    Lookup(da, height).Some? && Lookup(da, height).value.signed
  }

  predicate Flawless(io: Io) {
    io.commitment && io.fetch && io.query && io.newPayload == Delivered && io.advanceHead == Delivered &&
    io.finalize == Delivered
  }

  lemma FlawlessHeightSettles(w: World, da: Da, settled: seq<Hash>, n: Node, io: Io, held: Option<BlobId>)
    requires SettledChain(w, da, settled) && Inv(w, settled, n)
    requires Available(da, n.synced + 1) && Flawless(io)
    ensures SyncHeight(w, da, n, n.synced + 1, io, held).0.synced == n.synced + 1
  {
    var b := Lookup(da, n.synced + 1).value;
    if !AlreadyApplied(w, n, b) {
      ApplyKeepsInv(w, da, settled, n, b, io);
      ApplyNextSettled(w, da, settled, n, b, io);
    }
  }

  /** Whatever optimistic head a node is stuck on, one pass in which no call fails moves it. The pass
      itself may still report an error: a head off the settled chain is refused while finalizing. */
  lemma FlawlessPassProgresses(w: World, da: Da, settled: seq<Hash>, n: Node, latest: nat, io: nat -> Io)
    requires SettledChain(w, da, settled) && Inv(w, settled, n)
    requires n.synced < latest && Available(da, n.synced + 1) && Flawless(io(n.synced + 1))
    ensures n.synced < Sync(w, da, n, Some(latest), io).0.synced
  {
    var height := n.synced + 1;
    FlawlessHeightSettles(w, da, settled, n, io(height), None);
    SyncHeightKeepsInv(w, da, settled, n, height, io(height), None);
    var (n1, ok) := SyncHeight(w, da, n, height, io(height), None);
    if ok {
      SyncKeepsInv(w, da, settled, n1, height + 1, latest, io, Some(da.commitments[height]));
    }
  }

  function Iterate<T>(f: T -> T, x: T, count: nat): T
    decreases count
  {
    if count == 0 then x else Iterate(f, f(x), count - 1)
  }

  ghost predicate Gains<T>(f: T -> T, inv: T -> bool, level: T -> nat, top: nat, x: T) {
    inv(f(x)) && level(x) <= level(f(x)) <= top && (level(x) < top ==> level(x) < level(f(x)))
  }

  /** What gains a level while it is below `top`, and keeps what makes it so, gets there. */
  lemma {:induction false} IterationReaches<T(!new)>(f: T -> T, inv: T -> bool, level: T -> nat, top: nat, x: T,
                                                     count: nat)
    requires inv(x) && level(x) <= top && top - level(x) <= count
    requires forall y :: inv(y) && level(y) <= top ==> Gains(f, inv, level, top, y)
    ensures inv(Iterate(f, x, count)) && level(Iterate(f, x, count)) == top
    decreases count
  {
    if count > 0 {
      assert Gains(f, inv, level, top, x);
      IterationReaches(f, inv, level, top, f(x), count - 1);
    }
  }

  lemma FlawlessPass(w: World, da: Da, settled: seq<Hash>, n: Node, latest: nat, io: nat -> Io)
    requires SettledChain(w, da, settled) && Inv(w, settled, n) && n.synced <= latest
    requires n.synced < latest ==> Available(da, n.synced + 1) && Flawless(io(n.synced + 1))
    ensures Inv(w, settled, Sync(w, da, n, Some(latest), io).0)
    ensures n.synced <= Sync(w, da, n, Some(latest), io).0.synced <= latest
    ensures n.synced < latest ==> n.synced < Sync(w, da, n, Some(latest), io).0.synced
  {
    PassKeepsInv(w, da, settled, n, Some(latest), io);
    if n.synced < latest {
      FlawlessPassProgresses(w, da, settled, n, latest, io);
    }
  }

  function Passes(w: World, da: Da, n: Node, latest: nat, io: nat -> Io, count: nat): Node {
    Iterate((m: Node) => Sync(w, da, m, Some(latest), io).0, n, count)
  }

  /** So as many passes as there are heights left reach the settled tip from any reachable state. */
  lemma FlawlessPassesCatchUp(w: World, da: Da, settled: seq<Hash>, n: Node, latest: nat, io: nat -> Io, count: nat)
    requires SettledChain(w, da, settled) && Inv(w, settled, n)
    requires n.synced <= latest && latest - n.synced <= count
    requires forall h: nat :: n.synced < h <= latest ==> Available(da, h) && Flawless(io(h))
    ensures Inv(w, settled, Passes(w, da, n, latest, io, count))
    ensures Passes(w, da, n, latest, io, count).synced == latest
  {
    var pass := (m: Node) => Sync(w, da, m, Some(latest), io).0;
    var inv := (m: Node) => Inv(w, settled, m) && n.synced <= m.synced;
    var level := (m: Node) => m.synced;
    forall m: Node | inv(m) && level(m) <= latest ensures Gains(pass, inv, level, latest, m) {
      FlawlessPass(w, da, settled, m, latest, io);
    }
    IterationReaches(pass, inv, level, latest, n, count);
  }

  /** Without a state file a node that restarts after an announced block has finalized it. */
  lemma AnnounceThenRestart(w: World, da: Da, n: Node, input: Input, height: nat, b: Block)
    requires Unpaused(input) && Idle(n, input) && n.disk == None
    requires input.announce == Some((height, Some(b))) && n.synced < height
    requires Good(w, n, b) && Reaches(input.p2pIo)
    ensures var end := Run(w, da, n, [Tick(input), Restart]);
      && end.head == end.safe == end.finalized == b.payload.value.hash
      && end.headHeight == end.synced == w.payload(b.payload.value.hash).number
  {
    AnnouncedBecomesHead(w, da, n, input, height, b);
    var n1 := OnTop(n, b);
    assert [Tick(input), Restart][1..] == [Restart] && [Restart][1..] == [];
    assert Run(w, da, n1, [Restart]) == Step(w, da, n1, Restart);
  }

  /** Two blocks, 2 and 3, on the genesis block 1. */
  const FORK: World := World(
    (h: Hash) => if h == 2 then Payload(2, 1, 1) else if h == 3 then Payload(3, 1, 1) else Payload(h, 0, 0),
    (h: Hash) => true)

  const AT_GENESIS: Node := Node(Engine({1}, 1), 1, 0, 1, 1, 0, None)

  lemma ForkIsSound()
    ensures SettledChain(FORK, Da(map[], map[]), [1, 2]) && Inv(FORK, [1, 2], AT_GENESIS)
  {
    assert Serves(FORK, AT_GENESIS.engine, [1, 2], 0);
  }

  lemma OtherBlockIsGood()
    ensures Good(FORK, AT_GENESIS, Block(1, Some(Payload(3, 1, 1)), true))
  {
    assert AncestorAt(FORK, 3, 0) == AncestorAt(FORK, 1, 0) == Some(1);
  }

  /** A first start on an engine that already carries an optimistic block: lost state makes the node
      finalize a block that is not the settled one, and later passes see nothing left to sync. */
  lemma LostStateTrustsOptimisticHead()
    ensures exists w: World, da: Da, settled: seq<Hash>, n: Node, evs: seq<Event> ::
              && |settled| == 2
              && SettledChain(w, da, settled) && Inv(w, settled, n)
              && Run(w, da, n, evs).synced == 1 && Run(w, da, n, evs).finalized != settled[1]
  {
    var da, settled := Da(map[], map[]), [1, 2];
    var io := Io(true, true, true, Delivered, Delivered, false, Delivered, false, true);
    var b := Block(1, Some(Payload(3, 1, 1)), true);
    var input := Input(None, None, (h: nat) => io, Some((1, Some(b))), io);
    ForkIsSound();
    OtherBlockIsGood();
    AnnounceThenRestart(FORK, da, AT_GENESIS, input, 1, b);
    var end := Run(FORK, da, AT_GENESIS, [Tick(input), Restart]);
    assert end.synced == 1 && end.finalized == 3;
  }

  /** For a node synced to the settled tip the loss of its state file is harmless exactly when the
      engine's head is no higher than what it had synced. */
  lemma LossAtTipIsSound(w: World, da: Da, settled: seq<Hash>, n: Node)
    requires SettledChain(w, da, settled) && Inv(w, settled, n) && |settled| == n.synced + 1
    ensures Inv(w, settled, Boot(w, n.engine, None)) <==> w.payload(n.engine.canonical).number == n.synced
  {
    BootIsSound(w, da, settled, n.engine, None);
    AncestorHasHeight(w, n.engine.canonical, n.synced);
  }

  function BlobAt(da: Da, height: nat): Option<BlobId> {
    if height in da.commitments then Some(da.commitments[height]) else None
  }

  /** No call fails for the height; its blob is not fetched if it is the one held. */
  predicate Succeeds(da: Da, height: nat, io: Io, held: Option<BlobId>) {
    Available(da, height) && Flawless(io.(fetch := true)) && (io.fetch || held == BlobAt(da, height))
  }

  /** Nor for any height up to `latest`: a blob is fetched once for all the heights in a row that it holds. */
  ghost predicate AllSucceed(da: Da, first: nat, latest: nat, io: nat -> Io, held: Option<BlobId>) {
    forall h: nat :: first <= h <= latest ==>
      Succeeds(da, h, io(h), if h == first || h == 0 then held else BlobAt(da, h - 1))
  }

  lemma FlawlessHeightAnswers(w: World, da: Da, settled: seq<Hash>, n: Node, io: Io, held: Option<BlobId>)
    requires SettledChain(w, da, settled) && Inv(w, settled, n) && n.headHeight <= n.synced
    requires Succeeds(da, n.synced + 1, io, held)
    ensures var (n1, ok) := SyncHeight(w, da, n, n.synced + 1, io, held);
      ok && n1.headHeight == n1.synced == n.synced + 1 && n1.head == settled[n1.synced]
  {
    var b := Lookup(da, n.synced + 1).value;
    ApplyKeepsInv(w, da, settled, n, b, io);
    ApplyNextSettled(w, da, settled, n, b, io);
  }

  lemma {:induction false} FlawlessSyncReaches(w: World, da: Da, settled: seq<Hash>, n: Node, latest: nat,
                                               io: nat -> Io, held: Option<BlobId>, end: (Node, bool))
    requires SettledChain(w, da, settled) && Inv(w, settled, n)
    requires n.headHeight <= n.synced <= latest
    requires AllSucceed(da, n.synced + 1, latest, io, held)
    requires end == SyncFrom(w, da, n, n.synced + 1, latest, io, held)
    ensures end.1 && end.0.synced == latest
    ensures n.synced < latest ==> latest < |settled| && end.0.head == settled[latest]
    decreases latest - n.synced
  {
    if n.synced < latest {
      var height := n.synced + 1;
      FlawlessHeightAnswers(w, da, settled, n, io(height), held);
      SyncHeightKeepsInv(w, da, settled, n, height, io(height), held);
      var n1 := SyncHeight(w, da, n, height, io(height), held).0;
      assert AllSucceed(da, height + 1, latest, io, BlobAt(da, height));
      FlawlessSyncReaches(w, da, settled, n1, latest, io, BlobAt(da, height), end);
    }
  }

  /** A node that runs on settled blocks alone reaches the settled tip in one pass without failures,
      with each blob fetched once; with nothing to sync, or no answer from the registry, a pass changes
      nothing. */
  lemma OnePassReachesTip(w: World, da: Da, settled: seq<Hash>, n: Node, latest: Option<nat>, io: nat -> Io)
    requires SettledChain(w, da, settled) && Inv(w, settled, n) && n.headHeight <= n.synced
    requires latest.Some? ==> AllSucceed(da, n.synced + 1, latest.value, io, None)
    ensures var (n1, ok) := Sync(w, da, n, latest, io);
      match latest
      case None => (n1, ok) == (n, false)
      case Some(top) =>
        ok && (if top <= n.synced then n1 == n
               else n1.synced == top < |settled| && n1.head == n1.finalized == settled[top])
  {
    if latest.Some? && n.synced < latest.value {
      SyncStarts(w, da, n, latest.value, io);
      FlawlessSyncReaches(w, da, settled, n, latest.value, io, None, Sync(w, da, n, latest, io));
      PassKeepsInv(w, da, settled, n, latest, io);
    }
  }

  // ---------- only blocks that execute ----------

  predicate Genuine(w: World, h: Hash) {
    w.valid(h) || w.payload(h).number == 0
  }

  /** Every payload the engine has validated executes, but for blocks of height 0. */
  predicate Executes(w: World, e: Engine) {
    forall h :: h in e.known ==> Genuine(w, h)
  }

  lemma ApplyExecutes(w: World, n: Node, b: Block, io: Io)
    requires Executes(w, n.engine)
    ensures Executes(w, ApplyBlock(w, n, b, io).0.engine)
  {
  }

  lemma SyncHeightExecutes(w: World, da: Da, n: Node, height: nat, io: Io, held: Option<BlobId>)
    requires Executes(w, n.engine)
    ensures Executes(w, SyncHeight(w, da, n, height, io, held).0.engine)
  {
    if Lookup(da, height).Some? {
      ApplyExecutes(w, n, Lookup(da, height).value, io);
    }
  }

  lemma {:induction false} SyncExecutes(w: World, da: Da, n: Node, height: nat, latest: nat, io: nat -> Io,
                                        held: Option<BlobId>, end: Node)
    requires Executes(w, n.engine) && end == SyncFrom(w, da, n, height, latest, io, held).0
    ensures Executes(w, end.engine)
    decreases latest + 1 - height
  {
    if height <= latest {
      SyncHeightExecutes(w, da, n, height, io(height), held);
      var (n1, ok) := SyncHeight(w, da, n, height, io(height), held);
      if ok {
        SyncExecutes(w, da, n1, height + 1, latest, io, Some(da.commitments[height]), end);
      }
    }
  }

  lemma PassExecutes(w: World, da: Da, n: Node, latest: Option<nat>, io: nat -> Io)
    requires Executes(w, n.engine)
    ensures Executes(w, Sync(w, da, n, latest, io).0.engine)
  {
    if latest.Some? && n.synced < latest.value {
      SyncStarts(w, da, n, latest.value, io);
      SyncExecutes(w, da, n, n.synced + 1, latest.value, io, None, Sync(w, da, n, latest, io).0);
    }
  }

  lemma PollExecutes(w: World, n: Node, announce: Option<(nat, Option<Block>)>, io: Io)
    requires Executes(w, n.engine)
    ensures Executes(w, PollP2p(w, n, announce, io).engine)
  {
    if announce.Some? && announce.value.1.Some? {
      ApplyExecutes(w, n, announce.value.1.value, io);
    }
  }

  lemma StepExecutes(w: World, da: Da, n: Node, ev: Event)
    requires Executes(w, n.engine)
    ensures Executes(w, Step(w, da, n, ev).engine)
  {
    if ev.Tick? {
      PassExecutes(w, da, n, ev.input.latest, ev.input.io);
      PollExecutes(w, Sync(w, da, n, ev.input.latest, ev.input.io).0, ev.input.announce, ev.input.p2pIo);
    }
  }

  lemma {:induction false} RunExecutes(w: World, da: Da, n: Node, evs: seq<Event>)
    requires Executes(w, n.engine)
    ensures Executes(w, Run(w, da, n, evs).engine)
    decreases |evs|
  {
    if evs != [] {
      StepExecutes(w, da, n, evs[0]);
      RunExecutes(w, da, Step(w, da, n, evs[0]), evs[1..]);
    }
  }

  /** In every run, whatever blocks are announced, every block of the canonical chain above genesis
      executes, above the settled heights too. */
  lemma CanonicalExecutes(w: World, da: Da, settled: seq<Hash>, n: Node, evs: seq<Event>, m: nat)
    requires SettledChain(w, da, settled) && Inv(w, settled, n) && LegalRun(w, da, settled, n, evs)
    requires Executes(w, n.engine) && m > 0
    ensures var block := BlockByNumber(w, Run(w, da, n, evs).engine, m); block.Some? ==> w.valid(block.value)
  {
    SettledPrefixSurvives(w, da, settled, n, evs);
    RunExecutes(w, da, n, evs);
    var e := Run(w, da, n, evs).engine;
    if BlockByNumber(w, e, m).Some? {
      AncestorKnown(w, e, e.canonical, m);
      AncestorHasHeight(w, e.canonical, m);
    }
  }

  // ---------- what each call, and each tick, amounts to ----------

  /** The finalized and the safe block are on the chain of the head, or still the stub. */
  predicate Anchored(w: World, n: Node) {
    && (n.finalized == ZERO_HASH || IsAncestor(w, n.finalized, n.head))
    && (n.safe == ZERO_HASH || IsAncestor(w, n.safe, n.head))
  }

  /** A fork choice that reaches the engine makes a known, anchored head canonical, unless the engine
      skips an ancestor of its own head, and changes nothing else. It is answered well exactly when the
      answer arrives and does not refuse the anchors of a known head. */
  lemma ForkchoiceExactly(w: World, n: Node, net: Net, skip: bool)
    ensures var (n1, ok) := Forkchoice(w, n, net, skip);
      var moves := net != RequestLost && n.head in n.engine.known && Anchored(w, n);
      && n1 == n.(engine := n1.engine) && n1.engine.known == n.engine.known
      && n1.engine.canonical ==
         (if moves && !(skip && IsAncestor(w, n.head, n.engine.canonical)) then n.head else n.engine.canonical)
      && (ok <==> net == Delivered && (n.head in n.engine.known ==> Anchored(w, n)))
  {
  }

  /** A block that does not decode, or whose submission gets no answer, leaves the node as it was, but
      that the engine may know the payload. */
  lemma UnansweredApply(w: World, n: Node, b: Block, io: Io)
    requires b.payload == None || io.newPayload != Delivered
    ensures var (n1, ok) := ApplyBlock(w, n, b, io);
      && !ok && n1 == n.(engine := n1.engine)
      && n1.engine == if b.payload.Some? && io.newPayload == ReplyLost then NewPayload(w, n.engine, b.payload.value)
                      else n.engine
  {
  }

  /** A block whose payload extends a validated one and descends from what is finalized. */
  predicate Good(w: World, n: Node, b: Block) {
    && b.payload.Some? && b.signed && Extends(w, n.engine.known, b.payload.value)
    && (n.finalized == ZERO_HASH || IsAncestor(w, n.finalized, b.payload.value.hash))
    && (n.safe == ZERO_HASH || IsAncestor(w, n.safe, b.payload.value.hash))
  }

  predicate Reaches(io: Io) {
    io.newPayload == Delivered && io.advanceHead == Delivered && !io.skipHead
  }

  /** The node with `b` on top, and nothing else moved. */
  function OnTop(n: Node, b: Block): Node
    requires b.payload.Some?
  {
    var hash := b.payload.value.hash;
    n.(engine := Engine(n.engine.known + {hash}, hash), head := hash, headHeight := b.height)
  }

  predicate Unpaused(input: Input) {
    input.reading.Some? ==> input.reading.value.Ok? ==> input.reading.value.value.Active?
  }

  /** Nothing to sync, or the registry cannot be read. */
  predicate Idle(n: Node, input: Input) {
    input.latest.Some? ==> input.latest.value <= n.synced
  }

  /** An announced good block above the synced height, however far above, becomes the canonical head. */
  lemma AnnouncedBecomesHead(w: World, da: Da, n: Node, input: Input, height: nat, b: Block)
    requires Unpaused(input) && Idle(n, input)
    requires input.announce == Some((height, Some(b))) && n.synced < height
    requires Good(w, n, b) && Reaches(input.p2pIo)
    ensures Step(w, da, n, Tick(input)) == OnTop(n, b)
  {
  }

  /** A stale, missing or unsigned one leaves the node as it was. */
  lemma BadAnnounceChangesNothing(w: World, da: Da, n: Node, input: Input)
    requires Idle(n, input)
    requires input.announce.Some? ==>
               || input.announce.value.0 <= n.synced || input.announce.value.1 == None
               || !input.announce.value.1.value.signed
    ensures Step(w, da, n, Tick(input)) == n
  {
  }

  /** A confirmed halt stops a tick before it does anything; no failed or unconfirmed reading does. */
  lemma HaltedTickChangesNothing(w: World, da: Da, n: Node, input: Input, c: Deadline.Chain, marginMs: nat)
    requires input.reading.Some? && input.reading.value.Ok? && Deadline.Reports(input.reading.value.value, c, marginMs)
    ensures (exists k :: Deadline.Overdue(c, marginMs, k)) ==> Step(w, da, n, Tick(input)) == n
    ensures !(exists k :: Deadline.Overdue(c, marginMs, k)) ==>
              Step(w, da, n, Tick(input)) == Step(w, da, n, Tick(input.(reading := None)))
  {
  }

  lemma FailedReadingPausesNothing(w: World, da: Da, n: Node, input: Input)
    requires input.reading.Some? && input.reading.value.Err?
    ensures Step(w, da, n, Tick(input)) == Step(w, da, n, Tick(input.(reading := None)))
  {
  }

  /** Blocks that each extend the one before. */
  ghost predicate Linked(w: World, parent: Hash, blocks: seq<Block>)
    decreases |blocks|
  {
    blocks == [] ||
    (&& blocks[0].payload.Some? && blocks[0].signed
     && var p := blocks[0].payload.value;
     && w.payload(p.hash) == p && w.valid(p.hash) && p.parent == parent && w.payload(parent).number + 1 == p.number
     && Linked(w, p.hash, blocks[1..]))
  }

  function Announcements(blocks: seq<Block>, io: Io): seq<Event> {
    seq(|blocks|, i requires 0 <= i < |blocks| =>
          Tick(Input(None, None, (h: nat) => io, Some((blocks[i].height, Some(blocks[i]))), io)))
  }

  lemma AncestorOfNext(w: World, a: Hash, p: Payload)
    requires w.payload(p.hash) == p && w.payload(p.parent).number + 1 == p.number && IsAncestor(w, a, p.parent)
    ensures IsAncestor(w, a, p.hash)
  {
    AncestorHasHeight(w, p.parent, w.payload(a).number);
  }

  /** So a node follows announced blocks any number of heights ahead of settlement. */
  lemma {:induction false} RunsAhead(w: World, da: Da, n: Node, blocks: seq<Block>, io: Io)
    requires n.head in n.engine.known && Anchored(w, n) && Linked(w, n.head, blocks) && Reaches(io)
    requires forall b :: b in blocks ==> n.synced < b.height
    ensures var end := Run(w, da, n, Announcements(blocks, io));
      && end == n.(engine := end.engine, head := end.head, headHeight := end.headHeight)
      && (blocks != [] ==> var last := blocks[|blocks| - 1];
                           last.payload.Some? && end.head == end.engine.canonical == last.payload.value.hash &&
                           end.headHeight == last.height)
    decreases |blocks|
  {
    if blocks != [] {
      var b := blocks[0];
      var p := b.payload.value;
      var evs := Announcements(blocks, io);
      if n.finalized != ZERO_HASH { AncestorOfNext(w, n.finalized, p); }
      if n.safe != ZERO_HASH { AncestorOfNext(w, n.safe, p); }
      AnnouncedBecomesHead(w, da, n, evs[0].input, b.height, b);
      assert evs[1..] == Announcements(blocks[1..], io);
      RunsAhead(w, da, OnTop(n, b), blocks[1..], io);
    }
  }

  /** A block is finalized in the node at once; the file follows exactly when the engine's answer is good
      and the write succeeds, and a restart from it takes up where the node is. */
  lemma MarkSaves(w: World, n: Node, b: Block, io: Io)
    ensures b.payload == None ==> MarkFinalized(w, n, b, io) == (n, false)
    ensures b.payload.Some? ==>
      var (n1, ok) := MarkFinalized(w, n, b, io);
      && n1.safe == n1.finalized == b.payload.value.hash && n1.synced == b.height
      && n1.head == n.head && n1.headHeight == n.headHeight && n1.engine.known == n.engine.known
      && (ok && io.save ==> Boot(w, n1.engine, n1.disk) == n1.(headHeight := n1.synced))
      && (!(ok && io.save) ==> n1.disk == n.disk)
      && (ok <==> io.finalize == Delivered && (n.head in n.engine.known ==> Anchored(w, n1)))
  {
  }

  /** A start from a file that holds the fork choice goes on from it. */
  lemma BootResumes(w: World, n: Node)
    requires n.disk == Some(Saved(n.head, n.safe, n.finalized, n.synced))
    ensures Boot(w, n.engine, n.disk) == n.(headHeight := n.synced)
  {
  }

  /** What the engine fetches by itself it knows afterwards, if it validates. */
  lemma LearnedIsKnown(w: World, da: Da, n: Node, p: Payload)
    ensures var n1 := Step(w, da, n, Learn(p));
      && n1 == n.(engine := n1.engine) && n1.engine.canonical == n.engine.canonical
      && n1.engine.known == n.engine.known + if Extends(w, n.engine.known, p) then {p.hash} else {}
  {
  }

  /** A height that is not settled, cannot be read or fetched, is not in its blob, or is not signed by
      the sequencer stops the pass and leaves the node as it was. */
  lemma UnusableHeightChangesNothing(w: World, da: Da, n: Node, height: nat, io: Io, held: Option<BlobId>)
    requires || !io.commitment || height !in da.commitments || da.commitments[height] !in da.blobs
             || (held != Some(da.commitments[height]) && !io.fetch) || !Available(da, height)
    ensures SyncHeight(w, da, n, height, io, held) == (n, false)
  {
  }

  predicate Usable(da: Da, height: nat, io: Io, held: Option<BlobId>) {
    && io.commitment && height in da.commitments && da.commitments[height] in da.blobs
    && (held == Some(da.commitments[height]) || io.fetch) && Available(da, height)
    && Lookup(da, height).value.payload.Some?
  }

  /** A settled block the engine has at its height is finalized without being submitted again; any other
      is applied first, and finalized only if that succeeds. The blob of the height before is not fetched
      again. */
  lemma PresentBlockIsOnlyFinalized(w: World, da: Da, n: Node, height: nat, io: Io, held: Option<BlobId>)
    requires Usable(da, height, io, held) && (height <= n.headHeight ==> io.query)
    ensures var b := Lookup(da, height).value;
      var (n1, ok) := SyncHeight(w, da, n, height, io, held);
      if height <= n.headHeight && BlockByNumber(w, n.engine, height) == Some(b.payload.value.hash) then
        && n1.engine.known == n.engine.known && n1.head == n.head && n1.synced == height
        && (n1, ok) == MarkFinalized(w, n, b, io)
      else
        var (n2, applied) := ApplyBlock(w, n, b, io);
        if applied then (n1, ok) == MarkFinalized(w, n2, b, io) else (n1, ok) == (n2, false)
  {
  }

  // ---------- the node itself ----------

  class HaltGate {
    var last: Option<Deadline.Status>

    constructor ()
      ensures last == None
    {
      last := None;
    }

    method Update(read: Reading) returns (pause: bool)
      modifies this
      ensures pause <==> Pauses(read)
      ensures last == if Pauses(read) then Some(read.value) else if read.Ok? then None else old(last)
    {
      match read
      case Ok(status) =>
        if Deadline.IsHalted(status) {
          last := Some(status);
          return true;
        }
        last := None;
        return false;
      case Err(_) =>
        return false;
    }
  }

  /** The cache holds a blob of the registry's. */
  predicate CachedBlob(da: Da, cached: Option<(BlobId, seq<Block>)>) {
    cached.Some? ==> cached.value.0 in da.blobs && cached.value.1 == da.blobs[cached.value.0]
  }

  function HeldBy(cached: Option<(BlobId, seq<Block>)>): Option<BlobId> {
    if cached.Some? then Some(cached.value.0) else None
  }

  class FullNode {
    const w: World
    var engine: Engine
    var head: Hash
    var headHeight: nat
    var safe: Hash
    var finalized: Hash
    var synced: nat
    var disk: Option<Saved>
    const gate: HaltGate

    function State(): Node
      reads this
    {
      Node(engine, head, headHeight, safe, finalized, synced, disk)
    }

    constructor (w: World, e: Engine, disk: Option<Saved>)
      ensures this.w == w && State() == Boot(w, e, disk) && fresh(gate)
    {
      this.w := w;
      engine := e;
      this.disk := disk;
      match disk {
        case Some(s) =>
          head, headHeight, safe, finalized, synced := s.head, s.height, s.safe, s.finalized, s.height;
        case None =>
          head, safe, finalized := e.canonical, e.canonical, e.canonical;
          headHeight, synced := w.payload(e.canonical).number, w.payload(e.canonical).number;
      }
      gate := new HaltGate();
    }

    method SendForkchoice(net: Net, skip: bool) returns (ok: bool)
      modifies this
      ensures (State(), ok) == Forkchoice(w, old(State()), net, skip)
    {
      if net == RequestLost { return false; }
      var (e, status) := ForkchoiceUpdated(w, engine, head, safe, finalized, skip);
      engine := e;
      return net == Delivered && status != InvalidForkchoice;
    }

    method Apply(b: Block, io: Io) returns (ok: bool)
      modifies this
      ensures (State(), ok) == ApplyBlock(w, old(State()), b, io)
    {
      if b.payload == None || io.newPayload == RequestLost { return false; }
      var p := b.payload.value;
      engine := NewPayload(w, engine, p);
      if io.newPayload == ReplyLost { return false; }
      head := p.hash;
      headHeight := b.height;
      ok := SendForkchoice(io.advanceHead, io.skipHead);
    }

    method Mark(b: Block, io: Io) returns (ok: bool)
      modifies this
      ensures (State(), ok) == MarkFinalized(w, old(State()), b, io)
    {
      if b.payload == None { return false; }
      var hash := b.payload.value.hash;
      safe := hash;
      finalized := hash;
      synced := b.height;
      ok := SendForkchoice(io.finalize, io.skipFinalize);
      if ok && io.save {
        disk := Some(Saved(head, safe, finalized, synced));
      }
    }

    method ApplyAndMark(b: Block, io: Io) returns (ok: bool)
      modifies this
      ensures (State(), ok) == ApplyAndFinalize(w, old(State()), b, io)
    {
      if b.payload == None { return false; }
      var applied := false;
      if b.height <= headHeight {
        if !io.query { return false; }
        applied := BlockByNumber(w, engine, b.height) == Some(b.payload.value.hash);
      }
      if !applied {
        ok := Apply(b, io);
        if !ok { return; }
      }
      ok := Mark(b, io);
    }

    method SyncOne(da: Da, height: nat, io: Io, cached: Option<(BlobId, seq<Block>)>)
      returns (ok: bool, kept: Option<(BlobId, seq<Block>)>)
      requires CachedBlob(da, cached)
      modifies this
      ensures (State(), ok) == SyncHeight(w, da, old(State()), height, io, HeldBy(cached))
      ensures CachedBlob(da, kept)
      ensures ok ==> HeldBy(kept) == Some(da.commitments[height])
    {
      kept := cached;
      if !io.commitment || height !in da.commitments { return false, kept; }
      var id := da.commitments[height];
      if cached == None || cached.value.0 != id {
        if !io.fetch || id !in da.blobs { return false, kept; }
        kept := Some((id, da.blobs[id]));
      }
      var found := Find(kept.value.1, height);
      if found == None || !found.value.signed { return false, kept; }
      ok := ApplyAndMark(found.value, io);
    }

    method SyncNext(da: Da, height: nat, latest: nat, io: nat -> Io, cached: Option<(BlobId, seq<Block>)>)
      returns (ok: bool, kept: Option<(BlobId, seq<Block>)>)
      requires CachedBlob(da, cached) && height <= latest
      modifies this
      ensures CachedBlob(da, kept)
      ensures SyncFrom(w, da, old(State()), height, latest, io, HeldBy(cached)) ==
              if ok then SyncFrom(w, da, State(), height + 1, latest, io, HeldBy(kept)) else (State(), false)
    {
      ok, kept := SyncOne(da, height, io(height), cached);
    }

    method SyncHeights(da: Da, latest: nat, io: nat -> Io) returns (ok: bool)
      modifies this
      ensures (State(), ok) == SyncFrom(w, da, old(State()), old(synced) + 1, latest, io, None)
    {
      var cached: Option<(BlobId, seq<Block>)> := None;
      var height := synced + 1;
      ghost var result := SyncFrom(w, da, State(), height, latest, io, None);
      while height <= latest
        invariant CachedBlob(da, cached)
        invariant SyncFrom(w, da, State(), height, latest, io, HeldBy(cached)) == result
      {
        ok, cached := SyncNext(da, height, latest, io, cached);
        if !ok { return; }
        height := height + 1;
      }
      return true;
    }

    /** The sync pass with its blob cache does what looking every height up afresh does. */
    method SyncFromSettlement(da: Da, latest: Option<nat>, io: nat -> Io) returns (ok: bool)
      modifies this
      ensures (State(), ok) == Sync(w, da, old(State()), latest, io)
    {
      if latest == None { return false; }
      if latest.value <= synced { return true; }
      SyncStarts(w, da, State(), latest.value, io);
      ok := SyncHeights(da, latest.value, io);
    }

    method PollPeers(announce: Option<(nat, Option<Block>)>, io: Io)
      modifies this
      ensures State() == PollP2p(w, old(State()), announce, io)
    {
      if announce == None || announce.value.0 <= synced { return; }
      var block := announce.value.1;
      if block == None || !block.value.signed { return; }
      var _ := Apply(block.value, io);
    }

    /** One tick: a paused node touches nothing; otherwise a failed sync does not hold up p2p. */
    method OnTick(da: Da, input: Input)
      modifies this, gate
      ensures State() == Step(w, da, old(State()), Tick(input))
    {
      if input.reading.Some? {
        var pause := gate.Update(input.reading.value);
        if pause { return; }
      }
      var _ := SyncFromSettlement(da, input.latest, input.io);
      PollPeers(input.announce, input.p2pIo);
    }
  }
}
