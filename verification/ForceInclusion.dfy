/** Force inclusion end to end: users submit to the inbox on Sui, the sequencer tracks and builds, and
    each settle carries the cursor the tracker arrives at. */
module ForceInclusion {
  import opened Wrappers
  import Sorted
  import opened InboxTracker
  import Deadline

  /** `txs[n]` is the transaction submitted under nonce `n`, `blocks` what the L2 blocks built so far
      contain. */
  datatype World = World(tracker: Tracker, inbox: Deadline.Inbox, clock: nat, txs: seq<Tx>, blocks: seq<set<Tx>>)

  /** A built block is `seen` if its inclusions could be recorded. */
  datatype Happening =
    | Enqueue(tx: Tx, window: nat)
    | Elapse(ms: nat)
    | Refresh(poll: Poll)
    | Build(block: set<Tx>, seen: bool)
    | Confirm(nonce: nat, height: nat)
    | SettleBlock(blockTs: nat, readable: bool)
    | LoseMarkers

  /** The cursor of a settle: the tracker's, or the on-chain one if the records cannot be read. */
  function Cursor(w: World, readable: bool): nat {
    if readable then SettleCursor(w.tracker.store, w.inbox.includedCount) else w.inbox.includedCount
  }

  function Advance(w: World, h: Happening): World {
    match h
    case Enqueue(tx, window) =>
      w.(inbox := Deadline.Act(Deadline.Chain(w.inbox, w.clock), Deadline.Submit(window)).inbox, txs := w.txs + [tx])
    case Elapse(ms) => w.(clock := w.clock + ms)
    case Refresh(p) => w.(tracker := Step(w.tracker, Sync(p)))
    case Build(block, seen) =>
      w.(blocks := w.blocks + [block],
         tracker := if seen then Step(w.tracker, Block(|w.blocks| + 1, block)) else w.tracker)
    case Confirm(nonce, height) => w.(tracker := Step(w.tracker, Receipt(nonce, height)))
    case SettleBlock(blockTs, readable) =>
      (match Deadline.EnforceSettle(w.inbox, blockTs, Cursor(w, readable))
       case None => w
       case Some(i) => w.(inbox := i))
    case LoseMarkers => w.(tracker := Step(w.tracker, LoseFile))
  }

  function Live(w: World, hs: seq<Happening>): World
    decreases |hs|
  {
    if hs == [] then w else Live(Advance(w, hs[0]), hs[1..])
  }

  /** What the tracker, and the inbox contract, see of a happening. */
  function SeenBy(w: World, h: Happening): seq<Event> {
    match h
    case Refresh(p) => [Sync(p)]
    case Build(block, seen) => if seen then [Block(|w.blocks| + 1, block)] else []
    case Confirm(nonce, height) => [Receipt(nonce, height)]
    case LoseMarkers => [LoseFile]
    case _ => []
  }

  function ActsOf(w: World, h: Happening): seq<Deadline.Action> {
    match h
    case Enqueue(_, window) => [Deadline.Submit(window)]
    case Elapse(ms) => [Deadline.Wait(ms)]
    case SettleBlock(blockTs, readable) => [Deadline.Settle(blockTs, Cursor(w, readable))]
    case _ => []
  }

  function AllSeenBy(w: World, hs: seq<Happening>): seq<Event>
    decreases |hs|
  {
    if hs == [] then [] else SeenBy(w, hs[0]) + AllSeenBy(Advance(w, hs[0]), hs[1..])
  }

  function AllActsOf(w: World, hs: seq<Happening>): seq<Deadline.Action>
    decreases |hs|
  {
    if hs == [] then [] else ActsOf(w, hs[0]) + AllActsOf(Advance(w, hs[0]), hs[1..])
  }

  /** In a joined run the tracker and the contract each go through a run of their own. */
  lemma {:induction false} TrackerRefines(w: World, hs: seq<Happening>)
    ensures Live(w, hs).tracker == Run(w.tracker, AllSeenBy(w, hs))
    decreases |hs|
  {
    if hs != [] {
      var rest := AllSeenBy(Advance(w, hs[0]), hs[1..]);
      TrackerRefines(Advance(w, hs[0]), hs[1..]);
      if SeenBy(w, hs[0]) != [] {
        assert AllSeenBy(w, hs)[1..] == rest;
      } else {
        assert AllSeenBy(w, hs) == rest;
      }
    }
  }

  lemma {:induction false} InboxRefines(w: World, hs: seq<Happening>)
    ensures var end := Live(w, hs);
      Deadline.Chain(end.inbox, end.clock) == Deadline.RunActions(Deadline.Chain(w.inbox, w.clock), AllActsOf(w, hs))
    decreases |hs|
  {
    if hs != [] {
      var rest := AllActsOf(Advance(w, hs[0]), hs[1..]);
      InboxRefines(Advance(w, hs[0]), hs[1..]);
      if ActsOf(w, hs[0]) != [] {
        assert AllActsOf(w, hs)[1..] == rest;
      } else {
        assert AllActsOf(w, hs) == rest;
      }
    }
  }

  /** A transaction is due one window after the instant it is enqueued at, under the next nonce. */
  lemma EnqueueLater(w: World, ms: nat, tx: Tx, window: nat)
    ensures var w1 := Advance(Advance(w, Elapse(ms)), Enqueue(tx, window));
      && w1.inbox == w.inbox.(nextNonce := w.inbox.nextNonce + 1, pending := w1.inbox.pending)
      && w1.inbox.pending == w.inbox.pending[w.inbox.nextNonce := w.clock + ms + window]
      && w1 == w.(inbox := w1.inbox, clock := w.clock + ms, txs := w.txs + [tx])
  {
  }

  // ---------- what has landed ----------

  predicate Mined(blocks: seq<set<Tx>>, tx: Tx) {
    exists i :: 0 <= i < |blocks| && tx in blocks[i]
  }

  function Landed(w: World): (r: set<nat>)
    ensures forall n :: n in r <==> 0 <= n < |w.txs| && Mined(w.blocks, w.txs[n])
  {
    set n: nat | n < |w.txs| && Mined(w.blocks, w.txs[n])
  }

  function FirstMissingFrom(w: World, n: nat): (r: nat)
    requires n <= |w.txs| && Below(n) <= Landed(w)
    ensures n <= r <= |w.txs| && IsFirstMissing(Landed(w), r)
    decreases |w.txs| - n
  {
    if n in Landed(w) then
      assert Below(n + 1) <= Landed(w);
      FirstMissingFrom(w, n + 1)
    else n
  }

  /** The first nonce whose transaction is in no block. */
  function FirstMissing(w: World): (r: nat)
    ensures r <= |w.txs| && IsFirstMissing(Landed(w), r)
  {
    FirstMissingFrom(w, 0)
  }

  /** No forced transaction has landed before one submitted earlier. */
  predicate InOrder(w: World) {
    Landed(w) == Below(FirstMissing(w))
  }

  // ---------- what every run keeps ----------

  /** The tracker knows the right transactions, and calls included only what has landed. */
  predicate Inv(w: World) {
    && |w.txs| == w.inbox.nextNonce
    && (forall n :: n in w.tracker.store ==> n < |w.txs| && w.tracker.store[n].tx == w.txs[n])
    && IncludedNonces(w.tracker.store) <= Landed(w)
  }

  /** The node reads true entries and true receipts. */
  predicate Honest(w: World, h: Happening) {
    match h
    case Refresh(p) =>
      forall n :: p.included <= n < p.next && p.answer(n).Entry? ==> n < |w.txs| && p.answer(n).tx == w.txs[n]
    case Confirm(nonce, height) =>
      nonce in w.tracker.store ==> 0 < height <= |w.blocks| && w.tracker.store[nonce].tx in w.blocks[height - 1]
    case _ => true
  }

  predicate HonestRun(w: World, hs: seq<Happening>)
    decreases |hs|
  {
    hs == [] || (Honest(w, hs[0]) && HonestRun(Advance(w, hs[0]), hs[1..]))
  }

  predicate OrderedRun(w: World, hs: seq<Happening>)
    decreases |hs|
  {
    InOrder(w) && (hs == [] || OrderedRun(Advance(w, hs[0]), hs[1..]))
  }

  lemma MinedStays(blocks: seq<set<Tx>>, block: set<Tx>, tx: Tx)
    ensures Mined(blocks + [block], tx) <==> Mined(blocks, tx) || tx in block
  {
    var more := blocks + [block];
    if Mined(blocks, tx) {
      var i :| 0 <= i < |blocks| && tx in blocks[i];
      assert tx in more[i];
    }
    if tx in block {
      assert tx in more[|blocks|];
    }
  }

  lemma PollKeepsInv(w: World, p: Poll)
    requires Inv(w) && Honest(w, Refresh(p))
    ensures Inv(Advance(w, Refresh(p)))
  {
    var t1 := Step(w.tracker, Sync(p));
    SyncGrows(w.tracker.store, p.included, p.next, p.answer, t1.anchor, p.at);
    assert IncludedNonces(t1.store) <= IncludedNonces(w.tracker.store);
  }

  /** Marking a block includes only nonces whose transaction is in it. */
  lemma {:induction false} ObserveIncludes(s: Store, nonces: seq<nat>, height: nat, txs: set<Tx>)
    ensures forall n :: n in IncludedNonces(ObserveFrom(s, nonces, height, txs).0) ==>
              n in IncludedNonces(s) || (n in s && s[n].tx in txs)
  {
    if nonces != [] {
      if nonces[0] in s && s[nonces[0]].tx in txs && MarkIncluded(s, nonces[0], height).Ok? {
        ObserveIncludes(MarkIncluded(s, nonces[0], height).value, nonces[1..], height, txs);
      } else {
        ObserveIncludes(s, nonces[1..], height, txs);
      }
    }
  }

  lemma LandedGrows(w: World, w1: World)
    requires w.txs <= w1.txs && forall tx :: Mined(w.blocks, tx) ==> Mined(w1.blocks, tx)
    ensures Landed(w) <= Landed(w1) && FirstMissing(w) <= FirstMissing(w1)
  {
    assert Landed(w) <= Landed(w1);
    assert FirstMissing(w1) !in Below(FirstMissing(w));
  }

  lemma BuiltLands(w: World, w1: World, block: set<Tx>)
    requires w1.txs == w.txs && w1.blocks == w.blocks + [block]
    ensures forall n :: n in Landed(w1) <==> n in Landed(w) || (0 <= n < |w.txs| && w.txs[n] in block)
  {
    forall tx ensures Mined(w1.blocks, tx) <==> Mined(w.blocks, tx) || tx in block {
      MinedStays(w.blocks, block, tx);
    }
  }

  /** A tracker that knows the right transactions still does after a block, and includes only what is in it. */
  lemma ObserveKeeps(s: Store, height: nat, block: set<Tx>, txs: seq<Tx>)
    requires forall n :: n in s ==> n < |txs| && s[n].tx == txs[n]
    ensures var s1 := Observe(s, height, block).0;
      && (forall n :: n in s1 ==> n < |txs| && s1[n].tx == txs[n])
      && (forall n :: n in IncludedNonces(s1) ==> n in IncludedNonces(s) || (n < |txs| && txs[n] in block))
  {
    ObserveGrows(s, Sorted.AscendingOf(s.Keys), height, block);
    ObserveIncludes(s, Sorted.AscendingOf(s.Keys), height, block);
  }

  lemma BuildKeepsInv(w: World, block: set<Tx>, seen: bool)
    requires Inv(w)
    ensures Inv(Advance(w, Build(block, seen)))
  {
    BuiltLands(w, Advance(w, Build(block, seen)), block);
    if seen {
      ObserveKeeps(w.tracker.store, |w.blocks| + 1, block, w.txs);
    }
  }

  lemma EnqueueKeepsInv(w: World, tx: Tx, window: nat)
    requires Inv(w)
    ensures Inv(Advance(w, Enqueue(tx, window))) && FirstMissing(w) <= FirstMissing(Advance(w, Enqueue(tx, window)))
  {
    LandedGrows(w, Advance(w, Enqueue(tx, window)));
  }

  lemma ConfirmKeepsInv(w: World, nonce: nat, height: nat)
    requires Inv(w) && Honest(w, Confirm(nonce, height))
    ensures Inv(Advance(w, Confirm(nonce, height)))
  {
    var w1 := Advance(w, Confirm(nonce, height));
    if nonce in w.tracker.store {
      assert Mined(w.blocks, w.txs[nonce]);
    }
    assert IncludedNonces(w1.tracker.store) <= IncludedNonces(w.tracker.store) + Landed(w);
  }

  lemma SettleKeepsInv(w: World, blockTs: nat, readable: bool)
    requires Inv(w)
    ensures Inv(Advance(w, SettleBlock(blockTs, readable)))
  {
  }

  lemma AdvanceKeepsInv(w: World, h: Happening)
    requires Inv(w) && Honest(w, h)
    ensures Inv(Advance(w, h)) && FirstMissing(w) <= FirstMissing(Advance(w, h))
  {
    match h
    case Enqueue(tx, window) => EnqueueKeepsInv(w, tx, window);
    case Refresh(p) => PollKeepsInv(w, p); SameLanding(w, Advance(w, h));
    case Build(block, seen) =>
      BuildKeepsInv(w, block, seen);
      forall tx | Mined(w.blocks, tx) ensures Mined(Advance(w, h).blocks, tx) {
        MinedStays(w.blocks, block, tx);
      }
      LandedGrows(w, Advance(w, h));
    case Confirm(nonce, height) => ConfirmKeepsInv(w, nonce, height); SameLanding(w, Advance(w, h));
    case SettleBlock(blockTs, readable) => SettleKeepsInv(w, blockTs, readable); SameLanding(w, Advance(w, h));
    case Elapse(_) => SameLanding(w, Advance(w, h));
    case LoseMarkers => SameLanding(w, Advance(w, h));
  }

  lemma SameLanding(w: World, w1: World)
    requires w.txs == w1.txs && w.blocks == w1.blocks
    ensures Landed(w) == Landed(w1) && FirstMissing(w) <= FirstMissing(w1)
  {
    LandedGrows(w, w1);
  }

  // ---------- the cursor over whole runs ----------

  /** While no marker is missing, one settle moves the on-chain cursor past the first missing nonce
      exactly when it is accepted and some transaction landed before one submitted earlier. */
  lemma SettlePassesExactly(w: World, blockTs: nat)
    requires Inv(w) && w.inbox.includedCount <= FirstMissing(w) && IncludedNonces(w.tracker.store) == Landed(w)
    ensures Advance(w, SettleBlock(blockTs, true)).inbox.includedCount > FirstMissing(w) <==>
            !InOrder(w) && Deadline.EnforceSettle(w.inbox, blockTs, Cursor(w, true)).Some?
  {
    CountsPrefixExactly(Landed(w), FirstMissing(w));
  }

  /** While forced transactions land in the order they were submitted, the on-chain cursor never passes
      one that has not landed, through lost marker files, unseen blocks and unreadable records. */
  lemma {:induction false} CursorNeverPassesMissing(w: World, hs: seq<Happening>)
    requires Inv(w) && w.inbox.includedCount <= FirstMissing(w)
    requires HonestRun(w, hs) && OrderedRun(w, hs)
    ensures Inv(Live(w, hs))
    ensures Live(w, hs).inbox.includedCount <= FirstMissing(Live(w, hs))
    decreases |hs|
  {
    if hs != [] {
      AdvanceKeepsInv(w, hs[0]);
      CursorIsSafe(w.tracker.store, Landed(w), FirstMissing(w), w.inbox.includedCount);
      CursorNeverPassesMissing(Advance(w, hs[0]), hs[1..]);
    }
  }

  /** The cursor a settle is made with covers all that has landed exactly when the chain already does, or
      no marker of a landed nonce is missing. */
  lemma CursorCoversExactly(w: World)
    requires Inv(w) && InOrder(w) && w.inbox.includedCount <= FirstMissing(w)
    ensures Cursor(w, true) == FirstMissing(w) <==>
            w.inbox.includedCount == FirstMissing(w) || IncludedNonces(w.tracker.store) == Landed(w)
  {
    SubsetSize(IncludedNonces(w.tracker.store), Landed(w));
  }

  predicate DueBefore(i: Deadline.Inbox, n: nat, blockTs: nat) {
    n in i.pending && i.pending[n] < blockTs
  }

  /** A settle is refused that the true cursor would have carried through. */
  predicate RefusedByMistake(w: World, blockTs: nat) {
    && Deadline.EnforceSettle(w.inbox, blockTs, Cursor(w, true)).None?
    && Deadline.EnforceSettle(w.inbox, blockTs, FirstMissing(w)).Some?
  }

  /** That happens exactly when an inclusion the node no longer knows of leaves the tracker's cursor on
      an overdue entry. */
  lemma LostMarkersRefuseExactly(w: World, blockTs: nat)
    requires Inv(w) && InOrder(w) && Deadline.Dense(w.inbox)
    requires w.inbox.includedCount <= FirstMissing(w) && w.inbox.lastSettledTs <= blockTs
    ensures RefusedByMistake(w, blockTs) <==>
            && IncludedNonces(w.tracker.store) != Landed(w) && w.inbox.includedCount != FirstMissing(w)
            && DueBefore(w.inbox, Cursor(w, true), blockTs)
            && !DueBefore(w.inbox, FirstMissing(w), blockTs)
  {
    SubsetSize(IncludedNonces(w.tracker.store), Landed(w));
    CursorCoversExactly(w);
  }

  // ---------- two runs ----------

  const FRESH: World := World(Tracker(map[], 10, 0, 0), Deadline.Inbox(0, 0, 0, map[]), 0, [], [])

  /** A poll that finds the nonces from `included` to `next`. */
  function PollOf(included: nat, next: nat, txs: seq<Tx>): Poll {
    Poll(included, next, (n: nat) => if n < |txs| then Entry(0, txs[n]) else Failed, 0, None, included)
  }

  lemma LiveFrom(w: World, hs: seq<Happening>, k: nat)
    requires k < |hs|
    ensures Live(w, hs[k..]) == Live(Advance(w, hs[k]), hs[k + 1..])
  {
    assert hs[k..][1..] == hs[k + 1..];
  }

  lemma OneTracked(t: Tracker, p: Poll)
    requires p.next == p.included + 1 && p.included !in t.store && p.at == 0 && p.window == None
    requires p.answer(p.included).Entry?
    requires t.budget == 10
    ensures Step(t, Sync(p)) ==
            Tracker(t.store[p.included := Submitted(10, p.answer(p.included).deadlineMs, 0, p.answer(p.included).tx)],
                    10, p.low, 10)
  {
    var s1: Store := t.store[p.included := Submitted(10, p.answer(p.included).deadlineMs, 0, p.answer(p.included).tx)];
    assert SyncFrom(s1, p.next, p.next, p.answer, 10, 0) == (s1, true);
  }

  lemma OneObserved(s: Store, n: nat, height: nat)
    requires s.Keys == {n} && s[n].Submitted?
    ensures Observe(s, height, {s[n].tx}).0 == map[n := Included(height, s[n].tx)]
  {
    var nonces := Sorted.AscendingOf(s.Keys);
    Sorted.AscendingUnique(nonces, [n]);
    var s1: Store := s[n := Included(height, s[n].tx)];
    assert ObserveFrom(s1, [n][1..], height, {s[n].tx}) == (s1, true);
  }

  lemma TwoTracked(p: Poll, deadline: nat)
    requires p.included == 0 && p.next == 2 && p.at == 0 && p.answer(0) == Entry(0, 7) && p.answer(1) == Entry(0, 8)
    ensures SyncFrom(map[], 0, 2, p.answer, deadline, 0).0 ==
            map[0 := Submitted(deadline, 0, 0, 7), 1 := Submitted(deadline, 0, 0, 8)]
  {
    var s1: Store := map[0 := Submitted(deadline, 0, 0, 7)];
    assert SyncFrom(map[], 0, 2, p.answer, deadline, 0) == SyncFrom(s1, 1, 2, p.answer, deadline, 0);
    var s2: Store := s1[1 := Submitted(deadline, 0, 0, 8)];
    assert SyncFrom(s1, 1, 2, p.answer, deadline, 0) == SyncFrom(s2, 2, 2, p.answer, deadline, 0);
  }

  lemma SecondObserved(s: Store, height: nat)
    requires s.Keys == {0, 1} && s[0].Submitted? && s[1].Submitted? && s[0].tx == 7 && s[1].tx == 8
    ensures Observe(s, height, {8}).0 == s[1 := Included(height, 8)]
  {
    Sorted.AscendingUnique(Sorted.AscendingOf(s.Keys), [0, 1]);
    assert [0, 1][1..] == [1] && [1][1..] == [];
    var s1: Store := s[1 := Included(height, 8)];
    assert ObserveFrom(s1, [], height, {8}) == (s1, true);
    assert ObserveFrom(s, [1], height, {8}) == (s1, true);
    assert ObserveFrom(s, [0, 1], height, {8}) == ObserveFrom(s, [1], height, {8});
  }

  /** Four steps of a run, one world after the other. */
  lemma FourSteps(hs: seq<Happening>, w0: World, w1: World, w2: World, w3: World, w4: World)
    requires |hs| >= 4
    requires Advance(w0, hs[0]) == w1 && Advance(w1, hs[1]) == w2
    requires Advance(w2, hs[2]) == w3 && Advance(w3, hs[3]) == w4
    ensures Live(w0, hs[..4]) == w4 && Live(w0, hs) == Live(w4, hs[4..])
  {
    LiveFrom(w0, hs, 0);
    LiveFrom(w1, hs, 1);
    LiveFrom(w2, hs, 2);
    LiveFrom(w3, hs, 3);
    LiveFrom(w0, hs[..4], 0);
    LiveFrom(w1, hs[..4], 1);
    LiveFrom(w2, hs[..4], 2);
    LiveFrom(w3, hs[..4], 3);
    assert hs[0..] == hs && hs[..4][0..] == hs[..4];
  }

  const DROPPED: seq<Happening> :=
    [Enqueue(7, 60_000), Enqueue(8, 60_000), Refresh(PollOf(0, 2, [7, 8])), Build({8}, true), SettleBlock(0, true)]

  function TwoPending(store: Store, anchor: nat, blocks: seq<set<Tx>>): World {
    World(Tracker(store, 10, 0, anchor), Deadline.Inbox(2, 0, 0, map[0 := 60_000, 1 := 60_000]), 0, [7, 8], blocks)
  }

  lemma BothSubmitted()
    ensures Advance(Advance(FRESH, Enqueue(7, 60_000)), Enqueue(8, 60_000)) == TwoPending(map[], 0, [])
  {
    var w1 := Advance(FRESH, Enqueue(7, 60_000));
    assert w1 == World(Tracker(map[], 10, 0, 0), Deadline.Inbox(1, 0, 0, map[0 := 60_000]), 0, [7], []);
    assert [7] + [8] == [7, 8];
  }

  lemma BothTracked()
    ensures Advance(TwoPending(map[], 0, []), Refresh(PollOf(0, 2, [7, 8]))) ==
            TwoPending(map[0 := Submitted(10, 0, 0, 7), 1 := Submitted(10, 0, 0, 8)], 10, [])
  {
    TwoTracked(PollOf(0, 2, [7, 8]), 10);
  }

  lemma BuildIs(store: Store, anchor: nat, block: set<Tx>, marked: Store)
    requires Observe(store, 1, block).0 == marked
    ensures Advance(TwoPending(store, anchor, []), Build(block, true)) == TwoPending(marked, anchor, [block])
  {
    var blocks: seq<set<Tx>> := [];
    assert blocks + [block] == [block];
  }

  lemma SecondMarked()
    ensures Observe(map[0 := Submitted(10, 0, 0, 7), 1 := Submitted(10, 0, 0, 8)], 1, {8}).0 ==
            map[0 := Submitted(10, 0, 0, 7), 1 := Included(1, 8)]
  {
    var s: Store := map[0 := Submitted(10, 0, 0, 7), 1 := Submitted(10, 0, 0, 8)];
    SecondObserved(s, 1);
  }

  lemma SecondBuilt()
    ensures var tracked := TwoPending(map[0 := Submitted(10, 0, 0, 7), 1 := Submitted(10, 0, 0, 8)], 10, []);
            Advance(tracked, Build({8}, true)) ==
            TwoPending(map[0 := Submitted(10, 0, 0, 7), 1 := Included(1, 8)], 10, [{8}])
  {
    SecondMarked();
    BuildIs(map[0 := Submitted(10, 0, 0, 7), 1 := Submitted(10, 0, 0, 8)], 10, {8},
            map[0 := Submitted(10, 0, 0, 7), 1 := Included(1, 8)]);
  }

  lemma FirstDropped(w: World)
    requires w == TwoPending(map[0 := Submitted(10, 0, 0, 7), 1 := Included(1, 8)], 10, [{8}])
    ensures Advance(w, SettleBlock(0, true)) == w.(inbox := Deadline.Inbox(2, 1, 0, map[1 := 60_000]))
  {
    assert IncludedNonces(w.tracker.store) == {1};
    assert Cursor(w, true) == 1;
    var left := map n | n in w.inbox.pending && 1 <= n :: w.inbox.pending[n];
    assert left == map[1 := 60_000];
  }

  /** Two transactions are submitted and the second alone is built: the settle that follows drops the
      first from the inbox although it never landed. */
  lemma OutOfOrderRunDropsEntry()
    ensures 0 in Live(FRESH, DROPPED[..4]).inbox.pending
    ensures 0 !in Live(FRESH, DROPPED).inbox.pending && 0 !in Landed(Live(FRESH, DROPPED))
    ensures Live(FRESH, DROPPED).inbox.includedCount == 1
  {
    BothSubmitted();
    BothTracked();
    SecondBuilt();
    var tracked: Store := map[0 := Submitted(10, 0, 0, 7), 1 := Submitted(10, 0, 0, 8)];
    var w4 := TwoPending(map[0 := Submitted(10, 0, 0, 7), 1 := Included(1, 8)], 10, [{8}]);
    FourSteps(DROPPED, FRESH, Advance(FRESH, Enqueue(7, 60_000)), TwoPending(map[], 0, []), TwoPending(tracked, 10, []),
              w4);
    FirstDropped(w4);
    LiveFrom(w4, DROPPED, 4);
  }

  const SETTLED: seq<Happening> :=
    [Enqueue(7, 60_000), Refresh(PollOf(0, 1, [7])), Build({7}, true), SettleBlock(0, true)]

  const RECOVERED: seq<Happening> := [LoseMarkers, Enqueue(8, 60_000), Refresh(PollOf(1, 2, [7, 8])), Build({8}, true)]

  function OnePending(store: Store, anchor: nat, blocks: seq<set<Tx>>): World {
    World(Tracker(store, 10, 0, anchor), Deadline.Inbox(1, 0, 0, map[0 := 60_000]), 0, [7], blocks)
  }

  const SETTLED_ONCE: World :=
    World(Tracker(map[0 := Included(1, 7)], 10, 0, 10), Deadline.Inbox(1, 1, 0, map[]), 0, [7], [{7}])

  const LEFT_BEHIND: World :=
    World(Tracker(map[1 := Included(2, 8)], 10, 1, 10), Deadline.Inbox(2, 1, 0, map[1 := 60_000]), 0, [7, 8],
          [{7}, {8}])

  lemma FirstBuilt()
    ensures Advance(OnePending(map[], 0, []), Refresh(PollOf(0, 1, [7]))) ==
            OnePending(map[0 := Submitted(10, 0, 0, 7)], 10, [])
    ensures Advance(OnePending(map[0 := Submitted(10, 0, 0, 7)], 10, []), Build({7}, true)) ==
            OnePending(map[0 := Included(1, 7)], 10, [{7}])
  {
    OneTracked(Tracker(map[], 10, 0, 0), PollOf(0, 1, [7]));
    OneObserved(map[0 := Submitted(10, 0, 0, 7)], 0, 1);
  }

  lemma FirstSettled()
    ensures Advance(OnePending(map[0 := Included(1, 7)], 10, [{7}]), SettleBlock(0, true)) == SETTLED_ONCE
  {
    var w := OnePending(map[0 := Included(1, 7)], 10, [{7}]);
    assert IncludedNonces(w.tracker.store) == {0};
    assert Cursor(w, true) == 1;
    assert Advance(w, SettleBlock(0, true)).inbox.pending == map[];
  }

  lemma SettledOnce()
    ensures Live(FRESH, SETTLED) == SETTLED_ONCE
  {
    assert Advance(FRESH, Enqueue(7, 60_000)) == OnePending(map[], 0, []);
    FirstBuilt();
    FirstSettled();
    FourSteps(SETTLED, FRESH, OnePending(map[], 0, []), OnePending(map[0 := Submitted(10, 0, 0, 7)], 10, []),
              OnePending(map[0 := Included(1, 7)], 10, [{7}]), SETTLED_ONCE);
    assert SETTLED[..4] == SETTLED;
  }

  function OneLeft(store: Store, low: nat, blocks: seq<set<Tx>>): World {
    World(Tracker(store, 10, low, 10), Deadline.Inbox(2, 1, 0, map[1 := 60_000]), 0, [7, 8], blocks)
  }

  lemma SecondTracked()
    ensures Advance(OneLeft(map[], 0, [{7}]), Refresh(PollOf(1, 2, [7, 8]))) ==
            OneLeft(map[1 := Submitted(10, 0, 0, 8)], 1, [{7}])
    ensures Advance(OneLeft(map[1 := Submitted(10, 0, 0, 8)], 1, [{7}]), Build({8}, true)) == LEFT_BEHIND
  {
    OneTracked(Tracker(map[], 10, 0, 10), PollOf(1, 2, [7, 8]));
    OneObserved(map[1 := Submitted(10, 0, 0, 8)], 1, 2);
    assert [{7}] + [{8}] == [{7}, {8}];
  }

  lemma MarkersLost()
    ensures Advance(Advance(SETTLED_ONCE, LoseMarkers), Enqueue(8, 60_000)) == OneLeft(map[], 0, [{7}])
  {
    assert [7] + [8] == [7, 8];
  }

  lemma Recovered()
    ensures Live(SETTLED_ONCE, RECOVERED) == LEFT_BEHIND
  {
    MarkersLost();
    SecondTracked();
    FourSteps(RECOVERED, SETTLED_ONCE, Advance(SETTLED_ONCE, LoseMarkers), OneLeft(map[], 0, [{7}]),
              OneLeft(map[1 := Submitted(10, 0, 0, 8)], 1, [{7}]), LEFT_BEHIND);
    assert RECOVERED[..4] == RECOVERED;
  }

  lemma {:induction false} LiveConcat(w: World, a: seq<Happening>, b: seq<Happening>)
    ensures Live(w, a + b) == Live(Live(w, a), b)
    decreases |a|
  {
    if a == [] {
      assert a + b == b;
    } else {
      LiveConcat(Advance(w, a[0]), a[1..], b);
      assert (a + b)[1..] == a[1..] + b;
    }
  }

  lemma BothLanded(w: World)
    requires w.txs == [7, 8] && w.blocks == [{7}, {8}]
    ensures InOrder(w) && FirstMissing(w) == 2
  {
    assert 7 in w.blocks[0] && 8 in w.blocks[1];
    assert Mined(w.blocks, 7) && Mined(w.blocks, 8);
    assert 0 in Landed(w) && 1 in Landed(w);
    assert FirstMissing(w) !in Landed(w);
  }

  lemma LeftBehind()
    ensures IncludedNonces(LEFT_BEHIND.tracker.store) == LEFT_BEHIND.inbox.pending.Keys
    ensures RefusedByMistake(LEFT_BEHIND, 60_001)
  {
    BothLanded(LEFT_BEHIND);
    assert IncludedNonces(LEFT_BEHIND.tracker.store) == {1};
    assert Cursor(LEFT_BEHIND, true) == 1;
  }

  /** Both forced transactions land in order and the markers are lost once in between. The tracker
      recovers all that is still in the inbox, yet its cursor stays one behind: the chain refuses the
      settle over a transaction that did land, and would accept it with the true cursor. */
  lemma ForgottenInclusionHaltsChain()
    ensures var w := Live(FRESH, SETTLED + RECOVERED);
      && InOrder(w) && w.inbox.pending.Keys == IncludedNonces(w.tracker.store) && RefusedByMistake(w, 60_001)
  {
    SettledOnce();
    Recovered();
    LiveConcat(FRESH, SETTLED, RECOVERED);
    BothLanded(LEFT_BEHIND);
    LeftBehind();
  }
}
