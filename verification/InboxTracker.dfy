/** The sequencer's force-inclusion tracker: one record per inbox nonce from first sight to inclusion,
    the settlement gate over them, and the cursor handed to the settle call. */
module InboxTracker {
  import opened Sorted
  import opened Wrappers
  import Deadline

  /** A transaction, known by its hash. */
  type Tx = nat

  datatype Record =
    | Submitted(deadline: nat, deadlineMs: nat, firstSeen: nat, tx: Tx)
    | Included(height: nat, tx: Tx)

  type Store = map<nat, Record>

  datatype StoreError = Conflict | NeverTracked

  // ---------- the store ----------

  function RecordSubmitted(s: Store, nonce: nat, r: Record): Result<Store, StoreError> {
    if nonce in s then Err(Conflict) else Ok(s[nonce := r])
  }

  function MarkIncluded(s: Store, nonce: nat, height: nat): Result<Store, StoreError> {
    if nonce !in s then Err(NeverTracked)
    else
      match s[nonce]
      case Included(existing, _) => if existing == height then Ok(s) else Err(Conflict)
      case Submitted(_, _, _, tx) => Ok(s[nonce := Included(height, tx)])
  }

  function SubmittedNonces(s: Store): set<nat> {
    set n | n in s && s[n].Submitted?
  }

  function IncludedNonces(s: Store): set<nat> {
    set n | n in s && s[n].Included?
  }

  // ---------- the tracker ----------

  /** One read of a pending entry: it fails, finds it pruned, or finds it. */
  datatype Read = Failed | Absent | Entry(deadlineMs: nat, tx: Tx)

  /** Records the untracked nonces from `n` on; a failed read ends the pass with what it has. */
  function SyncFrom(s: Store, n: nat, end: nat, answer: nat -> Read, deadline: nat, at: nat): (Store, bool)
    decreases end - n
  {
    if n >= end then (s, true)
    else if n in s then SyncFrom(s, n + 1, end, answer, deadline, at)
    else
      match answer(n)
      case Failed => (s, false)
      case Absent => SyncFrom(s, n + 1, end, answer, deadline, at)
      case Entry(deadlineMs, tx) =>
        SyncFrom(s[n := Submitted(deadline, deadlineMs, at, tx)], n + 1, end, answer, deadline, at)
  }

  /** Marks every tracked nonce among `nonces` whose transaction is in the block; a second height for
      one ends the call. */
  function ObserveFrom(s: Store, nonces: seq<nat>, height: nat, txs: set<Tx>): (Store, bool) {
    if nonces == [] then (s, true)
    else if nonces[0] in s && s[nonces[0]].tx in txs then
      match MarkIncluded(s, nonces[0], height)
      case Ok(s1) => ObserveFrom(s1, nonces[1..], height, txs)
      case Err(_) => (s, false)
    else ObserveFrom(s, nonces[1..], height, txs)
  }

  function Observe(s: Store, height: nat, txs: set<Tx>): (Store, bool) {
    ObserveFrom(s, AscendingOf(s.Keys), height, txs)
  }

  datatype Check = Clear | Halt(nonce: nat, deadline: nat, next: nat)

  function FirstIn(s: Store, nonces: seq<nat>): (r: Option<nat>)
    requires Ascending(nonces)
    ensures r.Some? ==> r.value in nonces && r.value in SubmittedNonces(s)
    ensures r.Some? ==> forall n :: n in nonces && n in SubmittedNonces(s) ==> r.value <= n
    ensures r.None? ==> forall n :: n in nonces ==> n !in SubmittedNonces(s)
  {
    if nonces == [] then None
    else if nonces[0] in s && s[nonces[0]].Submitted? then Some(nonces[0])
    else FirstIn(s, nonces[1..])
  }

  /** The lowest submitted nonce. */
  function FirstSubmitted(s: Store): (r: Option<nat>)
    ensures r.Some? ==> r.value in SubmittedNonces(s) && forall n :: n in SubmittedNonces(s) ==> r.value <= n
    ensures r.None? ==> SubmittedNonces(s) == {}
  {
    var nonces := AscendingOf(s.Keys);
    assert forall n :: n in s ==> n in nonces by {
      assert forall n :: n in s ==> n in Elements(nonces);
    }
    FirstIn(s, nonces)
  }

  /** The gate looks no further than the first submitted nonce. */
  function HaltCheck(s: Store, next: nat): Check {
    match FirstSubmitted(s)
    case None => Clear
    case Some(n) => if s[n].deadline < next then Halt(n, s[n].deadline, next) else Clear
  }

  predicate Overdue(s: Store, n: nat, next: nat) {
    n in SubmittedNonces(s) && s[n].deadline < next
  }

  /** `low` is the on-chain cursor last known to have been reached, `anchor` the deadline height of the
      last sync. */
  datatype Tracker = Tracker(store: Store, budget: nat, low: nat, anchor: nat)

  /** What one sync answer; `low` is the on-chain cursor once it is over. */
  datatype Poll = Poll(included: nat, next: nat, answer: nat -> Read, at: nat, window: Option<nat>, low: nat)

  datatype Event =
    | Sync(poll: Poll)
    | Block(height: nat, txs: set<Tx>)
    | Receipt(nonce: nat, height: nat)
    | LoseFile

  function Step(t: Tracker, ev: Event): Tracker {
    match ev
    case Sync(p) =>
      var budget := if p.window.Some? then p.window.value else t.budget;
      var anchor := SaturatingAdd(p.at, budget);
      Tracker(SyncFrom(t.store, p.included, p.next, p.answer, anchor, p.at).0, budget, p.low, anchor)
    case Block(height, txs) => t.(store := Observe(t.store, height, txs).0)
    case Receipt(nonce, height) =>
      (match MarkIncluded(t.store, nonce, height) case Ok(s) => t.(store := s) case Err(_) => t)
    case LoseFile => t.(store := map[])
  }

  function Run(t: Tracker, evs: seq<Event>): Tracker
    decreases |evs|
  {
    if evs == [] then t else Run(Step(t, evs[0]), evs[1..])
  }

  // ---------- a record only moves forward ----------

  /** Every nonce keeps its transaction, and once included keeps its height. */
  predicate Grows(s: Store, s1: Store) {
    forall n :: n in s ==>
      n in s1 && s1[n].tx == s[n].tx && (s1[n] == s[n] || (s[n].Submitted? && s1[n].Included?))
  }

  lemma {:induction false} SyncGrows(s: Store, n: nat, end: nat, answer: nat -> Read, deadline: nat, at: nat)
    ensures forall m :: m in s ==>
              m in SyncFrom(s, n, end, answer, deadline, at).0 && SyncFrom(s, n, end, answer, deadline, at).0[m] == s[m]
    ensures forall m :: m in SyncFrom(s, n, end, answer, deadline, at).0 && m !in s ==>
              n <= m < end && answer(m).Entry? &&
              SyncFrom(s, n, end, answer, deadline, at).0[m] ==
              Submitted(deadline, answer(m).deadlineMs, at, answer(m).tx)
    decreases end - n
  {
    if n < end {
      if n in s || answer(n).Absent? {
        SyncGrows(s, n + 1, end, answer, deadline, at);
      } else if answer(n).Entry? {
        var r := Submitted(deadline, answer(n).deadlineMs, at, answer(n).tx);
        SyncGrows(s[n := r], n + 1, end, answer, deadline, at);
      }
    }
  }

  lemma {:induction false} ObserveGrows(s: Store, nonces: seq<nat>, height: nat, txs: set<Tx>)
    ensures Grows(s, ObserveFrom(s, nonces, height, txs).0)
    ensures ObserveFrom(s, nonces, height, txs).0.Keys == s.Keys
  {
    if nonces != [] {
      if nonces[0] in s && s[nonces[0]].tx in txs && MarkIncluded(s, nonces[0], height).Ok? {
        ObserveGrows(MarkIncluded(s, nonces[0], height).value, nonces[1..], height, txs);
      } else {
        ObserveGrows(s, nonces[1..], height, txs);
      }
    }
  }

  lemma StepGrows(t: Tracker, ev: Event)
    requires !ev.LoseFile?
    ensures Grows(t.store, Step(t, ev).store)
  {
    match ev
    case Sync(p) =>
      SyncGrows(t.store, p.included, p.next, p.answer, Step(t, ev).anchor, p.at);
    case Block(height, txs) => ObserveGrows(t.store, AscendingOf(t.store.Keys), height, txs);
    case Receipt(_, _) =>
  }

  /** However syncs, blocks and receipts interleave, a nonce has one inclusion height for good and is
      never handed to the pool again. */
  lemma {:induction false} RunGrows(t: Tracker, evs: seq<Event>)
    requires forall i :: 0 <= i < |evs| ==> !evs[i].LoseFile?
    ensures Grows(t.store, Run(t, evs).store)
    ensures IncludedNonces(t.store) !! SubmittedNonces(Run(t, evs).store)
    decreases |evs|
  {
    if evs != [] {
      var t1 := Step(t, evs[0]);
      StepGrows(t, evs[0]);
      assert forall i :: 0 <= i < |evs[1..]| ==> evs[1..][i] == evs[i + 1];
      RunGrows(t1, evs[1..]);
    }
  }

  /** What a block leaves: every tracked nonce in it is included there. */
  predicate Settled(s: Store, nonces: seq<nat>, height: nat, txs: set<Tx>) {
    forall n :: n in nonces && n in s && s[n].tx in txs ==> s[n] == Included(height, s[n].tx)
  }

  lemma {:induction false} ObserveSettles(s: Store, nonces: seq<nat>, height: nat, txs: set<Tx>)
    ensures ObserveFrom(s, nonces, height, txs).1 ==>
              Settled(ObserveFrom(s, nonces, height, txs).0, nonces, height, txs)
  {
    if nonces != [] {
      var n := nonces[0];
      if n in s && s[n].tx in txs {
        if MarkIncluded(s, n, height).Ok? {
          var s1 := MarkIncluded(s, n, height).value;
          ObserveSettles(s1, nonces[1..], height, txs);
          ObserveGrows(s1, nonces[1..], height, txs);
        }
      } else {
        ObserveSettles(s, nonces[1..], height, txs);
        ObserveGrows(s, nonces[1..], height, txs);
      }
    }
  }

  lemma {:induction false} SettledStays(s: Store, nonces: seq<nat>, height: nat, txs: set<Tx>)
    requires Settled(s, nonces, height, txs)
    ensures ObserveFrom(s, nonces, height, txs) == (s, true)
  {
    if nonces != [] {
      assert nonces[0] in nonces;
      assert forall n :: n in nonces[1..] ==> n in nonces;
      SettledStays(s, nonces[1..], height, txs);
    }
  }

  /** Seeing a block again changes nothing. */
  lemma ObserveIdempotent(s: Store, height: nat, txs: set<Tx>)
    requires Observe(s, height, txs).1
    ensures Observe(Observe(s, height, txs).0, height, txs) == (Observe(s, height, txs).0, true)
  {
    var nonces := AscendingOf(s.Keys);
    ObserveSettles(s, nonces, height, txs);
    ObserveGrows(s, nonces, height, txs);
    SettledStays(Observe(s, height, txs).0, nonces, height, txs);
  }

  /** A nonce is recorded as submitted once; a second record is refused, whatever the first became. */
  lemma RecordedOnce(s: Store, nonce: nat, r: Record, again: Record, n: nat)
    ensures RecordSubmitted(s, nonce, r).Ok? <==> nonce !in s
    ensures nonce !in s ==>
              var s1 := RecordSubmitted(s, nonce, r).value;
              && RecordSubmitted(s1, nonce, again) == Err(Conflict) && s1[nonce] == r
              && (n != nonce ==> (n in s1 <==> n in s) && (n in s ==> s1[n] == s[n]))
  {
  }

  /** A receipt includes a nonce that was submitted, at its block, and changes nothing else. */
  lemma ReceiptIncludes(t: Tracker, nonce: nat, height: nat)
    ensures var s1 := Step(t, Receipt(nonce, height)).store;
      && (nonce in SubmittedNonces(t.store) ==> s1 == t.store[nonce := Included(height, t.store[nonce].tx)])
      && (nonce !in SubmittedNonces(t.store) ==> s1 == t.store)
  {
  }

  /** A nonce first seen by a sync gets a deadline one window after the height it was seen at: the window
      the sync could read, or else the one before. */
  lemma SyncSetsDeadlines(t: Tracker, p: Poll)
    ensures var t1 := Step(t, Sync(p));
      && t1.budget == (if p.window.Some? then p.window.value else t.budget)
      && forall n :: n in t1.store && n !in t.store ==>
           p.answer(n).Entry? && p.included <= n < p.next &&
           t1.store[n] == Submitted(SaturatingAdd(p.at, t1.budget), p.answer(n).deadlineMs, p.at, p.answer(n).tx)
  {
    SyncGrows(t.store, p.included, p.next, p.answer, Step(t, Sync(p)).anchor, p.at);
  }

  // ---------- the gate ----------

  /** A halt is never a false alarm, and says what it is about. */
  lemma HaltIsGenuine(s: Store, next: nat)
    requires HaltCheck(s, next).Halt?
    ensures var halt := HaltCheck(s, next);
      Overdue(s, halt.nonce, next) && halt.deadline == s[halt.nonce].deadline && halt.next == next
  {
  }

  predicate IsLowest(s: Store, m: nat) {
    m in SubmittedNonces(s) && forall k :: k in SubmittedNonces(s) ==> m <= k
  }

  /** The deadline of the lowest submitted nonce is the earliest. */
  ghost predicate FirstIsEarliest(s: Store) {
    forall m, n :: IsLowest(s, m) && n in SubmittedNonces(s) ==> s[m].deadline <= s[n].deadline
  }

  ghost predicate ScansEverything(s: Store) {
    forall next: nat :: HaltCheck(s, next).Halt? <==> exists n :: Overdue(s, n, next)
  }

  lemma EarliestFirstScansAll(s: Store)
    requires FirstIsEarliest(s)
    ensures ScansEverything(s)
  {
    var first := FirstSubmitted(s);
    forall next: nat ensures HaltCheck(s, next).Halt? <==> exists n :: Overdue(s, n, next) {
      if exists n :: Overdue(s, n, next) {
        var n :| Overdue(s, n, next);
        assert s[first.value].deadline <= s[n].deadline;
      }
      if HaltCheck(s, next).Halt? {
        assert Overdue(s, first.value, next);
      }
    }
  }

  /** Stopping at the first submitted nonce is as good as scanning every record exactly when its
      deadline is the earliest. */
  lemma EarlyBreakExact(s: Store)
    ensures ScansEverything(s) <==> FirstIsEarliest(s)
  {
    if FirstIsEarliest(s) {
      EarliestFirstScansAll(s);
    }
    if ScansEverything(s) {
      forall m, n | IsLowest(s, m) && n in SubmittedNonces(s) ensures s[m].deadline <= s[n].deadline
      {
        assert HaltCheck(s, s[m].deadline) == Clear;
        assert !Overdue(s, n, s[m].deadline);
      }
    }
  }

  /** Nonces are tracked in order, but for those pruned on chain, and their deadlines follow. */
  ghost predicate Inv(t: Tracker) {
    && (forall m, n :: m in t.store && n < m ==> n in t.store || n < t.low)
    && (forall n :: n in SubmittedNonces(t.store) ==> t.store[n].deadline <= t.anchor)
    && (forall m, n :: m in SubmittedNonces(t.store) && n in SubmittedNonces(t.store) && m <= n ==>
          t.store[m].deadline <= t.store[n].deadline)
  }

  /** An entry pruned on chain stays pruned, and the deadline height handed out does not decrease. */
  predicate Legal(t: Tracker, ev: Event) {
    ev.Sync? ==>
      var p := ev.poll;
      && t.low <= p.low && p.included <= p.low
      && (forall n :: p.included <= n < p.next ==>
            (p.answer(n).Absent? ==> n < p.low) && (p.answer(n).Entry? ==> t.low <= n))
      && t.anchor <= Step(t, ev).anchor
  }

  predicate LegalRun(t: Tracker, evs: seq<Event>)
    decreases |evs|
  {
    evs == [] || (Legal(t, evs[0]) && LegalRun(Step(t, evs[0]), evs[1..]))
  }

  /** A sync leaves no gap but what is pruned. */
  lemma {:induction false} SyncFills(s: Store, n: nat, end: nat, answer: nat -> Read, deadline: nat, at: nat, m: nat)
    requires m in SyncFrom(s, n, end, answer, deadline, at).0 && m !in s
    ensures forall k :: n <= k < m ==> k in SyncFrom(s, n, end, answer, deadline, at).0 || answer(k).Absent?
    decreases end - n
  {
    SyncGrows(s, n, end, answer, deadline, at);
    if n < end {
      if n in s || answer(n).Absent? {
        SyncFills(s, n + 1, end, answer, deadline, at, m);
      } else if answer(n).Entry? {
        var s1 := s[n := Submitted(deadline, answer(n).deadlineMs, at, answer(n).tx)];
        SyncGrows(s1, n + 1, end, answer, deadline, at);
        if m != n {
          SyncFills(s1, n + 1, end, answer, deadline, at, m);
        }
      }
    }
  }

  /** A sync that meets no failed read tracks every nonce of the range that is not pruned; one that
      does stops at it. */
  lemma {:induction false} SyncTracksAll(s: Store, n: nat, end: nat, answer: nat -> Read, deadline: nat, at: nat)
    ensures var (s1, ok) := SyncFrom(s, n, end, answer, deadline, at);
      && (ok <==> forall k :: n <= k < end && k !in s ==> !answer(k).Failed?)
      && (ok ==> forall k :: n <= k < end ==> k in s1 || answer(k).Absent?)
    decreases end - n
  {
    if n < end {
      if n in s || answer(n).Absent? {
        SyncTracksAll(s, n + 1, end, answer, deadline, at);
        SyncGrows(s, n + 1, end, answer, deadline, at);
      } else if answer(n).Entry? {
        var s1 := s[n := Submitted(deadline, answer(n).deadlineMs, at, answer(n).tx)];
        SyncTracksAll(s1, n + 1, end, answer, deadline, at);
        SyncGrows(s1, n + 1, end, answer, deadline, at);
      }
    }
  }

  lemma SyncKeepsInv(t: Tracker, p: Poll)
    requires Inv(t) && Legal(t, Sync(p))
    ensures Inv(Step(t, Sync(p)))
  {
    var t1 := Step(t, Sync(p));
    SyncGrows(t.store, p.included, p.next, p.answer, t1.anchor, p.at);
    forall m, n | m in t1.store && n < m ensures n in t1.store || n < t1.low {
      if m !in t.store && p.included <= n {
        SyncFills(t.store, p.included, p.next, p.answer, t1.anchor, p.at, m);
      }
    }
    forall m, n | m in SubmittedNonces(t1.store) && n in SubmittedNonces(t1.store) && m <= n
      ensures t1.store[m].deadline <= t1.store[n].deadline
    {
      if m !in t.store {
        assert n in t.store ==> m < n;
      }
    }
  }

  lemma GrowKeepsInv(t: Tracker, s: Store)
    requires Inv(t) && Grows(t.store, s) && s.Keys == t.store.Keys
    ensures Inv(t.(store := s))
  {
  }

  lemma StepKeepsInv(t: Tracker, ev: Event)
    requires Inv(t) && Legal(t, ev)
    ensures Inv(Step(t, ev))
  {
    match ev
    case Sync(p) => SyncKeepsInv(t, p);
    case Block(height, txs) =>
      ObserveGrows(t.store, AscendingOf(t.store.Keys), height, txs);
      GrowKeepsInv(t, Step(t, ev).store);
    case Receipt(nonce, height) =>
      if MarkIncluded(t.store, nonce, height).Ok? {
        GrowKeepsInv(t, Step(t, ev).store);
      }
    case LoseFile =>
  }

  /** In every run in which the deadline height handed out does not decrease, the gate sees every
      overdue nonce. */
  lemma {:induction false} GateIsExact(t: Tracker, evs: seq<Event>, next: nat)
    requires Inv(t) && LegalRun(t, evs)
    ensures Inv(Run(t, evs))
    ensures HaltCheck(Run(t, evs).store, next).Clear? <==> forall n :: !Overdue(Run(t, evs).store, n, next)
    decreases |evs|
  {
    if evs == [] {
      EarlyBreakExact(t.store);
      assert FirstIsEarliest(t.store);
      assert ScansEverything(t.store);
    } else {
      StepKeepsInv(t, evs[0]);
      GateIsExact(Step(t, evs[0]), evs[1..], next);
    }
  }

  /** When it does decrease, as after a restart whose height gauge is still zero, a nonce can be overdue
      behind a gate that is clear. */
  lemma DecreasingAnchorHidesOverdue()
    ensures exists t: Tracker, evs: seq<Event>, next: nat, n: nat ::
              && Inv(t) && |evs| == 2 && evs[0].Sync? && evs[1].Sync?
              && Overdue(Run(t, evs).store, n, next) && HaltCheck(Run(t, evs).store, next) == Clear
  {
    var answer := (n: nat) => Entry(0, n);
    var t := Tracker(map[], 10, 0, 0);
    var evs := [Sync(Poll(0, 1, answer, 100, None, 0)), Sync(Poll(0, 2, answer, 0, None, 0))];
    var t1 := Step(t, evs[0]);
    assert t1.store == map[0 := Submitted(110, 0, 100, 0)];
    var t2 := Step(t1, evs[1]);
    assert t2.store == map[0 := Submitted(110, 0, 100, 0), 1 := Submitted(10, 0, 0, 1)];
    assert evs[1..] == [evs[1]] && evs[1..][1..] == [];
    assert Run(t, evs) == Run(t1, evs[1..]) == t2;
    assert 0 in SubmittedNonces(t2.store);
    assert Overdue(t2.store, 1, 50);
  }

  // ---------- the settle cursor ----------

  /** The cursor a settle is made with. */
  function SettleCursor(s: Store, onChain: nat): nat {
    Max(|IncludedNonces(s)|, onChain)
  }

  function Below(n: nat): (r: set<nat>)
    ensures forall k :: k in r <==> 0 <= k < n
    ensures |r| == n
  {
    if n == 0 then {} else Below(n - 1) + {n - 1}
  }

  lemma SubsetSize(a: set<nat>, b: set<nat>)
    requires a <= b
    ensures |a| <= |b| && (|a| == |b| ==> a == b)
  {
    if a != {} {
      var x :| x in a;
      SubsetSize(a - {x}, b - {x});
    }
  }

  predicate IsFirstMissing(landed: set<nat>, n: nat) {
    n !in landed && Below(n) <= landed
  }

  /** The count of the included nonces stays at or below the first one missing exactly when no nonce
      above it was included. */
  lemma CountsPrefixExactly(landed: set<nat>, first: nat)
    requires IsFirstMissing(landed, first)
    ensures |landed| <= first <==> landed == Below(first)
  {
    SubsetSize(Below(first), landed);
  }

  /** One settle: if what has landed is a prefix, the cursor stays within it, whatever markers are lost. */
  lemma CursorIsSafe(s: Store, landed: set<nat>, first: nat, onChain: nat)
    requires IsFirstMissing(landed, first) && landed == Below(first)
    requires IncludedNonces(s) <= landed && onChain <= first
    ensures onChain <= SettleCursor(s, onChain) <= first
  {
    SubsetSize(IncludedNonces(s), landed);
  }

  /** Out of order it does pass one, and the inbox contract then drops the entry that was never
      included, with its deadline. */
  lemma OutOfOrderDropsEntry(s: Store, first: nat, i: Deadline.Inbox, blockTs: nat)
    requires Deadline.Dense(i) && IsFirstMissing(IncludedNonces(s), first) && first in i.pending
    requires IncludedNonces(s) != Below(first)
    requires Deadline.EnforceSettle(i, blockTs, SettleCursor(s, i.includedCount)).Some?
    ensures first !in Deadline.EnforceSettle(i, blockTs, SettleCursor(s, i.includedCount)).value.pending
  {
    CountsPrefixExactly(IncludedNonces(s), first);
  }

  /** One settle after another: the store it is made from, which may have been lost meanwhile, and the
      block's timestamp. */
  function Settles(i: Deadline.Inbox, stores: seq<Store>, ts: seq<nat>): Deadline.Inbox
    requires |ts| == |stores|
    decreases |stores|
  {
    if stores == [] then i
    else
      match Deadline.EnforceSettle(i, ts[0], SettleCursor(stores[0], i.includedCount))
      case None => Settles(i, stores[1..], ts[1..])
      case Some(i1) => Settles(i1, stores[1..], ts[1..])
  }

  /** No settle is refused for moving the cursor back, and the accepted cursors never do. */
  lemma {:induction false} CursorNeverRegresses(i: Deadline.Inbox, stores: seq<Store>, ts: seq<nat>)
    requires |ts| == |stores|
    ensures i.includedCount <= Settles(i, stores, ts).includedCount
    ensures forall k :: 0 <= k <= |stores| ==>
              Settles(i, stores[..k], ts[..k]).includedCount <= Settles(i, stores, ts).includedCount
    decreases |stores|
  {
    if stores != [] {
      var i1 := match Deadline.EnforceSettle(i, ts[0], SettleCursor(stores[0], i.includedCount))
                case None => i case Some(next) => next;
      CursorNeverRegresses(i1, stores[1..], ts[1..]);
      forall k | 0 <= k <= |stores|
        ensures Settles(i, stores[..k], ts[..k]).includedCount <= Settles(i, stores, ts).includedCount
      {
        if k > 0 {
          assert stores[..k][1..] == stores[1..][..k - 1] && ts[..k][1..] == ts[1..][..k - 1];
        }
      }
    }
  }

  // ---------- the tracker itself ----------

  class InboxTracker {
    var store: Store
    var budget: nat

    /** Polls the inbox and records what is new before it enters the pool. */
    method SyncInbox(p: Poll) returns (ok: bool)
      modifies this
      ensures budget == if p.window.Some? then p.window.value else old(budget)
      ensures (store, ok) == SyncFrom(old(store), p.included, p.next, p.answer, SaturatingAdd(p.at, budget), p.at)
    {
      if p.window.Some? {
        budget := p.window.value;
      }
      var deadline := SaturatingAdd(p.at, budget);
      ghost var result := SyncFrom(store, p.included, p.next, p.answer, deadline, p.at);
      var n := p.included;
      while n < p.next
        invariant SyncFrom(store, n, p.next, p.answer, deadline, p.at) == result
        invariant budget == if p.window.Some? then p.window.value else old(budget)
      {
        if n !in store {
          match p.answer(n) {
            case Failed => return false;
            case Absent =>
            case Entry(deadlineMs, tx) =>
              var recorded := RecordSubmitted(store, n, Submitted(deadline, deadlineMs, p.at, tx));
              store := recorded.value;
          }
        }
        n := n + 1;
      }
      return true;
    }

    method ObserveTransactions(height: nat, txs: set<Tx>) returns (ok: bool)
      modifies `store
      ensures (store, ok) == Observe(old(store), height, txs)
    {
      var nonces := AscendingOf(store.Keys);
      ghost var result := ObserveFrom(store, nonces, height, txs);
      var i := 0;
      assert nonces[0..] == nonces;
      while i < |nonces|
        invariant 0 <= i <= |nonces|
        invariant ObserveFrom(store, nonces[i..], height, txs) == result
      {
        assert nonces[i..][1..] == nonces[i + 1..];
        if nonces[i] in store && store[nonces[i]].tx in txs {
          var marked := MarkIncluded(store, nonces[i], height);
          if marked.Err? { return false; }
          store := marked.value;
        }
        i := i + 1;
      }
      return true;
    }

    method GateCheck(next: nat) returns (check: Check)
      ensures check == HaltCheck(store, next)
    {
      var nonces := AscendingOf(store.Keys);
      var i := 0;
      assert nonces[0..] == nonces;
      while i < |nonces|
        invariant 0 <= i <= |nonces|
        invariant FirstIn(store, nonces[i..]) == FirstSubmitted(store)
      {
        assert nonces[i..][1..] == nonces[i + 1..];
        var n := nonces[i];
        if n in store && store[n].Submitted? {
          return if store[n].deadline < next then Halt(n, store[n].deadline, next) else Clear;
        }
        i := i + 1;
      }
      return Clear;
    }
  }

  /** One look of a waiting settlement: whether shutdown was seen first, and the records if readable. */
  datatype Look = Look(shutdown: bool, store: Option<Store>)

  /** The wait before a settle. It passes exactly at the first look that finds no shutdown and either a
      clear gate or unreadable records; `script` is what the looks find. */
  method WaitInclusionGate(script: seq<Look>, height: nat) returns (passed: bool, looks: nat)
    ensures looks <= |script|
    ensures passed ==> looks > 0 && !script[looks - 1].shutdown
    ensures passed ==> script[looks - 1].store == None || HaltCheck(script[looks - 1].store.value, height) == Clear
    ensures forall k :: 0 <= k < looks - 1 ==>
              !script[k].shutdown && script[k].store.Some? && HaltCheck(script[k].store.value, height).Halt?
    ensures !passed && looks < |script| ==> looks > 0 && script[looks - 1].shutdown
  {
    looks := 0;
    while looks < |script|
      invariant 0 <= looks <= |script|
      invariant forall k :: 0 <= k < looks ==>
                  !script[k].shutdown && script[k].store.Some? && HaltCheck(script[k].store.value, height).Halt?
    {
      var look := script[looks];
      looks := looks + 1;
      if look.shutdown { return false, looks; }
      if look.store == None || HaltCheck(look.store.value, height) == Clear { return true, looks; }
    }
    return false, looks;
  }
}
