/** The force-inclusion inbox on Sui and the full node's deadline monitor, which reads it in four
    separate round trips while settles and submits go on. */
module Deadline {
  import opened Wrappers

  // ---------- the inbox contract ----------

  /** `pending` maps each submitted-but-not-included nonce to its deadline. */
  datatype Inbox = Inbox(nextNonce: nat, includedCount: nat, lastSettledTs: nat, pending: map<nat, nat>)

  /** The inbox and the clock of one consensus instant. */
  datatype Chain = Chain(inbox: Inbox, clock: nat)

  datatype Action =
    | Submit(window: nat)
    | Settle(blockTs: nat, cursor: nat)
    | Wait(ms: nat)

  /** Smallest inclusion window the operator can set. */
  const MIN_WINDOW_MS: nat := 60_000

  /** Prunes the covered entries, then looks at the oldest one left; a refused settle changes nothing. */
  function EnforceSettle(i: Inbox, blockTs: nat, cursor: nat): Option<Inbox> {
    if cursor < i.includedCount || i.nextNonce < cursor || blockTs < i.lastSettledTs then None
    else
      var left := map n | n in i.pending && cursor <= n :: i.pending[n];
      if cursor in left && left[cursor] < blockTs then None
      else Some(Inbox(i.nextNonce, cursor, blockTs, left))
  }

  function Act(c: Chain, a: Action): Chain {
    match a
    case Submit(window) =>
      c.(inbox := c.inbox.(nextNonce := c.inbox.nextNonce + 1,
                           pending := c.inbox.pending[c.inbox.nextNonce := c.clock + window]))
    case Settle(blockTs, cursor) =>
      (match EnforceSettle(c.inbox, blockTs, cursor)
       case None => c
       case Some(i) => c.(inbox := i))
    case Wait(ms) => c.(clock := c.clock + ms)
  }

  function Oldest(i: Inbox): Option<nat> {
    if i.includedCount in i.pending then Some(i.pending[i.includedCount]) else None
  }

  /** Nonces are dense: exactly those from the cursor up to the next one are pending. */
  ghost predicate Dense(i: Inbox) {
    i.includedCount <= i.nextNonce && forall n :: n in i.pending <==> i.includedCount <= n < i.nextNonce
  }

  // ---------- the classification ----------

  datatype Status =
    | Active
    | Halted(nonce: nat, deadlineMs: nat)
    | Violated(nonce: nat, deadlineMs: nat, settledTsMs: nat)

  predicate IsHalted(s: Status) {
    s.Halted? || s.Violated?
  }

  datatype MonitorError = Transport | InconsistentSnapshot(attempts: nat)

  function Classify(nowMs: nat, marginMs: nat, i: Inbox, oldest: Option<nat>): Status {
    match oldest
    case None => Active
    case Some(deadline) =>
      if nowMs <= SaturatingAdd(deadline, marginMs) then Active
      else if i.lastSettledTs <= deadline then Halted(i.includedCount, deadline)
      else Violated(i.includedCount, deadline, i.lastSettledTs)
  }

  /** The verdict on one real state of the chain. */
  function Verdict(c: Chain, marginMs: nat): Status {
    Classify(c.clock, marginMs, c.inbox, Oldest(c.inbox))
  }

  // ---------- what a verdict must say of the chain ----------

  ghost predicate LowestPending(i: Inbox, n: nat) {
    n in i.pending && forall k :: k in i.pending ==> n <= k
  }

  /** The lowest pending transaction is overdue by more than the margin. */
  ghost predicate Overdue(c: Chain, marginMs: nat, n: nat) {
    LowestPending(c.inbox, n) && c.inbox.pending[n] + marginMs < c.clock
  }

  /** A status reports a halt exactly when the lowest pending transaction is overdue, naming it and its
      deadline, and a violation exactly when a block stamped after that deadline was settled. */
  ghost predicate Reports(s: Status, c: Chain, marginMs: nat) {
    && (s.Active? <==> forall n :: !Overdue(c, marginMs, n))
    && (!s.Active? ==> Overdue(c, marginMs, s.nonce) && s.deadlineMs == c.inbox.pending[s.nonce])
    && (s.Halted? ==> c.inbox.lastSettledTs <= s.deadlineMs)
    && (s.Violated? ==> s.deadlineMs < c.inbox.lastSettledTs == s.settledTsMs)
  }

  lemma VerdictReports(c: Chain, marginMs: nat)
    requires Dense(c.inbox) && c.clock <= U64_MAX
    ensures Reports(Verdict(c, marginMs), c, marginMs)
    ensures IsHalted(Verdict(c, marginMs)) <==> exists n :: Overdue(c, marginMs, n)
  {
    var lowest := c.inbox.includedCount;
    forall n | LowestPending(c.inbox, n) ensures n == lowest {
      assert lowest in c.inbox.pending;
    }
    assert lowest in c.inbox.pending ==> LowestPending(c.inbox, lowest);
    if !Verdict(c, marginMs).Active? {
      assert Overdue(c, marginMs, lowest);
    } else {
      forall n ensures !Overdue(c, marginMs, n) {
        assert LowestPending(c.inbox, n) ==> n == lowest;
      }
    }
  }

  // ---------- how the chain moves between two reads ----------

  /** Cursor, witness and clock never move back; a pending entry keeps its deadline; an entry that
      was submitted in between has a deadline no earlier than the clock it was submitted after. */
  ghost predicate Later(c0: Chain, c1: Chain) {
    && Dense(c0.inbox) && Dense(c1.inbox)
    && c0.clock <= c1.clock
    && c0.inbox.nextNonce <= c1.inbox.nextNonce
    && c0.inbox.includedCount <= c1.inbox.includedCount
    && c0.inbox.lastSettledTs <= c1.inbox.lastSettledTs
    && forall n :: n in c1.inbox.pending ==>
         (if n < c0.inbox.nextNonce then n in c0.inbox.pending && c0.inbox.pending[n] == c1.inbox.pending[n]
          else c0.clock <= c1.inbox.pending[n])
  }

  /** The states of one run of the contract. */
  ghost predicate IsRun(trace: seq<Chain>) {
    && trace != [] && Dense(trace[0].inbox)
    && (forall i :: 0 <= i < |trace| ==> trace[i].clock <= U64_MAX)
    && forall i, j :: 0 <= i && j == i + 1 && j < |trace| ==> Acts(trace[i], trace[j])
  }

  ghost predicate Acts(c0: Chain, c1: Chain) {
    exists a: Action :: c1 == Act(c0, a)
  }

  lemma ActIsLater(c: Chain, a: Action)
    requires Dense(c.inbox)
    ensures Later(c, Act(c, a))
  {
  }

  lemma ActsIsLater(c0: Chain, c1: Chain)
    requires Dense(c0.inbox) && Acts(c0, c1)
    ensures Later(c0, c1)
  {
    var a: Action :| c1 == Act(c0, a);
    ActIsLater(c0, a);
  }

  lemma LaterThen(c0: Chain, c1: Chain, c2: Chain)
    requires Later(c0, c1) && Later(c1, c2)
    ensures Later(c0, c2)
  {
  }

  lemma {:induction false} RunStaysDense(trace: seq<Chain>, i: nat)
    requires IsRun(trace) && i < |trace|
    ensures Dense(trace[i].inbox)
  {
    if i > 0 {
      RunStaysDense(trace, i - 1);
      ActsIsLater(trace[i - 1], trace[i]);
    }
  }

  lemma {:induction false} RunIsLater(trace: seq<Chain>, i: nat, j: nat)
    requires IsRun(trace) && i <= j < |trace|
    ensures Later(trace[i], trace[j])
    decreases j
  {
    RunStaysDense(trace, i);
    if i < j {
      RunIsLater(trace, i, j - 1);
      ActsIsLater(trace[j - 1], trace[j]);
      LaterThen(trace[i], trace[j - 1], trace[j]);
    }
  }

  /** A halt read at four different instants is the verdict at the second of them, when the inbox read
      last agrees with the one read first on cursor and witness. */
  lemma ConfirmedHaltIsReal(c0: Chain, c1: Chain, c2: Chain, c3: Chain, marginMs: nat)
    requires Later(c0, c1) && Later(c1, c2) && Later(c2, c3)
    requires c1.clock <= U64_MAX
    requires c0.inbox.includedCount == c3.inbox.includedCount
    requires c0.inbox.lastSettledTs == c3.inbox.lastSettledTs
    ensures var oldest := if c0.inbox.includedCount in c2.inbox.pending
                          then Some(c2.inbox.pending[c0.inbox.includedCount]) else None;
            Classify(c1.clock, marginMs, c0.inbox, oldest) == Verdict(c1, marginMs)
  {
  }

  // ---------- the monitor ----------

  /** Reads made before a halt is reported as unconfirmed. */
  const CONFIRM_LIMIT: nat := 3

  /** Whether the reads of attempt `i` straddle no settle: cursor and witness are the same at the
      first and at the last of them. */
  ghost predicate Quiet(trace: seq<Chain>, at: nat -> nat, i: nat)
    requires at(4 * i) < |trace| && at(4 * i + 3) < |trace|
  {
    && trace[at(4 * i)].inbox.includedCount == trace[at(4 * i + 3)].inbox.includedCount
    && trace[at(4 * i)].inbox.lastSettledTs == trace[at(4 * i + 3)].inbox.lastSettledTs
  }

  /** The reads of one poll: read `k` sees the chain as of `trace[at(k)]`. */
  ghost predicate Schedule(trace: seq<Chain>, at: nat -> nat) {
    (forall k: nat :: at(k) < |trace|) && forall j: nat, k: nat :: j <= k ==> at(j) <= at(k)
  }

  lemma AttemptIsReal(trace: seq<Chain>, at: nat -> nat, i: nat, marginMs: nat)
    requires IsRun(trace) && Schedule(trace, at) && Quiet(trace, at, i)
    ensures var c0, c1, c2 := trace[at(4 * i)], trace[at(4 * i + 1)], trace[at(4 * i + 2)];
            var oldest := if c0.inbox.includedCount in c2.inbox.pending
                          then Some(c2.inbox.pending[c0.inbox.includedCount]) else None;
            Classify(c1.clock, marginMs, c0.inbox, oldest) == Verdict(c1, marginMs)
    ensures var c1 := trace[at(4 * i + 1)];
            && Reports(Verdict(c1, marginMs), c1, marginMs)
            && (IsHalted(Verdict(c1, marginMs)) <==> exists n :: Overdue(c1, marginMs, n))
  {
    RunStaysDense(trace, at(4 * i + 1));
    VerdictReports(trace[at(4 * i + 1)], marginMs);
    RunIsLater(trace, at(4 * i), at(4 * i + 1));
    RunIsLater(trace, at(4 * i + 1), at(4 * i + 2));
    RunIsLater(trace, at(4 * i + 2), at(4 * i + 3));
    ConfirmedHaltIsReal(trace[at(4 * i)], trace[at(4 * i + 1)], trace[at(4 * i + 2)], trace[at(4 * i + 3)], marginMs);
  }

  /** One poll of the monitor. `fails(k)` says whether read `k` fails. A halt it returns is true of the
      chain at the instant one of its clock reads saw; a poll whose first reads straddle no settle
      reports exactly what that chain is; and it gives up only after a settle in every attempt. */
  method PollStatus(trace: seq<Chain>, at: nat -> nat, fails: nat -> bool, marginMs: nat)
    returns (r: Result<Status, MonitorError>)
    requires IsRun(trace) && Schedule(trace, at)
    ensures r.Ok? && IsHalted(r.value) ==>
              exists i: nat :: i < CONFIRM_LIMIT && Quiet(trace, at, i) &&
                               r.value == Verdict(trace[at(4 * i + 1)], marginMs) &&
                               Reports(r.value, trace[at(4 * i + 1)], marginMs)
    ensures Quiet(trace, at, 0) && (forall k: nat :: k < 4 ==> !fails(k)) ==>
              && r == Ok(Verdict(trace[at(1)], marginMs))
              && Reports(r.value, trace[at(1)], marginMs)
              && (IsHalted(r.value) <==> exists n :: Overdue(trace[at(1)], marginMs, n))
    ensures r.Err? && r.error.InconsistentSnapshot? ==>
              r.error.attempts == CONFIRM_LIMIT && forall i: nat :: i < CONFIRM_LIMIT ==> !Quiet(trace, at, i)
    ensures r == Err(Transport) ==> exists k: nat :: k < 4 * CONFIRM_LIMIT && fails(k)
  {
    var attempt := 0;
    while attempt < CONFIRM_LIMIT
      invariant attempt <= CONFIRM_LIMIT
      invariant forall i: nat :: i < attempt ==> !Quiet(trace, at, i)
    {
      if fails(4 * attempt) { return Err(Transport); }
      var inbox := trace[at(4 * attempt)].inbox;
      if fails(4 * attempt + 1) { return Err(Transport); }
      var now := trace[at(4 * attempt + 1)].clock;
      if fails(4 * attempt + 2) { return Err(Transport); }
      var table := trace[at(4 * attempt + 2)].inbox.pending;
      var oldest := if inbox.includedCount in table then Some(table[inbox.includedCount]) else None;
      var status := Classify(now, marginMs, inbox, oldest);
      if Quiet(trace, at, attempt) {
        AttemptIsReal(trace, at, attempt, marginMs);
      }
      if !IsHalted(status) { return Ok(status); }
      if fails(4 * attempt + 3) { return Err(Transport); }
      var confirm := trace[at(4 * attempt + 3)].inbox;
      if confirm.includedCount == inbox.includedCount && confirm.lastSettledTs == inbox.lastSettledTs {
        return Ok(status);
      }
      attempt := attempt + 1;
    }
    return Err(InconsistentSnapshot(CONFIRM_LIMIT));
  }

  // ---------- when the violation alarm can ring ----------

  /** The oldest pending deadline is not behind the settlement witness. */
  ghost predicate GateHeld(i: Inbox) {
    Oldest(i).Some? ==> i.lastSettledTs <= Oldest(i).value
  }

  lemma GateHeldIsNotViolated(c: Chain, marginMs: nat)
    requires GateHeld(c.inbox)
    ensures !Verdict(c, marginMs).Violated?
  {
  }

  /** The contract keeps the gate except in one case: a submit into an empty inbox while the last
      settled block is stamped after the new deadline. */
  lemma GateKeptExactly(c: Chain, a: Action)
    requires Dense(c.inbox) && GateHeld(c.inbox)
    ensures GateHeld(Act(c, a).inbox) <==>
            !(a.Submit? && Oldest(c.inbox) == None && c.clock + a.window < c.inbox.lastSettledTs)
  {
  }

  function RunActions(c: Chain, acts: seq<Action>): Chain
    decreases |acts|
  {
    if acts == [] then c else RunActions(Act(c, acts[0]), acts[1..])
  }

  /** Every settle is stamped at most one smallest window after the clock it runs at, and every submit
      is given at least the smallest window. */
  ghost predicate StampsInTime(c: Chain, acts: seq<Action>)
    decreases |acts|
  {
    acts == [] ||
    (&& (acts[0].Settle? ==> acts[0].blockTs <= c.clock + MIN_WINDOW_MS)
     && (acts[0].Submit? ==> MIN_WINDOW_MS <= acts[0].window)
     && StampsInTime(Act(c, acts[0]), acts[1..]))
  }

  /** With such stamps the violation alarm never rings, over any run of the contract. */
  lemma {:induction false} NoViolationInTime(c: Chain, acts: seq<Action>, marginMs: nat)
    requires Dense(c.inbox) && GateHeld(c.inbox) && c.inbox.lastSettledTs <= c.clock + MIN_WINDOW_MS
    requires StampsInTime(c, acts)
    ensures !Verdict(RunActions(c, acts), marginMs).Violated?
    decreases |acts|
  {
    if acts == [] {
      GateHeldIsNotViolated(c, marginMs);
    } else {
      GateKeptExactly(c, acts[0]);
      ActIsLater(c, acts[0]);
      NoViolationInTime(Act(c, acts[0]), acts[1..], marginMs);
    }
  }

  /** The alarm is reachable without any fault in the contract: a block stamped ahead of the clock,
      then a submit, then the wait for its deadline. */
  lemma ViolationWithoutFault()
    ensures var acts := [Settle(200_000, 0), Submit(MIN_WINDOW_MS), Wait(70_000)];
            var start := Chain(Inbox(0, 0, 0, map[]), 0);
            GateHeld(start.inbox) && Verdict(RunActions(start, acts), 1_000) == Violated(0, 60_000, 200_000)
  {
    var start := Chain(Inbox(0, 0, 0, map[]), 0);
    var a0, a1, a2 := Settle(200_000, 0), Submit(MIN_WINDOW_MS), Wait(70_000);
    var c1 := Act(start, a0);
    assert EnforceSettle(start.inbox, 200_000, 0) == Some(Inbox(0, 0, 200_000, map[]));
    var c2 := Act(c1, a1);
    var c3 := Act(c2, a2);
    assert [a0, a1, a2][1..] == [a1, a2] && [a1, a2][1..] == [a2] && [a2][1..] == [];
    assert RunActions(c2, [a2]) == RunActions(c3, []);
    assert RunActions(c1, [a1, a2]) == c3;
  }

  /** A transaction submitted to an empty inbox and not included in time halts: what a full node pauses
      for. */
  lemma SubmitThenWaitHalts(c: Chain, window: nat, ms: nat, marginMs: nat)
    requires Dense(c.inbox) && c.inbox.pending == map[]
    requires c.inbox.lastSettledTs <= c.clock + window && c.clock + ms <= U64_MAX
    ensures var end := RunActions(c, [Submit(window), Wait(ms)]);
      Verdict(end, marginMs) ==
      if window + marginMs < ms then Halted(c.inbox.nextNonce, c.clock + window) else Active
  {
    var c1 := Act(c, Submit(window));
    var c2 := Act(c1, Wait(ms));
    assert [Submit(window), Wait(ms)][1..] == [Wait(ms)] && [Wait(ms)][1..] == [];
    assert RunActions(c1, [Wait(ms)]) == RunActions(c2, []);
    assert c.inbox.includedCount == c.inbox.nextNonce by {
      assert c.inbox.includedCount !in c.inbox.pending;
    }
  }

  // ---------- how block stamps get ahead of the clock ----------

  /** The sequencer's next block timestamp, in seconds. */
  function NextTimestamp(previous: nat, now: nat): nat {
    Max(previous, now) + 1
  }

  function StampAfter(previous: nat, clocks: seq<nat>): nat
    decreases |clocks|
  {
    if clocks == [] then previous else StampAfter(NextTimestamp(previous, clocks[0]), clocks[1..])
  }

  /** Block stamps follow the clock exactly while it gains a second between blocks, but they gain a
      second a block however little the clock moves, so faster blocks are stamped ahead of it. */
  lemma {:induction false} StampsAgainstClock(previous: nat, clocks: seq<nat>)
    requires clocks != []
    ensures previous + |clocks| <= StampAfter(previous, clocks)
    ensures previous <= clocks[0] && (forall i :: 0 < i < |clocks| ==> clocks[i - 1] < clocks[i]) ==>
              StampAfter(previous, clocks) == clocks[|clocks| - 1] + 1
    decreases |clocks|
  {
    var next := NextTimestamp(previous, clocks[0]);
    if |clocks| == 1 {
      assert StampAfter(next, clocks[1..]) == next;
    } else {
      StampsAgainstClock(next, clocks[1..]);
      assert clocks[1..][0] == clocks[1];
    }
  }
}
