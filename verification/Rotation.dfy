/** Rotation of the sequencer's Sui key: two on-chain authority records, the roles and the plan a watcher
    folds from three separate reads, the transactions it sends, which may land late, and the swap of
    the node's signers. */
module Rotation {
  import opened Wrappers

  type Address = nat

  datatype Previous = Previous(addr: Address, until: nat)

  datatype Pending = Pending(to: Address, eligibleAt: nat)

  datatype Record = Record(authority: Address, prev: Option<Previous>, pending: Option<Pending>)

  const CLAIM_WINDOW_MS: nat := 604_800_000
  const PREV_GRACE_MS: nat := 600_000
  const MIN_DELAY_MS: nat := 600_000
  const MAX_DELAY_MS: nat := 604_800_000

  // ---------- the contract ----------

  predicate InGrace(r: Record, addr: Address, now: nat) {
    r.prev.Some? && r.prev.value.addr == addr && now <= r.prev.value.until
  }

  predicate CanAct(r: Record, sender: Address, now: nat) {
    sender == r.authority || InGrace(r, sender, now)
  }

  datatype Call = Request(to: Address, delay: nat) | Cancel | Claim | Retire

  predicate Claimable(r: Record, sender: Address, now: nat) {
    && r.pending.Some? && sender == r.pending.value.to
    && r.pending.value.eligibleAt <= now <= r.pending.value.eligibleAt + CLAIM_WINDOW_MS
  }

  /** One call on one record; a request is made with the steering capability, whoever sends it. */
  function Exec(r: Record, call: Call, sender: Address, now: nat): Option<Record> {
    match call
    case Request(to, delay) =>
      if MIN_DELAY_MS <= delay <= MAX_DELAY_MS then Some(r.(pending := Some(Pending(to, now + delay)))) else None
    case Cancel => if sender == r.authority && r.pending.Some? then Some(r.(pending := None)) else None
    case Claim =>
      if Claimable(r, sender, now) then Some(Record(sender, Some(Previous(r.authority, now + PREV_GRACE_MS)), None))
      else None
    case Retire => if sender == r.authority && r.prev.Some? then Some(r.(prev := None)) else None
  }

  datatype Chain = Chain(now: nat, settlement: Record, vault: Record)

  datatype Target = Both | OnlySettlement | OnlyVault

  predicate Executes(c: Chain, call: Call, sender: Address) {
    Exec(c.settlement, call, sender, c.now).Some? && Exec(c.vault, call, sender, c.now).Some?
  }

  /** A transaction calls both records or one of them, and aborts as a whole. */
  function Transact(c: Chain, target: Target, call: Call, sender: Address): Chain {
    var a, b := Exec(c.settlement, call, sender, c.now), Exec(c.vault, call, sender, c.now);
    match target
    case Both => if Executes(c, call, sender) then c.(settlement := a.value, vault := b.value) else c
    case OnlySettlement => if a.Some? then c.(settlement := a.value) else c
    case OnlyVault => if b.Some? then c.(vault := b.value) else c
  }

  // ---------- roles and plans ----------

  datatype Role =
    | Active
    | WaitingClaim(eligibleAt: nat)
    | ClaimReady
    | AdoptRole(prevUntil: nat)
    | StagedIsAuthority
    | MisconfiguredRole

  datatype Plan = Idle | DoClaim | DoAdopt | DoRetire | Misconfigured

  /** `active` is the address of the configured key, `staged` that of the key to rotate to. */
  datatype Keys = Keys(active: Address, staged: Address, quiet: nat)

  function DeriveRole(r: Record, now: nat, k: Keys): Role {
    if r.authority == k.staged then
      if InGrace(r, k.active, now) then AdoptRole(r.prev.value.until) else StagedIsAuthority
    else if r.authority == k.active then
      if r.pending.Some? && r.pending.value.to == k.staged && now < r.pending.value.eligibleAt then
        WaitingClaim(r.pending.value.eligibleAt)
      else if r.pending.Some? && r.pending.value.to == k.staged &&
              now <= SaturatingAdd(r.pending.value.eligibleAt, CLAIM_WINDOW_MS) then ClaimReady
      else Active
    else MisconfiguredRole
  }

  function PlanFor(settlement: Record, vault: Record, now: nat, k: Keys): Plan {
    var a, b := DeriveRole(settlement, now, k), DeriveRole(vault, now, k);
    if a.MisconfiguredRole? || b.MisconfiguredRole? then Misconfigured
    else if a.ClaimReady? && b.ClaimReady? then DoClaim
    else if a.AdoptRole? && b.AdoptRole? then DoAdopt
    else if a.StagedIsAuthority? && b.StagedIsAuthority? then
      if settlement.prev.Some? || vault.prev.Some? then DoRetire else Idle
    else if (a.Active? && b.Active?) || (a.WaitingClaim? && b.WaitingClaim?) then Idle
    else Misconfigured
  }

  // ---------- the node ----------

  /** The relayer's Sui client: still to be built, built but not yet shared with the watcher, or shared. */
  datatype Bridge = Absent | Built(key: Address) | Live(key: Address)

  datatype Node = Node(signer: Address, holder: Option<Address>, adoptedAt: Option<nat>, bridge: Bridge)

  /** A process starts with the signers of the key file, which holds the configured key. */
  function Started(k: Keys): Node {
    Node(k.active, None, None, Absent)
  }

  /** The key is recorded first, then every signer there is swapped. */
  function SwapSigners(n: Node, k: Keys, now: nat): Node {
    Node(k.staged, Some(k.staged), Some(now), if n.bridge.Live? then Live(k.staged) else n.bridge)
  }

  predicate RetireReady(n: Node, k: Keys, now: nat) {
    n.adoptedAt.Some? && n.adoptedAt.value + k.quiet <= now
  }

  /** At most one step: the node after it, and the transaction it sends. */
  function Apply(n: Node, k: Keys, plan: Plan, now: nat): (Node, Option<Call>) {
    match plan
    case Idle => (n, None)
    case Misconfigured => (n, None)
    case DoClaim => (n, Some(Claim))
    case DoAdopt =>
      if n.adoptedAt == None then (SwapSigners(n, k, now), None)
      else (n, if RetireReady(n, k, now) then Some(Retire) else None)
    case DoRetire => if n.adoptedAt == None then (SwapSigners(n, k, now), None) else (n, Some(Retire))
  }

  function Build(n: Node, k: Keys): Node {
    if n.bridge.Absent? then n.(bridge := Built(if n.holder.Some? then n.holder.value else k.active)) else n
  }

  function Share(n: Node): Node {
    if n.bridge.Built? then n.(bridge := Live(n.bridge.key)) else n
  }

  // ---------- node and chain together ----------

  /** How far a poll has got: the records it has read, then the time its clock read gave. */
  datatype Watch =
    | Resting
    | ReadOne(settlement: Record)
    | ReadTwo(settlement: Record, vault: Record)
    | Planned(settlement: Record, vault: Record, at: nat)

  /** Own transactions whose answer was lost and that may still land; `stale` are the retires of an
      earlier process. */
  datatype Pool = Pool(claims: nat, retires: nat, stale: nat)

  datatype Late = LateClaim | LateRetire | StaleRetire

  datatype State = State(chain: Chain, node: Node, watch: Watch, pool: Pool)

  datatype Event =
    | ReadSettlement
    | ReadVault
    | ReadClock
    | FailRead
    | Act(net: Net)
    | Land(late: Late)
    | Outside(target: Target, sender: Address, call: Call)
    | Advance(ms: nat)
    | Crash
    | BridgeBuild
    | BridgeShare

  function PlanOf(w: Watch, k: Keys): Plan {
    if w.Planned? then PlanFor(w.settlement, w.vault, w.at, k) else Idle
  }

  function Pooled(p: Pool, call: Call): Pool {
    if call == Claim then p.(claims := p.claims + 1) else p.(retires := p.retires + 1)
  }

  predicate IsLate(p: Pool, late: Late) {
    match late
    case LateClaim => p.claims > 0
    case LateRetire => p.retires > 0
    case StaleRetire => p.stale > 0
  }

  function Without(p: Pool, late: Late): Pool
    requires IsLate(p, late)
  {
    match late
    case LateClaim => p.(claims := p.claims - 1)
    case LateRetire => p.(retires := p.retires - 1)
    case StaleRetire => p.(stale := p.stale - 1)
  }

  function Sent(s: State, k: Keys): Option<Call> {
    Apply(s.node, k, PlanOf(s.watch, k), s.chain.now).1
  }

  /** The own transaction that reaches the chain in this event. */
  function Lands(s: State, k: Keys, ev: Event): Option<Call> {
    match ev
    case Act(net) => if net == Delivered then Sent(s, k) else None
    case Land(late) => if !IsLate(s.pool, late) then None else if late == LateClaim then Some(Claim) else Some(Retire)
    case _ => None
  }

  function OwnTransaction(c: Chain, k: Keys, call: Option<Call>): Chain {
    if call.Some? then Transact(c, Both, call.value, k.staged) else c
  }

  function Step(s: State, k: Keys, ev: Event): State {
    match ev
    case ReadSettlement => if s.watch.Resting? then s.(watch := ReadOne(s.chain.settlement)) else s
    case ReadVault => if s.watch.ReadOne? then s.(watch := ReadTwo(s.watch.settlement, s.chain.vault)) else s
    case ReadClock =>
      if s.watch.ReadTwo? then s.(watch := Planned(s.watch.settlement, s.watch.vault, s.chain.now)) else s
    case FailRead => if s.watch.Planned? then s else s.(watch := Resting)
    case Act(net) =>
      State(OwnTransaction(s.chain, k, Lands(s, k, ev)), Apply(s.node, k, PlanOf(s.watch, k), s.chain.now).0,
            if s.watch.Planned? then Resting else s.watch,
            if net == ReplyLost && Sent(s, k).Some? then Pooled(s.pool, Sent(s, k).value) else s.pool)
    case Land(late) =>
      if IsLate(s.pool, late) then
        s.(chain := OwnTransaction(s.chain, k, Lands(s, k, ev)), pool := Without(s.pool, late))
      else s
    case Outside(target, sender, call) => s.(chain := Transact(s.chain, target, call, sender))
    case Advance(ms) => s.(chain := s.chain.(now := s.chain.now + ms))
    case Crash => State(s.chain, Started(k), Resting, Pool(s.pool.claims, 0, s.pool.stale + s.pool.retires))
    case BridgeBuild => s.(node := Build(s.node, k))
    case BridgeShare => s.(node := Share(s.node))
  }

  function Run(s: State, k: Keys, evs: seq<Event>): State
    decreases |evs|
  {
    if evs == [] then s else Run(Step(s, k, evs[0]), k, evs[1..])
  }

  lemma {:induction false} RunConcat(s: State, k: Keys, a: seq<Event>, b: seq<Event>)
    ensures Run(s, k, a + b) == Run(Run(s, k, a), k, b)
    decreases |a|
  {
    if a == [] {
      assert a + b == b;
    } else {
      RunConcat(Step(s, k, a[0]), k, a[1..], b);
      assert (a + b)[1..] == a[1..] + b;
    }
  }

  lemma RunOne(s: State, k: Keys, ev: Event)
    ensures Run(s, k, [ev]) == Step(s, k, ev)
  {
    assert [ev][1..] == [];
  }

  /** A read out of its turn changes nothing, and neither does a failed read after the last. */
  lemma OutOfTurn(s: State, k: Keys)
    ensures !s.watch.Resting? ==> Step(s, k, ReadSettlement) == s
    ensures !s.watch.ReadOne? ==> Step(s, k, ReadVault) == s
    ensures !s.watch.ReadTwo? ==> Step(s, k, ReadClock) == s
    ensures s.watch.Planned? ==> Step(s, k, FailRead) == s
  {
  }

  /** A late transaction lands once: each landing takes one of its kind from those under way, and with
      none left nothing lands. The process notices nothing of it. */
  lemma LandsOnce(s: State, k: Keys, late: Late)
    ensures var s1 := Step(s, k, Land(late));
      && s1.node == s.node && s1.watch == s.watch
      && (!IsLate(s.pool, late) ==> s1 == s)
      && (IsLate(s.pool, late) ==>
            && s1.pool.claims + (if late == LateClaim then 1 else 0) == s.pool.claims
            && s1.pool.retires + (if late == LateRetire then 1 else 0) == s.pool.retires
            && s1.pool.stale + (if late == StaleRetire then 1 else 0) == s.pool.stale
            && s1.chain == Transact(s.chain, Both, if late == LateClaim then Claim else Retire, k.staged))
  {
  }

  // ---------- what the contract grants ----------

  /** A request within bounds lets its target, and nobody else, claim from the end of the delay for one
      claim window; any other request aborts. */
  lemma RequestThenClaim(r: Record, to: Address, delay: nat, now: nat, sender: Address, claimer: Address, later: nat)
    ensures Exec(r, Request(to, delay), sender, now).Some? <==> MIN_DELAY_MS <= delay <= MAX_DELAY_MS
    ensures Exec(r, Request(to, delay), sender, now).Some? ==>
              var r1 := Exec(r, Request(to, delay), sender, now).value;
              && r1.authority == r.authority && r1.prev == r.prev
              && (Exec(r1, Claim, claimer, later).Some? <==>
                  claimer == to && now + delay <= later <= now + delay + CLAIM_WINDOW_MS)
  {
  }

  /** A claim hands authority over: the claimer may act from then on, the authority before for one grace
      period, nobody else, and no claim is left. */
  lemma ClaimHandsOver(r: Record, sender: Address, now: nat, who: Address, later: nat)
    requires Exec(r, Claim, sender, now).Some?
    ensures var r1 := Exec(r, Claim, sender, now).value;
      && (CanAct(r1, who, later) <==> who == sender || (who == r.authority && later <= now + PREV_GRACE_MS))
      && Exec(r1, Claim, who, later) == None
  {
  }

  /** Only the authority cancels a request, and then nobody can claim it; only the authority retires the
      one before it, and then only the authority may act. */
  lemma CancelAndRetire(r: Record, sender: Address, now: nat, who: Address, later: nat)
    ensures Exec(r, Cancel, sender, now).Some? <==> sender == r.authority && r.pending.Some?
    ensures Exec(r, Cancel, sender, now).Some? ==>
              var r1 := Exec(r, Cancel, sender, now).value;
              Exec(r1, Claim, who, later) == None && (CanAct(r1, who, later) <==> CanAct(r, who, later))
    ensures Exec(r, Retire, sender, now).Some? <==> sender == r.authority && r.prev.Some?
    ensures Exec(r, Retire, sender, now).Some? ==>
              var r1 := Exec(r, Retire, sender, now).value;
              (CanAct(r1, who, later) <==> who == sender) && r1.pending == r.pending
  {
  }

  /** A transaction on both records takes effect on both or on neither, one on a single record on that
      one alone; none moves the clock. */
  lemma TransactExactly(c: Chain, target: Target, call: Call, sender: Address)
    ensures var c1 := Transact(c, target, call, sender);
      var a, b := Exec(c.settlement, call, sender, c.now), Exec(c.vault, call, sender, c.now);
      && c1.now == c.now
      && (target == OnlySettlement ==> c1.vault == c.vault && (a.Some? ==> c1.settlement == a.value))
      && (target == OnlyVault ==> c1.settlement == c.settlement && (b.Some? ==> c1.vault == b.value))
      && (target == Both && a.Some? && b.Some? ==> c1.settlement == a.value && c1.vault == b.value)
      && ((if target == Both then a == None || b == None else if target == OnlySettlement then a == None else b == None)
          ==> c1 == c)
  {
  }

  /** What the watcher plans for two equal records, in terms of what the contract would let its keys do. */
  lemma PlanExactly(r: Record, now: nat, k: Keys)
    requires k.active != k.staged && (r.pending.Some? ==> r.pending.value.eligibleAt + CLAIM_WINDOW_MS <= U64_MAX)
    ensures var plan := PlanFor(r, r, now, k);
      && (plan == DoClaim <==> r.authority == k.active && Exec(r, Claim, k.staged, now).Some?)
      && (plan == DoAdopt <==> r.authority == k.staged && CanAct(r, k.active, now))
      && (plan == DoRetire <==> !CanAct(r, k.active, now) && Exec(r, Retire, k.staged, now).Some?)
      && (plan == Misconfigured <==> r.authority != k.active && r.authority != k.staged)
  {
  }

  /** A role that waits for something names the instant: the first at which the staged key may claim, or
      the last at which the configured key may act. */
  lemma RoleNamesInstant(r: Record, now: nat, k: Keys, later: nat)
    requires k.active != k.staged
    ensures var role := DeriveRole(r, now, k);
      && (role.WaitingClaim? ==>
            now < role.eligibleAt &&
            (Exec(r, Claim, k.staged, later).Some? <==>
             role.eligibleAt <= later <= role.eligibleAt + CLAIM_WINDOW_MS))
      && (role.AdoptRole? ==> now <= role.prevUntil && (CanAct(r, k.active, later) <==> later <= role.prevUntil))
  {
  }

  /** A crash calls nothing back: what may still land stays under way, the retires as those of an earlier
      process, and the new one starts on the configured key. */
  lemma CrashCallsNothingBack(s: State, k: Keys)
    ensures var s1 := Step(s, k, Crash);
      && s1.chain == s.chain && s1.watch.Resting? && s1.node == Started(k)
      && s1.pool.claims == s.pool.claims && s1.pool.retires == 0
      && s1.pool.stale == s.pool.retires + s.pool.stale
  {
  }

  /** A record changed by somebody's claim is that party's from then on, and other calls of one without
      authority change no record but by a request. */
  lemma OutsiderNeedsAuthority(s: State, k: Keys, target: Target, sender: Address, call: Call)
    ensures var s1 := Step(s, k, Outside(target, sender, call));
      && s1 == s.(chain := s1.chain) && s1.chain.now == s.chain.now
      && (s1.chain.settlement != s.chain.settlement ==>
            call.Request? || (if call == Claim then s1.chain.settlement.authority == sender
                              else s.chain.settlement.authority == sender))
      && (s1.chain.vault != s.chain.vault ==>
            call.Request? || (if call == Claim then s1.chain.vault.authority == sender
                              else s.chain.vault.authority == sender))
  {
  }

  // ---------- agreement of the two records ----------

  /** The same authority, and the same previous one. */
  predicate Aligned(c: Chain) {
    c.settlement.authority == c.vault.authority && c.settlement.prev == c.vault.prev
  }

  predicate InStep(c: Chain) {
    c.settlement == c.vault
  }

  /** Others may request and cancel on one record alone, but claim and retire on both. */
  predicate ClaimsJointly(ev: Event) {
    ev.Outside? && (ev.call.Claim? || ev.call.Retire?) ==> ev.target == Both
  }

  predicate ActsJointly(ev: Event) {
    ev.Outside? ==> ev.target == Both
  }

  /** Late transactions, crashes and steering of one record alone never make the two disagree about who
      holds authority; with joint steering they do not disagree at all. */
  lemma {:induction false} StayAligned(s: State, k: Keys, evs: seq<Event>)
    requires forall i :: 0 <= i < |evs| ==> ClaimsJointly(evs[i])
    ensures Aligned(s.chain) ==> Aligned(Run(s, k, evs).chain)
    ensures InStep(s.chain) && (forall i :: 0 <= i < |evs| ==> ActsJointly(evs[i])) ==> InStep(Run(s, k, evs).chain)
    decreases |evs|
  {
    if evs != [] {
      assert forall i :: 0 <= i < |evs[1..]| ==> evs[1..][i] == evs[i + 1];
      StayAligned(Step(s, k, evs[0]), k, evs[1..]);
      StepStaysAligned(s, k, evs[0]);
    }
  }

  lemma StepStaysAligned(s: State, k: Keys, ev: Event)
    requires ClaimsJointly(ev)
    ensures Aligned(s.chain) ==> Aligned(Step(s, k, ev).chain)
    ensures InStep(s.chain) && ActsJointly(ev) ==> InStep(Step(s, k, ev).chain)
  {
  }

  // ---------- when the watcher refuses ----------

  predicate ForeignAuthority(r: Record, k: Keys) {
    r.authority != k.active && r.authority != k.staged
  }

  /** The two records put the node in different roles at one time. */
  predicate RoleDiffers(r0: Record, r1: Record, now: nat, k: Keys) {
    var a, b := DeriveRole(r0, now, k), DeriveRole(r1, now, k);
    || a.Active? != b.Active? || a.WaitingClaim? != b.WaitingClaim? || a.ClaimReady? != b.ClaimReady?
    || a.AdoptRole? != b.AdoptRole? || a.StagedIsAuthority? != b.StagedIsAuthority?
  }

  /** What happens between two reads of one poll. */
  predicate Between(evs: seq<Event>) {
    forall i :: 0 <= i < |evs| ==>
      evs[i].Land? || evs[i].Outside? || evs[i].Advance? || evs[i].BridgeBuild? || evs[i].BridgeShare?
  }

  function Poll(mid1: seq<Event>, mid2: seq<Event>): seq<Event> {
    [ReadSettlement] + mid1 + [ReadVault] + mid2 + [ReadClock]
  }

  lemma {:induction false} BetweenKeepsWatch(s: State, k: Keys, evs: seq<Event>)
    requires Between(evs)
    ensures Run(s, k, evs).watch == s.watch
    decreases |evs|
  {
    if evs != [] {
      assert forall i :: 0 <= i < |evs[1..]| ==> evs[1..][i] == evs[i + 1];
      BetweenKeepsWatch(Step(s, k, evs[0]), k, evs[1..]);
    }
  }

  /** The chain does not depend on how far the poll has got while nothing is acted on. */
  lemma {:induction false} BetweenIgnoresWatch(s: State, k: Keys, w: Watch, evs: seq<Event>)
    requires Between(evs)
    ensures Run(s.(watch := w), k, evs) == Run(s, k, evs).(watch := w)
    decreases |evs|
  {
    if evs != [] {
      assert forall i :: 0 <= i < |evs[1..]| ==> evs[1..][i] == evs[i + 1];
      var s1 := Step(s, k, evs[0]);
      assert Step(s.(watch := w), k, evs[0]) == s1.(watch := w);
      BetweenIgnoresWatch(s1, k, w, evs[1..]);
    }
  }

  /** What one poll sees: each record at its own instant, and both judged by the time read last. */
  lemma PollReads(s: State, k: Keys, mid1: seq<Event>, mid2: seq<Event>)
    requires s.watch.Resting? && Between(mid1) && Between(mid2)
    ensures Run(s, k, Poll(mid1, mid2)) ==
            Run(Run(s, k, mid1), k, mid2).(watch := Planned(s.chain.settlement, Run(s, k, mid1).chain.vault,
                                                            Run(Run(s, k, mid1), k, mid2).chain.now))
  {
    var w0 := ReadOne(s.chain.settlement);
    var s1 := Run(s, k, mid1);
    var w1 := ReadTwo(s.chain.settlement, s1.chain.vault);
    var s2 := Run(s1, k, mid2);
    BetweenKeepsWatch(s, k, mid1);
    BetweenKeepsWatch(s1, k, mid2);
    BetweenIgnoresWatch(s, k, w0, mid1);
    BetweenIgnoresWatch(s1, k, w1, mid2);
    RunConcat(s, k, [ReadSettlement] + mid1 + [ReadVault] + mid2, [ReadClock]);
    RunConcat(s, k, [ReadSettlement] + mid1 + [ReadVault], mid2);
    RunConcat(s, k, [ReadSettlement] + mid1, [ReadVault]);
    RunConcat(s, k, [ReadSettlement], mid1);
    RunOne(s, k, ReadSettlement);
    RunOne(s1.(watch := w0), k, ReadVault);
    RunOne(s2.(watch := w1), k, ReadClock);
  }

  /** The watcher refuses exactly when a third party holds one of the records as read, or when a change
      to the node's role landed between its two reads: one that still shows at the time read last. */
  lemma MisconfiguredExactly(s: State, k: Keys, mid1: seq<Event>, mid2: seq<Event>)
    requires s.watch.Resting? && Between(mid1) && Between(mid2)
    requires InStep(s.chain) && forall i :: 0 <= i < |mid1| ==> ActsJointly(mid1[i])
    ensures var end := Run(s, k, Poll(mid1, mid2));
      var before, after := s.chain.settlement, Run(s, k, mid1).chain.settlement;
      PlanOf(end.watch, k) == Misconfigured <==>
        ForeignAuthority(before, k) || ForeignAuthority(after, k) || RoleDiffers(before, after, end.chain.now, k)
  {
    PollReads(s, k, mid1, mid2);
    StayAligned(s, k, mid1);
  }

  /** What late transactions of the node can make of a record. */
  predicate FollowsOwn(r0: Record, r1: Record, k: Keys) {
    r1 == r0 ||
    (r1.authority == k.staged &&
     (r0.authority == k.staged ==> r1.prev == None || r1.prev.value.addr == k.staged))
  }

  lemma {:induction false} LateOnly(s: State, k: Keys, evs: seq<Event>)
    requires Between(evs) && forall i :: 0 <= i < |evs| ==> !evs[i].Outside?
    ensures FollowsOwn(s.chain.settlement, Run(s, k, evs).chain.settlement, k)
    ensures s.chain.now <= Run(s, k, evs).chain.now
    decreases |evs|
  {
    if evs != [] {
      assert forall i :: 0 <= i < |evs[1..]| ==> evs[1..][i] == evs[i + 1];
      LateOnly(Step(s, k, evs[0]), k, evs[1..]);
      assert FollowsOwn(s.chain.settlement, Step(s, k, evs[0]).chain.settlement, k);
    }
  }

  /** When nobody else acts between the reads, such a change is one of two: an own claim landed there, or
      an own transaction ended the grace of the configured key early. */
  lemma UnsteeredMisconfiguredExactly(s: State, k: Keys, mid1: seq<Event>, mid2: seq<Event>)
    requires s.watch.Resting? && Between(mid1) && Between(mid2) && k.active != k.staged
    requires InStep(s.chain) && forall i :: 0 <= i < |mid1| ==> !mid1[i].Outside?
    ensures var end := Run(s, k, Poll(mid1, mid2));
      var before, after := s.chain.settlement, Run(s, k, mid1).chain.settlement;
      PlanOf(end.watch, k) == Misconfigured <==>
        || ForeignAuthority(before, k)
        || (before.authority == k.active && after.authority == k.staged)
        || (before.authority == k.staged && InGrace(before, k.active, end.chain.now) &&
            !InGrace(after, k.active, end.chain.now))
  {
    MisconfiguredExactly(s, k, mid1, mid2);
    LateOnly(s, k, mid1);
  }

  predicate ClaimDue(s: State, k: Keys) {
    && s.watch.Resting? && InStep(s.chain) && k.active != k.staged
    && s.chain.settlement.authority == k.active && Claimable(s.chain.settlement, k.staged, s.chain.now)
    && s.chain.settlement.pending.value.eligibleAt + CLAIM_WINDOW_MS <= U64_MAX
  }

  lemma ClaimReplyLost(s: State, k: Keys)
    requires ClaimDue(s, k)
    ensures Run(s, k, Poll([], []) + [Act(ReplyLost)]) == s.(pool := s.pool.(claims := s.pool.claims + 1))
  {
    var planned := Run(s, k, Poll([], []));
    PollReads(s, k, [], []);
    RunConcat(s, k, Poll([], []), [Act(ReplyLost)]);
    RunOne(planned, k, Act(ReplyLost));
  }

  lemma ClaimLandsBetween(s: State, k: Keys)
    requires ClaimDue(s, k) && s.pool.claims > 0
    ensures var end := Run(s, k, Poll([Land(LateClaim)], []));
      PlanOf(end.watch, k) == Misconfigured && end.chain.settlement.authority == end.chain.vault.authority == k.staged
  {
    RunOne(s, k, Land(LateClaim));
    PollReads(s, k, [Land(LateClaim)], []);
    UnsteeredMisconfiguredExactly(s, k, [Land(LateClaim)], []);
  }

  /** The refusal without a fault: a claim whose answer was lost lands between the two reads of the next
      poll, and the watcher refuses although the authority is its own key before and after. */
  lemma TornClaimRefuses(s: State, k: Keys)
    requires ClaimDue(s, k)
    ensures var sent := Run(s, k, Poll([], []) + [Act(ReplyLost)]);
      var end := Run(sent, k, Poll([Land(LateClaim)], []));
      && sent.chain == s.chain && PlanOf(end.watch, k) == Misconfigured
      && end.chain.settlement.authority == end.chain.vault.authority == k.staged
  {
    ClaimReplyLost(s, k);
    ClaimLandsBetween(s.(pool := s.pool.(claims := s.pool.claims + 1)), k);
  }

  // ---------- safety of each step ----------

  /** Before it swaps its signers a process holds the configured key and has no retire under way,
      afterwards it holds the staged one. */
  predicate SignerInv(s: State, k: Keys) {
    && s.node.signer == (if s.node.adoptedAt.Some? then k.staged else k.active)
    && s.node.holder == (if s.node.adoptedAt.Some? then Some(k.staged) else None)
    && (s.node.adoptedAt.Some? ==> s.node.adoptedAt.value <= s.chain.now)
    && (s.pool.retires > 0 ==> s.node.adoptedAt.Some?)
  }

  lemma StepKeepsSigner(s: State, k: Keys, ev: Event)
    requires SignerInv(s, k)
    ensures SignerInv(Step(s, k, ev), k)
  {
  }

  lemma {:induction false} RunKeepsSigner(s: State, k: Keys, evs: seq<Event>)
    requires SignerInv(s, k)
    ensures SignerInv(Run(s, k, evs), k)
    decreases |evs|
  {
    if evs != [] {
      StepKeepsSigner(s, k, evs[0]);
      RunKeepsSigner(Step(s, k, evs[0]), k, evs[1..]);
    }
  }

  /** Others request and cancel, on one record or on both, but neither claim nor retire. */
  predicate OnlySteers(ev: Event) {
    ev.Outside? ==> ev.call.Request? || ev.call.Cancel?
  }

  /** What steering and the node's own transactions can make of a record. */
  predicate Follows(r0: Record, r1: Record, k: Keys) {
    (r1.authority == r0.authority && r1.prev == r0.prev) ||
    (r1.authority == k.staged &&
     (r0.authority == k.staged ==> r1.prev == None || r1.prev.value.addr == k.staged))
  }

  /** What a poll has read is still a past of what is. */
  predicate WatchInv(s: State, k: Keys) {
    && (!s.watch.Resting? ==> Follows(s.watch.settlement, s.chain.settlement, k))
    && (s.watch.ReadTwo? || s.watch.Planned? ==> Follows(s.watch.vault, s.chain.vault, k))
    && (s.watch.Planned? ==> s.watch.at <= s.chain.now)
  }

  lemma ChainFollows(s: State, k: Keys, ev: Event)
    requires OnlySteers(ev)
    ensures Follows(s.chain.settlement, Step(s, k, ev).chain.settlement, k)
    ensures Follows(s.chain.vault, Step(s, k, ev).chain.vault, k)
    ensures s.chain.now <= Step(s, k, ev).chain.now
  {
  }

  lemma StepKeepsWatch(s: State, k: Keys, ev: Event)
    requires WatchInv(s, k) && OnlySteers(ev)
    ensures WatchInv(Step(s, k, ev), k)
  {
    ChainFollows(s, k, ev);
  }

  lemma {:induction false} RunKeepsWatch(s: State, k: Keys, evs: seq<Event>)
    requires WatchInv(s, k) && forall i :: 0 <= i < |evs| ==> OnlySteers(evs[i])
    ensures WatchInv(Run(s, k, evs), k)
    decreases |evs|
  {
    if evs != [] {
      assert forall i :: 0 <= i < |evs[1..]| ==> evs[1..][i] == evs[i + 1];
      StepKeepsWatch(s, k, evs[0]);
      RunKeepsWatch(Step(s, k, evs[0]), k, evs[1..]);
    }
  }

  /** In every run, whatever lands between a poll's reads, a retire is sent only after this process
      swapped its signers, and after the quiet interval or once the configured key is out of grace. */
  lemma RetireIsPaced(s: State, k: Keys, evs: seq<Event>)
    requires SignerInv(s, k) && s.watch.Resting? && k.active != k.staged
    requires forall i :: 0 <= i < |evs| ==> OnlySteers(evs[i])
    ensures var end := Run(s, k, evs);
      Sent(end, k) == Some(Retire) ==>
        && end.node.adoptedAt.Some? && end.node.signer == k.staged
        && end.chain.settlement.authority == end.chain.vault.authority == k.staged
        && (RetireReady(end.node, k, end.chain.now) ||
            (!InGrace(end.chain.settlement, k.active, end.chain.now) &&
             !InGrace(end.chain.vault, k.active, end.chain.now)))
  {
    RunKeepsSigner(s, k, evs);
    RunKeepsWatch(s, k, evs);
  }

  /** An own transaction that executes and takes the signers' key out of authority on a record: a claim
      while that key is there only in grace, or the late retire of an earlier process. */
  predicate Displaces(s: State, k: Keys, ev: Event, r: Record) {
    && s.node.signer != k.staged && s.node.signer != r.authority && InGrace(r, s.node.signer, s.chain.now)
    && Lands(s, k, ev).Some? && Executes(s.chain, Lands(s, k, ev).value, k.staged)
    && (Lands(s, k, ev) == Some(Claim) || ev == Land(StaleRetire))
  }

  /** In every run, a step of the node or one of its late transactions takes the key its signers hold
      out of authority exactly in those two cases. */
  lemma OwnStepsKeepSigner(s: State, k: Keys, evs: seq<Event>, ev: Event)
    requires SignerInv(s, k) && s.watch.Resting? && k.active != k.staged
    requires forall i :: 0 <= i < |evs| ==> OnlySteers(evs[i])
    requires ev.Act? || ev.Land?
    ensures var before := Run(s, k, evs);
      var after := Step(before, k, ev);
      && (CanAct(before.chain.settlement, before.node.signer, before.chain.now) &&
          !CanAct(after.chain.settlement, after.node.signer, after.chain.now) <==>
          Displaces(before, k, ev, before.chain.settlement))
      && (CanAct(before.chain.vault, before.node.signer, before.chain.now) &&
          !CanAct(after.chain.vault, after.node.signer, after.chain.now) <==>
          Displaces(before, k, ev, before.chain.vault))
  {
    RunKeepsSigner(s, k, evs);
    RunKeepsWatch(s, k, evs);
    var before := Run(s, k, evs);
    if ev.Act? {
      ActKeepsSigner(before, k, ev.net);
    } else {
      LandKeepsSigner(before, k, ev.late);
    }
  }

  lemma ActKeepsSigner(s: State, k: Keys, net: Net)
    requires SignerInv(s, k) && WatchInv(s, k) && k.active != k.staged
    ensures var t := Step(s, k, Act(net));
      && (CanAct(s.chain.settlement, s.node.signer, s.chain.now) &&
          !CanAct(t.chain.settlement, t.node.signer, t.chain.now)
          <==> Displaces(s, k, Act(net), s.chain.settlement))
      && (CanAct(s.chain.vault, s.node.signer, s.chain.now) && !CanAct(t.chain.vault, t.node.signer, t.chain.now)
          <==> Displaces(s, k, Act(net), s.chain.vault))
  {
  }

  lemma LandKeepsSigner(s: State, k: Keys, late: Late)
    requires SignerInv(s, k) && k.active != k.staged
    ensures var t := Step(s, k, Land(late));
      && (CanAct(s.chain.settlement, s.node.signer, s.chain.now) &&
          !CanAct(t.chain.settlement, t.node.signer, t.chain.now)
          <==> Displaces(s, k, Land(late), s.chain.settlement))
      && (CanAct(s.chain.vault, s.node.signer, s.chain.now) && !CanAct(t.chain.vault, t.node.signer, t.chain.now)
          <==> Displaces(s, k, Land(late), s.chain.vault))
  {
  }

  // ---------- convergence ----------

  /** Steps the chain still has to take: claim, then retire. */
  function ChainLeft(s: State, k: Keys): nat {
    if s.chain.settlement.authority == k.active then 2 else if s.chain.settlement.prev.Some? then 1 else 0
  }

  /** And the swap of the signers, which is this process's own. */
  function Left(s: State, k: Keys): nat {
    ChainLeft(s, k) + if s.node.adoptedAt == None then 1 else 0
  }

  /** What a poll has read gives the staged key authority only if it has it. */
  predicate ReadsAgree(s: State, k: Keys) {
    && (!s.watch.Resting? && s.watch.settlement.authority == k.staged ==> s.chain.settlement.authority == k.staged)
    && ((s.watch.ReadTwo? || s.watch.Planned?) && s.watch.vault.authority == k.staged ==>
          s.chain.settlement.authority == k.staged)
  }

  /** A rotation to the staged key is under way or done. */
  predicate UnderWay(s: State, k: Keys) {
    && InStep(s.chain) && SignerInv(s, k) && ReadsAgree(s, k) && k.active != k.staged
    && ((s.chain.settlement.authority == k.active && s.node.adoptedAt == None &&
         s.chain.settlement.pending.Some? && s.chain.settlement.pending.value.to == k.staged)
        || (s.chain.settlement.authority == k.staged && s.chain.settlement.pending == None))
  }

  predicate Unsteered(evs: seq<Event>) {
    forall i :: 0 <= i < |evs| ==> !evs[i].Outside?
  }

  predicate Adopts(s: State, k: Keys, ev: Event) {
    s.node.adoptedAt == None && Step(s, k, ev).node.adoptedAt.Some?
  }

  /** The step of the rotation this event takes: an own transaction that goes through, or the swap. */
  predicate Progresses(s: State, k: Keys, ev: Event) {
    Adopts(s, k, ev) || (Lands(s, k, ev).Some? && Executes(s.chain, Lands(s, k, ev).value, k.staged))
  }

  predicate LosesSwap(s: State, ev: Event) {
    ev.Crash? && s.node.adoptedAt.Some?
  }

  /** Steps taken in a run, and swaps lost to crashes. */
  function Count(s: State, k: Keys, evs: seq<Event>): (r: (nat, nat))
    decreases |evs|
  {
    if evs == [] then (0, 0)
    else
      var (taken, lost) := Count(Step(s, k, evs[0]), k, evs[1..]);
      (taken + (if Progresses(s, k, evs[0]) then 1 else 0), lost + if LosesSwap(s, evs[0]) then 1 else 0)
  }

  lemma StepCounts(s: State, k: Keys, ev: Event)
    requires UnderWay(s, k) && !ev.Outside?
    ensures UnderWay(Step(s, k, ev), k)
    ensures Left(Step(s, k, ev), k) + (if Progresses(s, k, ev) then 1 else 0) ==
            Left(s, k) + if LosesSwap(s, ev) then 1 else 0
  {
  }

  /** Whatever fails, lands late or crashes, the steps taken and those left are the steps there were and
      one more swap for each that a crash has lost. */
  lemma {:induction false} StepsAreConserved(s: State, k: Keys, evs: seq<Event>)
    requires UnderWay(s, k) && Unsteered(evs)
    ensures UnderWay(Run(s, k, evs), k)
    ensures Count(s, k, evs).0 + Left(Run(s, k, evs), k) == Left(s, k) + Count(s, k, evs).1
    decreases |evs|
  {
    if evs != [] {
      StepCounts(s, k, evs[0]);
      assert forall i :: 0 <= i < |evs[1..]| ==> evs[1..][i] == evs[i + 1];
      StepsAreConserved(Step(s, k, evs[0]), k, evs[1..]);
    }
  }

  /** A poll whose reads and transaction get through at once. */
  function PollThrough(wait: nat): seq<Event> {
    Poll([], []) + [Advance(wait), Act(Delivered)]
  }

  lemma PollThroughIs(s: State, k: Keys, wait: nat)
    requires s.watch.Resting?
    ensures var planned := s.(chain := s.chain.(now := s.chain.now + wait),
                              watch := Planned(s.chain.settlement, s.chain.vault, s.chain.now));
      Run(s, k, PollThrough(wait)) == Step(planned, k, Act(Delivered))
  {
    PollReads(s, k, [], []);
    var planned := Run(s, k, Poll([], []));
    RunConcat(s, k, Poll([], []), [Advance(wait), Act(Delivered)]);
    assert [Advance(wait), Act(Delivered)] == [Advance(wait)] + [Act(Delivered)];
    RunConcat(planned, k, [Advance(wait)], [Act(Delivered)]);
    RunOne(planned, k, Advance(wait));
    RunOne(Step(planned, k, Advance(wait)), k, Act(Delivered));
  }

  predicate InTime(s: State, k: Keys, wait: nat) {
    && (s.chain.settlement.authority == k.active ==>
          s.chain.settlement.pending.Some? && s.chain.settlement.pending.value.eligibleAt <= s.chain.now &&
          s.chain.now + wait <= s.chain.settlement.pending.value.eligibleAt + CLAIM_WINDOW_MS <= U64_MAX)
    && (s.node.adoptedAt.Some? ==> RetireReady(s.node, k, s.chain.now + wait))
  }

  /** Such a poll takes the next step, unless the swap is still to settle, exactly while the chain has a
      step to take. */
  lemma PollExecutes(s: State, k: Keys, wait: nat)
    requires UnderWay(s, k) && s.watch.Resting? && InTime(s, k, wait)
    ensures var end := Run(s, k, PollThrough(wait));
      UnderWay(end, k) && end.watch.Resting? && Left(end, k) == Left(s, k) - if ChainLeft(s, k) > 0 then 1 else 0
  {
    PollThroughIs(s, k, wait);
    var planned := s.(chain := s.chain.(now := s.chain.now + wait),
                      watch := Planned(s.chain.settlement, s.chain.vault, s.chain.now));
    StepCounts(planned, k, Act(Delivered));
  }

  lemma FiveParts(s: State, k: Keys, p: seq<Event>, wait1: nat, wait2: nat)
    ensures Run(s, k, p + [Advance(wait1)] + p + [Advance(wait2)] + p) ==
            Run(Step(Run(Step(Run(s, k, p), k, Advance(wait1)), k, p), k, Advance(wait2)), k, p)
  {
    var s1 := Run(s, k, p);
    var s3 := Run(Step(s1, k, Advance(wait1)), k, p);
    RunConcat(s, k, p + [Advance(wait1)] + p + [Advance(wait2)], p);
    RunConcat(s, k, p + [Advance(wait1)] + p, [Advance(wait2)]);
    RunConcat(s, k, p + [Advance(wait1)], p);
    RunConcat(s, k, p, [Advance(wait1)]);
    RunOne(s1, k, Advance(wait1));
    RunOne(s3, k, Advance(wait2));
  }

  /** From a claimable rotation three such polls, the last a quiet interval after the second, leave the
      staged key in sole authority and in the signers, whatever time passes in between. */
  lemma ThreePollsRotate(s: State, k: Keys, wait1: nat, wait2: nat)
    requires UnderWay(s, k) && ClaimDue(s, k) && k.quiet <= wait2
    ensures var p := PollThrough(0);
      var end := Run(s, k, p + [Advance(wait1)] + p + [Advance(wait2)] + p);
      && end.chain.settlement == end.chain.vault == Record(k.staged, None, None)
      && end.node.signer == k.staged && Left(end, k) == 0
  {
    var p := PollThrough(0);
    PollExecutes(s, k, 0);
    var s2 := Step(Run(s, k, p), k, Advance(wait1));
    PollExecutes(s2, k, 0);
    var s4 := Step(Run(s2, k, p), k, Advance(wait2));
    PollExecutes(s4, k, 0);
    FiveParts(s, k, p, wait1, wait2);
  }

  // ---------- what a restart does not do ----------

  /** A fresh process swaps its signers at its first poll exactly while a previous authority is still
      recorded. */
  lemma RestartReadopts(s: State, k: Keys, wait: nat)
    requires InStep(s.chain)
    ensures Run(Step(s, k, Crash), k, PollThrough(wait)).node.adoptedAt.Some? <==>
            s.chain.settlement.authority == k.staged && s.chain.settlement.prev.Some?
  {
    PollThroughIs(Step(s, k, Crash), k, wait);
  }

  /** The rotation is over on chain, and the process holds the configured key. */
  predicate Locked(s: State, k: Keys) {
    var done := Record(k.staged, None, None);
    && s.chain.settlement == s.chain.vault == done
    && s.node.signer == k.active && s.node.adoptedAt == None
    && (!s.watch.Resting? ==> s.watch.settlement == done)
    && (s.watch.ReadTwo? || s.watch.Planned? ==> s.watch.vault == done)
  }

  lemma StepStaysLocked(s: State, k: Keys, ev: Event)
    requires Locked(s, k) && !ev.Outside?
    ensures Locked(Step(s, k, ev), k)
  {
  }

  /** A process that starts after the retire never swaps: the node goes on with a key that may not act. */
  lemma {:induction false} RetiredNodeStaysLocked(s: State, k: Keys, evs: seq<Event>)
    requires Locked(s, k) && k.active != k.staged && Unsteered(evs)
    ensures var end := Run(s, k, evs);
      && end.node.signer == k.active
      && !CanAct(end.chain.settlement, k.active, end.chain.now) && !CanAct(end.chain.vault, k.active, end.chain.now)
    decreases |evs|
  {
    if evs != [] {
      assert forall i :: 0 <= i < |evs[1..]| ==> evs[1..][i] == evs[i + 1];
      StepStaysLocked(s, k, evs[0]);
      RetiredNodeStaysLocked(Step(s, k, evs[0]), k, evs[1..]);
    }
  }

  /** So it is after a crash while a retire is under way: the fresh process still holds authority in
      grace, until the retire of its predecessor lands. */
  lemma StaleRetireLocksOut(s: State, k: Keys)
    requires UnderWay(s, k) && s.watch.Resting? && s.node.adoptedAt.Some? && RetireReady(s.node, k, s.chain.now)
    requires InGrace(s.chain.settlement, k.active, s.chain.now)
    ensures var crashed := Run(s, k, Poll([], []) + [Act(ReplyLost), Crash]);
      && CanAct(crashed.chain.settlement, crashed.node.signer, crashed.chain.now)
      && Locked(Step(crashed, k, Land(StaleRetire)), k)
  {
    PollReads(s, k, [], []);
    var planned := Run(s, k, Poll([], []));
    RunConcat(s, k, Poll([], []), [Act(ReplyLost), Crash]);
    assert [Act(ReplyLost), Crash] == [Act(ReplyLost)] + [Crash];
    RunConcat(planned, k, [Act(ReplyLost)], [Crash]);
    RunOne(planned, k, Act(ReplyLost));
    RunOne(Step(planned, k, Act(ReplyLost)), k, Crash);
  }

  // ---------- the relayer's client ----------

  /** Event `i` builds a client. */
  predicate BuildsAt(s: State, k: Keys, evs: seq<Event>, i: nat) {
    i < |evs| && evs[i].BridgeBuild? && Run(s, k, evs[..i]).node.bridge.Absent?
  }

  /** Event `j` swaps the signers. */
  predicate AdoptsAt(s: State, k: Keys, evs: seq<Event>, j: nat) {
    j < |evs| && Adopts(Run(s, k, evs[..j]), k, evs[j])
  }

  predicate NoCrashFrom(evs: seq<Event>, i: nat) {
    forall n :: i <= n < |evs| ==> !evs[n].Crash?
  }

  predicate NoShareWithin(evs: seq<Event>, i: nat, j: nat) {
    forall n :: i <= n < j && n < |evs| ==> !evs[n].BridgeShare?
  }

  predicate RacesAt(s: State, k: Keys, evs: seq<Event>, i: nat, j: nat) {
    i < j && BuildsAt(s, k, evs, i) && AdoptsAt(s, k, evs, j) && NoCrashFrom(evs, i) && NoShareWithin(evs, i, j)
  }

  /** A client was built, the signers were swapped before it was shared, and the process did not end since. */
  ghost predicate Raced(s: State, k: Keys, evs: seq<Event>) {
    exists i: nat, j: nat :: RacesAt(s, k, evs, i, j)
  }

  predicate WaitsAt(s: State, k: Keys, evs: seq<Event>, i: nat) {
    BuildsAt(s, k, evs, i) && NoCrashFrom(evs, i) && NoShareWithin(evs, i, |evs|)
  }

  ghost predicate Waits(s: State, k: Keys, evs: seq<Event>) {
    exists i: nat :: WaitsAt(s, k, evs, i)
  }

  lemma PrefixAt(s: State, k: Keys, evs: seq<Event>, ev: Event, i: nat)
    requires i < |evs|
    ensures BuildsAt(s, k, evs + [ev], i) <==> BuildsAt(s, k, evs, i)
    ensures AdoptsAt(s, k, evs + [ev], i) <==> AdoptsAt(s, k, evs, i)
  {
    assert (evs + [ev])[..i] == evs[..i];
  }

  lemma LastAt(s: State, k: Keys, evs: seq<Event>, ev: Event)
    ensures BuildsAt(s, k, evs + [ev], |evs|) <==> ev.BridgeBuild? && Run(s, k, evs).node.bridge.Absent?
    ensures AdoptsAt(s, k, evs + [ev], |evs|) <==> Adopts(Run(s, k, evs), k, ev)
  {
    assert (evs + [ev])[..|evs|] == evs;
  }

  lemma WaitsThen(s: State, k: Keys, evs: seq<Event>, ev: Event)
    ensures Waits(s, k, evs + [ev]) <==>
            (Waits(s, k, evs) && !ev.Crash? && !ev.BridgeShare?) ||
            (ev.BridgeBuild? && Run(s, k, evs).node.bridge.Absent?)
  {
    var more := evs + [ev];
    LastAt(s, k, evs, ev);
    if i: nat :| WaitsAt(s, k, more, i) {
      assert more[|evs|] == ev;
      if i < |evs| {
        PrefixAt(s, k, evs, ev, i);
        assert forall n :: 0 <= n < |evs| ==> more[n] == evs[n];
        assert WaitsAt(s, k, evs, i);
      }
    }
    if Waits(s, k, evs) && !ev.Crash? && !ev.BridgeShare? {
      var i: nat :| WaitsAt(s, k, evs, i);
      PrefixAt(s, k, evs, ev, i);
      assert WaitsAt(s, k, more, i);
    }
    if ev.BridgeBuild? && Run(s, k, evs).node.bridge.Absent? {
      assert WaitsAt(s, k, more, |evs|);
    }
  }

  lemma RacedBefore(s: State, k: Keys, evs: seq<Event>, ev: Event)
    requires Raced(s, k, evs + [ev])
    ensures (Raced(s, k, evs) && !ev.Crash?) || (Waits(s, k, evs) && Adopts(Run(s, k, evs), k, ev))
  {
    var more := evs + [ev];
    var i: nat, j: nat :| RacesAt(s, k, more, i, j);
    LastAt(s, k, evs, ev);
    PrefixAt(s, k, evs, ev, i);
    assert more[|evs|] == ev && forall n :: 0 <= n < |evs| ==> more[n] == evs[n];
    if j < |evs| {
      PrefixAt(s, k, evs, ev, j);
      assert RacesAt(s, k, evs, i, j);
    } else {
      assert WaitsAt(s, k, evs, i);
    }
  }

  lemma RacedThen(s: State, k: Keys, evs: seq<Event>, ev: Event)
    ensures Raced(s, k, evs + [ev]) <==>
            (Raced(s, k, evs) && !ev.Crash?) || (Waits(s, k, evs) && Adopts(Run(s, k, evs), k, ev))
  {
    if Raced(s, k, evs + [ev]) {
      RacedBefore(s, k, evs, ev);
    }
    if Raced(s, k, evs) && !ev.Crash? {
      var i: nat, j: nat :| RacesAt(s, k, evs, i, j);
      PrefixAt(s, k, evs, ev, i);
      PrefixAt(s, k, evs, ev, j);
      assert RacesAt(s, k, evs + [ev], i, j);
    }
    if Waits(s, k, evs) && Adopts(Run(s, k, evs), k, ev) {
      var i: nat :| WaitsAt(s, k, evs, i);
      LastAt(s, k, evs, ev);
      PrefixAt(s, k, evs, ev, i);
      assert RacesAt(s, k, evs + [ev], i, |evs|);
    }
  }

  /** Event `i` swapped the signers, the process did not end since, and it dates the swap to that event. */
  predicate SwappedAt(s: State, k: Keys, evs: seq<Event>, i: nat) {
    && AdoptsAt(s, k, evs, i) && NoCrashFrom(evs, i)
    && Run(s, k, evs).node.adoptedAt == Some(Run(s, k, evs[..i]).chain.now)
  }

  lemma {:induction false} SwapIsDated(s: State, k: Keys, evs: seq<Event>)
    requires s.node.adoptedAt == None
    ensures Run(s, k, evs).node.adoptedAt.Some? ==> exists i: nat :: SwappedAt(s, k, evs, i)
    decreases |evs|
  {
    if evs != [] {
      var before, ev := evs[..|evs| - 1], evs[|evs| - 1];
      assert evs == before + [ev];
      SwapIsDated(s, k, before);
      RunConcat(s, k, before, [ev]);
      RunOne(Run(s, k, before), k, ev);
      if Adopts(Run(s, k, before), k, ev) {
        LastAt(s, k, before, ev);
        assert evs[..|before|] == before;
        assert SwappedAt(s, k, evs, |before|);
      } else if Run(s, k, evs).node.adoptedAt.Some? {
        var i: nat :| SwappedAt(s, k, before, i);
        PrefixAt(s, k, before, ev, i);
        assert evs[..i] == before[..i];
        assert SwappedAt(s, k, evs, i);
      }
    }
  }

  /** In every run from a process that has not swapped, a retire is sent a whole quiet interval after the
      event that swapped the signers, or once the configured key is out of grace on both records. */
  lemma QuietSinceSwap(s: State, k: Keys, evs: seq<Event>)
    requires SignerInv(s, k) && s.watch.Resting? && k.active != k.staged && s.node.adoptedAt == None
    requires forall i :: 0 <= i < |evs| ==> OnlySteers(evs[i])
    requires Sent(Run(s, k, evs), k) == Some(Retire)
    ensures var end := Run(s, k, evs);
      exists i: nat :: SwappedAt(s, k, evs, i) &&
        (Run(s, k, evs[..i]).chain.now + k.quiet <= end.chain.now ||
         (!InGrace(end.chain.settlement, k.active, end.chain.now) &&
          !InGrace(end.chain.vault, k.active, end.chain.now)))
  {
    RetireIsPaced(s, k, evs);
    SwapIsDated(s, k, evs);
  }

  predicate Stale(n: Node) {
    !n.bridge.Absent? && n.bridge.key != n.signer
  }

  predicate BridgeInv(s: State, k: Keys) {
    && SignerInv(s, k)
    && (Stale(s.node) ==> s.node.bridge.key == k.active)
  }

  lemma StepKeepsBridge(s: State, k: Keys, ev: Event)
    requires BridgeInv(s, k) && k.active != k.staged
    ensures BridgeInv(Step(s, k, ev), k)
    ensures Step(s, k, ev).node.bridge.Built? <==>
            (s.node.bridge.Built? && !ev.Crash? && !ev.BridgeShare?) || (ev.BridgeBuild? && s.node.bridge.Absent?)
    ensures Stale(Step(s, k, ev).node) <==>
            (Stale(s.node) && !ev.Crash?) || (s.node.bridge.Built? && Adopts(s, k, ev))
  {
  }

  /** In every run of a process without a client, and of those after it, the client signs with another
      key than the signers exactly when a swap fell between its building and its sharing. */
  lemma {:induction false} BridgeFollowsUnlessRaced(s: State, k: Keys, evs: seq<Event>)
    requires SignerInv(s, k) && s.node.bridge.Absent? && k.active != k.staged
    ensures BridgeInv(Run(s, k, evs), k)
    ensures Run(s, k, evs).node.bridge.Built? <==> Waits(s, k, evs)
    ensures Stale(Run(s, k, evs).node) <==> Raced(s, k, evs)
    decreases |evs|
  {
    if evs != [] {
      var before, ev := evs[..|evs| - 1], evs[|evs| - 1];
      assert evs == before + [ev];
      BridgeFollowsUnlessRaced(s, k, before);
      RunConcat(s, k, before, [ev]);
      RunOne(Run(s, k, before), k, ev);
      StepKeepsBridge(Run(s, k, before), k, ev);
      WaitsThen(s, k, before, ev);
      RacedThen(s, k, before, ev);
    }
  }

  /** A client that lost the race keeps the old key until the process ends: no later poll swaps it, and
      once the rotation is over it can release nothing. */
  lemma {:induction false} RacedBridgeStaysStale(s: State, k: Keys, evs: seq<Event>)
    requires BridgeInv(s, k) && Stale(s.node) && UnderWay(s, k) && Unsteered(evs)
    requires forall i :: 0 <= i < |evs| ==> !evs[i].Crash?
    ensures var end := Run(s, k, evs);
      && Stale(end.node) && end.node.bridge.key == k.active && end.node.signer == k.staged
      && (Left(end, k) == 0 ==> !CanAct(end.chain.vault, end.node.bridge.key, end.chain.now))
    decreases |evs|
  {
    if evs != [] {
      StepKeepsBridge(s, k, evs[0]);
      StepCounts(s, k, evs[0]);
      assert forall i :: 0 <= i < |evs[1..]| ==> evs[1..][i] == evs[i + 1];
      RacedBridgeStaysStale(Step(s, k, evs[0]), k, evs[1..]);
    }
  }

  /** The race: a client built on the configured key before the poll that swaps, and shared after it. */
  lemma BuildSwapShareRaces(s: State, k: Keys, wait: nat)
    requires UnderWay(s, k) && s.watch.Resting? && s.node == Started(k)
    requires s.chain.settlement.authority == k.staged && s.chain.settlement.prev.Some?
    ensures var end := Step(Run(Step(s, k, BridgeBuild), k, PollThrough(wait)), k, BridgeShare);
      end.node.bridge == Live(k.active) && end.node.signer == k.staged && Stale(end.node)
  {
    PollThroughIs(Step(s, k, BridgeBuild), k, wait);
  }

  // ---------- the watcher itself ----------

  /** What one tick of the loop meets: the answers of its three reads, and the local time at its step. */
  datatype Tick = Tick(settlement: Option<Record>, vault: Option<Record>, clock: Option<nat>, now: nat)

  /** A failed read ends the tick; otherwise the plan of the answers is carried out. */
  function AfterTick(n: Node, k: Keys, t: Tick): (Node, Option<Call>) {
    if t.settlement.Some? && t.vault.Some? && t.clock.Some? then
      Apply(n, k, PlanFor(t.settlement.value, t.vault.value, t.clock.value, k), t.now)
    else (n, None)
  }

  function AfterTicks(n: Node, k: Keys, ticks: seq<Tick>): (Node, seq<Call>)
    decreases |ticks|
  {
    if ticks == [] then (n, [])
    else
      var (n1, sent) := AfterTick(n, k, ticks[0]);
      var (n2, later) := AfterTicks(n1, k, ticks[1..]);
      (n2, (if sent.Some? then [sent.value] else []) + later)
  }

  /** One tick of the loop is one poll of the model: for the answers its three reads saw, whatever
      happened between them and before it acts, it leaves the same node and sends the same transaction. */
  lemma TickIsPoll(s: State, k: Keys, mid1: seq<Event>, mid2: seq<Event>, mid3: seq<Event>, net: Net)
    requires s.watch.Resting? && Between(mid1) && Between(mid2) && Between(mid3)
    ensures var read := Run(s, k, Poll(mid1, mid2));
      var acting := Run(read, k, mid3);
      var t := Tick(Some(s.chain.settlement), Some(Run(s, k, mid1).chain.vault), Some(read.chain.now),
                    acting.chain.now);
      && (Step(acting, k, Act(net)).node, Sent(acting, k)) == AfterTick(acting.node, k, t)
      && Step(acting, k, Act(net)).watch.Resting?
  {
    PollReads(s, k, mid1, mid2);
    BetweenKeepsWatch(Run(s, k, Poll(mid1, mid2)), k, mid3);
  }

  /** A tick with a failed read is a poll that fails there. */
  lemma FailedTickIsFailedPoll(s: State, k: Keys, t: Tick)
    requires !s.watch.Planned? && (t.settlement == None || t.vault == None || t.clock == None)
    ensures (Step(s, k, FailRead).node, None) == AfterTick(s.node, k, t) && Step(s, k, FailRead).watch.Resting?
  {
  }

  /** The node before tick `i`, and what that tick sends. */
  function NodeAt(n: Node, k: Keys, ticks: seq<Tick>, i: nat): Node
    requires i <= |ticks|
  {
    AfterTicks(n, k, ticks[..i]).0
  }

  function SentAt(n: Node, k: Keys, ticks: seq<Tick>, i: nat): Option<Call>
    requires i < |ticks|
  {
    AfterTick(NodeAt(n, k, ticks, i), k, ticks[i]).1
  }

  /** The loop goes on from where it is: one more tick, one more step. */
  lemma {:induction false} TicksThen(n: Node, k: Keys, ticks: seq<Tick>, t: Tick)
    ensures var (before, sent) := AfterTicks(n, k, ticks);
      var (after, call) := AfterTick(before, k, t);
      AfterTicks(n, k, ticks + [t]) == (after, sent + if call.Some? then [call.value] else [])
    decreases |ticks|
  {
    if ticks == [] {
      assert ticks + [t] == [t] && [t][1..] == [];
      assert AfterTicks(AfterTick(n, k, t).0, k, [t][1..]) == (AfterTick(n, k, t).0, []);
      assert forall s: seq<Call> :: s + [] == s && [] + s == s;
    } else {
      var (n1, first) := AfterTick(n, k, ticks[0]);
      TicksThen(n1, k, ticks[1..], t);
      assert (ticks + [t])[1..] == ticks[1..] + [t];
      var (before, later) := AfterTicks(n1, k, ticks[1..]);
      var call := AfterTick(before, k, t).1;
      var one, last := if first.Some? then [first.value] else [], if call.Some? then [call.value] else [];
      assert one + (later + last) == (one + later) + last;
    }
  }

  /** What a tick does, in terms of what its answers let the two keys do: it claims where the staged key may
      claim from the configured one on both records; it swaps, once, or then retires, where the staged key
      is in authority on both; and in no other case does it do anything. */
  lemma TickExactly(n: Node, k: Keys, t: Tick)
    requires k.active != k.staged && Answered(t)
    requires Dated(t.settlement.value) && Dated(t.vault.value)
    ensures var (n1, sent) := AfterTick(n, k, t);
      var a, b, at := t.settlement.value, t.vault.value, t.clock.value;
      var adopts := a.authority == b.authority == k.staged && CanAct(a, k.active, at) && CanAct(b, k.active, at);
      var retires := AnswersRetire(t, k) && (a.prev.Some? || b.prev.Some?);
      && (sent == Some(Claim) <==> MayClaim(a, k, at) && MayClaim(b, k, at))
      && (sent == Some(Retire) <==>
            n.adoptedAt.Some? && (retires || (adopts && n.adoptedAt.value + k.quiet <= t.now)))
      && (n1 != n ==> n.adoptedAt == None)
      && (n.adoptedAt == None ==> (n1.adoptedAt == Some(t.now) <==> adopts || retires))
      && (!adopts && !retires ==> n1 == n)
      && (sent.Some? ==> n1 == n && sent.value in {Claim, Retire})
  {
  }

  predicate Answered(t: Tick) {
    t.settlement.Some? && t.vault.Some? && t.clock.Some?
  }

  /** Its claim window ends in 64 bits. */
  predicate Dated(r: Record) {
    r.pending.Some? ==> r.pending.value.eligibleAt + CLAIM_WINDOW_MS <= U64_MAX
  }

  predicate MayClaim(r: Record, k: Keys, at: nat) {
    r.authority == k.active && Exec(r, Claim, k.staged, at).Some?
  }

  predicate HoldsKey(n: Node, k: Keys) {
    n.signer == if n.adoptedAt.Some? then k.staged else k.active
  }

  /** The answers put the staged key in authority and the configured one out of grace. */
  predicate AnswersRetire(t: Tick, k: Keys) {
    && Answered(t)
    && t.settlement.value.authority == t.vault.value.authority == k.staged
    && !InGrace(t.settlement.value, k.active, t.clock.value) && !InGrace(t.vault.value, k.active, t.clock.value)
  }

  lemma {:induction false} TicksHoldKey(n: Node, k: Keys, ticks: seq<Tick>)
    requires HoldsKey(n, k)
    ensures HoldsKey(AfterTicks(n, k, ticks).0, k)
    decreases |ticks|
  {
    if ticks != [] {
      TicksHoldKey(AfterTick(n, k, ticks[0]).0, k, ticks[1..]);
    }
  }

  lemma {:induction false} CallWasSent(n: Node, k: Keys, ticks: seq<Tick>, call: Call)
    requires call in AfterTicks(n, k, ticks).1
    ensures exists i :: 0 <= i < |ticks| && SentAt(n, k, ticks, i) == Some(call)
    decreases |ticks|
  {
    var (n1, sent) := AfterTick(n, k, ticks[0]);
    if sent == Some(call) {
      assert ticks[..0] == [];
      assert SentAt(n, k, ticks, 0) == Some(call);
    } else {
      CallWasSent(n1, k, ticks[1..], call);
      var i :| 0 <= i < |ticks[1..]| && SentAt(n1, k, ticks[1..], i) == Some(call);
      assert ticks[..i + 1][1..] == ticks[1..][..i];
      assert SentAt(n, k, ticks, i + 1) == Some(call);
    }
  }

  /** Tick `j` swaps the signers. */
  predicate SwapsAt(n: Node, k: Keys, ticks: seq<Tick>, j: nat) {
    j < |ticks| && NodeAt(n, k, ticks, j).adoptedAt == None && NodeAt(n, k, ticks, j + 1).adoptedAt.Some?
  }

  lemma NodeThen(n: Node, k: Keys, ticks: seq<Tick>, i: nat)
    requires i < |ticks|
    ensures NodeAt(n, k, ticks, i + 1) == AfterTick(NodeAt(n, k, ticks, i), k, ticks[i]).0
  {
    assert ticks[..i + 1] == ticks[..i] + [ticks[i]];
    TicksThen(n, k, ticks[..i], ticks[i]);
  }

  /** A process that has swapped its signers dates the swap to the tick that made it. */
  lemma {:induction false} SwapTickIsDated(n: Node, k: Keys, ticks: seq<Tick>, i: nat)
    requires n.adoptedAt == None && i <= |ticks|
    ensures NodeAt(n, k, ticks, i).adoptedAt.Some? ==>
              exists j: nat :: j < i && SwapsAt(n, k, ticks, j) &&
                               NodeAt(n, k, ticks, i).adoptedAt == Some(ticks[j].now)
  {
    if i > 0 {
      SwapTickIsDated(n, k, ticks, i - 1);
      NodeThen(n, k, ticks, i - 1);
      if NodeAt(n, k, ticks, i).adoptedAt.Some? && NodeAt(n, k, ticks, i - 1).adoptedAt == None {
        assert SwapsAt(n, k, ticks, i - 1);
      }
    } else {
      assert ticks[..0] == [];
    }
  }

  /** Over all ticks, a retire among the calls of the loop is sent by a tick that finds the signers on
      the staged key, after the quiet interval or on answers that put the configured key out of grace; the
      interval counts from the tick that swapped the signers. */
  lemma WatchIsPaced(n: Node, k: Keys, ticks: seq<Tick>)
    requires HoldsKey(n, k)
    ensures forall i :: 0 <= i < |ticks| && SentAt(n, k, ticks, i) == Some(Retire) ==>
              var before := NodeAt(n, k, ticks, i);
              && before.adoptedAt.Some? && before.signer == k.staged
              && (before.adoptedAt.value + k.quiet <= ticks[i].now || AnswersRetire(ticks[i], k))
    ensures n.adoptedAt == None ==>
              forall i :: 0 <= i < |ticks| && SentAt(n, k, ticks, i) == Some(Retire) ==>
                          exists j: nat :: j < i && SwapsAt(n, k, ticks, j) &&
                                           NodeAt(n, k, ticks, i).adoptedAt == Some(ticks[j].now)
    ensures Retire in AfterTicks(n, k, ticks).1 ==>
              exists i :: 0 <= i < |ticks| && SentAt(n, k, ticks, i) == Some(Retire)
  {
    if n.adoptedAt == None {
      forall i | 0 <= i < |ticks| && SentAt(n, k, ticks, i) == Some(Retire)
        ensures exists j: nat :: j < i && SwapsAt(n, k, ticks, j) &&
                                 NodeAt(n, k, ticks, i).adoptedAt == Some(ticks[j].now)
      {
        SwapTickIsDated(n, k, ticks, i);
      }
    }
    forall i | 0 <= i < |ticks| && SentAt(n, k, ticks, i) == Some(Retire)
      ensures var before := NodeAt(n, k, ticks, i);
        && before.adoptedAt.Some? && before.signer == k.staged
        && (before.adoptedAt.value + k.quiet <= ticks[i].now || AnswersRetire(ticks[i], k))
    {
      TicksHoldKey(n, k, ticks[..i]);
    }
    if Retire in AfterTicks(n, k, ticks).1 {
      CallWasSent(n, k, ticks, Retire);
    }
  }

  class Watcher {
    const keys: Keys
    var signer: Address
    var holder: Option<Address>
    var adoptedAt: Option<nat>
    var bridge: Bridge

    ghost function Contents(): Node
      reads this
    {
      Node(signer, holder, adoptedAt, bridge)
    }

    /** The key is recorded before any signer is swapped, for a relayer client still to be built. */
    method Swap(now: nat)
      modifies this
      ensures Contents() == SwapSigners(old(Contents()), keys, now)
    {
      holder := Some(keys.staged);
      signer := keys.staged;
      if bridge.Live? {
        bridge := Live(keys.staged);
      }
      adoptedAt := Some(now);
    }

    /** One tick of the loop. */
    method PollStep(t: Tick) returns (sent: Option<Call>)
      modifies this
      ensures (Contents(), sent) == AfterTick(old(Contents()), keys, t)
    {
      if t.settlement == None || t.vault == None || t.clock == None { return None; }
      var plan := PlanFor(t.settlement.value, t.vault.value, t.clock.value, keys);
      match plan {
        case Idle => return None;
        case Misconfigured => return None;
        case DoClaim => return Some(Claim);
        case DoAdopt =>
          if adoptedAt.Some? {
            return if adoptedAt.value + keys.quiet <= t.now then Some(Retire) else None;
          }
          Swap(t.now);
          return None;
        case DoRetire =>
          if adoptedAt.Some? { return Some(Retire); }
          Swap(t.now);
          return None;
      }
    }

    /** The loop, over the ticks until shutdown. */
    method Watch(ticks: seq<Tick>) returns (sent: seq<Call>)
      modifies this
      ensures (Contents(), sent) == AfterTicks(old(Contents()), keys, ticks)
    {
      sent := [];
      ghost var result := AfterTicks(Contents(), keys, ticks);
      var i := 0;
      assert ticks[0..] == ticks;
      while i < |ticks|
        invariant 0 <= i <= |ticks|
        invariant AfterTicks(Contents(), keys, ticks[i..]).0 == result.0
        invariant sent + AfterTicks(Contents(), keys, ticks[i..]).1 == result.1
      {
        assert ticks[i..][1..] == ticks[i + 1..];
        ghost var later := AfterTicks(AfterTick(Contents(), keys, ticks[i]).0, keys, ticks[i + 1..]).1;
        assert forall c: Call :: sent + ([c] + later) == (sent + [c]) + later;
        var call := PollStep(ticks[i]);
        if call.Some? {
          sent := sent + [call.value];
        }
        i := i + 1;
      }
      assert ticks[i..] == [];
      assert sent + [] == sent;
    }
  }
}
