/** The withdrawal direction of the bridge: burns logged by registered L2 tokens are released on Sui,
    block range by block range, through failed calls and restarts. */
module BridgeWithdrawals {
  import opened Wrappers
  import opened TokenRegistry

  datatype Burn = Burn(token: Token, nonce: nat, amount: nat, recipient: nat)

  datatype L2Block = L2Block(creations: seq<Creation>, burns: seq<Burn>)

  datatype Release = Release(coin: Coin, nonce: nat, amount: nat, recipient: nat)

  datatype Saved = Saved(next: nat, tokens: map<Coin, Token>)

  /** `skipped` is a record of the blocks a restart jumped over without reading their burns. */
  datatype State = State(
    chain: seq<L2Block>, registry: Registry, next: nat, disk: Saved, releases: seq<Release>, skipped: set<nat>)

  /** How the calls of one pass turn out; `end` is one past the head the node reports. */
  datatype Io = Io(end: Option<nat>, creations: bool, burns: bool, release: nat -> Net, save: bool)

  datatype Event =
    | Grow(block: L2Block)
    | Relay(io: Io)
    | Ensure(coin: Coin, token: Token)
    | Save
    | Restart(end: nat, save: bool)

  function CreationsOf(chain: seq<L2Block>): (r: seq<seq<Creation>>)
    ensures |r| == |chain| && forall i :: 0 <= i < |r| ==> r[i] == chain[i].creations
  {
    seq(|chain|, i requires 0 <= i < |chain| => chain[i].creations)
  }

  function Created(chain: seq<L2Block>, first: nat, end: nat): seq<Creation>
    requires first <= end <= |chain|
  {
    LogsOf(CreationsOf(chain), first, end)
  }

  /** The logs the address filter lets through. */
  function Registered(r: Registry, burns: seq<Burn>): seq<Burn> {
    if burns == [] then []
    else
      var rest := Registered(r, burns[1..]);
      if burns[0].token in r.byAddress then [burns[0]] + rest else rest
  }

  function BurnsOf(chain: seq<L2Block>, r: Registry, first: nat, end: nat): seq<Burn>
    requires first <= end <= |chain|
    decreases end
  {
    if first == end then [] else BurnsOf(chain, r, first, end - 1) + Registered(r, chain[end - 1].burns)
  }

  function BlockRange(first: nat, end: nat): (r: set<nat>)
    ensures forall b :: b in r <==> first <= b < end
    decreases end
  {
    if end <= first then {} else BlockRange(first, end - 1) + {end - 1}
  }

  // ---------- the vault on Sui ----------

  predicate Processed(releases: seq<Release>, coin: Coin, nonce: nat) {
    exists r :: r in releases && r.coin == coin && r.nonce == nonce
  }

  /** Idempotent per coin type and L2 nonce. */
  function Withdraw(releases: seq<Release>, coin: Coin, b: Burn): seq<Release> {
    if Processed(releases, coin, b.nonce) then releases
    else releases + [Release(coin, b.nonce, b.amount, b.recipient)]
  }

  // ---------- the relayer ----------

  /** Releases from the `i`th burn on; a release that is not confirmed ends the pass. */
  function ReleaseFrom(s: State, burns: seq<Burn>, release: nat -> Net, i: nat): (State, bool)
    decreases |burns| - i
  {
    if i >= |burns| then (s, true)
    else if burns[i].token !in s.registry.byAddress || release(i) == RequestLost then (s, false)
    else
      var s1 := s.(releases := Withdraw(s.releases, s.registry.byAddress[burns[i].token], burns[i]));
      if release(i) == Delivered then ReleaseFrom(s1, burns, release, i + 1) else (s1, false)
  }

  function Persist(s: State, save: bool): State {
    if save then s.(disk := Saved(s.next, s.registry.byCoin)) else s
  }

  function Pass(s: State, io: Io): State {
    if io.end == None || io.end.value <= s.next || io.end.value > |s.chain| || !io.creations then s
    else
      var end := io.end.value;
      var s1 := s.(registry := Fold(s.registry, Created(s.chain, s.next, end)));
      if s1.registry.byAddress == map[] then Persist(s1.(next := end), io.save)
      else if !io.burns then s1
      else
        var (s2, ok) := ReleaseFrom(s1, BurnsOf(s.chain, s1.registry, s.next, end), io.release, 0);
        if ok then Persist(s2.(next := end), io.save) else s2
  }

  /** A start restores the saved registry, or else indexes the chain up to its head and goes on from
      there. */
  function Restarted(s: State, end: nat, save: bool): State
    requires end <= |s.chain|
  {
    if s.disk.tokens != map[] && s.disk.next > 0 then
      s.(registry := FromSnapshot(s.disk.tokens), next := s.disk.next)
    else
      Persist(s.(registry := Fold(EMPTY, Created(s.chain, 0, end)), next := end,
                 skipped := s.skipped + BlockRange(s.disk.next, end)), save)
  }

  function Step(s: State, ev: Event): State {
    match ev
    case Grow(block) => s.(chain := s.chain + [block])
    case Relay(io) => Pass(s, io)
    case Ensure(coin, token) => if coin in s.registry.byCoin then s else s.(registry := Insert(s.registry, coin, token))
    case Save => Persist(s, true)
    case Restart(end, save) => if end <= |s.chain| then Restarted(s, end, save) else s
  }

  function Run(s: State, evs: seq<Event>): State
    decreases |evs|
  {
    if evs == [] then s else Run(Step(s, evs[0]), evs[1..])
  }

  // ---------- what every run keeps ----------

  predicate CreatedBy(chain: seq<L2Block>, n: nat, coin: Coin, token: Token) {
    n <= |chain| && Decoded(coin, token) in Created(chain, 0, n)
  }

  /** The factory's rule: a coin type has one token and a token one coin type. */
  predicate FactoryRule(logs: seq<Creation>) {
    forall a, b :: a in logs && b in logs && a.Decoded? && b.Decoded? ==> (a.coin == b.coin <==> a.token == b.token)
  }

  predicate Within(logs: seq<Creation>, tokens: map<Coin, Token>) {
    forall c :: c in tokens ==> Decoded(c, tokens[c]) in logs
  }

  predicate Covers(tokens: map<Coin, Token>, logs: seq<Creation>) {
    forall log :: log in logs && log.Decoded? ==> log.coin in tokens && tokens[log.coin] == log.token
  }

  /** Every burn of a canonical token in the blocks before `n` that were not skipped has its release. */
  ghost predicate Complete(s: State, n: nat) {
    n <= |s.chain| &&
    forall b, burn, coin ::
      (0 <= b < n && b !in s.skipped && burn in s.chain[b].burns && CreatedBy(s.chain, b + 1, coin, burn.token)) ==>
        Processed(s.releases, coin, burn.nonce)
  }

  /** Every release is of a burn of the token of its coin. */
  ghost predicate Backed(s: State, r: Release) {
    exists b, i :: 0 <= b < |s.chain| && 0 <= i < |s.chain[b].burns| &&
      CreatedBy(s.chain, |s.chain|, r.coin, s.chain[b].burns[i].token) &&
      r == Release(r.coin, s.chain[b].burns[i].nonce, s.chain[b].burns[i].amount, s.chain[b].burns[i].recipient)
  }

  predicate Once(releases: seq<Release>) {
    forall i, j :: 0 <= i < j < |releases| ==>
      releases[i].coin != releases[j].coin || releases[i].nonce != releases[j].nonce
  }

  ghost predicate RegistryInv(s: State) {
    && s.next <= |s.chain| && s.disk.next <= |s.chain|
    && FactoryRule(Created(s.chain, 0, |s.chain|))
    && Inverse(s.registry)
    && Within(Created(s.chain, 0, |s.chain|), s.registry.byCoin)
    && Within(Created(s.chain, 0, |s.chain|), s.disk.tokens)
    && Covers(s.registry.byCoin, Created(s.chain, 0, s.next))
    && Covers(s.disk.tokens, Created(s.chain, 0, s.disk.next))
  }

  ghost predicate Inv(s: State) {
    && RegistryInv(s)
    && Once(s.releases) && (forall r :: r in s.releases ==> Backed(s, r))
    && Complete(s, s.next) && Complete(s, s.disk.next)
  }

  predicate Legal(s: State, ev: Event) {
    match ev
    case Grow(block) => FactoryRule(Created(s.chain + [block], 0, |s.chain| + 1))
    case Ensure(coin, token) => CreatedBy(s.chain, |s.chain|, coin, token)
    case _ => true
  }

  predicate LegalRun(s: State, evs: seq<Event>)
    decreases |evs|
  {
    evs == [] || (Legal(s, evs[0]) && LegalRun(Step(s, evs[0]), evs[1..]))
  }

  // ---------- the registry follows the chain ----------

  lemma {:induction false} CreatedGrows(chain: seq<L2Block>, block: L2Block, first: nat, end: nat)
    requires first <= end <= |chain|
    ensures Created(chain + [block], first, end) == Created(chain, first, end)
    decreases end
  {
    if first < end {
      CreatedGrows(chain, block, first, end - 1);
    }
  }

  lemma CreatedThen(chain: seq<L2Block>, first: nat, mid: nat, end: nat)
    requires first <= mid <= end <= |chain|
    ensures Created(chain, first, end) == Created(chain, first, mid) + Created(chain, mid, end)
  {
    LogsThen(CreationsOf(chain), first, mid, end);
  }

  /** Under the factory's rule a fold over logs of the chain adds exactly what they name. */
  lemma {:induction false} FoldCovers(all: seq<Creation>, r: Registry, logs: seq<Creation>)
    requires FactoryRule(all) && Inverse(r) && Within(all, r.byCoin) && forall log :: log in logs ==> log in all
    ensures var r1 := Fold(r, logs);
      && Inverse(r1) && Within(all, r1.byCoin) && Covers(r1.byCoin, logs)
      && forall c :: c in r.byCoin ==> c in r1.byCoin && r1.byCoin[c] == r.byCoin[c]
    decreases |logs|
  {
    if logs != [] {
      var before, log := logs[..|logs| - 1], logs[|logs| - 1];
      assert logs == before + [log];
      FoldCovers(all, r, before);
      var r0 := Fold(r, before);
      if log.Decoded? {
        assert log in all;
        assert log.coin in r0.byCoin ==> Decoded(log.coin, r0.byCoin[log.coin]) in all;
        assert log.token in r0.byAddress ==> Decoded(r0.byAddress[log.token], log.token) in all;
        InsertKeepsInverse(r0, log.coin, log.token);
      }
    }
  }

  lemma CoversBoth(tokens: map<Coin, Token>, a: seq<Creation>, b: seq<Creation>)
    requires Covers(tokens, a) && Covers(tokens, b)
    ensures Covers(tokens, a + b)
  {
  }

  /** What absorbing the creations of a block range leaves. */
  lemma AbsorbKeepsRegistry(s: State, end: nat)
    requires RegistryInv(s) && s.next <= end <= |s.chain|
    ensures var r := Fold(s.registry, Created(s.chain, s.next, end));
      && RegistryInv(s.(registry := r)) && Covers(r.byCoin, Created(s.chain, 0, end))
  {
    var all := Created(s.chain, 0, |s.chain|);
    var logs := Created(s.chain, s.next, end);
    CreatedThen(s.chain, 0, end, |s.chain|);
    CreatedThen(s.chain, 0, s.next, end);
    FoldCovers(all, s.registry, logs);
    CoversBoth(Fold(s.registry, logs).byCoin, Created(s.chain, 0, s.next), logs);
  }

  // ---------- releases ----------

  lemma {:induction false} RegisteredExactly(r: Registry, burns: seq<Burn>, b: Burn)
    ensures b in Registered(r, burns) <==> b in burns && b.token in r.byAddress
  {
    if burns != [] {
      RegisteredExactly(r, burns[1..], b);
      assert b in burns <==> b == burns[0] || b in burns[1..];
    }
  }

  lemma {:induction false} BurnsExactly(chain: seq<L2Block>, r: Registry, first: nat, end: nat, b: Burn)
    requires first <= end <= |chain|
    ensures b in BurnsOf(chain, r, first, end) <==>
            b.token in r.byAddress && exists k :: first <= k < end && b in chain[k].burns
    decreases end
  {
    if first < end {
      BurnsExactly(chain, r, first, end - 1, b);
      RegisteredExactly(r, chain[end - 1].burns, b);
    }
  }

  /** `r1` is `r` with releases of burns of the chain added, none twice. */
  ghost predicate Extends(s: State, s1: State) {
    && s1 == s.(releases := s1.releases)
    && s.releases <= s1.releases && Once(s1.releases) && forall r :: r in s1.releases ==> Backed(s, r)
  }

  lemma WithdrawExtends(s: State, burn: Burn, b: nat)
    requires Once(s.releases) && forall r :: r in s.releases ==> Backed(s, r)
    requires b < |s.chain| && burn in s.chain[b].burns && burn.token in s.registry.byAddress
    requires Inverse(s.registry) && Within(Created(s.chain, 0, |s.chain|), s.registry.byCoin)
    ensures var coin := s.registry.byAddress[burn.token];
      var s1 := s.(releases := Withdraw(s.releases, coin, burn));
      Extends(s, s1) && Processed(s1.releases, coin, burn.nonce)
  {
    var coin := s.registry.byAddress[burn.token];
    var s1 := s.(releases := Withdraw(s.releases, coin, burn));
    if !Processed(s.releases, coin, burn.nonce) {
      var r := Release(coin, burn.nonce, burn.amount, burn.recipient);
      var i :| 0 <= i < |s.chain[b].burns| && s.chain[b].burns[i] == burn;
      assert CreatedBy(s.chain, |s.chain|, coin, burn.token);
      assert Backed(s, r);
      assert r in s1.releases;
      forall k | 0 <= k < |s.releases| ensures s.releases[k].coin != coin || s.releases[k].nonce != burn.nonce {
        assert s.releases[k] in s.releases;
      }
    }
  }

  lemma ExtendsThen(s: State, s1: State, s2: State)
    requires Extends(s, s1) && Extends(s1, s2)
    ensures Extends(s, s2)
    ensures forall coin, nonce :: Processed(s1.releases, coin, nonce) ==> Processed(s2.releases, coin, nonce)
  {
    forall r | r in s2.releases ensures Backed(s, r) {
      assert Backed(s1, r);
    }
  }

  lemma ExtendedIsBacked(s: State, s1: State)
    requires Extends(s, s1)
    ensures forall r :: r in s1.releases ==> Backed(s1, r)
  {
    forall r | r in s1.releases ensures Backed(s1, r) {
      assert Backed(s, r);
    }
  }

  lemma {:induction false} ReleaseExtends(s: State, burns: seq<Burn>, release: nat -> Net, i: nat)
    requires Once(s.releases) && forall r :: r in s.releases ==> Backed(s, r)
    requires forall b :: b in burns ==> exists k :: 0 <= k < |s.chain| && b in s.chain[k].burns
    requires Inverse(s.registry) && Within(Created(s.chain, 0, |s.chain|), s.registry.byCoin)
    ensures var (s1, ok) := ReleaseFrom(s, burns, release, i);
      && Extends(s, s1)
      && (ok ==> forall k :: i <= k < |burns| ==>
            burns[k].token in s.registry.byAddress &&
            Processed(s1.releases, s.registry.byAddress[burns[k].token], burns[k].nonce))
    decreases |burns| - i
  {
    if i < |burns| && burns[i].token in s.registry.byAddress && release(i) != RequestLost {
      assert burns[i] in burns;
      var b :| 0 <= b < |s.chain| && burns[i] in s.chain[b].burns;
      WithdrawExtends(s, burns[i], b);
      var s1 := s.(releases := Withdraw(s.releases, s.registry.byAddress[burns[i].token], burns[i]));
      if release(i) == Delivered {
        ExtendedIsBacked(s, s1);
        ReleaseExtends(s1, burns, release, i + 1);
        ExtendsThen(s, s1, ReleaseFrom(s1, burns, release, i + 1).0);
      }
    }
  }

  lemma CompleteGrows(s: State, s1: State, n: nat)
    requires Complete(s, n) && s1.chain == s.chain && s.skipped <= s1.skipped && s.releases <= s1.releases
    ensures Complete(s1, n)
  {
    forall coin, nonce | Processed(s.releases, coin, nonce) ensures Processed(s1.releases, coin, nonce) {
    }
  }

  /** Once every burn of the range is processed, the claim reaches its end. */
  lemma RangeCompletes(s: State, end: nat)
    requires RegistryInv(s) && Complete(s, s.next) && s.next <= end <= |s.chain|
    requires Covers(s.registry.byCoin, Created(s.chain, 0, end))
    requires forall burn :: burn in BurnsOf(s.chain, s.registry, s.next, end) ==>
               burn.token in s.registry.byAddress &&
               Processed(s.releases, s.registry.byAddress[burn.token], burn.nonce)
    ensures Complete(s, end)
  {
    forall b, burn, coin | 0 <= b < end && b !in s.skipped && burn in s.chain[b].burns &&
        CreatedBy(s.chain, b + 1, coin, burn.token)
      ensures Processed(s.releases, coin, burn.nonce)
    {
      if b >= s.next {
        CreatedThen(s.chain, 0, b + 1, end);
        assert Decoded(coin, burn.token) in Created(s.chain, 0, end);
        assert s.registry.byAddress[burn.token] == coin;
        BurnsExactly(s.chain, s.registry, s.next, end, burn);
      }
    }
  }

  // ---------- every step keeps the invariant ----------

  lemma BackedGrows(s: State, block: L2Block, r: Release)
    requires Backed(s, r)
    ensures Backed(s.(chain := s.chain + [block]), r)
  {
    var chain := s.chain + [block];
    CreatedGrows(s.chain, block, 0, |s.chain|);
    CreatedThen(chain, 0, |s.chain|, |chain|);
    var b, i :| 0 <= b < |s.chain| && 0 <= i < |s.chain[b].burns| &&
      CreatedBy(s.chain, |s.chain|, r.coin, s.chain[b].burns[i].token) &&
      r == Release(r.coin, s.chain[b].burns[i].nonce, s.chain[b].burns[i].amount, s.chain[b].burns[i].recipient);
    assert chain[b] == s.chain[b];
    assert CreatedBy(chain, |chain|, r.coin, chain[b].burns[i].token);
  }

  lemma GrowKeepsInv(s: State, block: L2Block)
    requires Inv(s) && Legal(s, Grow(block))
    ensures Inv(Step(s, Grow(block)))
  {
    var s1 := Step(s, Grow(block));
    CreatedGrows(s.chain, block, 0, |s.chain|);
    CreatedGrows(s.chain, block, 0, s.next);
    CreatedGrows(s.chain, block, 0, s.disk.next);
    CreatedThen(s1.chain, 0, |s.chain|, |s1.chain|);
    forall r | r in s1.releases ensures Backed(s1, r) {
      BackedGrows(s, block, r);
    }
    GrowKeepsComplete(s, block, s.next);
    GrowKeepsComplete(s, block, s.disk.next);
  }

  lemma GrowKeepsComplete(s: State, block: L2Block, n: nat)
    requires Complete(s, n)
    ensures Complete(s.(chain := s.chain + [block]), n)
  {
    var s1 := s.(chain := s.chain + [block]);
    forall b, burn, coin |
      0 <= b < n && b !in s1.skipped && burn in s1.chain[b].burns && CreatedBy(s1.chain, b + 1, coin, burn.token)
      ensures Processed(s1.releases, coin, burn.nonce)
    {
      CreatedGrows(s.chain, block, 0, b + 1);
      assert CreatedBy(s.chain, b + 1, coin, burn.token);
    }
  }

  lemma PersistKeepsInv(s: State, save: bool)
    requires Inv(s)
    ensures Inv(Persist(s, save))
  {
    var s1 := Persist(s, save);
    forall r | Backed(s, r) ensures Backed(s1, r) {
      var b, i :| 0 <= b < |s.chain| && 0 <= i < |s.chain[b].burns| &&
        CreatedBy(s.chain, |s.chain|, r.coin, s.chain[b].burns[i].token) &&
        r == Release(r.coin, s.chain[b].burns[i].nonce, s.chain[b].burns[i].amount, s.chain[b].burns[i].recipient);
      assert s1.chain[b] == s.chain[b];
    }
  }

  /** A state that differs in registry, cursors and skipped blocks only. */
  lemma SameReleases(s: State, s1: State)
    requires s1.chain == s.chain && s1.releases == s.releases && forall r :: r in s.releases ==> Backed(s, r)
    ensures forall r :: r in s1.releases ==> Backed(s1, r)
  {
    forall r | r in s1.releases ensures Backed(s1, r) {
      var b, i :| 0 <= b < |s.chain| && 0 <= i < |s.chain[b].burns| &&
        CreatedBy(s.chain, |s.chain|, r.coin, s.chain[b].burns[i].token) &&
        r == Release(r.coin, s.chain[b].burns[i].nonce, s.chain[b].burns[i].amount, s.chain[b].burns[i].recipient);
      assert s1.chain[b] == s.chain[b];
    }
  }

  lemma AbsorbKeepsInv(s: State, end: nat) returns (s1: State)
    requires Inv(s) && s.next <= end <= |s.chain|
    ensures s1 == s.(registry := Fold(s.registry, Created(s.chain, s.next, end)))
    ensures Inv(s1) && Covers(s1.registry.byCoin, Created(s.chain, 0, end))
  {
    s1 := s.(registry := Fold(s.registry, Created(s.chain, s.next, end)));
    AbsorbKeepsRegistry(s, end);
    SameReleases(s, s1);
    CompleteGrows(s, s1, s.next);
    CompleteGrows(s, s1, s.disk.next);
  }

  lemma ReleaseKeepsInv(s: State, end: nat, release: nat -> Net) returns (s1: State)
    requires Inv(s) && s.next <= end <= |s.chain| && Covers(s.registry.byCoin, Created(s.chain, 0, end))
    ensures s1 == ReleaseFrom(s, BurnsOf(s.chain, s.registry, s.next, end), release, 0).0
    ensures Inv(s1) && Extends(s, s1)
    ensures ReleaseFrom(s, BurnsOf(s.chain, s.registry, s.next, end), release, 0).1 ==> Complete(s1, end)
  {
    var burns := BurnsOf(s.chain, s.registry, s.next, end);
    forall b | b in burns ensures exists k :: 0 <= k < |s.chain| && b in s.chain[k].burns {
      BurnsExactly(s.chain, s.registry, s.next, end, b);
    }
    ReleaseExtends(s, burns, release, 0);
    var ok := ReleaseFrom(s, burns, release, 0).1;
    s1 := ReleaseFrom(s, burns, release, 0).0;
    CompleteGrows(s, s1, s.next);
    CompleteGrows(s, s1, s.disk.next);
    BackedStays(s, s1);
    if ok {
      RangeCompletes(s1, end);
    }
  }

  lemma BackedStays(s: State, s1: State)
    requires s1.chain == s.chain && forall r :: r in s1.releases ==> Backed(s, r)
    ensures forall r :: r in s1.releases ==> Backed(s1, r)
  {
    SameReleases(s.(releases := s1.releases), s1);
  }

  lemma EmptyRangeCompletes(s: State, end: nat)
    requires Inv(s) && s.next <= end <= |s.chain| && Covers(s.registry.byCoin, Created(s.chain, 0, end))
    requires s.registry.byAddress == map[]
    ensures Complete(s, end)
  {
    forall burn | burn in BurnsOf(s.chain, s.registry, s.next, end) ensures burn.token in s.registry.byAddress {
      BurnsExactly(s.chain, s.registry, s.next, end, burn);
    }
    RangeCompletes(s, end);
  }

  lemma MoveKeepsInv(s: State, end: nat, save: bool)
    requires Inv(s) && s.next <= end <= |s.chain| && Complete(s, end)
    requires Covers(s.registry.byCoin, Created(s.chain, 0, end))
    ensures Inv(Persist(s.(next := end), save))
  {
    var s1 := s.(next := end);
    SameReleases(s, s1);
    CompleteGrows(s, s1, end);
    CompleteGrows(s, s1, s.disk.next);
    PersistKeepsInv(s1, save);
  }

  lemma PassKeepsInv(s: State, io: Io)
    requires Inv(s)
    ensures Inv(Pass(s, io))
  {
    if io.end.Some? && s.next < io.end.value <= |s.chain| && io.creations {
      var end := io.end.value;
      var s1 := AbsorbKeepsInv(s, end);
      if s1.registry.byAddress == map[] {
        EmptyRangeCompletes(s1, end);
        MoveKeepsInv(s1, end, io.save);
      } else if io.burns {
        var s2 := ReleaseKeepsInv(s1, end, io.release);
        if ReleaseFrom(s1, BurnsOf(s.chain, s1.registry, s.next, end), io.release, 0).1 {
          MoveKeepsInv(s2, end, io.save);
        }
      }
    }
  }

  lemma InjectiveTokens(logs: seq<Creation>, tokens: map<Coin, Token>)
    requires FactoryRule(logs) && Within(logs, tokens)
    ensures Injective(tokens)
  {
    forall a, b | a in tokens && b in tokens && tokens[a] == tokens[b] ensures a == b {
      assert Decoded(a, tokens[a]) in logs && Decoded(b, tokens[b]) in logs;
    }
  }

  lemma SnapshotKeepsInv(s: State)
    requires Inv(s)
    ensures Inv(s.(registry := FromSnapshot(s.disk.tokens), next := s.disk.next))
  {
    var r := FromSnapshot(s.disk.tokens);
    var s1 := s.(registry := r, next := s.disk.next);
    InjectiveTokens(Created(s.chain, 0, |s.chain|), s.disk.tokens);
    SnapshotIsInverse(s.disk.tokens);
    SameReleases(s, s1);
    CompleteGrows(s, s1, s.disk.next);
  }

  lemma RescanKeepsInv(s: State, end: nat, save: bool)
    requires Inv(s) && end <= |s.chain|
    ensures Inv(Persist(s.(registry := Fold(EMPTY, Created(s.chain, 0, end)), next := end,
                           skipped := s.skipped + BlockRange(s.disk.next, end)), save))
  {
    var s1 := s.(registry := Fold(EMPTY, Created(s.chain, 0, end)), next := end,
                 skipped := s.skipped + BlockRange(s.disk.next, end));
    CreatedThen(s.chain, 0, end, |s.chain|);
    FoldCovers(Created(s.chain, 0, |s.chain|), EMPTY, Created(s.chain, 0, end));
    SameReleases(s, s1);
    CompleteGrows(s, s1, s.disk.next);
    assert Complete(s1, end);
    PersistKeepsInv(s1, save);
  }

  lemma EnsureKeepsInv(s: State, coin: Coin, token: Token)
    requires Inv(s) && Legal(s, Ensure(coin, token)) && coin !in s.registry.byCoin
    ensures Inv(s.(registry := Insert(s.registry, coin, token)))
  {
    var all := Created(s.chain, 0, |s.chain|);
    var s1 := s.(registry := Insert(s.registry, coin, token));
    assert Fold(s.registry, [Decoded(coin, token)]) == Insert(s.registry, coin, token) by {
      assert [Decoded(coin, token)][..0] == [];
    }
    FoldCovers(all, s.registry, [Decoded(coin, token)]);
    SameReleases(s, s1);
    CompleteGrows(s, s1, s.next);
    CompleteGrows(s, s1, s.disk.next);
  }

  lemma StepKeepsInv(s: State, ev: Event)
    requires Inv(s) && Legal(s, ev)
    ensures Inv(Step(s, ev))
  {
    match ev
    case Grow(block) => GrowKeepsInv(s, block);
    case Relay(io) => PassKeepsInv(s, io);
    case Ensure(coin, token) =>
      if coin !in s.registry.byCoin {
        EnsureKeepsInv(s, coin, token);
      }
    case Save => PersistKeepsInv(s, true);
    case Restart(end, save) =>
      SnapshotKeepsInv(s);
      if end <= |s.chain| {
        RescanKeepsInv(s, end, save);
      }
  }

  // ---------- the theorems ----------

  /** In every run the registry, in memory and on disk, covers every creation below its block cursor;
      releases are of burns of registered tokens, none twice; and every burn of a canonical token below
      the cursor has its release, but for the blocks a restart without a saved registry jumped over. */
  lemma {:induction false} RunKeepsInv(s: State, evs: seq<Event>)
    requires Inv(s) && LegalRun(s, evs)
    ensures var end := Run(s, evs);
      && Inv(end)
      && Covers(end.registry.byCoin, Created(end.chain, 0, end.next))
      && Covers(end.disk.tokens, Created(end.chain, 0, end.disk.next))
      && Once(end.releases) && (forall r :: r in end.releases ==> Backed(end, r))
      && Complete(end, end.next)
    decreases |evs|
  {
    if evs != [] {
      StepKeepsInv(s, evs[0]);
      RunKeepsInv(Step(s, evs[0]), evs[1..]);
    }
  }

  /** The token contract numbers its burns. */
  ghost predicate UniqueNonces(chain: seq<L2Block>) {
    forall a, b, x, y ::
      (0 <= a < |chain| && 0 <= b < |chain| && x in chain[a].burns && y in chain[b].burns &&
       x.token == y.token && x.nonce == y.nonce) ==> x == y
  }

  /** So a burn below the cursor was released exactly as it was logged, and only once. */
  lemma ReleasedAsBurned(s: State, b: nat, burn: Burn, coin: Coin)
    requires Inv(s) && UniqueNonces(s.chain)
    requires b < s.next && b !in s.skipped && burn in s.chain[b].burns && CreatedBy(s.chain, b + 1, coin, burn.token)
    ensures Release(coin, burn.nonce, burn.amount, burn.recipient) in s.releases
    ensures forall r :: r in s.releases && r.coin == coin && r.nonce == burn.nonce ==>
              r == Release(coin, burn.nonce, burn.amount, burn.recipient)
  {
    var all := Created(s.chain, 0, |s.chain|);
    CreatedThen(s.chain, 0, b + 1, |s.chain|);
    assert Decoded(coin, burn.token) in all;
    assert Processed(s.releases, coin, burn.nonce);
    forall r | r in s.releases && r.coin == coin && r.nonce == burn.nonce
      ensures r == Release(coin, burn.nonce, burn.amount, burn.recipient)
    {
      var k, i :| 0 <= k < |s.chain| && 0 <= i < |s.chain[k].burns| &&
        CreatedBy(s.chain, |s.chain|, r.coin, s.chain[k].burns[i].token) &&
        r == Release(r.coin, s.chain[k].burns[i].nonce, s.chain[k].burns[i].amount, s.chain[k].burns[i].recipient);
      assert Decoded(coin, s.chain[k].burns[i].token) in all;
      assert s.chain[k].burns[i] in s.chain[k].burns;
      assert s.chain[k].burns[i] == burn;
    }
  }

  lemma {:induction false} ReleaseSucceeds(s: State, burns: seq<Burn>, release: nat -> Net, i: nat)
    requires forall b :: b in burns ==> b.token in s.registry.byAddress
    requires forall n: nat :: release(n) == Delivered
    ensures ReleaseFrom(s, burns, release, i).1
    decreases |burns| - i
  {
    if i < |burns| {
      assert burns[i] in burns;
      ReleaseSucceeds(s.(releases := Withdraw(s.releases, s.registry.byAddress[burns[i].token], burns[i])),
                      burns, release, i + 1);
    }
  }

  /** A pass in which no call fails reaches the head it read, releases every burn up to there and
      saves cursor and registry together. */
  lemma FlawlessPassReaches(s: State, io: Io)
    requires Inv(s) && io.end.Some? && s.next < io.end.value <= |s.chain|
    requires io.creations && io.burns && io.save && forall n: nat :: io.release(n) == Delivered
    ensures var s1 := Pass(s, io);
      && s1.next == io.end.value && s1.disk == Saved(s1.next, s1.registry.byCoin)
      && Complete(s1, io.end.value) && Covers(s1.registry.byCoin, Created(s.chain, 0, io.end.value))
  {
    PassKeepsInv(s, io);
    var r := Fold(s.registry, Created(s.chain, s.next, io.end.value));
    var s1 := s.(registry := r);
    var burns := BurnsOf(s.chain, r, s.next, io.end.value);
    forall b | b in burns ensures b.token in r.byAddress {
      BurnsExactly(s.chain, r, s.next, io.end.value, b);
    }
    ReleaseSucceeds(s1, burns, io.release, 0);
    ReleaseKeepsRest(s1, burns, io.release, 0);
  }

  /** The burns released one after another. */
  function WithdrawAll(releases: seq<Release>, r: Registry, burns: seq<Burn>): seq<Release>
    requires forall b :: b in burns ==> b.token in r.byAddress
  {
    if burns == [] then releases
    else
      var last := burns[|burns| - 1];
      Withdraw(WithdrawAll(releases, r, burns[..|burns| - 1]), r.byAddress[last.token], last)
  }

  lemma {:induction false} WithdrawFirst(releases: seq<Release>, r: Registry, burns: seq<Burn>)
    requires burns != [] && forall b :: b in burns ==> b.token in r.byAddress
    ensures WithdrawAll(releases, r, burns) ==
            WithdrawAll(Withdraw(releases, r.byAddress[burns[0].token], burns[0]), r, burns[1..])
    decreases |burns|
  {
    if |burns| > 1 {
      var before, last := burns[..|burns| - 1], burns[|burns| - 1];
      WithdrawFirst(releases, r, before);
      assert burns[1..][..|burns| - 2] == before[1..] && burns[1..][|burns| - 2] == last;
    }
  }

  /** The burns are released in order up to the first whose call is not confirmed: that one is released
      if only its answer was lost, none after it are, and the pass goes on exactly if there is none. */
  lemma {:induction false} ReleaseStopsAtFirst(s: State, burns: seq<Burn>, release: nat -> Net, i: nat, stop: nat)
    requires forall b :: b in burns ==> b.token in s.registry.byAddress
    requires i <= stop <= |burns| && (forall k :: i <= k < stop ==> release(k) == Delivered)
    requires stop < |burns| ==> release(stop) != Delivered
    ensures var done := if stop < |burns| && release(stop) == ReplyLost then stop + 1 else stop;
      ReleaseFrom(s, burns, release, i) ==
      (s.(releases := WithdrawAll(s.releases, s.registry, burns[i..done])), stop == |burns|)
    decreases stop - i
  {
    var done := if stop < |burns| && release(stop) == ReplyLost then stop + 1 else stop;
    if i < done {
      assert burns[i] in burns && forall b :: b in burns[i..done] ==> b in burns;
      WithdrawFirst(s.releases, s.registry, burns[i..done]);
      assert burns[i..done][1..] == burns[i + 1..done];
      if i < stop {
        var s1 := s.(releases := Withdraw(s.releases, s.registry.byAddress[burns[i].token], burns[i]));
        ReleaseStopsAtFirst(s1, burns, release, i + 1, stop);
      } else {
        assert burns[i + 1..done] == [];
      }
    } else {
      assert burns[i..done] == [];
      assert stop < |burns| ==> burns[stop] in burns;
    }
  }

  /** A pass absorbs the creations of its range once it can read them. The cursor moves to the end of the
      range, and the file with it if it can be written, exactly when no token is known or every burn of
      the range was read and released; otherwise what it released is all that it leaves. */
  lemma PassExactly(s: State, io: Io)
    ensures var s1 := Step(s, Relay(io));
      var ranged := io.end.Some? && s.next < io.end.value <= |s.chain| && io.creations;
      if !ranged then s1 == s
      else
        var end := io.end.value;
        var r := Fold(s.registry, Created(s.chain, s.next, end));
        var (s2, ok) := ReleaseFrom(s.(registry := r), BurnsOf(s.chain, r, s.next, end), io.release, 0);
        var done := r.byAddress == map[] || (io.burns && ok);
        && s1.registry == r && s1.chain == s.chain && s1.skipped == s.skipped
        && s1.releases == (if r.byAddress == map[] || !io.burns then s.releases else s2.releases)
        && s1.next == (if done then end else s.next)
        && s1.disk == (if done && io.save then Saved(end, r.byCoin) else s.disk)
  {
    if io.end.Some? && s.next < io.end.value <= |s.chain| && io.creations {
      var end := io.end.value;
      var r := Fold(s.registry, Created(s.chain, s.next, end));
      ReleaseKeepsRest(s.(registry := r), BurnsOf(s.chain, r, s.next, end), io.release, 0);
    }
  }

  /** A token created for a deposit is in the registry from then on, unless its coin has one, which stays;
      a save puts the registry and the cursor in the file. */
  lemma EnsureAndSave(s: State, coin: Coin, token: Token, c: Coin)
    ensures var s1 := Step(s, Ensure(coin, token));
      && coin in s1.registry.byCoin && (coin !in s.registry.byCoin ==> s1.registry.byCoin[coin] == token)
      && (c in s.registry.byCoin ==> c in s1.registry.byCoin && s1.registry.byCoin[c] == s.registry.byCoin[c])
      && (c != coin ==> (c in s1.registry.byCoin <==> c in s.registry.byCoin))
      && (coin in s.registry.byCoin ==> s1 == s) && s1 == s.(registry := s1.registry)
    ensures Step(s, Save) == s.(disk := Saved(s.next, s.registry.byCoin))
  {
  }

  /** A restart from a file just written changes nothing. */
  lemma RestartChangesNothing(s: State, end: nat, save: bool)
    requires Inverse(s.registry) && s.disk == Saved(s.next, s.registry.byCoin) && Held(s)
    ensures Step(s, Restart(end, save)) == s
  {
    SnapshotRoundTrips(s.registry);
    assert FromSnapshot(s.disk.tokens) == s.registry;
    if end <= |s.chain| {
      assert Restarted(s, end, save) == s.(registry := s.registry, next := s.next);
    }
  }

  /** One without a saved registry knows every creation up to the head it reads, goes on from there, and
      skips exactly the blocks between the saved cursor and that head. */
  lemma RescanSkipsExactly(s: State, end: nat, save: bool)
    requires Inv(s) && end <= |s.chain| && (s.disk.tokens == map[] || s.disk.next == 0)
    ensures var s1 := Step(s, Restart(end, save));
      && s1.next == end && s1.releases == s.releases && s1.chain == s.chain
      && (forall b :: b in s1.skipped <==> b in s.skipped || s.disk.next <= b < end)
      && Covers(s1.registry.byCoin, Created(s.chain, 0, end)) && Within(Created(s.chain, 0, end), s1.registry.byCoin)
      && s1.disk == if save then Saved(end, s1.registry.byCoin) else s.disk
  {
    CreatedThen(s.chain, 0, end, |s.chain|);
    FoldCovers(Created(s.chain, 0, end), EMPTY, Created(s.chain, 0, end));
  }

  /** The registry and a cursor are held in memory and on disk. */
  predicate Held(s: State) {
    s.registry.byCoin != map[] && s.next > 0 && s.disk.tokens != map[] && s.disk.next > 0
  }

  lemma {:induction false} FoldKeepsClaims(r: Registry, logs: seq<Creation>, c: Coin)
    requires c in r.byCoin
    ensures c in Fold(r, logs).byCoin
    decreases |logs|
  {
    if logs != [] {
      FoldKeepsClaims(r, logs[..|logs| - 1], c);
    }
  }

  lemma {:induction false} ReleaseKeepsRest(s: State, burns: seq<Burn>, release: nat -> Net, i: nat)
    ensures var s1 := ReleaseFrom(s, burns, release, i).0; s1 == s.(releases := s1.releases)
    decreases |burns| - i
  {
    if i < |burns| && burns[i].token in s.registry.byAddress && release(i) != RequestLost {
      ReleaseKeepsRest(s.(releases := Withdraw(s.releases, s.registry.byAddress[burns[i].token], burns[i])),
                       burns, release, i + 1);
    }
  }

  lemma PassKeepsHeld(s: State, io: Io)
    requires Held(s)
    ensures Held(Pass(s, io)) && Pass(s, io).skipped == s.skipped
  {
    if io.end.Some? && s.next < io.end.value <= |s.chain| && io.creations {
      var c :| c in s.registry.byCoin;
      var logs := Created(s.chain, s.next, io.end.value);
      FoldKeepsClaims(s.registry, logs, c);
      var s1 := s.(registry := Fold(s.registry, logs));
      var burns := BurnsOf(s.chain, s1.registry, s.next, io.end.value);
      ReleaseKeepsRest(s1, burns, io.release, 0);
      var s2 := ReleaseFrom(s1, burns, io.release, 0).0;
      assert Held(s1) && Held(s2) && s2.skipped == s.skipped;
    }
  }

  lemma InsertKeepsHeld(s: State, coin: Coin, token: Token)
    requires Held(s)
    ensures Held(s.(registry := Insert(s.registry, coin, token)))
  {
    var c :| c in s.registry.byCoin;
    assert c in Insert(s.registry, coin, token).byCoin;
  }

  lemma RestartKeepsHeld(s: State, end: nat, save: bool)
    requires Held(s) && end <= |s.chain|
    ensures Held(Restarted(s, end, save)) && Restarted(s, end, save).skipped == s.skipped
  {
    SnapshotRoundTrips(Registry(s.disk.tokens, map[]));
  }

  lemma StepKeepsHeld(s: State, ev: Event)
    requires Held(s)
    ensures Held(Step(s, ev)) && Step(s, ev).skipped == s.skipped
  {
    match ev
    case Grow(_) =>
    case Relay(io) => PassKeepsHeld(s, io);
    case Ensure(coin, token) => InsertKeepsHeld(s, coin, token);
    case Save =>
    case Restart(end, save) =>
      if end <= |s.chain| {
        RestartKeepsHeld(s, end, save);
      }
  }

  /** Once a registry is saved no restart ever jumps over a burn. */
  lemma {:induction false} SavedNeverSkips(s: State, evs: seq<Event>)
    requires Held(s)
    ensures Held(Run(s, evs)) && Run(s, evs).skipped == s.skipped
    decreases |evs|
  {
    if evs != [] {
      StepKeepsHeld(s, evs[0]);
      SavedNeverSkips(Step(s, evs[0]), evs[1..]);
    }
  }

  // ---------- the relayer itself ----------

  class Withdrawer {
    var chain: seq<L2Block>
    var registry: Registry
    var next: nat
    var disk: Saved
    var releases: seq<Release>
    ghost var skipped: set<nat>

    ghost function World(): State
      reads this
    {
      State(chain, registry, next, disk, releases, skipped)
    }

    method ReleaseBurns(burns: seq<Burn>, release: nat -> Net) returns (ok: bool)
      modifies `releases
      ensures (World(), ok) == ReleaseFrom(old(World()), burns, release, 0)
    {
      ghost var result := ReleaseFrom(World(), burns, release, 0);
      var i := 0;
      while i < |burns|
        invariant 0 <= i <= |burns|
        invariant ReleaseFrom(World(), burns, release, i) == result
      {
        if burns[i].token !in registry.byAddress || release(i) == RequestLost { return false; }
        releases := Withdraw(releases, registry.byAddress[burns[i].token], burns[i]);
        if release(i) == ReplyLost { return false; }
        i := i + 1;
      }
      return true;
    }

    /** The cursor moves only when the whole range is released. */
    method RelayWithdrawals(io: Io)
      modifies this
      ensures World() == Pass(old(World()), io)
    {
      if io.end == None || io.end.value <= next || io.end.value > |chain| || !io.creations { return; }
      var end := io.end.value;
      registry := Fold(registry, Created(chain, next, end));
      if registry.byAddress != map[] {
        if !io.burns { return; }
        var ok := ReleaseBurns(BurnsOf(chain, registry, next, end), io.release);
        if !ok { return; }
      }
      next := end;
      if io.save {
        disk := Saved(next, registry.byCoin);
      }
    }
  }
}
