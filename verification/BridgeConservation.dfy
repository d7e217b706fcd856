/** Both directions of the bridge together, with the L2 token contracts and the vault on Sui: what is
    locked of a coin is what its token has outstanding, what is burned and not yet released, what is
    deposited and not yet minted, and what was released. */
module BridgeConservation {
  import opened Wrappers
  import opened Wire
  import BridgeDeposits
  import BridgeWithdrawals
  import TokenRegistry

  type Coin = nat
  type Token = nat
  type MintLog = seq<BridgeDeposits.MintTx>
  type BurnLog = seq<BridgeWithdrawals.Burn>
  type Releases = seq<BridgeWithdrawals.Release>

  // ---------- the token contract ----------

  /** `holders` has each address once for every unit it holds. */
  datatype Ledger = Ledger(holders: multiset<Bytes>, supply: int, lastWithdrawal: nat)

  type Ledgers = map<Token, Ledger>

  const NO_LEDGER: Ledger := Ledger(multiset{}, 0, 0)

  function Mint(l: Ledger, recipient: Bytes, amount: nat): Ledger {
    l.(holders := l.holders[recipient := l.holders[recipient] + amount], supply := l.supply + amount)
  }

  /** The recipient is not the zero address, and the balance suffices. */
  function Transfer(l: Ledger, sender: Bytes, recipient: Bytes, amount: nat): Ledger {
    if BridgeDeposits.IsZero(recipient) || l.holders[sender] < amount then l
    else
      var taken := l.holders[sender := l.holders[sender] - amount];
      l.(holders := taken[recipient := taken[recipient] + amount])
  }

  /** The recipient on Sui is not the zero address; the supply is reduced without a check of its own. */
  function Burn(l: Ledger, sender: Bytes, recipient: nat, amount: nat): Option<Ledger> {
    if amount == 0 || recipient == 0 || l.holders[sender] < amount then None
    else Some(Ledger(l.holders[sender := l.holders[sender] - amount], l.supply - amount, l.lastWithdrawal + 1))
  }

  // ---------- the two directions joined ----------

  /** `current` holds the burns of the L2 block that is being built. */
  datatype World = World(
    deposits: BridgeDeposits.State, withdrawals: BridgeWithdrawals.State, ledgers: Ledgers, current: BurnLog)

  datatype Event =
    | Deposits(deposit: BridgeDeposits.Event)
    | Withdrawals(withdrawal: BridgeWithdrawals.Event)
    | Seal(creations: seq<TokenRegistry.Creation>)
    | Send(token: Token, sender: Bytes, recipient: Bytes, amount: nat)
    | Redeem(token: Token, sender: Bytes, address: nat, amount: nat)

  function LedgerAt(ledgers: Ledgers, t: Token): Ledger {
    if t in ledgers then ledgers[t] else NO_LEDGER
  }

  /** The mints a step has added to the log reach their recipients. */
  function Credit(ledgers: Ledgers, txs: MintLog): Ledgers {
    if txs == [] then ledgers
    else
      var before, tx := Credit(ledgers, txs[..|txs| - 1]), txs[|txs| - 1];
      before[tx.token := Mint(LedgerAt(before, tx.token), tx.recipient, tx.amount)]
  }

  function Step(w: World, ev: Event): World {
    match ev
    case Deposits(e) =>
      var d := BridgeDeposits.Step(w.deposits, e);
      w.(deposits := d,
         ledgers := if w.deposits.log <= d.log then Credit(w.ledgers, d.log[|w.deposits.log|..]) else w.ledgers)
    case Withdrawals(e) => if e.Grow? then w else w.(withdrawals := BridgeWithdrawals.Step(w.withdrawals, e))
    case Seal(creations) =>
      var block := BridgeWithdrawals.L2Block(creations, w.current);
      w.(withdrawals := BridgeWithdrawals.Step(w.withdrawals, BridgeWithdrawals.Grow(block)), current := [])
    case Send(t, sender, recipient, amount) =>
      w.(ledgers := w.ledgers[t := Transfer(LedgerAt(w.ledgers, t), sender, recipient, amount)])
    case Redeem(t, sender, recipient, amount) =>
      var l := LedgerAt(w.ledgers, t);
      match Burn(l, sender, recipient, amount)
      case None => w
      case Some(l1) =>
        w.(ledgers := w.ledgers[t := l1],
           current := w.current + [BridgeWithdrawals.Burn(t, l1.lastWithdrawal, amount, recipient)])
  }

  function Run(w: World, evs: seq<Event>): World
    decreases |evs|
  {
    if evs == [] then w else Run(Step(w, evs[0]), evs[1..])
  }

  // ---------- sums ----------

  function BurnsIn(chain: seq<BridgeWithdrawals.L2Block>): BurnLog {
    if chain == [] then [] else BurnsIn(chain[..|chain| - 1]) + chain[|chain| - 1].burns
  }

  function AllBurns(w: World): BurnLog {
    BurnsIn(w.withdrawals.chain) + w.current
  }

  function OfToken(burns: BurnLog, t: Token): (r: BurnLog)
    ensures forall b :: b in r <==> b in burns && b.token == t
  {
    if burns == [] then []
    else
      var before, b := OfToken(burns[..|burns| - 1], t), burns[|burns| - 1];
      assert burns == burns[..|burns| - 1] + [b];
      if b.token == t then before + [b] else before
  }

  /** The burns whose nonce is in the set, the first of a token having nonce 1. */
  function Selected(burns: BurnLog, nonces: set<nat>): nat {
    if burns == [] then 0
    else
      Selected(burns[..|burns| - 1], nonces) + if |burns| in nonces then burns[|burns| - 1].amount else 0
  }

  function Sum(burns: BurnLog): nat {
    if burns == [] then 0 else Sum(burns[..|burns| - 1]) + burns[|burns| - 1].amount
  }

  function Released(releases: Releases, coin: Coin): nat {
    if releases == [] then 0
    else
      var r := releases[|releases| - 1];
      Released(releases[..|releases| - 1], coin) + if r.coin == coin then r.amount else 0
  }

  function Nonces(releases: Releases, coin: Coin): (r: set<nat>)
    ensures forall n :: n in r <==> BridgeWithdrawals.Processed(releases, coin, n)
  {
    set x | x in releases && x.coin == coin :: x.nonce
  }

  lemma {:induction false} SelectedGrows(burns: BurnLog, nonces: set<nat>, n: nat)
    requires n !in nonces
    ensures Selected(burns, nonces + {n}) ==
            Selected(burns, nonces) + if 0 < n <= |burns| then burns[n - 1].amount else 0
  {
    if burns != [] {
      SelectedGrows(burns[..|burns| - 1], nonces, n);
    }
  }

  lemma {:induction false} SelectedBounded(burns: BurnLog, nonces: set<nat>)
    ensures Selected(burns, nonces) <= Sum(burns)
  {
    if burns != [] {
      SelectedBounded(burns[..|burns| - 1], nonces);
    }
  }

  /** The releases of a coin sum up to the burns they are of. */
  lemma {:induction false} ReleasedIsSelected(burns: BurnLog, releases: Releases, coin: Coin)
    requires BridgeWithdrawals.Once(releases)
    requires forall r :: r in releases && r.coin == coin ==>
               0 < r.nonce <= |burns| && burns[r.nonce - 1].amount == r.amount
    ensures Released(releases, coin) == Selected(burns, Nonces(releases, coin))
  {
    if releases == [] {
      NothingSelected(burns, Nonces(releases, coin));
    } else {
      var before, r := releases[..|releases| - 1], releases[|releases| - 1];
      assert r in releases && forall x :: x in before ==> x in releases;
      ReleasedIsSelected(burns, before, coin);
      if r.coin == coin {
        forall x | x in before ensures !(x.coin == coin && x.nonce == r.nonce) {
          var i :| 0 <= i < |before| && before[i] == x;
          assert releases[i] == x;
        }
        assert r.nonce !in Nonces(before, coin);
        forall n ensures n in Nonces(releases, coin) <==> n in Nonces(before, coin) + {r.nonce} {
          NonceThen(before, r, coin, n);
        }
        assert Nonces(releases, coin) == Nonces(before, coin) + {r.nonce};
        SelectedGrows(burns, Nonces(before, coin), r.nonce);
      } else {
        forall n ensures n in Nonces(releases, coin) <==> n in Nonces(before, coin) {
          NonceThen(before, r, coin, n);
        }
        assert Nonces(releases, coin) == Nonces(before, coin);
      }
    }
  }

  lemma NonceThen(before: Releases, r: BridgeWithdrawals.Release, coin: Coin, n: nat)
    ensures BridgeWithdrawals.Processed(before + [r], coin, n) <==>
            BridgeWithdrawals.Processed(before, coin, n) || (r.coin == coin && r.nonce == n)
  {
    if BridgeWithdrawals.Processed(before + [r], coin, n) {
      var x :| x in before + [r] && x.coin == coin && x.nonce == n;
    }
    if BridgeWithdrawals.Processed(before, coin, n) {
      var x :| x in before && x.coin == coin && x.nonce == n;
      assert x in before + [r];
    }
    assert r in before + [r];
  }

  lemma {:induction false} NothingSelected(burns: BurnLog, nonces: set<nat>)
    requires nonces == {}
    ensures Selected(burns, nonces) == 0
  {
    if burns != [] {
      NothingSelected(burns[..|burns| - 1], nonces);
    }
  }

  // ---------- what every run keeps ----------

  /** Each token numbers its burns from 1 on, and burns nothing of nothing. */
  predicate Numbered(burns: BurnLog) {
    forall i :: 0 <= i < |burns| ==> burns[i].nonce == i + 1 && burns[i].amount > 0
  }

  /** A ledger's supply is what its holders hold, what was minted without what was burned. */
  predicate LedgerInv(log: MintLog, burns: BurnLog, l: Ledger, t: Token) {
    && l.supply == |l.holders|
    && l.supply + Sum(OfToken(burns, t)) == BridgeDeposits.LedgerOf(log, t).total
    && l.lastWithdrawal == |OfToken(burns, t)|
    && Numbered(OfToken(burns, t))
  }

  /** The factory logs what it has created. */
  predicate Logged(created: map<Coin, Token>, logs: seq<TokenRegistry.Creation>) {
    forall log :: log in logs && log.Decoded? ==> log.coin in created && created[log.coin] == log.token
  }

  ghost predicate LedgersInv(w: World) {
    forall t: Token :: LedgerInv(w.deposits.log, AllBurns(w), LedgerAt(w.ledgers, t), t)
  }

  ghost predicate Inv(w: World) {
    && BridgeDeposits.Inv(w.deposits) && BridgeWithdrawals.Inv(w.withdrawals) && LedgersInv(w)
    && Logged(w.deposits.created, BridgeWithdrawals.Created(w.withdrawals.chain, 0, |w.withdrawals.chain|))
  }

  predicate Legal(w: World, ev: Event) {
    match ev
    case Deposits(e) => BridgeDeposits.Legal(w.deposits, e)
    case Withdrawals(e) => BridgeWithdrawals.Legal(w.withdrawals, e)
    case Seal(creations) => Logged(w.deposits.created, creations)
    case _ => true
  }

  predicate LegalRun(w: World, evs: seq<Event>)
    decreases |evs|
  {
    evs == [] || (Legal(w, evs[0]) && LegalRun(Step(w, evs[0]), evs[1..]))
  }

  // ---------- the deposit side ----------

  /** The two relays only add: mints to the log, tokens to the factory. */
  predicate Grows(s: BridgeDeposits.State, s1: BridgeDeposits.State) {
    s.log <= s1.log && forall c :: c in s.created ==> c in s1.created && s1.created[c] == s.created[c]
  }

  lemma EnsureGrows(s: BridgeDeposits.State, coin: Coin, io: BridgeDeposits.Io)
    ensures Grows(s, BridgeDeposits.EnsureToken(s, coin, io).0)
    ensures BridgeDeposits.EnsureToken(s, coin, io).0.log == s.log
  {
  }

  lemma SendGrows(s: BridgeDeposits.State, token: Token, d: BridgeDeposits.Deposit, io: BridgeDeposits.Io)
    ensures Grows(s, BridgeDeposits.SendMint(s, token, d, io).0)
  {
  }

  lemma RelayOneGrows(s: BridgeDeposits.State, io: BridgeDeposits.Io)
    ensures Grows(s, BridgeDeposits.RelayOne(s, io).0)
  {
    if io.read && s.cursor < |s.deposits| {
      var d := s.deposits[s.cursor];
      EnsureGrows(s, d.coin, io);
      var (s1, token) := BridgeDeposits.EnsureToken(s, d.coin, io);
      if token.Some? {
        SendGrows(s1, token.value, d, io);
      }
    }
  }

  lemma {:induction false} RelayPassGrows(s: BridgeDeposits.State, latest: nat, io: nat -> BridgeDeposits.Io)
    ensures Grows(s, BridgeDeposits.RelayPass(s, latest, io))
    decreases latest - s.cursor
  {
    if s.cursor < latest {
      RelayOneGrows(s, io(s.cursor));
      BridgeDeposits.RelayAdvances(s, io(s.cursor));
      var (s1, more) := BridgeDeposits.RelayOne(s, io(s.cursor));
      if more {
        RelayPassGrows(s1, latest, io);
      }
    }
  }

  lemma DepositsGrow(s: BridgeDeposits.State, ev: BridgeDeposits.Event)
    ensures Grows(s, BridgeDeposits.Step(s, ev))
  {
    match ev
    case Relay(latest, io) => RelayPassGrows(s, latest, io);
    case _ =>
  }

  lemma LedgerThen(log: MintLog, tx: BridgeDeposits.MintTx, t: Token)
    ensures BridgeDeposits.LedgerOf(log + [tx], t).total ==
            BridgeDeposits.LedgerOf(log, t).total + if tx.token == t then tx.amount else 0
  {
    assert (log + [tx])[..|log|] == log;
  }

  lemma MintKeeps(log: MintLog, tx: BridgeDeposits.MintTx, burns: BurnLog, l: Ledger, t: Token)
    requires LedgerInv(log, burns, l, t)
    ensures LedgerInv(log + [tx], burns, if tx.token == t then Mint(l, tx.recipient, tx.amount) else l, t)
  {
    LedgerThen(log, tx, t);
  }

  lemma {:induction false} CreditKeeps(log: MintLog, txs: MintLog, burns: BurnLog, ledgers: Ledgers, t: Token)
    requires LedgerInv(log, burns, LedgerAt(ledgers, t), t)
    ensures LedgerInv(log + txs, burns, LedgerAt(Credit(ledgers, txs), t), t)
    decreases |txs|
  {
    if txs == [] {
      assert log + txs == log;
    } else {
      var before, tx := txs[..|txs| - 1], txs[|txs| - 1];
      CreditKeeps(log, before, burns, ledgers, t);
      MintKeeps(log + before, tx, burns, LedgerAt(Credit(ledgers, before), t), t);
      assert log + txs == log + before + [tx];
    }
  }

  lemma DepositsKeepInv(w: World, e: BridgeDeposits.Event)
    requires Inv(w) && BridgeDeposits.Legal(w.deposits, e)
    ensures Inv(Step(w, Deposits(e)))
  {
    var d := BridgeDeposits.Step(w.deposits, e);
    BridgeDeposits.StepKeepsInv(w.deposits, e);
    DepositsGrow(w.deposits, e);
    var txs := d.log[|w.deposits.log|..];
    assert w.deposits.log + txs == d.log;
    forall t: Token ensures LedgerInv(d.log, AllBurns(w), LedgerAt(Credit(w.ledgers, txs), t), t) {
      CreditKeeps(w.deposits.log, txs, AllBurns(w), w.ledgers, t);
    }
  }

  // ---------- the withdrawal side ----------

  lemma {:induction false} ReleaseKeepsChain(s: BridgeWithdrawals.State, burns: BurnLog, net: nat -> Net, i: nat)
    ensures BridgeWithdrawals.ReleaseFrom(s, burns, net, i).0.chain == s.chain
    decreases |burns| - i
  {
    if i < |burns| && burns[i].token in s.registry.byAddress && net(i) == Delivered {
      var s1 := s.(releases := BridgeWithdrawals.Withdraw(s.releases, s.registry.byAddress[burns[i].token], burns[i]));
      ReleaseKeepsChain(s1, burns, net, i + 1);
    }
  }

  lemma RelayKeepsChain(s: BridgeWithdrawals.State, e: BridgeWithdrawals.Event)
    requires !e.Grow?
    ensures BridgeWithdrawals.Step(s, e).chain == s.chain
  {
    if e.Relay? && e.io.end.Some? && s.next < e.io.end.value <= |s.chain| {
      var end := e.io.end.value;
      var s1 := s.(registry := TokenRegistry.Fold(s.registry, BridgeWithdrawals.Created(s.chain, s.next, end)));
      ReleaseKeepsChain(s1, BridgeWithdrawals.BurnsOf(s.chain, s1.registry, s.next, end), e.io.release, 0);
    }
  }

  lemma WithdrawalsKeepInv(w: World, e: BridgeWithdrawals.Event)
    requires Inv(w) && BridgeWithdrawals.Legal(w.withdrawals, e)
    ensures Inv(Step(w, Withdrawals(e)))
  {
    if !e.Grow? {
      BridgeWithdrawals.StepKeepsInv(w.withdrawals, e);
      RelayKeepsChain(w.withdrawals, e);
      var w1 := Step(w, Withdrawals(e));
      assert AllBurns(w1) == AllBurns(w);
    }
  }

  /** The factory gives a coin one token and a token one coin. */
  lemma LoggedRule(created: map<Coin, Token>, logs: seq<TokenRegistry.Creation>)
    requires BridgeDeposits.Injective(created) && Logged(created, logs)
    ensures BridgeWithdrawals.FactoryRule(logs)
  {
  }

  lemma SealKeepsInv(w: World, creations: seq<TokenRegistry.Creation>)
    requires Inv(w) && Legal(w, Seal(creations))
    ensures Inv(Step(w, Seal(creations)))
  {
    var block := BridgeWithdrawals.L2Block(creations, w.current);
    var chain := w.withdrawals.chain;
    var more := chain + [block];
    BridgeWithdrawals.CreatedGrows(chain, block, 0, |chain|);
    BridgeWithdrawals.CreatedThen(more, 0, |chain|, |more|);
    assert BridgeWithdrawals.Created(more, |chain|, |more|) == creations by {
      LastCreated(chain, block);
    }
    LoggedRule(w.deposits.created, BridgeWithdrawals.Created(more, 0, |more|));
    BridgeWithdrawals.StepKeepsInv(w.withdrawals, BridgeWithdrawals.Grow(block));
    assert more[..|chain|] == chain;
    assert BurnsIn(more) + [] == BurnsIn(chain) + w.current;
  }

  lemma LastCreated(chain: seq<BridgeWithdrawals.L2Block>, block: BridgeWithdrawals.L2Block)
    ensures BridgeWithdrawals.Created(chain + [block], |chain|, |chain| + 1) == block.creations
  {
    assert BridgeWithdrawals.CreationsOf(chain + [block])[|chain|] == block.creations;
    assert BridgeWithdrawals.Created(chain + [block], |chain|, |chain|) == [];
    assert [] + block.creations == block.creations;
  }

  // ---------- the token contract ----------

  lemma SendKeepsLedgers(w: World, t: Token, sender: Bytes, recipient: Bytes, amount: nat)
    requires LedgersInv(w)
    ensures LedgersInv(Step(w, Send(t, sender, recipient, amount)))
  {
    var l := LedgerAt(w.ledgers, t);
    assert |Transfer(l, sender, recipient, amount).holders| == |l.holders|;
    var w1 := Step(w, Send(t, sender, recipient, amount));
    forall u: Token ensures LedgerInv(w1.deposits.log, AllBurns(w1), LedgerAt(w1.ledgers, u), u) {
      assert LedgerInv(w.deposits.log, AllBurns(w), LedgerAt(w.ledgers, u), u);
    }
  }

  lemma OfTokenThen(burns: BurnLog, b: BridgeWithdrawals.Burn, t: Token)
    ensures OfToken(burns + [b], t) == if b.token == t then OfToken(burns, t) + [b] else OfToken(burns, t)
  {
    assert (burns + [b])[..|burns|] == burns;
  }

  lemma SumThen(burns: BurnLog, b: BridgeWithdrawals.Burn)
    ensures Sum(burns + [b]) == Sum(burns) + b.amount
  {
    assert (burns + [b])[..|burns|] == burns;
  }

  lemma BurnKeeps(log: MintLog, burns: BurnLog, l: Ledger, b: BridgeWithdrawals.Burn, sender: Bytes)
    requires LedgerInv(log, burns, l, b.token) && Burn(l, sender, b.recipient, b.amount).Some?
    requires b.nonce == l.lastWithdrawal + 1
    ensures LedgerInv(log, burns + [b], Burn(l, sender, b.recipient, b.amount).value, b.token)
  {
    OfTokenThen(burns, b, b.token);
    SumThen(OfToken(burns, b.token), b);
  }

  lemma OtherKeeps(log: MintLog, burns: BurnLog, b: BridgeWithdrawals.Burn, l: Ledger, t: Token)
    requires LedgerInv(log, burns, l, t) && b.token != t
    ensures LedgerInv(log, burns + [b], l, t)
  {
    OfTokenThen(burns, b, t);
  }

  lemma RedeemIs(w: World, t: Token, sender: Bytes, recipient: nat, amount: nat)
    requires Burn(LedgerAt(w.ledgers, t), sender, recipient, amount).Some?
    ensures var l1 := Burn(LedgerAt(w.ledgers, t), sender, recipient, amount).value;
      var w1 := Step(w, Redeem(t, sender, recipient, amount));
      && AllBurns(w1) == AllBurns(w) + [BridgeWithdrawals.Burn(t, l1.lastWithdrawal, amount, recipient)]
      && w1.deposits == w.deposits && LedgerAt(w1.ledgers, t) == l1
      && forall u: Token :: u != t ==> LedgerAt(w1.ledgers, u) == LedgerAt(w.ledgers, u)
  {
  }

  lemma RedeemKeepsLedgers(w: World, t: Token, sender: Bytes, recipient: nat, amount: nat)
    requires LedgersInv(w)
    ensures LedgersInv(Step(w, Redeem(t, sender, recipient, amount)))
  {
    var log, burns, l := w.deposits.log, AllBurns(w), LedgerAt(w.ledgers, t);
    if Burn(l, sender, recipient, amount).Some? {
      var w1 := Step(w, Redeem(t, sender, recipient, amount));
      var b := BridgeWithdrawals.Burn(t, Burn(l, sender, recipient, amount).value.lastWithdrawal, amount, recipient);
      RedeemIs(w, t, sender, recipient, amount);
      forall u: Token ensures LedgerInv(log, burns + [b], LedgerAt(w1.ledgers, u), u) {
        if u == t {
          BurnKeeps(log, burns, l, b, sender);
        } else {
          OtherKeeps(log, burns, b, LedgerAt(w.ledgers, u), u);
        }
      }
    }
  }

  lemma StepKeepsInv(w: World, ev: Event)
    requires Inv(w) && Legal(w, ev)
    ensures Inv(Step(w, ev))
  {
    match ev
    case Deposits(e) => DepositsKeepInv(w, e);
    case Withdrawals(e) => WithdrawalsKeepInv(w, e);
    case Seal(creations) => SealKeepsInv(w, creations);
    case Send(t, sender, recipient, amount) => SendKeepsLedgers(w, t, sender, recipient, amount);
    case Redeem(t, sender, recipient, amount) => RedeemKeepsLedgers(w, t, sender, recipient, amount);
  }

  // ---------- the theorems ----------

  lemma {:induction false} BurnListed(chain: seq<BridgeWithdrawals.L2Block>, b: nat, burn: BridgeWithdrawals.Burn)
    requires b < |chain| && burn in chain[b].burns
    ensures burn in BurnsIn(chain)
  {
    if b < |chain| - 1 {
      BurnListed(chain[..|chain| - 1], b, burn);
    }
  }

  /** A burn the chain has logged is among those of its token, at its number. */
  lemma BurnNumbered(w: World, b: nat, burn: BridgeWithdrawals.Burn)
    requires Inv(w) && b < |w.withdrawals.chain| && burn in w.withdrawals.chain[b].burns
    ensures var burns := OfToken(AllBurns(w), burn.token);
      0 < burn.nonce <= |burns| && burns[burn.nonce - 1] == burn && burn.amount > 0 && Numbered(burns)
  {
    var burns := OfToken(AllBurns(w), burn.token);
    BurnListed(w.withdrawals.chain, b, burn);
    assert burn in AllBurns(w);
    assert LedgerInv(w.deposits.log, AllBurns(w), LedgerAt(w.ledgers, burn.token), burn.token);
    assert burn in burns;
    var i :| 0 <= i < |burns| && burns[i] == burn;
  }

  lemma ReleaseNumbered(w: World, r: BridgeWithdrawals.Release)
    requires Inv(w) && r in w.withdrawals.releases && r.coin in w.deposits.created
    ensures var burns := OfToken(AllBurns(w), w.deposits.created[r.coin]);
      0 < r.nonce <= |burns| && burns[r.nonce - 1].amount == r.amount
  {
    var s := w.withdrawals;
    assert BridgeWithdrawals.Backed(s, r);
    var b, i :| 0 <= b < |s.chain| && 0 <= i < |s.chain[b].burns| &&
      BridgeWithdrawals.CreatedBy(s.chain, |s.chain|, r.coin, s.chain[b].burns[i].token) &&
      r == BridgeWithdrawals.Release(r.coin, s.chain[b].burns[i].nonce, s.chain[b].burns[i].amount,
                                     s.chain[b].burns[i].recipient);
    assert TokenRegistry.Decoded(r.coin, s.chain[b].burns[i].token) in BridgeWithdrawals.Created(s.chain, 0, |s.chain|);
    BurnNumbered(w, b, s.chain[b].burns[i]);
  }

  /** What was released of a coin is a selection of its token's burns. */
  lemma ReleasedOfBurns(w: World, coin: Coin)
    requires Inv(w) && coin in w.deposits.created
    ensures Released(w.withdrawals.releases, coin) ==
            Selected(OfToken(AllBurns(w), w.deposits.created[coin]), Nonces(w.withdrawals.releases, coin))
  {
    var burns := OfToken(AllBurns(w), w.deposits.created[coin]);
    forall r | r in w.withdrawals.releases && r.coin == coin
      ensures 0 < r.nonce <= |burns| && burns[r.nonce - 1].amount == r.amount
    {
      ReleaseNumbered(w, r);
    }
    ReleasedIsSelected(burns, w.withdrawals.releases, coin);
  }

  function Locked(w: World, coin: Coin): nat {
    BridgeDeposits.TotalOf(w.deposits.deposits, coin)
  }

  /** What is deposited and not yet minted. */
  function Unminted(w: World, coin: Coin): nat
    requires |w.deposits.log| <= |w.deposits.deposits|
  {
    BridgeDeposits.TotalOf(w.deposits.deposits[|w.deposits.log|..], coin)
  }

  /** What is burned and not yet released. */
  function Unreleased(w: World, coin: Coin): int
    requires coin in w.deposits.created
  {
    Sum(OfToken(AllBurns(w), w.deposits.created[coin])) -
    Selected(OfToken(AllBurns(w), w.deposits.created[coin]), Nonces(w.withdrawals.releases, coin))
  }

  lemma {:induction false} TotalThen(a: seq<BridgeDeposits.Deposit>, b: seq<BridgeDeposits.Deposit>, coin: Coin)
    ensures BridgeDeposits.TotalOf(a + b, coin) == BridgeDeposits.TotalOf(a, coin) + BridgeDeposits.TotalOf(b, coin)
    decreases |b|
  {
    if b == [] {
      assert a + b == a;
    } else {
      assert (a + b)[..|a + b| - 1] == a + b[..|b| - 1];
      TotalThen(a, b[..|b| - 1], coin);
    }
  }

  lemma MintedTotal(s: BridgeDeposits.State, coin: Coin)
    requires BridgeDeposits.Inv(s) && coin in s.created
    ensures |s.log| <= |s.deposits|
    ensures BridgeDeposits.LedgerOf(s.log, s.created[coin]).total +
            BridgeDeposits.TotalOf(s.deposits[|s.log|..], coin) ==
            BridgeDeposits.TotalOf(s.deposits, coin)
  {
    BridgeDeposits.TotalsAgree(s, |s.log|, coin);
    assert s.log[..|s.log|] == s.log;
    TotalThen(s.deposits[..|s.log|], s.deposits[|s.log|..], coin);
    assert s.deposits[..|s.log|] + s.deposits[|s.log|..] == s.deposits;
  }

  lemma {:induction false} RunKeepsInv(w: World, evs: seq<Event>)
    requires Inv(w) && LegalRun(w, evs)
    ensures Inv(Run(w, evs))
    decreases |evs|
  {
    if evs != [] {
      StepKeepsInv(w, evs[0]);
      RunKeepsInv(Step(w, evs[0]), evs[1..]);
    }
  }

  /** In every run, through lost calls, late mints, restarts and skipped blocks: what is locked of a coin
      is what was released, what is burned and waits for its release, what its token has outstanding and
      what waits to be minted. The token's unchecked subtraction never leaves its supply wrong. */
  lemma CoinsAreConserved(w: World, evs: seq<Event>, coin: Coin)
    requires Inv(w) && LegalRun(w, evs) && coin in Run(w, evs).deposits.created
    ensures var end := Run(w, evs);
      var l := LedgerAt(end.ledgers, end.deposits.created[coin]);
      && l.supply == |l.holders| && |end.deposits.log| <= |end.deposits.deposits| && Unreleased(end, coin) >= 0
      && Locked(end, coin) ==
         Released(end.withdrawals.releases, coin) + Unreleased(end, coin) + l.supply + Unminted(end, coin)
  {
    RunKeepsInv(w, evs);
    var end := Run(w, evs);
    var t := end.deposits.created[coin];
    assert LedgerInv(end.deposits.log, AllBurns(end), LedgerAt(end.ledgers, t), t);
    MintedTotal(end.deposits, coin);
    ReleasedOfBurns(end, coin);
    SelectedBounded(OfToken(AllBurns(end), t), Nonces(end.withdrawals.releases, coin));
  }

  /** The vault's own checks of a release; `None` is an aborted transaction. */
  function VaultWithdraw(w: World, coin: Coin, b: BridgeWithdrawals.Burn): Option<Releases> {
    var releases := w.withdrawals.releases;
    if BridgeWithdrawals.Processed(releases, coin, b.nonce) then Some(releases)
    else if b.amount == 0 || Locked(w, coin) < Released(releases, coin) + b.amount then None
    else Some(releases + [BridgeWithdrawals.Release(coin, b.nonce, b.amount, b.recipient)])
  }

  /** One burn not yet released, beside all that was released. */
  lemma OneMore(w: World, coin: Coin, b: nat, burn: BridgeWithdrawals.Burn)
    requires Inv(w) && coin in w.deposits.created && w.deposits.created[coin] == burn.token
    requires b < |w.withdrawals.chain| && burn in w.withdrawals.chain[b].burns
    requires !BridgeWithdrawals.Processed(w.withdrawals.releases, coin, burn.nonce)
    ensures burn.amount > 0
    ensures Released(w.withdrawals.releases, coin) + burn.amount <= Sum(OfToken(AllBurns(w), burn.token))
  {
    var burns, nonces := OfToken(AllBurns(w), burn.token), Nonces(w.withdrawals.releases, coin);
    BurnNumbered(w, b, burn);
    ReleasedOfBurns(w, coin);
    SelectedGrows(burns, nonces, burn.nonce);
    SelectedBounded(burns, nonces + {burn.nonce});
  }

  /** The release of a real burn is never refused for want of coins, in any run and in any order. */
  lemma VaultNeverShort(w: World, evs: seq<Event>, coin: Coin, b: nat, burn: BridgeWithdrawals.Burn)
    requires Inv(w) && LegalRun(w, evs)
    requires var end := Run(w, evs);
      && coin in end.deposits.created && end.deposits.created[coin] == burn.token
      && b < |end.withdrawals.chain| && burn in end.withdrawals.chain[b].burns
    ensures var end := Run(w, evs);
      VaultWithdraw(end, coin, burn) == Some(BridgeWithdrawals.Withdraw(end.withdrawals.releases, coin, burn))
  {
    var end := Run(w, evs);
    RunKeepsInv(w, evs);
    CoinsAreConserved(w, evs, coin);
    ReleasedOfBurns(end, coin);
    if !BridgeWithdrawals.Processed(end.withdrawals.releases, coin, burn.nonce) {
      OneMore(end, coin, b, burn);
    }
  }

  /** The vault aborts a release not made yet exactly when it is of nothing or exceeds what it holds. */
  lemma VaultRefusesExactly(w: World, coin: Coin, b: BridgeWithdrawals.Burn)
    ensures VaultWithdraw(w, coin, b) == None <==>
            && !BridgeWithdrawals.Processed(w.withdrawals.releases, coin, b.nonce)
            && (b.amount == 0 || Locked(w, coin) - Released(w.withdrawals.releases, coin) < b.amount)
  {
  }

  // ---------- each direction as it is in the joined runs ----------

  function DepositsOf(evs: seq<Event>): seq<BridgeDeposits.Event> {
    if evs == [] then []
    else (if evs[0].Deposits? then [evs[0].deposit] else []) + DepositsOf(evs[1..])
  }

  /** The deposit direction goes through its own part of the run. */
  lemma {:induction false} DepositsRefine(w: World, evs: seq<Event>)
    ensures Run(w, evs).deposits == BridgeDeposits.Run(w.deposits, DepositsOf(evs))
    decreases |evs|
  {
    if evs != [] {
      DepositsRefine(Step(w, evs[0]), evs[1..]);
      if evs[0].Deposits? {
        assert DepositsOf(evs)[1..] == DepositsOf(evs[1..]);
      } else {
        assert DepositsOf(evs) == DepositsOf(evs[1..]);
      }
    }
  }

  /** What the withdrawal direction sees of an event: a sealed block has the burns made since the last. */
  function WithdrawalsOf(w: World, ev: Event): seq<BridgeWithdrawals.Event> {
    match ev
    case Withdrawals(e) => if e.Grow? then [] else [e]
    case Seal(creations) => [BridgeWithdrawals.Grow(BridgeWithdrawals.L2Block(creations, w.current))]
    case _ => []
  }

  function AllWithdrawalsOf(w: World, evs: seq<Event>): seq<BridgeWithdrawals.Event>
    decreases |evs|
  {
    if evs == [] then [] else WithdrawalsOf(w, evs[0]) + AllWithdrawalsOf(Step(w, evs[0]), evs[1..])
  }

  lemma {:induction false} WithdrawalsRefine(w: World, evs: seq<Event>)
    ensures Run(w, evs).withdrawals == BridgeWithdrawals.Run(w.withdrawals, AllWithdrawalsOf(w, evs))
    decreases |evs|
  {
    if evs != [] {
      WithdrawalsRefine(Step(w, evs[0]), evs[1..]);
      var first := WithdrawalsOf(w, evs[0]);
      if first != [] {
        assert AllWithdrawalsOf(w, evs)[1..] == AllWithdrawalsOf(Step(w, evs[0]), evs[1..]);
      } else {
        assert AllWithdrawalsOf(w, evs) == AllWithdrawalsOf(Step(w, evs[0]), evs[1..]);
      }
    }
  }

  // ---------- who holds what ----------

  function Balance(w: World, t: Token, who: Bytes): nat {
    LedgerAt(w.ledgers, t).holders[who]
  }

  /** What the mints of a log give an address of a token. */
  function PaidTo(txs: MintLog, t: Token, who: Bytes): nat {
    if txs == [] then 0
    else
      var tx := txs[|txs| - 1];
      PaidTo(txs[..|txs| - 1], t, who) + if tx.token == t && tx.recipient == who then tx.amount else 0
  }

  lemma {:induction false} CreditPays(ledgers: Ledgers, txs: MintLog, t: Token, who: Bytes)
    ensures LedgerAt(Credit(ledgers, txs), t).holders[who] == LedgerAt(ledgers, t).holders[who] + PaidTo(txs, t, who)
  {
    if txs != [] {
      CreditPays(ledgers, txs[..|txs| - 1], t, who);
    }
  }

  /** A deposit step pays each recipient what is minted to it, and nobody else. */
  lemma DepositsPay(w: World, e: BridgeDeposits.Event, t: Token, who: Bytes)
    ensures var w1 := Step(w, Deposits(e));
      && w1.deposits == BridgeDeposits.Step(w.deposits, e)
      && w1.withdrawals == w.withdrawals && w1.current == w.current
      && (w.deposits.log <= w1.deposits.log ==>
            Balance(w1, t, who) == Balance(w, t, who) + PaidTo(w1.deposits.log[|w.deposits.log|..], t, who))
  {
    var d := BridgeDeposits.Step(w.deposits, e);
    if w.deposits.log <= d.log {
      CreditPays(w.ledgers, d.log[|w.deposits.log|..], t, who);
    }
  }

  /** A transfer moves the amount if the sender holds it and the recipient is not the zero address, and
      otherwise nothing. */
  lemma SendExactly(w: World, t: Token, sender: Bytes, recipient: Bytes, amount: nat, u: Token, who: Bytes)
    ensures var w1 := Step(w, Send(t, sender, recipient, amount));
      var moved := if u == t && !BridgeDeposits.IsZero(recipient) && amount <= Balance(w, t, sender) then amount else 0;
      && Balance(w1, u, who) + (if who == sender then moved else 0) ==
         Balance(w, u, who) + (if who == recipient then moved else 0)
      && w1 == w.(ledgers := w1.ledgers)
  {
  }

  /** A burn of an amount the sender holds, other than nothing and other than to nobody, takes it and logs
      it under the token's next withdrawal nonce; any other burn changes nothing. */
  lemma RedeemExactly(w: World, t: Token, sender: Bytes, recipient: nat, amount: nat, u: Token, who: Bytes)
    ensures var w1 := Step(w, Redeem(t, sender, recipient, amount));
      if recipient != 0 && 0 < amount <= Balance(w, t, sender) then
        && Balance(w1, u, who) == Balance(w, u, who) - (if u == t && who == sender then amount else 0)
        && AllBurns(w1) ==
           AllBurns(w) + [BridgeWithdrawals.Burn(t, LedgerAt(w.ledgers, t).lastWithdrawal + 1, amount, recipient)]
        && w1 == w.(ledgers := w1.ledgers, current := w1.current)
      else w1 == w
  {
  }

  /** Sealing puts the burns of the block that is being built on the chain, in order, once. */
  lemma SealExactly(w: World, creations: seq<TokenRegistry.Creation>)
    ensures var w1 := Step(w, Seal(creations));
      && AllBurns(w1) == AllBurns(w) && w1.current == []
      && w1.withdrawals.chain == w.withdrawals.chain + [BridgeWithdrawals.L2Block(creations, w.current)]
      && w1.ledgers == w.ledgers && w1.deposits == w.deposits
  {
    var w1 := Step(w, Seal(creations));
    assert w1.withdrawals.chain[..|w1.withdrawals.chain| - 1] == w.withdrawals.chain;
  }
}
