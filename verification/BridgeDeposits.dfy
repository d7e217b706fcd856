/** The deposit direction of the bridge: Sui deposits, read by nonce, are minted on the L2 token of
    their coin, through lost calls, transactions that land late and restarts from older cursors. */
module BridgeDeposits {
  import opened Wrappers
  import opened Wire

  type Coin = nat
  type Token = nat

  datatype Deposit = Deposit(coin: Coin, recipient: Bytes, amount: nat)

  datatype MintTx = MintTx(token: Token, nonce: nat, recipient: Bytes, amount: nat)

  predicate IsZero(address: Bytes) {
    forall i :: 0 <= i < |address| ==> address[i] == 0
  }

  /** Of the addresses of the L2, that is the one that cannot be minted to. */
  lemma ZeroExactly(address: Bytes)
    requires |address| == 20
    ensures IsZero(address) <==> address == seq(20, i => 0)
  {
    assert IsZero(seq(20, i => 0));
  }

  // ---------- the L2 token contract ----------

  /** What a token has recorded of the mints in the chain's mint log. */
  datatype Ledger = Ledger(mintedAny: bool, lastMinted: nat, total: nat)

  function LedgerOf(log: seq<MintTx>, t: Token): Ledger {
    if log == [] then Ledger(false, 0, 0)
    else
      var before, tx := LedgerOf(log[..|log| - 1], t), log[|log| - 1];
      if tx.token == t then Ledger(true, tx.nonce, before.total + tx.amount) else before
  }

  /** The first mint of a token must be nonce 0, every later one above the last. */
  predicate Mints(log: seq<MintTx>, tx: MintTx) {
    var l := LedgerOf(log, tx.token);
    && (if l.mintedAny then tx.nonce > l.lastMinted else tx.nonce == 0)
    && !IsZero(tx.recipient)
  }

  function Execute(log: seq<MintTx>, tx: MintTx): seq<MintTx> {
    if Mints(log, tx) then log + [tx] else log
  }

  // ---------- the relayer and its world ----------

  datatype Saved = Saved(cursor: nat, tokens: map<Coin, Token>)

  /** `created` is the factory's registry, `pool` the mint transactions sent and not yet executed. */
  datatype State = State(
    deposits: seq<Deposit>, created: map<Coin, Token>, log: seq<MintTx>, pool: set<MintTx>,
    tokens: map<Coin, Token>, cursor: nat, disk: Saved)

  /** How the calls made for one deposit turn out. `newToken` is the address a creation would get, `text`
      whether the coin type is utf-8, `lastRead` and `anyRead` whether the mint cursor is readable. */
  datatype Io = Io(
    read: bool, text: bool, newToken: Token, create: Net, lastRead: bool, anyRead: bool, mint: Net, save: bool)

  datatype Event =
    | Lock(deposit: Deposit)
    | Create(coin: Coin, token: Token)
    | Absorb(coins: set<Coin>)
    | Relay(latest: nat, io: nat -> Io)
    | Land(tx: MintTx)
    | Save
    | Restart(saved: Saved)

  /** The factory creates one token per coin type. */
  function FactoryCreate(s: State, coin: Coin, token: Token): State {
    if coin in s.created || token in s.created.Values then s else s.(created := s.created[coin := token])
  }

  function EnsureToken(s: State, coin: Coin, io: Io): (State, Option<Token>) {
    if coin in s.tokens then (s, Some(s.tokens[coin]))
    else if !io.text || io.create == RequestLost then (s, None)
    else
      var s1 := FactoryCreate(s, coin, io.newToken);
      if io.create == ReplyLost || s1 == s then (s1, None)
      else (s1.(tokens := s1.tokens[coin := io.newToken]), Some(io.newToken))
  }

  /** The replay guard; what cannot be read counts as nothing minted. */
  predicate AlreadyMinted(log: seq<MintTx>, token: Token, nonce: nat, io: Io) {
    var l := LedgerOf(log, token);
    io.anyRead && l.mintedAny && (if io.lastRead then l.lastMinted else 0) >= nonce
  }

  function SendMint(s: State, token: Token, d: Deposit, io: Io): (State, bool) {
    if |d.recipient| != 20 || io.mint == RequestLost then (s, false)
    else
      var tx := MintTx(token, s.cursor, d.recipient, d.amount);
      if io.mint == ReplyLost then (s.(pool := s.pool + {tx}), false)
      else (s.(log := Execute(s.log, tx)), Mints(s.log, tx))
  }

  function Advance(s: State, save: bool): State {
    var s1 := s.(cursor := s.cursor + 1);
    if save then s1.(disk := Saved(s1.cursor, s1.tokens)) else s1
  }

  /** One deposit. The flag says whether the pass goes on. */
  function RelayOne(s: State, io: Io): (State, bool) {
    if !io.read || s.cursor >= |s.deposits| then (s, false)
    else
      var d := s.deposits[s.cursor];
      var (s1, token) := EnsureToken(s, d.coin, io);
      if token == None then (s1, false)
      else if AlreadyMinted(s1.log, token.value, s.cursor, io) then (Advance(s1, io.save), true)
      else
        var (s2, minted) := SendMint(s1, token.value, d, io);
        if minted then (Advance(s2, io.save), true) else (s2, false)
  }

  lemma RelayAdvances(s: State, io: Io)
    ensures RelayOne(s, io).1 ==> RelayOne(s, io).0.cursor == s.cursor + 1
  {
  }

  function RelayPass(s: State, latest: nat, io: nat -> Io): State
    decreases latest - s.cursor
  {
    if s.cursor >= latest then s
    else
      var (s1, more) := RelayOne(s, io(s.cursor));
      RelayAdvances(s, io(s.cursor));
      if more then RelayPass(s1, latest, io) else s1
  }

  function Step(s: State, ev: Event): State {
    match ev
    case Lock(d) => s.(deposits := s.deposits + [d])
    case Create(coin, token) => FactoryCreate(s, coin, token)
    case Absorb(coins) => s.(tokens := s.tokens + (map c | c in coins && c in s.created :: s.created[c]))
    case Relay(latest, io) => RelayPass(s, latest, io)
    case Land(tx) => if tx in s.pool then s.(log := Execute(s.log, tx), pool := s.pool - {tx}) else s
    case Save => s.(disk := Saved(s.cursor, s.tokens))
    case Restart(saved) => s.(tokens := saved.tokens, cursor := saved.cursor, disk := saved)
  }

  function Run(s: State, evs: seq<Event>): State
    decreases |evs|
  {
    if evs == [] then s else Run(Step(s, evs[0]), evs[1..])
  }

  // ---------- what every run keeps ----------

  predicate Covers(created: map<Coin, Token>, tokens: map<Coin, Token>) {
    forall c :: c in tokens ==> c in created && created[c] == tokens[c]
  }

  predicate Injective(m: map<Coin, Token>) {
    forall a, b :: a in m && b in m && m[a] == m[b] ==> a == b
  }

  /** `tx` is the mint of the deposit with its nonce, on the token of its coin. */
  predicate MintOf(s: State, tx: MintTx) {
    && tx.nonce < |s.deposits|
    && var d := s.deposits[tx.nonce];
    && d.coin in s.created && tx == MintTx(s.created[d.coin], tx.nonce, d.recipient, d.amount)
    && |d.recipient| == 20
  }

  /** The mint log is the mints of the first deposits, in order. */
  predicate Inv(s: State) {
    && Injective(s.created) && Covers(s.created, s.tokens) && Covers(s.created, s.disk.tokens)
    && (forall i :: 0 <= i < |s.log| ==> s.log[i].nonce == i && MintOf(s, s.log[i]))
    && |s.log| <= Mintable(s.deposits)
    && (forall tx :: tx in s.pool ==> MintOf(s, tx) && tx.nonce <= |s.log|)
    && s.cursor <= |s.log| && s.disk.cursor <= |s.log|
  }

  /** A restart finds the file it wrote or an older one, or none. */
  predicate Legal(s: State, ev: Event) {
    ev.Restart? ==> ev.saved.cursor <= s.disk.cursor && Covers(s.created, ev.saved.tokens)
  }

  predicate LegalRun(s: State, evs: seq<Event>)
    decreases |evs|
  {
    evs == [] || (Legal(s, evs[0]) && LegalRun(Step(s, evs[0]), evs[1..]))
  }

  // ---------- how many deposits can ever be minted ----------

  predicate Payable(deposits: seq<Deposit>, i: nat)
    requires i < |deposits|
  {
    && deposits[i].coin == deposits[0].coin
    && |deposits[i].recipient| == 20 && !IsZero(deposits[i].recipient)
  }

  /** The deposits before the first that is of another coin than the very first deposit, or goes to
      the zero address or to no address at all. */
  function Mintable(deposits: seq<Deposit>): (n: nat)
    ensures n <= |deposits|
    ensures forall i :: 0 <= i < n ==> Payable(deposits, i)
    ensures n < |deposits| ==> !Payable(deposits, n)
  {
    MintableFrom(deposits, 0)
  }

  function MintableFrom(deposits: seq<Deposit>, k: nat): (n: nat)
    requires k <= |deposits| && forall i :: 0 <= i < k ==> Payable(deposits, i)
    ensures k <= n <= |deposits|
    ensures forall i :: 0 <= i < n ==> Payable(deposits, i)
    ensures n < |deposits| ==> !Payable(deposits, n)
    decreases |deposits| - k
  {
    if k < |deposits| && Payable(deposits, k) then MintableFrom(deposits, k + 1) else k
  }

  lemma MintableGrows(deposits: seq<Deposit>, d: Deposit)
    ensures Mintable(deposits) <= Mintable(deposits + [d])
  {
    var n := Mintable(deposits);
    forall i | 0 <= i < n ensures Payable(deposits + [d], i) {
      assert Payable(deposits, i);
    }
  }

  // ---------- the ledger of each token ----------

  /** While the log is the first deposits in order, all of one coin, that coin's token has minted last
      the latest of them and every other token nothing. */
  lemma {:induction false} LedgerFollows(s: State, log: seq<MintTx>, t: Token)
    requires Injective(s.created) && |log| <= Mintable(s.deposits)
    requires forall i :: 0 <= i < |log| ==> log[i].nonce == i && MintOf(s, log[i])
    ensures var l := LedgerOf(log, t);
      if log != [] && log[0].token == t then l.mintedAny && l.lastMinted == |log| - 1 else !l.mintedAny
    decreases |log|
  {
    if log != [] {
      var i := |log| - 1;
      assert MintOf(s, log[0]) && MintOf(s, log[i]) && Payable(s.deposits, i);
      LedgerFollows(s, log[..i], t);
    }
  }

  /** So the mint of a deposit not beyond the log is executed exactly when it is the next one. */
  lemma MintsExactly(s: State, tx: MintTx)
    requires Inv(s) && MintOf(s, tx) && tx.nonce <= |s.log|
    ensures Mints(s.log, tx) <==> tx.nonce == |s.log| < Mintable(s.deposits)
  {
    LedgerFollows(s, s.log, tx.token);
    var n := tx.nonce;
    if n < |s.log| {
      assert MintOf(s, s.log[0]) && Payable(s.deposits, n);
    } else {
      assert n < Mintable(s.deposits) <==> Payable(s.deposits, n);
      if n > 0 {
        assert MintOf(s, s.log[0]);
        assert tx.token == s.log[0].token <==> s.deposits[n].coin == s.deposits[0].coin;
      }
    }
  }

  lemma ExecuteKeepsInv(s: State, tx: MintTx)
    requires Inv(s) && MintOf(s, tx) && tx.nonce <= |s.log|
    ensures Inv(s.(log := Execute(s.log, tx)))
  {
    MintsExactly(s, tx);
  }

  lemma CreateKeepsInv(s: State, coin: Coin, token: Token)
    requires Inv(s)
    ensures Inv(FactoryCreate(s, coin, token))
    ensures var s1 := FactoryCreate(s, coin, token); s1 != s ==> coin in s1.created && s1.created[coin] == token
  {
    var s1 := FactoryCreate(s, coin, token);
    forall tx | MintOf(s, tx) ensures MintOf(s1, tx) {
    }
  }

  lemma EnsureKeepsInv(s: State, coin: Coin, io: Io)
    requires Inv(s)
    ensures var (s1, token) := EnsureToken(s, coin, io);
      && Inv(s1) && s1.deposits == s.deposits && s1.cursor == s.cursor && s1.log == s.log && s1.pool == s.pool
      && (token.Some? ==> coin in s1.created && s1.created[coin] == token.value)
  {
    CreateKeepsInv(s, coin, io.newToken);
  }

  lemma GuardIsSound(s: State, token: Token, io: Io)
    requires Inv(s) && AlreadyMinted(s.log, token, s.cursor, io)
    ensures s.cursor < |s.log|
  {
    LedgerFollows(s, s.log, token);
  }

  lemma SendKeepsInv(s: State, token: Token, io: Io)
    requires Inv(s) && s.cursor < |s.deposits|
    requires var coin := s.deposits[s.cursor].coin; coin in s.created && s.created[coin] == token
    ensures var (s1, minted) := SendMint(s, token, s.deposits[s.cursor], io);
      && Inv(s1) && s1.deposits == s.deposits && s1.cursor == s.cursor && s1.tokens == s.tokens
      && (minted ==> s.cursor < |s1.log|)
  {
    var d := s.deposits[s.cursor];
    if |d.recipient| == 20 {
      var tx := MintTx(token, s.cursor, d.recipient, d.amount);
      assert MintOf(s, tx);
      ExecuteKeepsInv(s, tx);
    }
  }

  lemma AdvanceKeepsInv(s: State, save: bool)
    requires Inv(s) && s.cursor < |s.log|
    ensures Inv(Advance(s, save))
  {
  }

  lemma RelayKeepsInv(s: State, io: Io)
    requires Inv(s)
    ensures Inv(RelayOne(s, io).0) && RelayOne(s, io).0.deposits == s.deposits
  {
    if io.read && s.cursor < |s.deposits| {
      var d := s.deposits[s.cursor];
      EnsureKeepsInv(s, d.coin, io);
      var (s1, token) := EnsureToken(s, d.coin, io);
      if token.Some? {
        if AlreadyMinted(s1.log, token.value, s.cursor, io) {
          GuardIsSound(s1, token.value, io);
          AdvanceKeepsInv(s1, io.save);
        } else {
          SendKeepsInv(s1, token.value, io);
          var (s2, minted) := SendMint(s1, token.value, d, io);
          if minted {
            AdvanceKeepsInv(s2, io.save);
          }
        }
      }
    }
  }

  lemma {:induction false} PassKeepsInv(s: State, latest: nat, io: nat -> Io)
    requires Inv(s)
    ensures Inv(RelayPass(s, latest, io))
    decreases latest - s.cursor
  {
    if s.cursor < latest {
      RelayKeepsInv(s, io(s.cursor));
      RelayAdvances(s, io(s.cursor));
      var (s1, more) := RelayOne(s, io(s.cursor));
      if more {
        PassKeepsInv(s1, latest, io);
      }
    }
  }

  lemma LockKeepsInv(s: State, d: Deposit)
    requires Inv(s)
    ensures Inv(Step(s, Lock(d)))
  {
    MintableGrows(s.deposits, d);
    var s1 := Step(s, Lock(d));
    forall tx | MintOf(s, tx) ensures MintOf(s1, tx) {
    }
  }

  lemma StepKeepsInv(s: State, ev: Event)
    requires Inv(s) && Legal(s, ev)
    ensures Inv(Step(s, ev))
  {
    match ev
    case Lock(d) => LockKeepsInv(s, d);
    case Create(coin, token) => CreateKeepsInv(s, coin, token);
    case Relay(latest, io) => PassKeepsInv(s, latest, io);
    case Land(tx) =>
      if tx in s.pool {
        ExecuteKeepsInv(s, tx);
      }
    case _ =>
  }

  // ---------- the theorems ----------

  /** In every run, the mint log is the mints of the first deposits, each once and in order, on the
      token of its coin; the cursor never passes it, and neither passes the first deposit that is not
      `Payable`. */
  lemma {:induction false} RunKeepsInv(s: State, evs: seq<Event>)
    requires Inv(s) && LegalRun(s, evs)
    ensures var end := Run(s, evs);
      && Inv(end)
      && end.cursor <= |end.log| <= Mintable(end.deposits)
      && forall i :: 0 <= i < |end.log| ==> end.log[i].nonce == i && MintOf(end, end.log[i])
    decreases |evs|
  {
    if evs != [] {
      StepKeepsInv(s, evs[0]);
      RunKeepsInv(Step(s, evs[0]), evs[1..]);
    }
  }

  function Times(log: seq<MintTx>, nonce: nat): nat {
    if log == [] then 0
    else Times(log[..|log| - 1], nonce) + if log[|log| - 1].nonce == nonce then 1 else 0
  }

  lemma {:induction false} TimesIsOnce(log: seq<MintTx>, nonce: nat)
    requires forall i :: 0 <= i < |log| ==> log[i].nonce == i
    ensures Times(log, nonce) == if nonce < |log| then 1 else 0
    decreases |log|
  {
    if log != [] {
      TimesIsOnce(log[..|log| - 1], nonce);
    }
  }

  /** No deposit is ever minted twice, and every one below the cursor was minted once. */
  lemma MintedOnce(s: State, evs: seq<Event>, nonce: nat)
    requires Inv(s) && LegalRun(s, evs)
    ensures Times(Run(s, evs).log, nonce) <= 1
    ensures nonce < Run(s, evs).cursor ==> Times(Run(s, evs).log, nonce) == 1
  {
    RunKeepsInv(s, evs);
    TimesIsOnce(Run(s, evs).log, nonce);
  }

  function TotalOf(deposits: seq<Deposit>, coin: Coin): nat {
    if deposits == [] then 0
    else
      var d := deposits[|deposits| - 1];
      TotalOf(deposits[..|deposits| - 1], coin) + if d.coin == coin then d.amount else 0
  }

  /** What a token has minted is what was deposited of its coin below the frontier. */
  lemma {:induction false} TotalsAgree(s: State, n: nat, coin: Coin)
    requires Inv(s) && coin in s.created && n <= |s.log|
    ensures LedgerOf(s.log[..n], s.created[coin]).total == TotalOf(s.deposits[..n], coin)
  {
    if n > 0 {
      TotalsAgree(s, n - 1, coin);
      assert s.log[..n][..n - 1] == s.log[..n - 1] && s.deposits[..n][..n - 1] == s.deposits[..n - 1];
      assert MintOf(s, s.log[n - 1]);
    }
  }

  /** A pass in which no call fails. */
  predicate Flawless(io: Io) {
    io.read && io.text && io.create == Delivered && io.lastRead && io.anyRead && io.mint == Delivered
  }

  /** The token of a coin is registered, or still to be created. */
  predicate Resolvable(s: State, coin: Coin, newToken: Token) {
    coin in s.tokens || (coin !in s.created && newToken !in s.created.Values)
  }

  /** The deposit at the cursor and the token of its coin. */
  predicate Routed(s: State, token: Token) {
    && s.cursor < |s.deposits| && s.deposits[s.cursor].coin in s.created
    && s.created[s.deposits[s.cursor].coin] == token
  }

  lemma GuardExactly(s: State, token: Token, io: Io)
    requires Inv(s) && Routed(s, token) && Flawless(io)
    ensures AlreadyMinted(s.log, token, s.cursor, io) <==> s.cursor < |s.log|
  {
    LedgerFollows(s, s.log, token);
    if s.cursor < |s.log| {
      assert MintOf(s, s.log[0]) && Payable(s.deposits, s.cursor);
    }
  }

  lemma SendExactly(s: State, token: Token, io: Io)
    requires Inv(s) && Routed(s, token) && Flawless(io) && s.cursor == |s.log|
    ensures SendMint(s, token, s.deposits[s.cursor], io).1 <==> s.cursor < Mintable(s.deposits)
  {
    var d := s.deposits[s.cursor];
    if |d.recipient| == 20 {
      MintsExactly(s, MintTx(token, s.cursor, d.recipient, d.amount));
    } else {
      assert !Payable(s.deposits, s.cursor);
    }
  }

  lemma FlawlessRelay(s: State, io: Io)
    requires Inv(s) && Flawless(io) && s.cursor < |s.deposits|
    requires s.cursor < Mintable(s.deposits) ==> Resolvable(s, s.deposits[s.cursor].coin, io.newToken)
    ensures RelayOne(s, io).1 <==> s.cursor < Mintable(s.deposits)
    ensures s.cursor < Mintable(s.deposits) ==> s.deposits[s.cursor].coin in RelayOne(s, io).0.tokens
    ensures s.cursor >= Mintable(s.deposits) ==> RelayOne(s, io).0.cursor == s.cursor
  {
    EnsureKeepsInv(s, s.deposits[s.cursor].coin, io);
    var (s1, token) := EnsureToken(s, s.deposits[s.cursor].coin, io);
    if token.Some? {
      GuardExactly(s1, token.value, io);
      if s1.cursor == |s1.log| {
        SendExactly(s1, token.value, io);
        SendKeepsInv(s1, token.value, io);
      }
    }
  }

  /** The coin has a token in the registry, or the factory creates one and says so. */
  predicate Resolves(s: State, coin: Coin, io: Io) {
    coin in s.tokens ||
    (io.text && io.create == Delivered && coin !in s.created && io.newToken !in s.created.Values)
  }

  /** The guard sees that the deposit at the cursor was minted. */
  predicate GuardSees(s: State, io: Io) {
    s.cursor < |s.log| && io.anyRead && (io.lastRead || s.cursor == 0)
  }

  lemma EnsureExactly(s: State, coin: Coin, io: Io)
    requires Inv(s)
    ensures var (s1, token) := EnsureToken(s, coin, io);
      var creates := coin !in s.tokens && io.text && io.create != RequestLost &&
                     coin !in s.created && io.newToken !in s.created.Values;
      && (token.Some? <==> Resolves(s, coin, io))
      && s1.created == (if creates then s.created[coin := io.newToken] else s.created)
      && s1.tokens == (if creates && io.create == Delivered then s.tokens[coin := io.newToken] else s.tokens)
      && s1 == s.(created := s1.created, tokens := s1.tokens)
      && (token.Some? ==> coin in s1.created && s1.created[coin] == token.value)
  {
  }

  lemma GuardSeesExactly(s: State, token: Token, io: Io)
    requires Inv(s) && Routed(s, token)
    ensures AlreadyMinted(s.log, token, s.cursor, io) <==> GuardSees(s, io)
  {
    LedgerFollows(s, s.log, token);
    if s.cursor < |s.log| {
      assert MintOf(s, s.log[0]) && Payable(s.deposits, s.cursor);
    }
  }

  lemma SendDoes(s: State, token: Token, io: Io)
    requires Inv(s) && Routed(s, token)
    ensures var d := s.deposits[s.cursor];
      var tx := MintTx(token, s.cursor, d.recipient, d.amount);
      var (s1, minted) := SendMint(s, token, d, io);
      && (minted <==> |d.recipient| == 20 && io.mint == Delivered && s.cursor == |s.log| < Mintable(s.deposits))
      && s1.log == (if minted then s.log + [tx] else s.log)
      && s1.pool == (if |d.recipient| == 20 && io.mint == ReplyLost then s.pool + {tx} else s.pool)
      && s1 == s.(log := s1.log, pool := s1.pool)
  {
    var d := s.deposits[s.cursor];
    if |d.recipient| == 20 {
      MintsExactly(s, MintTx(token, s.cursor, d.recipient, d.amount));
    }
  }

  /** One deposit, whatever fails: it is passed over exactly when its coin resolves and either the guard
      sees it minted or its own mint, the next in order and payable, is confirmed; and only in that case
      anything is minted at once. A mint whose answer is lost waits in the pool. */
  lemma RelayExactly(s: State, io: Io)
    requires Inv(s) && io.read && s.cursor < |s.deposits|
    ensures var (s1, more) := RelayOne(s, io);
      var d := s.deposits[s.cursor];
      var tries := Resolves(s, d.coin, io) && !GuardSees(s, io) && |d.recipient| == 20;
      var mints := tries && io.mint == Delivered && s.cursor == |s.log| < Mintable(s.deposits);
      && (more <==> mints || (Resolves(s, d.coin, io) && GuardSees(s, io)))
      && |s1.log| == |s.log| + (if mints then 1 else 0)
      && (s1.pool != s.pool ==> tries && io.mint == ReplyLost)
      && (tries && io.mint == ReplyLost ==>
            d.coin in s1.created && MintTx(s1.created[d.coin], s.cursor, d.recipient, d.amount) in s1.pool)
      && s1.cursor == s.cursor + if more then 1 else 0
  {
    var d := s.deposits[s.cursor];
    EnsureExactly(s, d.coin, io);
    EnsureKeepsInv(s, d.coin, io);
    var (s1, token) := EnsureToken(s, d.coin, io);
    if token.Some? {
      GuardSeesExactly(s1, token.value, io);
      SendDoes(s1, token.value, io);
    }
  }

  /** A deposit that cannot be read, or is not there yet, changes nothing. */
  lemma UnreadChangesNothing(s: State, io: Io)
    requires !io.read || s.cursor >= |s.deposits|
    ensures RelayOne(s, io) == (s, false)
  {
  }

  /** A late transaction is executed once, exactly when it is the next mint, and is gone; the others wait. */
  lemma LandExactly(s: State, tx: MintTx)
    requires Inv(s) && tx in s.pool
    ensures var s1 := Step(s, Land(tx));
      && s1 == s.(log := s1.log, pool := s.pool - {tx})
      && s1.log == if tx.nonce == |s.log| < Mintable(s.deposits) then s.log + [tx] else s.log
  {
    MintsExactly(s, tx);
  }

  /** A deposit takes the next nonce; the factory gives a coin without a token a token without a coin, and
      nothing else. */
  lemma LockAndCreate(s: State, d: Deposit, coin: Coin, token: Token, c: Coin)
    ensures var s1 := Step(s, Lock(d));
      && |s1.deposits| == |s.deposits| + 1 && s1.deposits[|s.deposits|] == d && s.deposits <= s1.deposits
      && s1 == s.(deposits := s1.deposits)
    ensures var s1 := Step(s, Create(coin, token));
      && (c in s1.created <==> c in s.created || (c == coin && token !in s.created.Values))
      && (c in s.created ==> s1.created[c] == s.created[c])
      && (c in s1.created && c !in s.created ==> s1.created[c] == token)
      && s1 == s.(created := s1.created)
  {
  }

  /** A restart takes everything from the file, so one from a file just saved changes nothing, and one from
      another forgets what the process held. */
  lemma RestartIsFile(s: State, tokens: map<Coin, Token>, cursor: nat, saved: Saved)
    ensures Step(s, Save) == s.(disk := Step(s, Save).disk)
    ensures Step(Step(s, Save), Restart(Step(s, Save).disk)) == Step(s, Save)
    ensures Step(s.(tokens := tokens, cursor := cursor), Restart(saved)) == Step(s, Restart(saved))
    ensures var s1 := Step(s, Restart(saved)); Step(s1, Save) == s1 && s1.disk == saved
  {
  }

  /** Absorbing creations teaches the relayer the tokens of the coins named, and no other. */
  lemma AbsorbExactly(s: State, coins: set<Coin>, c: Coin)
    ensures var s1 := Step(s, Absorb(coins));
      && (c in s1.tokens <==> c in s.tokens || (c in coins && c in s.created))
      && (c in coins && c in s.created ==> s1.tokens[c] == s.created[c])
  {
  }

  /** The cursor is saved as it moves, together with the registry; a step that fails saves nothing. */
  lemma RelaySaves(s: State, io: Io)
    ensures var (s1, more) := RelayOne(s, io);
      && (more && io.save ==> s1.disk == Saved(s.cursor + 1, s1.tokens))
      && (!(more && io.save) ==> s1.disk == s.disk)
      && (!more ==> s1.cursor == s.cursor)
  {
  }

  /** So a restart right after such a step finds everything as it was. */
  lemma RestartChangesNothing(s: State, io: Io)
    requires RelayOne(s, io).1 && io.save
    ensures Step(RelayOne(s, io).0, Restart(RelayOne(s, io).0.disk)) == RelayOne(s, io).0
  {
    RelaySaves(s, io);
    RelayAdvances(s, io);
  }

  /** A deposit passed over was minted, and its coin is in the registry. */
  lemma RelayRemembers(s: State, io: Io)
    requires Inv(s) && RelayOne(s, io).1
    ensures s.cursor < |s.deposits| && s.deposits[s.cursor].coin in RelayOne(s, io).0.tokens
    ensures s.cursor < |RelayOne(s, io).0.log|
  {
    EnsureKeepsInv(s, s.deposits[s.cursor].coin, io);
    var (s1, token) := EnsureToken(s, s.deposits[s.cursor].coin, io);
    if AlreadyMinted(s1.log, token.value, s.cursor, io) {
      GuardIsSound(s1, token.value, io);
    } else {
      SendKeepsInv(s1, token.value, io);
    }
  }

  lemma {:induction false} PassSaves(s: State, latest: nat, io: nat -> Io)
    ensures s.cursor <= RelayPass(s, latest, io).cursor
    ensures RelayPass(s, latest, io).cursor == s.cursor ==> RelayPass(s, latest, io).disk == s.disk
    ensures RelayPass(s, latest, io).deposits == s.deposits
    decreases latest - s.cursor
  {
    if s.cursor < latest {
      RelaySaves(s, io(s.cursor));
      RelayAdvances(s, io(s.cursor));
      RelayKeepsDeposits(s, io(s.cursor));
      var (s1, more) := RelayOne(s, io(s.cursor));
      if more {
        PassSaves(s1, latest, io);
      }
    }
  }

  lemma RelayKeepsDeposits(s: State, io: Io)
    ensures RelayOne(s, io).0.deposits == s.deposits
  {
  }

  /** The file holds the cursor, and the coin of the last deposit below it. */
  predicate HasSaved(s: State) {
    && s.disk.cursor == s.cursor && 0 < s.cursor <= |s.deposits|
    && s.deposits[s.cursor - 1].coin in s.disk.tokens
  }

  lemma RelayHasSaved(s: State, io: Io)
    requires Inv(s) && RelayOne(s, io).1 && io.save
    ensures HasSaved(RelayOne(s, io).0)
  {
    RelaySaves(s, io);
    RelayAdvances(s, io);
    RelayKeepsDeposits(s, io);
    RelayRemembers(s, io);
  }

  lemma {:induction false} PassHasSaved(s: State, latest: nat, io: nat -> Io)
    requires Inv(s) && forall n: nat :: io(n).save
    ensures s.cursor < RelayPass(s, latest, io).cursor ==> HasSaved(RelayPass(s, latest, io))
    decreases latest - s.cursor
  {
    if s.cursor < latest {
      var (s1, more) := RelayOne(s, io(s.cursor));
      RelayAdvances(s, io(s.cursor));
      if more {
        RelayKeepsInv(s, io(s.cursor));
        RelayHasSaved(s, io(s.cursor));
        PassSaves(s1, latest, io);
        PassHasSaved(s1, latest, io);
      } else {
        RelaySaves(s, io(s.cursor));
      }
    }
  }

  lemma SavedResolves(s: State, i: nat, io: Io)
    requires Inv(s) && HasSaved(s) && i < s.cursor
    ensures var s1 := Step(s, Restart(s.disk));
      s1.cursor == s.cursor && EnsureToken(s1, s.deposits[i].coin, io) == (s1, Some(s.log[i].token))
  {
    assert Payable(s.deposits, i) && Payable(s.deposits, s.cursor - 1);
    assert MintOf(s, s.log[i]);
  }

  /** A pass that moves the cursor, and whose saves succeed, leaves a file from which a restart resolves
      the coin of every deposit below the cursor to the token it was minted on, without the factory. */
  lemma SavedFileResolves(s: State, latest: nat, io: nat -> Io, i: nat, io1: Io)
    requires Inv(s) && forall n: nat :: io(n).save
    requires s.cursor < RelayPass(s, latest, io).cursor && i < RelayPass(s, latest, io).cursor
    ensures var s1 := RelayPass(s, latest, io);
      var s2 := Step(s1, Restart(s1.disk));
      && s2.cursor == s1.cursor && i < |s1.log| && i < |s1.deposits|
      && EnsureToken(s2, s1.deposits[i].coin, io1) == (s2, Some(s1.log[i].token))
  {
    PassKeepsInv(s, latest, io);
    PassHasSaved(s, latest, io);
    SavedResolves(RelayPass(s, latest, io), i, io1);
  }

  /** A pass in which no call fails stops exactly at the first deposit that is not `Payable`, however
      many deposits there are beyond it. */
  lemma {:induction false} FlawlessPassReaches(s: State, latest: nat, io: nat -> Io)
    requires Inv(s) && latest <= |s.deposits|
    requires forall n: nat :: Flawless(io(n))
    requires forall n: nat :: s.cursor <= n < Mintable(s.deposits) ==> Resolvable(s, s.deposits[0].coin, io(n).newToken)
    ensures RelayPass(s, latest, io).cursor == Max(s.cursor, Min(latest, Mintable(s.deposits)))
    ensures s.disk.cursor == s.cursor && (forall n: nat :: io(n).save) ==>
              RelayPass(s, latest, io).disk.cursor == RelayPass(s, latest, io).cursor
    decreases latest - s.cursor
  {
    if s.cursor < latest {
      assert s.cursor < Mintable(s.deposits) ==> Payable(s.deposits, s.cursor);
      FlawlessRelay(s, io(s.cursor));
      RelayKeepsInv(s, io(s.cursor));
      RelayAdvances(s, io(s.cursor));
      RelaySaves(s, io(s.cursor));
      var (s1, more) := RelayOne(s, io(s.cursor));
      if more {
        FlawlessPassReaches(s1, latest, io);
      }
    }
  }

  /** A run that leaves the deposits as they are and after which the one at `nonce` is minted. */
  ghost predicate MintedAfter(s: State, evs: seq<Event>, nonce: nat) {
    LegalRun(s, evs) && Run(s, evs).deposits == s.deposits && Times(Run(s, evs).log, nonce) == 1
  }

  lemma OnePassMints(s: State, nonce: nat, io: Io) returns (evs: seq<Event>)
    requires Inv(s) && nonce < Mintable(s.deposits) && Resolvable(s, s.deposits[0].coin, io.newToken) && Flawless(io)
    ensures MintedAfter(s, evs, nonce)
  {
    var latest := |s.deposits|;
    var all := (n: nat) => io;
    evs := [Relay(latest, all)];
    var s1 := Step(s, evs[0]);
    assert evs[1..] == [];
    assert Run(s, evs) == s1 && LegalRun(s1, []);
    FlawlessPassReaches(s, latest, all);
    PassKeepsInv(s, latest, all);
    PassKeepsDeposits(s, latest, all);
    TimesIsOnce(s1.log, nonce);
  }

  /** A deposit is minted in some run exactly when every deposit up to it is of the first one's coin
      and has an address to go to. */
  lemma MintedIffMintable(s: State, nonce: nat, io: Io)
    requires Inv(s) && nonce < |s.deposits| && Resolvable(s, s.deposits[0].coin, io.newToken) && Flawless(io)
    ensures (exists evs: seq<Event> :: MintedAfter(s, evs, nonce)) <==> nonce < Mintable(s.deposits)
  {
    forall evs: seq<Event> | MintedAfter(s, evs, nonce) ensures nonce < Mintable(s.deposits) {
      RunKeepsInv(s, evs);
      TimesIsOnce(Run(s, evs).log, nonce);
    }
    if nonce < Mintable(s.deposits) {
      var evs := OnePassMints(s, nonce, io);
    }
  }

  lemma {:induction false} PassKeepsDeposits(s: State, latest: nat, io: nat -> Io)
    requires Inv(s)
    ensures RelayPass(s, latest, io).deposits == s.deposits
    decreases latest - s.cursor
  {
    if s.cursor < latest {
      RelayKeepsInv(s, io(s.cursor));
      RelayAdvances(s, io(s.cursor));
      if RelayOne(s, io(s.cursor)).1 {
        PassKeepsDeposits(RelayOne(s, io(s.cursor)).0, latest, io);
      }
    }
  }

  // ---------- the relayer itself ----------

  class Relayer {
    var deposits: seq<Deposit>
    var created: map<Coin, Token>
    var log: seq<MintTx>
    var pool: set<MintTx>
    var tokens: map<Coin, Token>
    var cursor: nat
    var disk: Saved

    function World(): State
      reads this
    {
      State(deposits, created, log, pool, tokens, cursor, disk)
    }

    method ResolveToken(coin: Coin, io: Io) returns (token: Option<Token>)
      modifies `created, `tokens
      ensures (World(), token) == EnsureToken(old(World()), coin, io)
    {
      if coin in tokens { return Some(tokens[coin]); }
      if !io.text || io.create == RequestLost { return None; }
      if coin in created || io.newToken in created.Values { return None; }
      created := created[coin := io.newToken];
      if io.create == ReplyLost { return None; }
      tokens := tokens[coin := io.newToken];
      return Some(io.newToken);
    }

    method Mint(token: Token, d: Deposit, io: Io) returns (minted: bool)
      modifies `log, `pool
      ensures (World(), minted) == SendMint(old(World()), token, d, io)
    {
      if |d.recipient| != 20 || io.mint == RequestLost { return false; }
      var tx := MintTx(token, cursor, d.recipient, d.amount);
      if io.mint == ReplyLost {
        pool := pool + {tx};
        return false;
      }
      minted := Mints(log, tx);
      log := Execute(log, tx);
    }

    method RelayNext(io: Io) returns (more: bool)
      modifies this
      ensures (World(), more) == RelayOne(old(World()), io)
    {
      if !io.read || cursor >= |deposits| { return false; }
      var d := deposits[cursor];
      var token := ResolveToken(d.coin, io);
      if token == None { return false; }
      if !AlreadyMinted(log, token.value, cursor, io) {
        var minted := Mint(token.value, d, io);
        if !minted { return false; }
      }
      cursor := cursor + 1;
      if io.save {
        disk := Saved(cursor, tokens);
      }
      return true;
    }

    /** The cursor moves on only past a deposit seen minted. */
    method RelayDeposits(latest: nat, io: nat -> Io)
      modifies this
      ensures World() == RelayPass(old(World()), latest, io)
    {
      ghost var result := RelayPass(World(), latest, io);
      while cursor < latest
        invariant RelayPass(World(), latest, io) == result
        decreases latest - cursor
      {
        ghost var before := World();
        RelayAdvances(before, io(cursor));
        var more := RelayNext(io(cursor));
        if !more { return; }
      }
    }
  }
}
