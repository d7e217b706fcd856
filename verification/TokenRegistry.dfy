/** The relayer's token registry: first claim wins, kept in both directions, saved with the cursors and
    rebuilt from the factory's history by a scan that narrows its requests. */
module TokenRegistry {
  import opened Sorted
  import opened Wrappers

  type Coin = nat
  type Token = nat

  /** A `BridgeCreated` log, if it decodes to a coin type the node can parse. */
  datatype Creation = Decoded(coin: Coin, token: Token) | Undecodable

  datatype Registry = Registry(byCoin: map<Coin, Token>, byAddress: map<Token, Coin>)

  const EMPTY: Registry := Registry(map[], map[])

  predicate Claimed(r: Registry, coin: Coin, token: Token) {
    coin in r.byCoin && r.byCoin[coin] != token
  }

  function Insert(r: Registry, coin: Coin, token: Token): Registry {
    if Claimed(r, coin, token) then r
    else Registry(r.byCoin[coin := token], r.byAddress[token := coin])
  }

  function Absorb(r: Registry, log: Creation): Registry {
    match log
    case Decoded(coin, token) => Insert(r, coin, token)
    case Undecodable => r
  }

  /** The single fold a scan must amount to. */
  function Fold(r: Registry, logs: seq<Creation>): Registry {
    if logs == [] then r else Absorb(Fold(r, logs[..|logs| - 1]), logs[|logs| - 1])
  }

  lemma {:induction false} FoldThen(r: Registry, a: seq<Creation>, b: seq<Creation>)
    ensures Fold(r, a + b) == Fold(Fold(r, a), b)
    decreases |b|
  {
    if b == [] {
      assert a + b == a;
    } else {
      FoldThen(r, a, b[..|b| - 1]);
      assert (a + b)[..|a + b| - 1] == a + b[..|b| - 1];
    }
  }

  /** The token of the earliest creation for `coin`. */
  function FirstClaim(logs: seq<Creation>, coin: Coin): Option<Token> {
    if logs == [] then None
    else if logs[0].Decoded? && logs[0].coin == coin then Some(logs[0].token)
    else FirstClaim(logs[1..], coin)
  }

  lemma {:induction false} FirstClaimThen(logs: seq<Creation>, log: Creation, coin: Coin)
    ensures FirstClaim(logs + [log], coin) ==
            if FirstClaim(logs, coin).Some? then FirstClaim(logs, coin)
            else if log.Decoded? && log.coin == coin then Some(log.token) else None
  {
    if logs == [] {
      assert (logs + [log])[1..] == [];
    } else {
      FirstClaimThen(logs[1..], log, coin);
      assert (logs + [log])[1..] == logs[1..] + [log];
    }
  }

  /** A coin type belongs to the token that was created for it first, whatever twins follow. */
  lemma {:induction false} FirstClaimWins(logs: seq<Creation>, coin: Coin)
    ensures coin in Fold(EMPTY, logs).byCoin <==> FirstClaim(logs, coin).Some?
    ensures FirstClaim(logs, coin).Some? ==> Fold(EMPTY, logs).byCoin[coin] == FirstClaim(logs, coin).value
    decreases |logs|
  {
    if logs != [] {
      var before, log := logs[..|logs| - 1], logs[|logs| - 1];
      FirstClaimWins(before, coin);
      FirstClaimThen(before, log, coin);
      assert before + [log] == logs;
    }
  }

  /** The two maps are each other's inverse. */
  predicate Inverse(r: Registry) {
    && (forall c :: c in r.byCoin ==> r.byCoin[c] in r.byAddress && r.byAddress[r.byCoin[c]] == c)
    && (forall t :: t in r.byAddress ==> r.byAddress[t] in r.byCoin && r.byCoin[r.byAddress[t]] == t)
  }

  /** Inserting keeps them so exactly when the token is not claimed under another coin type. */
  lemma InsertKeepsInverse(r: Registry, coin: Coin, token: Token)
    requires Inverse(r)
    ensures Inverse(Insert(r, coin, token)) <==>
            Claimed(r, coin, token) || (token in r.byAddress ==> r.byAddress[token] == coin)
  {
    var r1 := Insert(r, coin, token);
    if !Claimed(r, coin, token) && token in r.byAddress && r.byAddress[token] != coin {
      var other := r.byAddress[token];
      assert other in r1.byCoin && r1.byCoin[other] == token && r1.byAddress[token] == coin;
    }
  }

  /** A coin type without another token takes the one inserted, and the token leads back to it; a coin type
      that has another keeps it. Nothing else changes. */
  lemma InsertExactly(r: Registry, coin: Coin, token: Token, c: Coin, t: Token)
    ensures var r1 := Insert(r, coin, token);
      var takes := coin in r.byCoin ==> r.byCoin[coin] == token;
      && (takes ==> coin in r1.byCoin && r1.byCoin[coin] == token)
      && (takes ==> token in r1.byAddress && r1.byAddress[token] == coin)
      && (c != coin ==> (c in r1.byCoin <==> c in r.byCoin) && (c in r.byCoin ==> r1.byCoin[c] == r.byCoin[c]))
      && (t != token ==>
            (t in r1.byAddress <==> t in r.byAddress) && (t in r.byAddress ==> r1.byAddress[t] == r.byAddress[t]))
      && (!takes ==> r1 == r)
  {
  }

  // ---------- the snapshot ----------

  /** The registry that inserting the entries of `m` for the coin types `cs`, in that order, rebuilds. */
  function FromEntries(m: map<Coin, Token>, cs: seq<Coin>): Registry
    requires forall c :: c in cs ==> c in m
  {
    if cs == [] then EMPTY
    else
      var c := cs[|cs| - 1];
      Insert(FromEntries(m, cs[..|cs| - 1]), c, m[c])
  }

  /** Restoring a saved map goes through it in key order. */
  function FromSnapshot(m: map<Coin, Token>): Registry {
    assert forall c :: c in AscendingOf(m.Keys) ==> c in m by {
      assert forall c :: c in AscendingOf(m.Keys) ==> c in Elements(AscendingOf(m.Keys));
    }
    FromEntries(m, AscendingOf(m.Keys))
  }

  lemma {:induction false} EntriesRestored(m: map<Coin, Token>, cs: seq<Coin>)
    requires Ascending(cs) && forall c :: c in cs ==> c in m
    ensures forall c :: c in FromEntries(m, cs).byCoin <==> c in cs
    ensures forall c :: c in cs ==> FromEntries(m, cs).byCoin[c] == m[c]
    ensures forall t :: t in FromEntries(m, cs).byAddress ==> FromEntries(m, cs).byAddress[t] in cs
    decreases |cs|
  {
    if cs != [] {
      var before, last := cs[..|cs| - 1], cs[|cs| - 1];
      EntriesRestored(m, before);
      LastIsNew(cs);
      var r := FromEntries(m, before);
      assert FromEntries(m, cs) == Registry(r.byCoin[last := m[last]], r.byAddress[m[last] := last]);
    }
  }

  lemma LastIsNew(cs: seq<Coin>)
    requires Ascending(cs) && cs != []
    ensures var before, last := cs[..|cs| - 1], cs[|cs| - 1];
      last !in before && forall c :: c in cs <==> c in before || c == last
  {
    assert cs == cs[..|cs| - 1] + [cs[|cs| - 1]];
  }

  predicate Injective(m: map<Coin, Token>) {
    forall a, b :: a in m && b in m && m[a] == m[b] ==> a == b
  }

  lemma {:induction false} EntriesInverse(m: map<Coin, Token>, cs: seq<Coin>)
    requires Ascending(cs) && Injective(m) && forall c :: c in cs ==> c in m
    ensures Inverse(FromEntries(m, cs))
    decreases |cs|
  {
    if cs != [] {
      var before, last := cs[..|cs| - 1], cs[|cs| - 1];
      EntriesInverse(m, before);
      EntriesRestored(m, before);
      InsertKeepsInverse(FromEntries(m, before), last, m[last]);
    }
  }

  lemma InverseIsUnique(a: Registry, b: Registry)
    requires Inverse(a) && Inverse(b) && a.byCoin == b.byCoin
    ensures a == b
  {
    forall t ensures t in a.byAddress <==> t in b.byAddress {
      if t in a.byAddress {
        assert b.byCoin[a.byAddress[t]] == t;
      }
      if t in b.byAddress {
        assert a.byCoin[b.byAddress[t]] == t;
      }
    }
    forall t | t in a.byAddress ensures a.byAddress[t] == b.byAddress[t] {
      assert b.byCoin[a.byAddress[t]] == t;
    }
    assert a.byAddress == b.byAddress;
  }

  /** The snapshot keeps every claim; the registry's two maps are each other's inverse exactly when no two
      coin types share a token and the snapshot gives the registry back. */
  lemma SnapshotRoundTrips(r: Registry)
    ensures FromSnapshot(r.byCoin).byCoin == r.byCoin
    ensures Injective(r.byCoin) && FromSnapshot(r.byCoin) == r <==> Inverse(r)
  {
    var m := r.byCoin;
    var cs := AscendingOf(m.Keys);
    assert forall c :: c in cs <==> c in Elements(cs);
    EntriesRestored(m, cs);
    assert FromSnapshot(m).byCoin == m;
    if Injective(m) {
      SnapshotIsInverse(m);
      if Inverse(r) {
        InverseIsUnique(FromSnapshot(m), r);
      }
    }
  }

  lemma SnapshotIsInverse(m: map<Coin, Token>)
    requires Injective(m)
    ensures FromSnapshot(m).byCoin == m && Inverse(FromSnapshot(m))
  {
    var cs := AscendingOf(m.Keys);
    assert forall c :: c in cs <==> c in Elements(cs);
    EntriesRestored(m, cs);
    EntriesInverse(m, cs);
  }

  // ---------- the scan ----------

  /** The creation logs of blocks `first` up to and excluding `end`. */
  function LogsOf(chain: seq<seq<Creation>>, first: nat, end: nat): seq<Creation>
    requires first <= end <= |chain|
    decreases end
  {
    if first == end then [] else LogsOf(chain, first, end - 1) + chain[end - 1]
  }

  lemma {:induction false} LogsThen(chain: seq<seq<Creation>>, first: nat, mid: nat, end: nat)
    requires first <= mid <= end <= |chain|
    ensures LogsOf(chain, first, end) == LogsOf(chain, first, mid) + LogsOf(chain, mid, end)
    decreases end
  {
    if mid < end {
      LogsThen(chain, first, mid, end - 1);
    }
  }

  lemma ScanThen(chain: seq<seq<Creation>>, first: nat, end: nat)
    requires first <= end <= |chain|
    ensures Fold(Fold(EMPTY, LogsOf(chain, 0, first)), LogsOf(chain, first, end)) == Fold(EMPTY, LogsOf(chain, 0, end))
  {
    FoldThen(EMPTY, LogsOf(chain, 0, first), LogsOf(chain, first, end));
    LogsThen(chain, 0, first, end);
  }

  const SCAN_CHUNK: nat := 2500
  const MIN_SCAN_CHUNK: nat := 64
  const HALVE_AFTER: nat := 500

  /** The chunk sizes halving leads to. */
  predicate ChunkSize(chunk: nat) {
    || chunk == 2500 || chunk == 1250 || chunk == 625 || chunk == 312
    || chunk == 156 || chunk == 78 || chunk == 39
  }

  function Halved(chunk: nat): (half: nat)
    requires ChunkSize(chunk) && chunk > MIN_SCAN_CHUNK
    ensures ChunkSize(half) && half < chunk
  {
    chunk / 2
  }

  /** The chunk that is not halved any more. */
  lemma SmallestChunk(chunk: nat)
    requires ChunkSize(chunk) && chunk <= MIN_SCAN_CHUNK
    ensures chunk == 39
  {
  }

  /** A range of at most 39 blocks up to `head` was refused. */
  ghost predicate RefusedSmall(answers: (nat, nat, nat) -> bool, head: nat) {
    exists request: nat, first: nat, last: nat ::
      first <= last <= head && last - first < 39 && !answers(request, first, last)
  }

  class TokenRegistry {
    var byCoin: map<Coin, Token>
    var byAddress: map<Token, Coin>

    function Value(): Registry
      reads this
    {
      Registry(byCoin, byAddress)
    }

    constructor ()
      ensures Value() == EMPTY
    {
      byCoin := map[];
      byAddress := map[];
    }

    /** The answer says whether the token is now the one of its coin type. */
    method InsertToken(coin: Coin, token: Token) returns (canonical: bool)
      modifies this
      ensures Value() == Insert(old(Value()), coin, token)
      ensures canonical <==> coin in byCoin && byCoin[coin] == token
    {
      if coin in byCoin && byCoin[coin] != token { return false; }
      byAddress := byAddress[token := coin];
      byCoin := byCoin[coin := token];
      return true;
    }

    method AbsorbCreations(logs: seq<Creation>)
      modifies this
      ensures Value() == Fold(old(Value()), logs)
    {
      var i := 0;
      assert logs[..0] == [];
      while i < |logs|
        invariant 0 <= i <= |logs|
        invariant Value() == Fold(old(Value()), logs[..i])
      {
        assert logs[..i + 1][..i] == logs[..i];
        match logs[i] {
          case Decoded(coin, token) => var _ := InsertToken(coin, token);
          case Undecodable =>
        }
        i := i + 1;
      }
      assert logs[..i] == logs;
    }

    /** Indexes blocks 0 to `head`. `answers` says which request, by its number and its range, gets an
        answer; the chunk is halved when one fails or returns many logs. A scan that succeeds is one
        fold over all logs in order; one that fails was refused a range of at most 39 blocks. */
    method Scan(chain: seq<seq<Creation>>, head: nat, answers: (nat, nat, nat) -> bool) returns (ok: bool)
      requires head < |chain|
      requires Value() == EMPTY
      modifies this
      ensures ok ==> Value() == Fold(EMPTY, LogsOf(chain, 0, head + 1))
      ensures !ok ==> RefusedSmall(answers, head)
    {
      var chunk: nat := SCAN_CHUNK;
      var first: nat := 0;
      var request := 0;
      while first <= head
        invariant 0 <= first <= head + 1
        invariant ChunkSize(chunk)
        invariant Value() == Fold(EMPTY, LogsOf(chain, 0, first))
        decreases head + 1 - first, chunk
      {
        var last := Min(first + (chunk - 1), head);
        if answers(request, first, last) {
          var logs := LogsOf(chain, first, last + 1);
          ScanThen(chain, first, last + 1);
          AbsorbCreations(logs);
          if |logs| >= HALVE_AFTER && chunk > MIN_SCAN_CHUNK {
            chunk := Halved(chunk);
          }
          first := last + 1;
        } else if chunk > MIN_SCAN_CHUNK {
          chunk := Halved(chunk);
        } else {
          SmallestChunk(chunk);
          assert last - first < 39;
          return false;
        }
        request := request + 1;
      }
      return true;
    }
  }
}
