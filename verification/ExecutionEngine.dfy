/** The execution client as the node sees it: a tree of validated payloads with a canonical head,
    driven by newPayload and forkchoiceUpdated (Engine API, "Paris" and "Cancun"). */
module ExecutionEngine {
  import opened Wrappers

  type Hash = nat

  /** The stub hash a fork choice may carry before anything is safe or finalized. */
  const ZERO_HASH: Hash := 0

  datatype Payload = Payload(hash: Hash, parent: Hash, number: nat)

  /** What every hash stands for, and which payloads execute. Block hashes are collision free,
      so a hash has one payload; nothing else about it is fixed. */
  datatype World = World(payload: Hash -> Payload, valid: Hash -> bool)

  /** `known` holds the hashes of the payloads validated so far. */
  datatype Engine = Engine(known: set<Hash>, canonical: Hash)

  datatype Status = Valid | Syncing | InvalidForkchoice

  /** A payload the client validates: its hash is its own, it executes, and it extends a payload
      that was validated before. */
  predicate Extends(w: World, known: set<Hash>, p: Payload) {
    && w.payload(p.hash) == p
    && w.valid(p.hash)
    && p.parent in known
    && w.payload(p.parent).number + 1 == p.number
  }

  function NewPayload(w: World, e: Engine, p: Payload): Engine {
    if Extends(w, e.known, p) then e.(known := e.known + {p.hash}) else e
  }

  /** The block at height `n` on the chain that ends in `h`. */
  function AncestorAt(w: World, h: Hash, n: nat): Option<Hash>
    decreases w.payload(h).number
  {
    var p := w.payload(h);
    if p.number == n then Some(h)
    else if n < p.number && w.payload(p.parent).number + 1 == p.number then AncestorAt(w, p.parent, n)
    else None
  }

  predicate IsAncestor(w: World, a: Hash, h: Hash) {
    AncestorAt(w, h, w.payload(a).number) == Some(a)
  }

  /** An unknown head leaves the chain alone; a safe or finalized hash off the chain of the head is
      refused (-38002); an update to an ancestor of the canonical head may be skipped (`skip`). */
  function ForkchoiceUpdated(w: World, e: Engine, head: Hash, safe: Hash, finalized: Hash, skip: bool)
    : (Engine, Status)
  {
    if head !in e.known then (e, Syncing)
    else if finalized != ZERO_HASH && !IsAncestor(w, finalized, head) then (e, InvalidForkchoice)
    else if safe != ZERO_HASH && !IsAncestor(w, safe, head) then (e, InvalidForkchoice)
    else if skip && IsAncestor(w, head, e.canonical) then (e, Valid)
    else (e.(canonical := head), Valid)
  }

  /** `eth_getBlockByNumber`. */
  function BlockByNumber(w: World, e: Engine, n: nat): Option<Hash> {
    AncestorAt(w, e.canonical, n)
  }

  /** The validated payloads form a tree rooted at height 0 that holds the canonical head. */
  ghost predicate Rooted(w: World, e: Engine) {
    && e.canonical in e.known
    && forall h :: h in e.known ==>
         w.payload(h).number == 0 ||
         (w.payload(h).parent in e.known && w.payload(w.payload(h).parent).number + 1 == w.payload(h).number)
  }

  lemma {:induction false} AncestorHasHeight(w: World, h: Hash, n: nat)
    requires AncestorAt(w, h, n).Some?
    ensures w.payload(AncestorAt(w, h, n).value).number == n <= w.payload(h).number
    decreases w.payload(h).number
  {
    if w.payload(h).number != n {
      AncestorHasHeight(w, w.payload(h).parent, n);
    }
  }

  /** Below a common block two chains are the same chain. */
  lemma {:induction false} AncestorsAgree(w: World, h: Hash, n: nat, m: nat)
    requires m <= n && AncestorAt(w, h, n).Some?
    ensures AncestorAt(w, h, m) == AncestorAt(w, AncestorAt(w, h, n).value, m)
    decreases w.payload(h).number
  {
    if w.payload(h).number != n {
      AncestorsAgree(w, w.payload(h).parent, n, m);
    }
  }

  lemma {:induction false} AncestorKnown(w: World, e: Engine, h: Hash, n: nat)
    requires Rooted(w, e) && h in e.known && AncestorAt(w, h, n).Some?
    ensures AncestorAt(w, h, n).value in e.known
    decreases w.payload(h).number
  {
    if w.payload(h).number != n {
      AncestorKnown(w, e, w.payload(h).parent, n);
    }
  }
}
