/** The two ends of the DA layer together: what the sequencer settles is what a full node looks up. */
module DaRoundTrip {
  import opened Wrappers
  import Wire
  import Finalizer
  import FullNode

  /** How a full node reads a block off a blob: `view` keeps the header height; which payload and
      signature it sees is up to it. */

  ghost predicate KeepsHeight(view: Wire.Block -> FullNode.Block) {
    forall b: Wire.Block :: view(b).height == b.header.height
  }

  function Seen(view: Wire.Block -> FullNode.Block, batch: seq<Wire.Block>): (r: seq<FullNode.Block>)
    ensures |r| == |batch| && forall i :: 0 <= i < |r| ==> r[i] == view(batch[i])
  {
    seq(|batch|, i requires 0 <= i < |batch| => view(batch[i]))
  }

  /** The registry and the blobs a sequencer left, as a full node fetches and decodes them. */
  function DaOf(view: Wire.Block -> FullNode.Block, d: Finalizer.Durable): FullNode.Da {
    FullNode.Da(d.registry.commitments,
      map blob | blob in d.blobs && Wire.Decode(d.blobs[blob]).Ok? :: Seen(view, Wire.Decode(d.blobs[blob]).value))
  }

  /** In a batch of distinct heights the first block at a height is the only one. */
  lemma FindReturns(view: Wire.Block -> FullNode.Block, batch: seq<Wire.Block>, b: Wire.Block)
    requires KeepsHeight(view) && Finalizer.Increasing(batch) && b in batch
    ensures FullNode.Find(Seen(view, batch), b.header.height) == Some(view(b))
  {
    var i :| 0 <= i < |batch| && batch[i] == b;
    assert Seen(view, batch)[i] == view(b);
  }

  /** After any run of the sequencer, whatever failed and wherever it crashed, a full node that looks up
      a height finds the block settled there if it is settled, and nothing otherwise. */
  lemma SettledIsLookedUp(env: Finalizer.Env, view: Wire.Block -> FullNode.Block, s: Finalizer.State,
                          evs: seq<Finalizer.Event>, h: nat)
    requires Finalizer.CollisionFree(env) && KeepsHeight(view)
    requires Finalizer.Inv(env, s) && Finalizer.TimerInv(env, s) && Finalizer.LegalRun(env, s, evs)
    ensures var d := Finalizer.Run(env, s, evs).world;
      && (h in d.registry.settled <==> 0 < h <= d.registry.latest)
      && FullNode.Lookup(DaOf(view, d), h) ==
         if h in d.registry.settled then Some(view(d.registry.settled[h])) else None
  {
    Finalizer.RunKeepsInv(env, s, evs);
    var d := Finalizer.Run(env, s, evs).world;
    LookedUp(env, view, d, h);
  }

  lemma LookedUp(env: Finalizer.Env, view: Wire.Block -> FullNode.Block, d: Finalizer.Durable, h: nat)
    requires KeepsHeight(view) && Finalizer.DurableInv(env, d)
    ensures FullNode.Lookup(DaOf(view, d), h) ==
            if h in d.registry.settled then Some(view(d.registry.settled[h])) else None
  {
    if h in d.registry.settled {
      var blob := d.registry.commitments[h];
      assert Finalizer.Carries(d.blobs, blob, d.registry.settled[h]);
      FindReturns(view, Wire.Decode(d.blobs[blob]).value, d.registry.settled[h]);
    }
  }
}
