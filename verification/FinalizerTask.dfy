/** The finalizer as it runs: the stores and the queues it changes in place. The history it leaves is
    ghost, and each operation is the step of the same name. */
module FinalizerTask {
  import opened Wrappers
  import opened Wire
  import opened Finalizer
  import opened Sorted

  lemma SettlingCases(env: Env, s: State, a: Attempt)
    requires |s.arrived| == |s.batch| && s.phase.Settling?
    ensures s.batch == [] || s.shuttingDown ==>
              FlushStep(env, s, a) == Finalizer.EndFlush(Abandon(s).(batchBytes := 0), s.phase.last)
    ensures s.batch != [] && !s.shuttingDown ==>
              var taken := a.net != RequestLost && Settle(s.world.registry, s.batch[0], s.phase.blob).Some?;
              var s1 := Write(env, s, Commit(s.batch[0], s.phase.blob));
              FlushStep(env, s, a) == if !taken then s
                                      else if a.net == Delivered then FinalizeFront(env, s1, s.phase.last, a) else s1
  {
  }

  /** No flush is under way, so no attempt does anything. */
  lemma {:induction false} IdleAttempts(env: Env, s: State, script: seq<Attempt>)
    requires |s.arrived| == |s.batch| && s.phase == Idle
    ensures Attempts(env, s, script) == s
    decreases |script|
  {
    if script != [] {
      IdleAttempts(env, s, script[1..]);
    }
  }

  /** `queue`, `ops` and `now` are what recovery makes of the first `i` heights. */
  predicate Recovered(env: Env, d: Durable, heights: seq<nat>, i: nat, queue: seq<Block>, ops: seq<Op>, now: Durable)
    requires i <= |heights|
  {
    var (all, allOps) := Recovery(env, d, heights);
    var (rest, restOps) := Recovery(env, d, heights[i..]);
    && all == queue + rest && allOps == ops + restOps
    && ReplayFrom(env, now, restOps) == ReplayFrom(env, d, allOps)
  }

  lemma RecoveredThen(env: Env, d: Durable, heights: seq<nat>, i: nat, queue: seq<Block>, ops: seq<Op>, now: Durable)
    requires i < |heights| && Recovered(env, d, heights, i, queue, ops, now)
    ensures var h := heights[i];
      if h in d.stored && env.decodable(d.stored[h].data)
      then Recovered(env, d, heights, i + 1, queue + [d.stored[h]], ops, now)
      else Recovered(env, d, heights, i + 1, queue, ops + [Clear(h)], ApplyOp(env, now, Clear(h)))
  {
    assert heights[i..][1..] == heights[i + 1..];
    var (rest, restOps) := Recovery(env, d, heights[i + 1..]);
    var h := heights[i];
    if h in d.stored && env.decodable(d.stored[h].data) {
      assert queue + ([d.stored[h]] + rest) == queue + [d.stored[h]] + rest;
    } else {
      assert ops + ([Clear(h)] + restOps) == ops + [Clear(h)] + restOps;
      assert ([Clear(h)] + restOps)[1..] == restOps;
    }
  }

  lemma RecoveryEnds(env: Env, d: Durable, heights: seq<nat>, i: nat, queue: seq<Block>, ops: seq<Op>, now: Durable)
    requires i == |heights| && Recovered(env, d, heights, i, queue, ops, now)
    ensures Recovery(env, d, heights) == (queue, ops) && now == ReplayFrom(env, d, ops)
  {
    assert heights[i..] == [];
    assert queue + [] == queue && ops + [] == ops;
  }

  method Recover(env: Env, d: Durable, heights: seq<nat>) returns (queue: seq<Block>, ops: seq<Op>, left: Durable)
    ensures (queue, ops) == Recovery(env, d, heights) && left == ReplayFrom(env, d, ops)
  {
    queue, ops, left := [], [], d;
    var i := 0;
    assert heights[0..] == heights;
    while i < |heights|
      invariant 0 <= i <= |heights|
      invariant Recovered(env, d, heights, i, queue, ops, left)
    {
      var h := heights[i];
      RecoveredThen(env, d, heights, i, queue, ops, left);
      if h in d.stored && env.decodable(d.stored[h].data) {
        queue := queue + [d.stored[h]];
      } else {
        ops := ops + [Clear(h)];
        left := ApplyOp(env, left, Clear(h));
      }
      i := i + 1;
    }
    RecoveryEnds(env, d, heights, i, queue, ops, left);
  }

  class FinalizerTask {
    const env: Env
    var world: Durable
    var channel: seq<Block>
    var batch: seq<Block>
    var batchBytes: nat
    var timer: Option<nat>
    var phase: Phase
    var shuttingDown: bool
    var stopped: bool
    ghost var past: seq<Op>
    ghost var own: seq<Op>
    ghost var sent: seq<Block>
    ghost var finalized: seq<Block>
    ghost var local: seq<Block>
    ghost var arrived: seq<nat>

    ghost function History(): State
      reads this
    {
      State(world, past, own, sent, channel, batch, arrived, batchBytes, timer, finalized, local, phase,
            shuttingDown, stopped)
    }

    ghost predicate Valid()
      reads this
    {
      |arrived| == |batch|
    }

    constructor (env: Env, world: Durable, ghost journal: seq<Op>)
      requires world == Replay(env, journal)
      ensures this.env == env && Valid() && History() == Start(env, journal)
    {
      this.env := env;
      this.world := world;
      channel := [];
      batch := [];
      batchBytes := 0;
      timer := None;
      phase := Idle;
      shuttingDown := false;
      stopped := false;
      past := journal + [Boot];
      own := [];
      sent := [];
      finalized := [];
      local := [];
      arrived := [];
      new;
      Replayed(env, journal, Boot);
      RecoverPending();
    }

    /** Re-queues the pending blocks in ascending order, dropping the markers of those that are gone. */
    method RecoverPending()
      requires channel == sent == [] && own == []
      modifies `world, `channel, `sent, `own
      ensures (channel, own) == Recovery(env, old(world), AscendingOf(old(world).pending)) && sent == channel
      ensures world == ReplayFrom(env, old(world), own)
    {
      var queue, ops, left := Recover(env, world, AscendingOf(world.pending));
      channel := queue;
      sent := queue;
      own := ops;
      world := left;
    }

    method Record(op: Op)
      requires Valid()
      modifies `world, `own
      ensures Valid() && History() == Write(env, old(History()), op)
    {
      world := ApplyOp(env, world, op);
      own := own + [op];
    }

    /** A produced block is stored, marked and sent; a stopped finalizer drops it until a restart. */
    method Produce(b: Block)
      requires Valid()
      modifies this
      ensures Valid() && History() == Send(env, old(History()), b)
    {
      Record(Put(b));
      Record(Mark(b.header.height));
      if !stopped {
        sent := sent + [b];
        channel := channel + [b];
      }
    }

    method EndFlush(last: bool)
      requires Valid()
      modifies this
      ensures Valid() && History() == Finalizer.EndFlush(old(History()), last)
    {
      ghost var result := Finalizer.EndFlush(History(), last);
      phase := Idle;
      if last {
        local := local + batch;
        batch := [];
        arrived := [];
        stopped := true;
      } else if batch == [] {
        timer := None;
      }
      assert History() == result;
    }

    method PublishBatch(a: Attempt)
      requires Valid() && phase.Publishing?
      modifies this
      ensures Valid() && History() == FlushStep(env, old(History()), a)
    {
      if shuttingDown {
        EndFlush(phase.last);
      } else if Encodable(batch) && a.net != RequestLost {
        Record(Publish(batch));
        if a.net == Delivered {
          phase := Settling(BlobOf(env, batch), phase.last);
        }
      }
    }

    method DropFront(cleared: bool)
      requires Valid() && batch != []
      modifies this
      ensures Valid() && History() == Finalizer.DropFront(env, old(History()), cleared)
      ensures phase == old(phase)
    {
      var front := batch[0];
      ghost var s := History();
      Record(Done(front));
      if cleared {
        Record(Clear(front.header.height));
      }
      assert History() ==
             if cleared then Write(env, Write(env, s, Done(front)), Clear(front.header.height))
             else Write(env, s, Done(front));
      batch := batch[1..];
      arrived := arrived[1..];
      finalized := finalized + [front];
    }

    method FinalizeSettled(a: Attempt)
      requires Valid() && batch != [] && phase.Settling?
      modifies this
      ensures Valid() && History() == FinalizeFront(env, old(History()), old(phase.last), a)
    {
      if a.finalized {
        DropFront(a.cleared);
        if batch != [] { return; }
        batchBytes := 0;
      }
      EndFlush(phase.last);
    }

    /** The rest of the batch goes to local finalization. */
    method AbandonBatch()
      requires Valid()
      modifies this
      ensures Valid() && History() == Abandon(old(History())).(batchBytes := 0)
    {
      ghost var result := Abandon(History()).(batchBytes := 0);
      local := local + batch;
      batch := [];
      arrived := [];
      batchBytes := 0;
      assert History() == result;
    }

    method SettleFront(a: Attempt)
      requires Valid() && phase.Settling?
      modifies this
      ensures Valid() && History() == FlushStep(env, old(History()), a)
    {
      ghost var s := History();
      SettlingCases(env, s, a);
      var last := phase.last;
      if batch == [] || shuttingDown {
        AbandonBatch();
        EndFlush(last);
      } else if a.net != RequestLost && Settle(world.registry, batch[0], phase.blob).Some? {
        Record(Commit(batch[0], phase.blob));
        if a.net == Delivered {
          FinalizeSettled(a);
        }
      }
    }

    /** One attempt of the flush under way. */
    method Attempt(script: seq<Attempt>, i: nat)
      requires Valid() && phase != Idle && i < |script|
      modifies this
      ensures Valid() && (old(phase).Settling? ==> !phase.Publishing?)
      ensures Attempts(env, History(), script[i + 1..]) == Attempts(env, old(History()), script[i..])
    {
      assert script[i..][1..] == script[i + 1..];
      if phase.Publishing? {
        PublishBatch(script[i]);
      } else {
        SettleFront(script[i]);
      }
    }

    /** Publishes the batch, retrying until it is stored or the node shuts down, then settles it block
        by block. `script` is what the attempts meet; a flush that outlasts it is still under way. */
    method FlushBatch(script: seq<Attempt>)
      requires Valid() && phase != Idle
      modifies this
      ensures Valid() && History() == Attempts(env, old(History()), script)
    {
      ghost var result := Attempts(env, History(), script);
      var i := 0;
      assert script[0..] == script;
      while i < |script| && phase.Publishing?
        invariant 0 <= i <= |script| && Valid()
        invariant Attempts(env, History(), script[i..]) == result
      {
        Attempt(script, i);
        i := i + 1;
      }
      while i < |script| && phase.Settling?
        invariant 0 <= i <= |script| && Valid()
        invariant phase.Publishing? ==> i == |script|
        invariant Attempts(env, History(), script[i..]) == result
      {
        Attempt(script, i);
        i := i + 1;
      }
      if i < |script| {
        IdleAttempts(env, History(), script[i..]);
      } else {
        assert script[i..] == [];
      }
    }

    /** A received block arms the timer if it opens a batch. */
    method Buffer(now: nat)
      requires Valid() && phase == Idle && channel != []
      modifies this
      ensures Valid() && History() == Take(env, old(History()), now)
    {
      ghost var result := Take(env, History(), now);
      var b := channel[0];
      var armed := if batch == [] then Arm(env, timer, now) else timer;
      var bytes := SaturatingAdd(batchBytes, |b.data|);
      channel := channel[1..];
      batch := batch + [b];
      arrived := arrived + [now];
      timer := armed;
      batchBytes := bytes;
      if env.sizeLimit <= bytes {
        phase := Publishing(false);
      }
    }

    /** The batch is flushed once it is large enough. */
    method Receive(now: nat, script: seq<Attempt>)
      requires Valid() && phase == Idle && !stopped && channel != []
      modifies this
      ensures Valid() && History() == Attempts(env, Take(env, old(History()), now), script)
    {
      Buffer(now);
      if phase != Idle {
        FlushBatch(script);
      } else {
        IdleAttempts(env, History(), script);
      }
    }

    method FlushDeadline(now: nat, script: seq<Attempt>)
      requires Valid() && phase == Idle && !stopped && timer.Some? && timer.value <= now
      modifies this
      ensures Valid() && History() == Attempts(env, Fire(old(History()), now), script)
    {
      if batch == [] {
        timer := None;
        IdleAttempts(env, History(), script);
      } else {
        phase := Publishing(false);
        FlushBatch(script);
      }
    }

    /** Production ended: one last flush, and what it leaves is finalized locally. */
    method Close(script: seq<Attempt>)
      requires Valid() && phase == Idle && !stopped && channel == []
      modifies this
      ensures Valid() && History() == Attempts(env, Finalizer.CloseChannel(old(History())), script)
    {
      timer := None;
      if batch == [] {
        stopped := true;
        IdleAttempts(env, History(), script);
      } else {
        phase := Publishing(true);
        FlushBatch(script);
      }
    }

    method Shutdown()
      requires Valid() && phase == Idle && !stopped && shuttingDown && batch != []
      modifies this
      ensures Valid() && History() == SeeShutdown(old(History()))
    {
      ghost var result := SeeShutdown(History());
      local := local + batch;
      batch := [];
      arrived := [];
      timer := None;
      stopped := true;
      assert History() == result;
    }
  }
}
