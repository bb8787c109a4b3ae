/** The limits of a node - reorganization depth, side rows, orphans - and what it means that a run reaches none. */
module Limits {
  import opened Types
  import opened Headers
  import opened Chain
  import opened Tables
  import opened TableFacts
  import opened Node
  import opened Adoption
  import opened Runs
  import opened Universe
  import opened RegimeFacts

  predicate Kept(status: Status) { status == Extended || status == Reorganized || status == Side }

  lemma Statuses()
    ensures Kept(Extended) && Kept(Reorganized) && Kept(Side) && !Kept(Duplicate) && !Kept(Orphan)
  {}

  /** Stored, or waiting among the orphans. */
  ghost predicate KnownTo(s: State, h: Hash) {
    Stored(s.store.rows, s.store.side, h) || InOrphans(s.orphans, h)
  }

  lemma KnownParts(s: State, h: Hash)
    ensures KnownTo(s, h) <==> Stored(s.store.rows, s.store.side, h) || InOrphans(s.orphans, h)
  {
    hide Stored, InOrphans;
  }

  /** The guard of the depth limit: the new block's branch forks more than maxReorgDepth below the tip, and it
      forks with this very block or would take over. */
  ghost predicate ForksTooDeep(p: Params, st: Store, b: Block)
    requires st.rows != []
  {
    var fork := ForkRow(st.rows, b.previous);
    && b.previous != TipHash(st) && fork.Some? && |st.rows| - 1 - fork.value > p.maxReorgDepth
    && (FindRow(st.rows, b.previous).Some? || Work(p, b.hash) > TipWork(st))
  }

  lemma ForksParts(p: Params, st: Store, b: Block)
    requires st.rows != []
    ensures ForksTooDeep(p, st, b) <==>
      var fork := ForkRow(st.rows, b.previous);
      && b.previous != TipHash(st) && fork.Some? && |st.rows| - 1 - fork.value > p.maxReorgDepth
      && (FindRow(st.rows, b.previous).Some? || Work(p, b.hash) > TipWork(st))
  {
    hide FindRow, ForkRow, Work, TipHash, TipWork;
  }

  /** Handling one block reaches no limit: a new block, well formed, does not fork too deep or finds a free place
      among the orphans, and the stored blocks off the resulting best chain fit. */
  ghost predicate CallFits(p: Params, s: State, b: Block, now: int)
    requires ValidParams(p) && ChainInv(p, s.store) && SideInv(p, s.store)
  {
    ChainInvParts(p, s.store);
    var st, r := s.store, Process(p, s, b, now);
    && (WellFormedBlock(p, b) && !KnownTo(s, b.hash) ==>
          if Stored(st.rows, st.side, b.previous) then !ForksTooDeep(p, st, b) else |s.orphans| < p.maxOrphans)
    && (r.1.Done? && Kept(r.1.status) ==> SideFits(p, StoredHashes(st) + {b.hash}, r.0.store.rows))
  }

  /** Neither does adopting the given orphans in order. */
  ghost predicate ChildrenFit(p: Params, s: State, children: seq<Block>, now: int)
    requires ValidParams(p) && Inv(p, s)
  {
    children == [] ||
    (var before, child := AdoptChildren(p, s, children[..|children| - 1], now), children[|children| - 1];
     PoppedKeeps(p, before.state, child.hash);
     ChildrenFit(p, s, children[..|children| - 1], now)
     && (before.failed || CallFits(p, Popped(before.state, child.hash), child, now)))
  }

  /** Neither does adopting everything that waits for a queued hash. */
  ghost predicate AdoptFits(p: Params, s: State, W: set<Hash>, queue: seq<Hash>, now: int)
    requires ValidParams(p) && Inv(p, s) && Known(W, s.orphans)
    decreases Weight(W, queue)
  {
    queue == [] ||
    (var n := |queue| - 1;
     var children := ChildrenOf(s.orphans, queue[n]);
     var r := AdoptChildren(p, s, children, now);
     QueueShrinks(p, s, W, queue, now);
     ChildrenFit(p, s, children, now) && (r.failed || AdoptFits(p, r.state, W, queue[..n] + r.hashes, now)))
  }

  /** One step of a run reaches no limit. */
  ghost predicate StepFits(p: Params, s: State, step: Step)
    requires ValidParams(p) && Inv(p, s)
  {
    InvRows(p, s);
    match step
    case Submit(tx, now) => true
    case Mine(b, now) =>
      var r := SubmitMined(p, s, b, now);
      r.1.Done? ==> SideFits(p, StoredHashes(s.store) + {b.hash}, r.0.store.rows)
    case Deliver(b, now) =>
      var r := Process(p, s, b, now);
      ProcessKeepsInv(p, s, b, now);
      && CallFits(p, s, b, now)
      && (r.1.Done? && Kept(r.1.status) ==> AdoptFits(p, r.0, OrphanHashes(r.0.orphans), [r.1.hash], now))
  }

  ghost predicate FitsAt(p: Params, steps: seq<Step>, k: nat)
    requires ValidParams(p) && k < |steps|
  {
    StepFits(p, Run(p, steps[..k]), steps[k])
  }

  /** No step of the run reaches a limit. */
  ghost predicate LimitsNotReached(p: Params, steps: seq<Step>)
    requires ValidParams(p)
  {
    forall k :: 0 <= k < |steps| ==> FitsAt(p, steps, k)
  }

  // ---------------------------------------------------------------- unfolding

  lemma CallParts(p: Params, s: State, b: Block, now: int)
    requires ValidParams(p) && ChainInv(p, s.store) && SideInv(p, s.store)
    ensures s.store.rows != []
    ensures CallFits(p, s, b, now) <==>
      var st, r := s.store, Process(p, s, b, now);
      && (WellFormedBlock(p, b) && !KnownTo(s, b.hash) ==>
            if Stored(st.rows, st.side, b.previous) then !ForksTooDeep(p, st, b) else |s.orphans| < p.maxOrphans)
      && (r.1.Done? && Kept(r.1.status) ==> SideFits(p, StoredHashes(st) + {b.hash}, r.0.store.rows))
  {
    hide Process, SideFits, StoredHashes, KnownTo, Stored, ForksTooDeep, ChainInv, SideInv, WellFormedBlock;
    ChainInvParts(p, s.store);
  }

  lemma ChildrenFitStep(p: Params, s: State, children: seq<Block>, now: int)
    requires ValidParams(p) && Inv(p, s)
    ensures children == [] ==> ChildrenFit(p, s, children, now)
    ensures children != [] ==>
      var n := |children| - 1;
      var before := AdoptChildren(p, s, children[..n], now);
      var popped := Popped(before.state, children[n].hash);
      && ChainInv(p, popped.store) && SideInv(p, popped.store)
      && (ChildrenFit(p, s, children, now) <==>
            ChildrenFit(p, s, children[..n], now) && (before.failed || CallFits(p, popped, children[n], now)))
  {
    hide Inv, AdoptChildren, CallFits, Popped, ChainInv, SideInv;
    if children != [] {
      PoppedKeeps(p, AdoptChildren(p, s, children[..|children| - 1], now).state, children[|children| - 1].hash);
    }
  }

  lemma AdoptFitsStep(p: Params, s: State, W: set<Hash>, queue: seq<Hash>, now: int)
    requires ValidParams(p) && Inv(p, s) && Known(W, s.orphans)
    ensures queue == [] ==> AdoptFits(p, s, W, queue, now)
    ensures queue != [] ==>
      var n := |queue| - 1;
      var children := ChildrenOf(s.orphans, queue[n]);
      var r := AdoptChildren(p, s, children, now);
      && (!r.failed ==> Known(W, r.state.orphans) && Weight(W, queue[..n] + r.hashes) < Weight(W, queue))
      && (AdoptFits(p, s, W, queue, now) <==>
            ChildrenFit(p, s, children, now) && (r.failed || AdoptFits(p, r.state, W, queue[..n] + r.hashes, now)))
  {
    hide Inv, AdoptChildren, Weight, Known, ChildrenFit;
    if queue != [] {
      QueueShrinks(p, s, W, queue, now);
    }
  }

  lemma StepFitsParts(p: Params, s: State, step: Step)
    requires ValidParams(p) && Inv(p, s)
    ensures ChainInv(p, s.store) && SideInv(p, s.store) && s.store.rows != []
    ensures step.Mine? ==>
      var r := SubmitMined(p, s, step.block, step.now);
      StepFits(p, s, step) <==>
        (r.1.Done? ==> SideFits(p, StoredHashes(s.store) + {step.block.hash}, r.0.store.rows))
    ensures step.Deliver? ==>
      var r := Process(p, s, step.block, step.now);
      && Inv(p, r.0) && Known(OrphanHashes(r.0.orphans), r.0.orphans)
      && (StepFits(p, s, step) <==>
            && CallFits(p, s, step.block, step.now)
            && (r.1.Done? && Kept(r.1.status) ==> AdoptFits(p, r.0, OrphanHashes(r.0.orphans), [r.1.hash], step.now)))
    ensures step.Submit? ==> StepFits(p, s, step)
  {
    hide Inv, Process, AdoptFits, CallFits, SubmitMined, ChainInv, SideInv, SideFits, StoredHashes;
    InvRows(p, s);
    if step.Deliver? {
      ProcessKeepsInv(p, s, step.block, step.now);
    }
  }

  lemma FitsAtIs(p: Params, steps: seq<Step>, k: nat)
    requires ValidParams(p) && k < |steps|
    ensures FitsAt(p, steps, k) <==> StepFits(p, Run(p, steps[..k]), steps[k])
  {
    hide StepFits, Run;
  }

  lemma LimitsAt(p: Params, steps: seq<Step>)
    requires ValidParams(p)
    ensures LimitsNotReached(p, steps) <==> forall k :: 0 <= k < |steps| ==> FitsAt(p, steps, k)
  {
    hide FitsAt;
  }

  lemma LimitsStep(p: Params, steps: seq<Step>)
    requires ValidParams(p)
    ensures steps == [] ==> LimitsNotReached(p, steps)
    ensures steps != [] ==>
      (LimitsNotReached(p, steps) <==>
         LimitsNotReached(p, steps[..|steps| - 1])
         && StepFits(p, Run(p, steps[..|steps| - 1]), steps[|steps| - 1]))
  {
    hide *;
    LimitsAt(p, steps);
    if steps != [] {
      var before := steps[..|steps| - 1];
      LimitsAt(p, before);
      forall k | 0 <= k < |before|
        ensures FitsAt(p, before, k) <==> FitsAt(p, steps, k)
      {
        FitsAtIs(p, before, k);
        FitsAtIs(p, steps, k);
        assert before[..k] == steps[..k];
      }
      FitsAtIs(p, steps, |before|);
    }
  }

  lemma {:induction false} LimitsPrefix(p: Params, steps: seq<Step>, k: nat)
    requires ValidParams(p) && LimitsNotReached(p, steps) && k <= |steps|
    ensures LimitsNotReached(p, steps[..k])
    decreases |steps|
  {
    hide *;
    if k == |steps| {
      assert steps[..k] == steps;
    } else {
      LimitsStep(p, steps);
      assert steps[..|steps| - 1][..k] == steps[..k];
      LimitsPrefix(p, steps[..|steps| - 1], k);
    }
  }
}
