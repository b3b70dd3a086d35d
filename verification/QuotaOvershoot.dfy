/** Rebalancing is meant to keep the quotas' total at the slot count. Where the floors of the
    layers alone exceed the slots it never does, and such states are reached. */
module QuotaOvershoot {
  import opened Seqs
  import opened CacheModel
  import opened SlotConservation
  import opened CacheReachability
  import LayerIsolation
  import QuotaModel

  /** In any state with a ghost hit, if the floors together exceed the slots, the end of a
      period leaves quotas that add up to more than the slots. */
  lemma {:induction false} EndStepExceeds(s: State, a: QuotaModel.Adapt)
    requires |s.layers| == |s.quota| > 0 && a.on && AdaptOk(a) && (s.step + 1) % a.period == 0
    requires |s.quota| * a.quotaMin > s.nSlot && QuotaModel.Mean(GhostHits(s.layers)) > 0.0
    ensures Sum(EndStep(s, a).quota) > s.nSlot
  {
    QuotaModel.RebalanceExceeds(a, s.nExpert, s.nSlot, s.quota, GhostHits(s.layers));
  }

  // ---------------------------------------------------------------------------
  // A run that gets there: two experts take turns in one slot
  // ---------------------------------------------------------------------------

  const FLOOR8: QuotaModel.Adapt := QuotaModel.Adapt(true, 1, 0.1, 8)

  /** One layer of two experts and one slot, quota one, before the first end of a step. */
  ghost predicate Tiny(s: State) {
    && s.nExpert == 2 && s.nSlot == 1 && s.ghostMult == 2 && s.quota == [1] && s.step == 0
    && |s.layers| == 1 && LayerShape(s.layers[0], 2)
  }

  /** Expert e is in SMALL, in the only slot. */
  ghost predicate Holding(ly: Layer, e: nat, rc: nat, ghosts: seq<nat>) {
    && LayerShape(ly, 2) && e < 2 && ly.small == [e] && ly.main == [] && ly.ghosts == ghosts && ly.ghostHits == 0
    && ly.resident == 1 && ly.ent[e].rc == rc && ly.ent[e].slot == 0
    && ly.ent[e].seg == Small && ly.ent[1 - e].seg == NotCached
  }

  lemma {:induction false} TurnFirst(s: State)
    requires s == Init(1, 2, 1, 2)
    ensures Shape(s) && Tiny(Acquire(s, 0, 0, Demand).s) && Holding(Acquire(s, 0, 0, Demand).s.layers[0], 0, 1, [])
  {
    var m := MissState(s, 0, 0);
    assert m.free == [0];
    assert AllocSlot(m, 0) == (m.(free := []), 0);
  }

  lemma {:induction false} TurnDone(s: State, e: nat, ghosts: seq<nat>)
    requires Tiny(s) && Holding(s.layers[0], e, 1, ghosts)
    ensures Shape(s) && Tiny(Release(s, 0, e)) && Holding(Release(s, 0, e).layers[0], e, 0, ghosts)
  {
  }

  /** The other expert is asked for and e makes room. */
  lemma {:induction false} TurnOver(s: State, e: nat, ghosts: seq<nat>)
    requires Tiny(s) && Holding(s.layers[0], e, 0, ghosts) && (ghosts == [] || ghosts == [1 - e])
    ensures Shape(s)
    ensures var t := Acquire(s, 0, 1 - e, Demand).s;
      && Tiny(t) && t.layers[0].ghostHits == |ghosts|
      && (ghosts == [] ==> Holding(t.layers[0], 1 - e, 1, [e]))
  {
    TurnMisses(s.layers[0], e, ghosts, s.step);
    TurnAnswer(s, e);
    AcquireShape(s, 0, 1 - e, Demand);
    TurnAdmits(MissLayer(s.layers[0], 1 - e, s.step), e, 1 - e in ghosts);
  }

  lemma {:induction false} TurnAnswer(s: State, e: nat)
    requires Tiny(s) && e < 2 && s.layers[0].ent[1 - e].seg == NotCached
    requires var m := MissLayer(s.layers[0], 1 - e, s.step);
      m.resident == 1 && m.ghosts == [] && m.small == [e] && m.main == [] && Idle(m.ent[e]) && m.ent[e].slot == 0
    ensures Shape(s)
    ensures Acquire(s, 0, 1 - e, Demand).s.layers ==
      [AdmitLayer(Dropped(MissLayer(s.layers[0], 1 - e, s.step), e), 1 - e, 0, Demand, 1 - e in s.layers[0].ghosts)]
  {
    MissShape(s, 0, 1 - e);
    TurnAlloc(MissState(s, 0, 1 - e), e);
    var (a, x) := AllocSlot(MissState(s, 0, 1 - e), 0);
    TurnServed(s, 1 - e, a, x);
  }

  lemma {:induction false} TurnServed(s: State, d: nat, a: State, x: nat)
    requires Tiny(s) && d < 2 && s.layers[0].ent[d].seg == NotCached && x != NO_SLOT && Shape(MissState(s, 0, d))
    requires AllocSlot(MissState(s, 0, d), 0) == (a, x) && Shape(a) && |a.layers| == 1 && a.nExpert == 2
    ensures Shape(s) && Acquire(s, 0, d, Demand).s.layers == [AdmitLayer(a.layers[0], d, x, Demand, d in s.layers[0].ghosts)]
  {
  }

  lemma {:induction false} TurnAdmits(m: Layer, e: nat, wasGhost: bool)
    requires LayerShape(m, 2) && e < 2 && m.main == [] && m.resident == 1 && m.ent[e].slot == 0
    ensures var a := AdmitLayer(Dropped(m, e), 1 - e, 0, Demand, wasGhost);
      && a.ghostHits == m.ghostHits && LayerShape(a, 2)
      && (!wasGhost && m.ghostHits == 0 ==> Holding(a, 1 - e, 1, [e]))
  {
  }

  /** The layer without e. */
  function Dropped(ly: Layer, e: nat): Layer
    requires e < |ly.ent| == |ly.slot|
  {
    ly.(small := [], ghosts := [e], resident := ly.resident - 1, slot := ly.slot[e := NO_SLOT],
        ent := ly.ent[e := ly.ent[e].(slot := NO_SLOT, seg := NotCached, resident := false, freq := 0)])
  }

  lemma {:induction false} TurnAlloc(m: State, e: nat)
    requires Tiny(m) && e < 2 && m.layers[0].resident == 1 && m.layers[0].ghosts == []
    requires m.layers[0].small == [e] && m.layers[0].main == [] && Idle(m.layers[0].ent[e])
    ensures Shape(m) && Shape(AllocSlot(m, 0).0) && AllocSlot(m, 0).0.nExpert == 2
    ensures AllocSlot(m, 0).1 == m.layers[0].ent[e].slot && AllocSlot(m, 0).0.layers == [Dropped(m.layers[0], e)]
  {
    TurnEvicts(m.layers[0], e);
    LayerIsolation.AllocAtQuota(m, 0);
    AllocShape(m, 0);
  }

  lemma {:induction false} TurnMisses(ly: Layer, e: nat, ghosts: seq<nat>, step: nat)
    requires Holding(ly, e, 0, ghosts) && (ghosts == [] || ghosts == [1 - e])
    ensures var m := MissLayer(ly, 1 - e, step);
      && m.ghosts == [] && m.ghostHits == |ghosts| && m.small == [e] && m.main == [] && m.resident == 1
      && m.ent[e] == ly.ent[e] && m.ent[1 - e].seg == NotCached && m.slot == ly.slot && |m.ent| == 2
  {
  }

  lemma {:induction false} TurnEvicts(ly: Layer, e: nat)
    requires LayerShape(ly, 2) && e < 2 && ly.small == [e] && ly.main == [] && ly.ghosts == [] && Idle(ly.ent[e])
    ensures EvictLayer(ly, 2) == Evicted(Dropped(ly, e), Some(ly.ent[e].slot))
  {
    assert FirstIdle(ly.small, ly.ent) == 0;
    assert Rotate([e], 0) == [];
  }

  lemma {:induction false} TurnEnd(s: State)
    requires Tiny(s) && s.layers[0].ghostHits == 1
    ensures Sum(EndStep(s, FLOOR8).quota) > s.nSlot
  {
    assert GhostHits(s.layers) == [1];
    assert Sum([1]) == 1 by { assert [1][..0] == []; }
    EndStepExceeds(s, FLOOR8);
  }

  lemma {:induction false} RunGrows(run: seq<State>, a: QuotaModel.Adapt, ops: seq<Op>, op: Op, t: State)
    requires IsRun(run, a, ops) && Step(run[|ops|], a, op, t)
    ensures IsRun(run + [t], a, ops + [op])
  {
  }

  /** A run of a freshly built cache at whose end the quotas add up to more than the slots. */
  lemma {:induction false} RebalanceCanExceed() returns (run: seq<State>, ops: seq<Op>)
    ensures IsRun(run, FLOOR8, ops) && run[0] == Init(1, 2, 1, 2)
    ensures Sum(run[|ops|].quota) > run[|ops|].nSlot
  {
    run, ops := Turns();
    run, ops := BackAgain(run, ops);
    var t := run[|ops|];
    TurnEnd(t);
    RunGrows(run, FLOOR8, ops, StepEnd, EndStep(t, FLOOR8));
    run, ops := run + [EndStep(t, FLOOR8)], ops + [StepEnd];
  }

  /** Expert 0 once more: a ghost hit. */
  lemma {:induction false} BackAgain(run0: seq<State>, ops0: seq<Op>) returns (run: seq<State>, ops: seq<Op>)
    requires IsRun(run0, FLOOR8, ops0) && Tiny(run0[|ops0|]) && Holding(run0[|ops0|].layers[0], 1, 0, [0])
    ensures IsRun(run, FLOOR8, ops) && run[0] == run0[0]
    ensures Tiny(run[|ops|]) && run[|ops|].layers[0].ghostHits == 1
  {
    var s := run0[|ops0|];
    TurnOver(s, 1, [0]);
    var t := Acquire(s, 0, 0, Demand).s;
    RunGrows(run0, FLOOR8, ops0, Request(0, 0, Demand), t);
    run, ops := run0 + [t], ops0 + [Request(0, 0, Demand)];
  }

  /** Expert 0, then expert 1. */
  lemma {:induction false} Turns() returns (run: seq<State>, ops: seq<Op>)
    ensures IsRun(run, FLOOR8, ops) && run[0] == Init(1, 2, 1, 2)
    ensures |ops| == 4 && Tiny(run[4]) && Holding(run[4].layers[0], 1, 0, [0])
  {
    run, ops := [Init(1, 2, 1, 2)], [];
    TurnFirst(run[0]);
    var s := Acquire(run[0], 0, 0, Demand).s;
    RunGrows(run, FLOOR8, ops, Request(0, 0, Demand), s);
    run, ops := TurnBack(run + [s], ops + [Request(0, 0, Demand)], 0, []);
    s := run[2];
    TurnOver(s, 0, []);
    RunGrows(run, FLOOR8, ops, Request(0, 1, Demand), Acquire(s, 0, 1, Demand).s);
    run, ops := TurnBack(run + [Acquire(s, 0, 1, Demand).s], ops + [Request(0, 1, Demand)], 1, [0]);
  }

  lemma {:induction false} TurnBack(run0: seq<State>, ops0: seq<Op>, e: nat, ghosts: seq<nat>)
    returns (run: seq<State>, ops: seq<Op>)
    requires IsRun(run0, FLOOR8, ops0)
    requires Tiny(run0[|ops0|]) && Holding(run0[|ops0|].layers[0], e, 1, ghosts)
    ensures IsRun(run, FLOOR8, ops) && run[0] == run0[0] && |ops| == |ops0| + 1
    ensures Tiny(run[|ops|]) && Holding(run[|ops|].layers[0], e, 0, ghosts)
  {
    var s := run0[|ops0|];
    TurnDone(s, e, ghosts);
    RunGrows(run0, FLOOR8, ops0, Done(0, e), Release(s, 0, e));
    run, ops := run0 + [Release(s, 0, e)], ops0 + [Done(0, e)];
  }
}
