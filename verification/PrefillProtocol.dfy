/** The prefill protocol as a step system: the graph's load op and compute on one side, the
    background reader on the other, interleaved in any way. */
module PrefillProtocol {
  import opened Seqs
  import opened Memory
  import opened PrefillArena

  /** The background thread: none; started with a hint; reading what it planned. */
  datatype Background = NoThread | Kicked(il: int, hint: Option<seq<bool>>) | Reading(il: int, todo: set<Cell>)

  /** The graph: between layers; topping up layer il after its ids arrived; computing on it. */
  datatype Graph = Between | TopUp(il: int, ids: seq<int>, big: bool, todo: set<Cell>) | Computing(il: int, ids: seq<int>)

  datatype Config = Config(layers: Layers, nbuf: nat, size: nat, async: bool)

  datatype St = St(arenas: seq<Arena>, bg: Background, graph: Graph)

  ghost predicate ConfigOk(c: Config) {
    && c.nbuf >= 1
    && forall il :: il in c.layers ==> il >= 0 && LayerOk(c.layers[il], c.size)
  }

  /** Buffer of a layer. */
  function Buf(c: Config, il: int): (b: nat)
    requires c.nbuf >= 1
    ensures b < c.nbuf
  {
    il % c.nbuf
  }

  /** The experts the ids of a batch reference. */
  function NeedOf(ids: seq<int>, ne: nat): (need: Option<seq<bool>>)
    ensures need.Some? ==> |need.value| == ne
  {
    if ne > 0 then Some(seq(ne, e => e in ids)) else None
  }

  datatype Event =
    | Enter(il: int, ids: seq<int>, big: bool)    // load op reached; background joined
    | TopUpRead(c: Cell)
    | StartCompute(hint: Option<seq<bool>>)       // load op returns, next layer kicked
    | BgPlan
    | BgRead(c: Cell)
    | EndCompute

  /** No background read outstanding: what join waits for. */
  ghost predicate Joined(s: St) {
    s.bg == NoThread || (s.bg.Reading? && s.bg.todo == {})
  }

  function Kick(c: Config, il: int, big: bool, hint: Option<seq<bool>>): Background {
    if c.async && c.nbuf >= 2 && big && il + 1 in c.layers then Kicked(il + 1, hint) else NoThread
  }

  ghost predicate Enabled(c: Config, s: St, ev: Event)
    requires c.nbuf >= 1
  {
    && |s.arenas| == c.nbuf
    && match ev
       case Enter(il, ids, big) =>
         && s.graph == Between && Joined(s) && il in c.layers
         && (s.arenas[Buf(c, il)].layer == il ==> |s.arenas[Buf(c, il)].have| == c.layers[il].ne)
       case TopUpRead(k) =>
         && s.graph.TopUp? && k in s.graph.todo && CanRead(c, s, s.graph.il, k)
       case StartCompute(hint) =>
         && s.graph.TopUp? && s.graph.todo == {}
         && (hint.Some? && s.graph.il + 1 in c.layers ==> |hint.value| == c.layers[s.graph.il + 1].ne)
       case BgPlan =>
         && s.bg.Kicked? && s.bg.il in c.layers
         && (s.arenas[Buf(c, s.bg.il)].layer == s.bg.il ==> |s.arenas[Buf(c, s.bg.il)].have| == c.layers[s.bg.il].ne)
         && (s.bg.hint.Some? ==> |s.bg.hint.value| == c.layers[s.bg.il].ne)
       case BgRead(k) =>
         && s.bg.Reading? && k in s.bg.todo && CanRead(c, s, s.bg.il, k)
       case EndCompute => s.graph.Computing?
  }

  ghost predicate CanRead(c: Config, s: St, il: int, k: Cell)
    requires c.nbuf >= 1 && |s.arenas| == c.nbuf
  {
    && il in c.layers && |c.layers[il].eb| == ROLES == |c.layers[il].bytes| && k.r < ROLES && k.e < |c.layers[il].bytes[k.r]|
    && CellAt(c.layers[il], k) + |c.layers[il].bytes[k.r][k.e]| <= |s.arenas[Buf(c, il)].mem|
  }

  ghost function Read(c: Config, s: St, il: int, k: Cell): seq<Arena>
    requires c.nbuf >= 1 && |s.arenas| == c.nbuf && CanRead(c, s, il, k)
  {
    var a := s.arenas[Buf(c, il)];
    s.arenas[Buf(c, il) := a.(mem := ReadCell(c.layers[il], a.mem, k))]
  }

  ghost function Step(c: Config, s: St, ev: Event): St
    requires c.nbuf >= 1 && Enabled(c, s, ev)
  {
    match ev
    case Enter(il, ids, big) =>
      var (a, todo) := Plan(s.arenas[Buf(c, il)], c.layers[il], il, NeedOf(ids, c.layers[il].ne));
      St(s.arenas[Buf(c, il) := a], NoThread, TopUp(il, ids, big, todo))
    case TopUpRead(k) =>
      s.(arenas := Read(c, s, s.graph.il, k), graph := s.graph.(todo := s.graph.todo - {k}))
    case StartCompute(hint) =>
      s.(bg := Kick(c, s.graph.il, s.graph.big, hint), graph := Computing(s.graph.il, s.graph.ids))
    case BgPlan =>
      var (a, todo) := Plan(s.arenas[Buf(c, s.bg.il)], c.layers[s.bg.il], s.bg.il, s.bg.hint);
      s.(arenas := s.arenas[Buf(c, s.bg.il) := a], bg := Reading(s.bg.il, todo))
    case BgRead(k) =>
      s.(arenas := Read(c, s, s.bg.il, k), bg := s.bg.(todo := s.bg.todo - {k}))
    case EndCompute => s.(graph := Between)
  }

  // ---------------------------------------------------------------------------
  // The invariant
  // ---------------------------------------------------------------------------

  /** Reads outstanding in buffer b. */
  function Todo(c: Config, s: St, b: nat): set<Cell>
    requires c.nbuf >= 1
  {
    (if s.bg.Reading? && Buf(c, s.bg.il) == b then s.bg.todo else {}) +
    (if s.graph.TopUp? && Buf(c, s.graph.il) == b then s.graph.todo else {})
  }

  /** A buffer holds nothing, or a layer of which the present experts are right. */
  ghost predicate BufOk(c: Config, a: Arena, todo: set<Cell>) {
    && |a.mem| == c.size
    && (a.layer == -1 || a.layer in c.layers)
    && (a.layer in c.layers ==> Holds(c.layers[a.layer], a, todo))
  }

  /** The buffer of layer il holds it, and every referenced expert is marked present. */
  ghost predicate Loaded(c: Config, s: St, il: int, ids: seq<int>)
    requires c.nbuf >= 1 && |s.arenas| == c.nbuf
  {
    && il in c.layers && s.arenas[Buf(c, il)].layer == il && |s.arenas[Buf(c, il)].have| == c.layers[il].ne
    && forall e :: 0 <= e < c.layers[il].ne && e in ids ==> s.arenas[Buf(c, il)].have[e]
  }

  ghost predicate BgOk(c: Config, s: St)
    requires c.nbuf >= 1 && |s.arenas| == c.nbuf
  {
    match s.bg
    case NoThread => true
    case Kicked(il, hint) => c.nbuf >= 2 && il in c.layers && (hint.Some? ==> |hint.value| == c.layers[il].ne)
    case Reading(il, todo) => c.nbuf >= 2 && il in c.layers && s.arenas[Buf(c, il)].layer == il
  }

  ghost predicate GraphOk(c: Config, s: St)
    requires c.nbuf >= 1 && |s.arenas| == c.nbuf
  {
    match s.graph
    case Between => true
    case TopUp(il, ids, _, _) => s.bg == NoThread && Loaded(c, s, il, ids)
    case Computing(il, ids) => Loaded(c, s, il, ids) && (s.bg != NoThread ==> Buf(c, s.bg.il) != Buf(c, il))
  }

  ghost predicate Inv(c: Config, s: St) {
    && ConfigOk(c) && |s.arenas| == c.nbuf
    && (forall b :: 0 <= b < c.nbuf ==> BufOk(c, s.arenas[b], Todo(c, s, b)))
    && BgOk(c, s) && GraphOk(c, s)
  }

  lemma NextBuffer(c: Config, il: int)
    requires c.nbuf >= 2
    ensures Buf(c, il + 1) != Buf(c, il)
  {
    NextDiffers(il, c.nbuf);
  }

  lemma EnterKeeps(c: Config, s: St, il: int, ids: seq<int>, big: bool)
    requires Inv(c, s) && Enabled(c, s, Enter(il, ids, big))
    ensures Inv(c, Step(c, s, Enter(il, ids, big)))
  {
    var b := Buf(c, il);
    var L := c.layers[il];
    var t := Step(c, s, Enter(il, ids, big));
    assert BufOk(c, s.arenas[b], Todo(c, s, b)) && Todo(c, s, b) == {};
    PlanHolds(s.arenas[b], L, il, NeedOf(ids, L.ne));
    forall k | 0 <= k < c.nbuf ensures BufOk(c, t.arenas[k], Todo(c, t, k)) {
      assert BufOk(c, s.arenas[k], Todo(c, s, k)) && Todo(c, s, k) == {};
    }
  }

  lemma TopUpKeeps(c: Config, s: St, k: Cell)
    requires Inv(c, s) && Enabled(c, s, TopUpRead(k))
    ensures Inv(c, Step(c, s, TopUpRead(k)))
  {
    var b := Buf(c, s.graph.il);
    var t := Step(c, s, TopUpRead(k));
    assert BufOk(c, s.arenas[b], Todo(c, s, b)) && Todo(c, s, b) == s.graph.todo;
    ReadHolds(c.layers[s.graph.il], s.arenas[b], s.graph.todo, k);
    assert Todo(c, t, b) == s.graph.todo - {k};
    forall j | 0 <= j < c.nbuf && j != b ensures BufOk(c, t.arenas[j], Todo(c, t, j)) {
      assert BufOk(c, s.arenas[j], Todo(c, s, j)) && Todo(c, s, j) == {} == Todo(c, t, j);
    }
  }

  lemma StartKeeps(c: Config, s: St, hint: Option<seq<bool>>)
    requires Inv(c, s) && Enabled(c, s, StartCompute(hint))
    ensures Inv(c, Step(c, s, StartCompute(hint)))
  {
    var t := Step(c, s, StartCompute(hint));
    if c.nbuf >= 2 { NextBuffer(c, s.graph.il); }
    forall j | 0 <= j < c.nbuf ensures BufOk(c, t.arenas[j], Todo(c, t, j)) {
      assert BufOk(c, s.arenas[j], Todo(c, s, j)) && Todo(c, s, j) == {} == Todo(c, t, j);
    }
  }

  lemma BgPlanKeeps(c: Config, s: St)
    requires Inv(c, s) && Enabled(c, s, BgPlan)
    ensures Inv(c, Step(c, s, BgPlan))
  {
    var b := Buf(c, s.bg.il);
    var t := Step(c, s, BgPlan);
    assert BufOk(c, s.arenas[b], Todo(c, s, b)) && Todo(c, s, b) == {};
    PlanHolds(s.arenas[b], c.layers[s.bg.il], s.bg.il, s.bg.hint);
    forall k | 0 <= k < c.nbuf && k != b ensures BufOk(c, t.arenas[k], Todo(c, t, k)) {
      assert BufOk(c, s.arenas[k], Todo(c, s, k)) && Todo(c, s, k) == Todo(c, t, k);
    }
    assert Todo(c, t, b) == t.bg.todo;
  }

  lemma BgReadKeeps(c: Config, s: St, k: Cell)
    requires Inv(c, s) && Enabled(c, s, BgRead(k))
    ensures Inv(c, Step(c, s, BgRead(k)))
  {
    var b := Buf(c, s.bg.il);
    var t := Step(c, s, BgRead(k));
    assert BufOk(c, s.arenas[b], Todo(c, s, b)) && Todo(c, s, b) == s.bg.todo;
    ReadHolds(c.layers[s.bg.il], s.arenas[b], s.bg.todo, k);
    assert Todo(c, t, b) == s.bg.todo - {k};
    forall j | 0 <= j < c.nbuf && j != b ensures BufOk(c, t.arenas[j], Todo(c, t, j)) {
      assert BufOk(c, s.arenas[j], Todo(c, s, j)) && Todo(c, s, j) == Todo(c, t, j);
    }
  }

  /** Every step, of either side, keeps the invariant. */
  lemma StepKeeps(c: Config, s: St, ev: Event)
    requires Inv(c, s) && Enabled(c, s, ev)
    ensures Inv(c, Step(c, s, ev))
  {
    match ev
    case Enter(il, ids, big) => EnterKeeps(c, s, il, ids, big);
    case TopUpRead(k) => TopUpKeeps(c, s, k);
    case StartCompute(hint) => StartKeeps(c, s, hint);
    case BgPlan => BgPlanKeeps(c, s);
    case BgRead(k) => BgReadKeeps(c, s, k);
    case EndCompute => EndKeeps(c, s);
  }

  lemma EndKeeps(c: Config, s: St)
    requires Inv(c, s) && Enabled(c, s, EndCompute)
    ensures Inv(c, Step(c, s, EndCompute))
  {
    var t := Step(c, s, EndCompute);
    forall j | 0 <= j < c.nbuf ensures BufOk(c, t.arenas[j], Todo(c, t, j)) {
      assert BufOk(c, s.arenas[j], Todo(c, s, j)) && Todo(c, s, j) == Todo(c, t, j);
    }
  }

  // ---------------------------------------------------------------------------
  // Safety
  // ---------------------------------------------------------------------------

  /** While a layer is computed on, its buffer holds the file's bytes of every expert its ids
      reference, in every role, whatever hint the background load used. */
  lemma ComputeSafe(c: Config, s: St, e: nat, r: nat)
    requires Inv(c, s) && s.graph.Computing? && r < ROLES
    ensures s.graph.il in c.layers
    ensures e < c.layers[s.graph.il].ne && e in s.graph.ids ==>
      Right(c.layers[s.graph.il], s.arenas[Buf(c, s.graph.il)].mem, Cell(r, e))
  {
    var b := Buf(c, s.graph.il);
    assert BufOk(c, s.arenas[b], Todo(c, s, b)) && Todo(c, s, b) == {};
    if e < c.layers[s.graph.il].ne && e in s.graph.ids {
      assert CellOk(c.layers[s.graph.il], Cell(r, e)) && s.arenas[b].have[Cell(r, e).e];
    }
  }

  /** Nothing that happens while a layer is computed on touches its buffer. */
  lemma ComputeUndisturbed(c: Config, s: St, ev: Event)
    requires Inv(c, s) && s.graph.Computing? && Enabled(c, s, ev)
    ensures Step(c, s, ev).arenas[Buf(c, s.graph.il)] == s.arenas[Buf(c, s.graph.il)]
  {
  }

  /** At every join, an expert marked present in any buffer has its layer's bytes there. */
  lemma JoinRight(c: Config, s: St, b: nat, e: nat, r: nat)
    requires Inv(c, s) && s.graph == Between && Joined(s) && b < c.nbuf && r < ROLES
    requires s.arenas[b].layer in c.layers && e < |s.arenas[b].have| && s.arenas[b].have[e]
    ensures Right(c.layers[s.arenas[b].layer], s.arenas[b].mem, Cell(r, e))
  {
    assert BufOk(c, s.arenas[b], Todo(c, s, b)) && Todo(c, s, b) == {};
    assert CellOk(c.layers[s.arenas[b].layer], Cell(r, e)) && s.arenas[b].have[Cell(r, e).e];
  }

  /** No step waits for anything but what the protocol says it waits for: the load op for the
      join and the previous compute, the readers for nothing. */
  lemma OnlyWaitsForJoin(c: Config, s: St, il: int, ids: seq<int>, big: bool, k: Cell)
    requires Inv(c, s)
    ensures s.graph == Between && Joined(s) && il in c.layers ==> Enabled(c, s, Enter(il, ids, big))
    ensures s.graph.TopUp? && k in s.graph.todo ==> Enabled(c, s, TopUpRead(k))
    ensures s.bg.Kicked? ==> Enabled(c, s, BgPlan)
    ensures s.bg.Reading? && k in s.bg.todo ==> Enabled(c, s, BgRead(k))
  {
    if il in c.layers { assert BufOk(c, s.arenas[Buf(c, il)], Todo(c, s, Buf(c, il))); }
    if s.graph.TopUp? { TodoReadable(c, s, s.graph.il, k); }
    if s.bg.Kicked? { assert BufOk(c, s.arenas[Buf(c, s.bg.il)], Todo(c, s, Buf(c, s.bg.il))); }
    if s.bg.Reading? { TodoReadable(c, s, s.bg.il, k); }
  }

  // ---------------------------------------------------------------------------
  // The prefetch
  // ---------------------------------------------------------------------------

  /** Compute starts with a background load of the next layer exactly if prefetching is on, there
      is a second buffer, the batch is big and the next layer has experts. */
  lemma {:induction false} KickStarts(c: Config, s: St, hint: Option<seq<bool>>)
    requires c.nbuf >= 1 && Enabled(c, s, StartCompute(hint))
    ensures Step(c, s, StartCompute(hint)).bg ==
      if c.async && c.nbuf >= 2 && s.graph.big && s.graph.il + 1 in c.layers then Kicked(s.graph.il + 1, hint) else NoThread
  {
  }

  /** The load op reads, in all three roles, exactly the experts its ids reference that the
      layer's buffer does not have. */
  lemma {:induction false} EnterReads(c: Config, s: St, il: int, ids: seq<int>, big: bool, k: Cell)
    requires c.nbuf >= 1 && Enabled(c, s, Enter(il, ids, big)) && c.layers[il].ne > 0
    ensures var a, t := s.arenas[il % c.nbuf], Step(c, s, Enter(il, ids, big));
      t.graph.TopUp? && t.graph.ids == ids && t.bg == NoThread
      && (k in t.graph.todo <==> k.r < 3 && k.e < c.layers[il].ne && k.e in ids && !(a.layer == il && a.have[k.e]))
  {
    PlanReads(s.arenas[Buf(c, il)], c.layers[il], il, NeedOf(ids, c.layers[il].ne), k);
  }

  /** Layer il's buffer has everything the ids need, read or being read in the background. */
  ghost predicate Prepared(c: Config, s: St, il: int, ids: seq<int>) {
    c.nbuf >= 1 && |s.arenas| == c.nbuf && Loaded(c, s, il, ids)
  }

  /** Once the background has planned a load of everything, or of all the ids will need, the
      layer stays prepared until the load op for it is reached. */
  lemma {:induction false} StaysPrepared(c: Config, s: St, ev: Event, il: int, ids: seq<int>)
    requires c.nbuf >= 1 && Enabled(c, s, ev) && (ev == EndCompute || ev.BgRead?)
    requires Prepared(c, s, il, ids)
    ensures Prepared(c, Step(c, s, ev), il, ids)
  {
  }

  lemma {:induction false} PlanPrepares(c: Config, s: St, ids: seq<int>)
    requires c.nbuf >= 1 && Enabled(c, s, BgPlan)
    requires s.bg.hint.Some? ==> forall e :: 0 <= e < |s.bg.hint.value| && e in ids ==> s.bg.hint.value[e]
    ensures Prepared(c, Step(c, s, BgPlan), s.bg.il, ids)
  {
    var L := c.layers[s.bg.il];
    forall e: nat | e < L.ne && e in ids
      ensures Step(c, s, BgPlan).arenas[Buf(c, s.bg.il)].have[e]
    {
      PlanReads(s.arenas[Buf(c, s.bg.il)], L, s.bg.il, s.bg.hint, Cell(0, e));
    }
  }

  /** A prefetch pays: when the background has planned all that the next layer's ids turn out to
      need, its load op finds nothing left to read. */
  lemma {:induction false} PrefetchPays(c: Config, run: seq<St>, evs: seq<Event>, ids: seq<int>, big: bool)
    requires ConfigOk(c) && |run| == |evs| + 1 && |evs| > 0 && evs[0] == BgPlan && Enabled(c, run[0], BgPlan)
    requires run[0].bg.hint.Some? ==> forall e :: 0 <= e < |run[0].bg.hint.value| && e in ids ==> run[0].bg.hint.value[e]
    requires forall i :: 0 <= i < |evs| ==> Enabled(c, run[i], evs[i]) && run[i + 1] == Step(c, run[i], evs[i])
    requires forall i :: 0 < i < |evs| ==> evs[i] == EndCompute || evs[i].BgRead?
    requires Enabled(c, run[|evs|], Enter(run[0].bg.il, ids, big)) && c.layers[run[0].bg.il].ne > 0
    ensures Step(c, run[|evs|], Enter(run[0].bg.il, ids, big)).graph == TopUp(run[0].bg.il, ids, big, {})
  {
    RunPrepares(c, run, evs, ids, |evs|);
    NothingLeft(c, run[|evs|], run[0].bg.il, ids, big);
  }

  lemma {:induction false} RunPrepares(c: Config, run: seq<St>, evs: seq<Event>, ids: seq<int>, k: nat)
    requires ConfigOk(c) && |run| == |evs| + 1 && 0 < k <= |evs| && evs[0] == BgPlan && Enabled(c, run[0], BgPlan)
    requires run[0].bg.hint.Some? ==> forall e :: 0 <= e < |run[0].bg.hint.value| && e in ids ==> run[0].bg.hint.value[e]
    requires forall i :: 0 <= i < |evs| ==> Enabled(c, run[i], evs[i]) && run[i + 1] == Step(c, run[i], evs[i])
    requires forall i :: 0 < i < |evs| ==> evs[i] == EndCompute || evs[i].BgRead?
    ensures Prepared(c, run[k], run[0].bg.il, ids)
  {
    if k == 1 {
      PlanPrepares(c, run[0], ids);
    } else {
      RunPrepares(c, run, evs, ids, k - 1);
      StaysPrepared(c, run[k - 1], evs[k - 1], run[0].bg.il, ids);
    }
  }

  lemma {:induction false} NothingLeft(c: Config, s: St, il: int, ids: seq<int>, big: bool)
    requires c.nbuf >= 1 && Enabled(c, s, Enter(il, ids, big)) && Prepared(c, s, il, ids) && c.layers[il].ne > 0
    ensures Step(c, s, Enter(il, ids, big)).graph == TopUp(il, ids, big, {})
  {
    var L := c.layers[il];
    var a := s.arenas[Buf(c, il)];
    var todo := Plan(a, L, il, NeedOf(ids, L.ne)).1;
    forall k: Cell ensures k !in todo { PlanReads(a, L, il, NeedOf(ids, L.ne), k); }
    assert todo == {};
  }

  lemma TodoReadable(c: Config, s: St, il: int, k: Cell)
    requires Inv(c, s) && il in c.layers && s.arenas[Buf(c, il)].layer == il
    ensures k in Todo(c, s, Buf(c, il)) ==> CanRead(c, s, il, k)
  {
    assert BufOk(c, s.arenas[Buf(c, il)], Todo(c, s, Buf(c, il)));
    if k in Todo(c, s, Buf(c, il)) {
      assert CellOk(c.layers[il], k);
      CellFits(c.layers[il], k, c.size);
    }
  }

  /** Freshly allocated buffers. */
  ghost predicate Init(c: Config, s: St) {
    && s.bg == NoThread && s.graph == Between && |s.arenas| == c.nbuf
    && forall b :: 0 <= b < c.nbuf ==> |s.arenas[b].mem| == c.size && s.arenas[b].layer == -1
  }

  ghost predicate IsRun(c: Config, run: seq<St>, evs: seq<Event>) {
    && ConfigOk(c) && |run| == |evs| + 1
    && forall i :: 0 <= i < |evs| ==> Enabled(c, run[i], evs[i]) && run[i + 1] == Step(c, run[i], evs[i])
  }

  /** The invariant holds in every state of every interleaving. */
  lemma {:induction false} RunInv(c: Config, run: seq<St>, evs: seq<Event>, k: nat)
    requires IsRun(c, run, evs) && Init(c, run[0]) && k < |run|
    ensures Inv(c, run[k])
  {
    if k > 0 {
      RunInv(c, run, evs, k - 1);
      StepKeeps(c, run[k - 1], evs[k - 1]);
    }
  }

  /** Over whole runs: whenever compute runs, every referenced expert's bytes are in place. */
  lemma RunSafe(c: Config, run: seq<St>, evs: seq<Event>, k: nat, e: nat, r: nat)
    requires IsRun(c, run, evs) && Init(c, run[0]) && k < |run| && r < ROLES && run[k].graph.Computing?
    ensures |run[k].arenas| == c.nbuf && c.nbuf >= 1 && run[k].graph.il in c.layers
    ensures e < c.layers[run[k].graph.il].ne && e in run[k].graph.ids ==>
      Right(c.layers[run[k].graph.il], run[k].arenas[Buf(c, run[k].graph.il)].mem, Cell(r, e))
  {
    RunInv(c, run, evs, k);
    ComputeSafe(c, run[k], e, r);
  }
}
