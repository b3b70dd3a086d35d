/** The prefill arenas: one layer's experts per buffer, the next layer read in the background
    from a hint while the current one is computed on.

    The one assumption about the environment is the data dependency of the graph: a layer's
    ids, and so its load, exist only once the compute of the layer before has ended. */
module PrefillArena {
  import opened Seqs
  import opened Memory

  /** A layer with experts: how many, bytes per expert by role, and the file's bytes. */
  datatype ExpertLayer = ExpertLayer(ne: nat, eb: seq<nat>, bytes: seq<seq<Block>>)

  /** One expert's weight in one role. */
  datatype Cell = Cell(r: nat, e: nat)

  /** A buffer: its memory, the layer it holds (-1: none), and which experts are present. */
  datatype Arena = Arena(mem: Block, layer: int, have: seq<bool>)

  type Layers = map<int, ExpertLayer>

  // ---------------------------------------------------------------------------
  // Layout of a layer in a buffer
  // ---------------------------------------------------------------------------

  function RoleBytes(L: ExpertLayer, r: nat): nat
    requires r < |L.eb|
  {
    L.ne * L.eb[r]
  }

  /** Where a role starts: after the roles before it. */
  function RoleAt(L: ExpertLayer, r: nat): nat
    requires |L.eb| == ROLES && r < ROLES
  {
    (if r > 0 then RoleBytes(L, 0) else 0) + (if r > 1 then RoleBytes(L, 1) else 0)
  }

  function CellAt(L: ExpertLayer, c: Cell): nat
    requires |L.eb| == ROLES && c.r < ROLES
  {
    RoleAt(L, c.r) + c.e * L.eb[c.r]
  }

  ghost predicate LayerOk(L: ExpertLayer, size: nat) {
    && |L.eb| == ROLES && |L.bytes| == ROLES
    && (forall r :: 0 <= r < ROLES ==> |L.bytes[r]| == L.ne)
    && (forall r, e :: 0 <= r < ROLES && 0 <= e < L.ne ==> |L.bytes[r][e]| == L.eb[r])
    && RoleBytes(L, 0) + RoleBytes(L, 1) + RoleBytes(L, 2) <= size
  }

  ghost predicate CellOk(L: ExpertLayer, c: Cell) { c.r < ROLES && c.e < L.ne }

  lemma CellFits(L: ExpertLayer, c: Cell, size: nat)
    requires LayerOk(L, size) && CellOk(L, c)
    ensures RoleAt(L, c.r) <= CellAt(L, c)
    ensures CellAt(L, c) + L.eb[c.r] <= RoleAt(L, c.r) + RoleBytes(L, c.r) <= size
  {
    PlaceFits(c.e, L.ne, L.eb[c.r]);
  }

  lemma CellsDisjoint(L: ExpertLayer, c: Cell, d: Cell, size: nat)
    requires LayerOk(L, size) && CellOk(L, c) && CellOk(L, d) && c != d
    ensures Disjoint(CellAt(L, c), L.eb[c.r], CellAt(L, d), L.eb[d.r])
  {
    CellFits(L, c, size);
    CellFits(L, d, size);
    if c.r == d.r { PlacesDisjoint(c.e, d.e, L.eb[c.r]); }
  }

  /** The cell's bytes are in place. */
  ghost predicate Right(L: ExpertLayer, mem: Block, c: Cell) {
    && |L.eb| == ROLES && |L.bytes| == ROLES && c.r < ROLES && c.e < |L.bytes[c.r]|
    && CellAt(L, c) + L.eb[c.r] <= |mem|
    && Window(mem, CellAt(L, c), L.eb[c.r]) == L.bytes[c.r][c.e]
  }

  function ReadCell(L: ExpertLayer, mem: Block, c: Cell): (m: Block)
    requires |L.eb| == ROLES && c.r < ROLES && |L.bytes| == ROLES && c.e < |L.bytes[c.r]|
    requires CellAt(L, c) + |L.bytes[c.r][c.e]| <= |mem|
    ensures |m| == |mem|
  {
    Blit(mem, CellAt(L, c), L.bytes[c.r][c.e])
  }

  /** Reading a cell puts its bytes in place and leaves every other cell alone. */
  lemma ReadCellRight(L: ExpertLayer, mem: Block, c: Cell)
    requires LayerOk(L, |mem|) && CellOk(L, c)
    ensures CellAt(L, c) + |L.bytes[c.r][c.e]| <= |mem|
    ensures Right(L, ReadCell(L, mem, c), c)
    ensures forall d :: CellOk(L, d) && d != c ==> (Right(L, ReadCell(L, mem, c), d) <==> Right(L, mem, d))
  {
    CellFits(L, c, |mem|);
    BlitWindow(mem, CellAt(L, c), L.bytes[c.r][c.e]);
    forall d | CellOk(L, d) && d != c ensures Right(L, ReadCell(L, mem, c), d) <==> Right(L, mem, d) {
      CellFits(L, d, |mem|);
      CellsDisjoint(L, c, d, |mem|);
      var lo, n := CellAt(L, d), L.eb[d.r];
      assert Window(ReadCell(L, mem, c), lo, n) == Window(mem, lo, n);
    }
  }

  // ---------------------------------------------------------------------------
  // Loading
  // ---------------------------------------------------------------------------

  /** A buffer that switches layers forgets what it held. */
  function Switched(a: Arena, il: int, ne: nat): Arena {
    if a.layer != il then a.(layer := il, have := seq(ne, _ => false)) else a
  }

  /** Is expert e asked for? (None: every expert.) */
  predicate Needed(need: Option<seq<bool>>, e: nat)
    requires need.Some? ==> e < |need.value|
  {
    need.None? || need.value[e]
  }

  /** The experts a load must read: needed and not present. */
  function Missing(need: Option<seq<bool>>, have: seq<bool>, e: nat): bool
    requires e < |have| && (need.Some? ==> |need.value| == |have|)
  {
    Needed(need, e) && !have[e]
  }

  function Marked(have: seq<bool>, need: Option<seq<bool>>): (h: seq<bool>)
    requires need.Some? ==> |need.value| == |have|
    ensures |h| == |have|
  {
    seq(|have|, e requires 0 <= e < |have| => have[e] || Needed(need, e))
  }

  /** What a load decides before it reads: experts marked present, cells to read. */
  function Plan(a: Arena, L: ExpertLayer, il: int, need: Option<seq<bool>>): (r: (Arena, set<Cell>))
    requires (a.layer == il ==> |a.have| == L.ne) && (need.Some? ==> |need.value| == L.ne)
  {
    var s := Switched(a, il, L.ne);
    (s.(have := Marked(s.have, need)),
     set r, e | 0 <= r < ROLES && 0 <= e < L.ne && Missing(need, s.have, e) :: Cell(r, e))
  }

  /** Present experts' cells are right, except those still to be read. */
  ghost predicate Holds(L: ExpertLayer, a: Arena, todo: set<Cell>) {
    && LayerOk(L, |a.mem|) && |a.have| == L.ne
    && (forall c :: c in todo ==> CellOk(L, c) && a.have[c.e])
    && (forall c :: CellOk(L, c) && a.have[c.e] && c !in todo ==> Right(L, a.mem, c))
  }

  /** A load reads all three roles of exactly the experts needed and not present in this layer's
      buffer, and marks them. */
  lemma {:induction false} PlanReads(a: Arena, L: ExpertLayer, il: int, need: Option<seq<bool>>, c: Cell)
    requires (a.layer == il ==> |a.have| == L.ne) && (need.Some? ==> |need.value| == L.ne)
    ensures var (b, todo) := Plan(a, L, il, need);
      && b.layer == il && b.mem == a.mem && |b.have| == L.ne
      && (c.e < L.ne ==> (b.have[c.e] <==> (need.None? || need.value[c.e]) || (a.layer == il && a.have[c.e])))
      && (c in todo <==> c.r < 3 && c.e < L.ne && (need.None? || need.value[c.e]) && !(a.layer == il && a.have[c.e]))
  {
  }

  lemma PlanHolds(a: Arena, L: ExpertLayer, il: int, need: Option<seq<bool>>)
    requires LayerOk(L, |a.mem|) && (a.layer == il ==> Holds(L, a, {}))
    requires need.Some? ==> |need.value| == L.ne
    ensures var (b, todo) := Plan(a, L, il, need);
      && Holds(L, b, todo) && b.layer == il && b.mem == a.mem
      && forall e :: 0 <= e < L.ne && Needed(need, e) ==> b.have[e]
  {
    var (b, todo) := Plan(a, L, il, need);
    forall c | CellOk(L, c) && b.have[c.e] && c !in todo ensures Right(L, a.mem, c) {
      assert c == Cell(c.r, c.e);
      assert !Missing(need, Switched(a, il, L.ne).have, c.e);
    }
  }

  /** One background read. */
  lemma ReadHolds(L: ExpertLayer, a: Arena, todo: set<Cell>, c: Cell)
    requires Holds(L, a, todo) && c in todo
    ensures CellAt(L, c) + |L.bytes[c.r][c.e]| <= |a.mem|
    ensures Holds(L, a.(mem := ReadCell(L, a.mem, c)), todo - {c})
  {
    ReadCellRight(L, a.mem, c);
  }
}
