/** Whole runs of the fork database: how high the trimming floor gets, and what is linked above it. */
module ForkRuns {
  import opened Common
  import opened Blocks
  import opened ForkDatabase

  datatype Step =
    | Pushing(block: Block)
    | Starting(block: Block)
    | Resizing(size: nat)
    | Popping
    | Removing(id: BlockId)
  {
    predicate Within(top: nat, least: nat) {
      match this
      case Pushing(b) => b.Num() <= top
      case Starting(b) => b.Num() <= top
      case Resizing(size) => size >= least
      case _ => true
    }
  }

  /** The fork database with the highest window floor applied so far and the items entered without a link. */
  datatype Grown = Grown(forks: Forks, floor: nat, roots: set<nat>) {
    ghost predicate Linked() { AllLinked(forks.index, floor, roots) }
  }

  const EMPTY := Grown(Forks(map[], None, 1024, 0), 0, {})

  /** One step. A step that throws does nothing. */
  function Do(g: Grown, step: Step): Grown {
    var f := g.forks;
    match step
    case Pushing(b) =>
      if !Accepts(f, b) then g
      else if f.head.None? then Grown(Pushed(f, b), g.floor, g.roots + {f.nextSerial})
      else if b.Num() <= f.head.value.Num() then g.(forks := Pushed(f, b))
      else Grown(Pushed(f, b), Higher(g.floor, WindowFloor(b.Num(), f.maxSize)), g.roots)
    case Starting(b) =>
      var item := Item(f.nextSerial, b, None);
      var index := if b.Id() in f.index then f.index else f.index[b.Id() := item];
      Grown(Forks(index, Some(item), f.maxSize, f.nextSerial + 1), g.floor, g.roots + {f.nextSerial})
    case Resizing(size) =>
      if f.head.None? then g.(forks := f.(maxSize := size))
      else
        var min := WindowFloor(f.head.value.Num(), size);
        Grown(f.(index := Retained(f.index, min), maxSize := size), Higher(g.floor, min), g.roots)
    case Popping =>
      if f.head.None? || Lock(f.index, [], f.head.value).None? then g
      else g.(forks := f.(head := Lock(f.index, [], f.head.value)))
    case Removing(id) => g.(forks := f.(index := f.index - {id}))
  }

  function DoAll(g: Grown, steps: seq<Step>): Grown {
    if steps == [] then g else Do(DoAll(g, steps[..|steps| - 1]), steps[|steps| - 1])
  }

  /** The step removes a block that a block above the floor is linked to. */
  ghost predicate Orphans(g: Grown, step: Step) {
    var index := g.forks.index;
    && step.Removing?
    && exists c :: && c in index && c != step.id && index[c].block.previous == step.id
                   && index[c].prev.Some? && index[c].Num() > g.floor
  }

  ghost predicate NoOrphans(g: Grown, steps: seq<Step>) {
    forall j {:trigger steps[j]} :: 0 <= j < |steps| ==> !Orphans(DoAll(g, steps[..j]), steps[j])
  }

  ghost function View(t: Tree): Grown
    reads t
  {
    Grown(t.Contents(), t.floor, t.roots)
  }

  method Perform(t: Tree, step: Step)
    requires t.Valid() && t.held == []
    modifies t
    ensures t.Valid() && t.held == [] && View(t) == Do(old(View(t)), step)
    ensures old(t.Linked()) && !Orphans(old(View(t)), step) ==> t.Linked()
  {
    hide Tree.Linked, Lock, Pushed;
    match step
    case Pushing(b) => var _ := t.PushBlock(b);
    case Starting(b) => t.StartBlock(b);
    case Resizing(size) => t.SetMaxSize(size);
    case Popping => var _ := t.PopBlock();
    case Removing(id) => t.Remove(id);
  }

  /** Over every run in which no block is removed that another one is linked to, every block above the floor but a root
      keeps its parent. */
  method Run(t: Tree, steps: seq<Step>)
    requires t.Valid() && t.held == []
    modifies t
    ensures t.Valid() && t.held == [] && View(t) == DoAll(old(View(t)), steps)
    ensures old(t.Linked()) && NoOrphans(old(View(t)), steps) ==> t.Linked()
  {
    hide Do, Orphans, Tree.Linked;
    for i := 0 to |steps|
      invariant t.Valid() && t.held == [] && View(t) == DoAll(old(View(t)), steps[..i])
      invariant old(t.Linked()) && NoOrphans(old(View(t)), steps) ==> t.Linked()
    {
      assert steps[..i + 1][..i] == steps[..i];
      Perform(t, steps[i]);
    }
    assert steps[..|steps|] == steps;
  }

  /** No block of the run is numbered above `top`, and no window is smaller than `least`. */
  predicate Within(steps: seq<Step>, top: nat, least: nat) {
    forall step :: step in steps ==> step.Within(top, least)
  }

  /** The floor is never higher than the smallest window below the highest block. */
  lemma {:induction false} FloorIsLow(g: Grown, steps: seq<Step>, top: nat, least: nat)
    requires Within(steps, top, least)
    requires g.floor <= WindowFloor(top, least) && g.forks.maxSize >= least
    requires g.forks.head.Some? ==> g.forks.head.value.Num() <= top
    ensures var h := DoAll(g, steps);
            && g.floor <= h.floor <= WindowFloor(top, least) && h.forks.maxSize >= least
            && (h.forks.head.Some? ==> h.forks.head.value.Num() <= top)
  {
    if steps != [] {
      FloorIsLow(g, steps[..|steps| - 1], top, least);
      assert steps[|steps| - 1] in steps;
    }
  }

  predicate OnlyPushes(steps: seq<Step>) {
    forall step :: step in steps ==> step.Pushing?
  }

  /** With pushes alone the floor is never higher than the window below the head. */
  lemma {:induction false} FloorOfPushes(g: Grown, steps: seq<Step>)
    requires OnlyPushes(steps)
    requires g.floor <= if g.forks.head.Some? then WindowFloor(g.forks.head.value.Num(), g.forks.maxSize) else 0
    ensures var f := DoAll(g, steps).forks;
            && f.maxSize == g.forks.maxSize
            && DoAll(g, steps).floor <= if f.head.Some? then WindowFloor(f.head.value.Num(), f.maxSize) else 0
  {
    if steps != [] {
      FloorOfPushes(g, steps[..|steps| - 1]);
      assert steps[|steps| - 1] in steps;
    }
  }

  /** Unless blocks are started, the first block is the only root. */
  lemma {:induction false} OneRoot(steps: seq<Step>)
    requires forall step :: step in steps ==> !step.Starting?
    ensures var g := DoAll(EMPTY, steps); g.roots == if g.forks.head.Some? then {0} else {}
    ensures var f := DoAll(EMPTY, steps).forks; f.head.None? ==> f.nextSerial == 0
  {
    if steps != [] {
      OneRoot(steps[..|steps| - 1]);
      assert steps[|steps| - 1] in steps;
    }
  }

  lemma HigherFloor(index: Index, floor: nat, higher: nat, roots: set<nat>)
    requires AllLinked(index, floor, roots) && floor <= higher
    ensures AllLinked(index, higher, roots)
  {
  }

  /** A new tree after a run: every block above the smallest window below the highest block keeps its parent, roots
      excepted; with pushes alone every block in the window of the head does, the first block excepted. */
  method RunFromStart(steps: seq<Step>, ghost top: nat, ghost least: nat) returns (t: Tree)
    requires NoOrphans(EMPTY, steps) && Within(steps, top, least) && least <= 1024
    ensures t.Valid() && t.held == [] && View(t) == DoAll(EMPTY, steps) && t.Linked()
    ensures t.floor <= WindowFloor(top, least) && AllLinked(t.index, WindowFloor(top, least), t.roots)
    ensures (forall step :: step in steps ==> !step.Starting?) ==> t.roots <= {0}
    ensures OnlyPushes(steps) && t.head.Some? ==> AllLinked(t.index, WindowFloor(t.head.value.Num(), 1024), {0})
  {
    hide Do, NoOrphans, Within;
    t := new Tree();
    assert View(t) == EMPTY;
    Run(t, steps);
    FloorIsLow(EMPTY, steps, top, least);
    HigherFloor(t.index, t.floor, WindowFloor(top, least), t.roots);
    if forall step :: step in steps ==> !step.Starting? { OneRoot(steps); }
    if OnlyPushes(steps) && t.head.Some? {
      FloorOfPushes(EMPTY, steps);
      HigherFloor(t.index, t.floor, WindowFloor(t.head.value.Num(), 1024), t.roots);
    }
  }

  /** In such a tree the branches to a common ancestor within the windows are found, if no root comes above it. */
  method FetchAfterRun(steps: seq<Step>, first: BlockId, second: BlockId, ghost a: BlockId, ghost top: nat,
                       ghost least: nat)
    returns (ok: bool, b1: seq<Item>, b2: seq<Item>)
    requires NoOrphans(EMPTY, steps) && Within(steps, top, least) && least <= 1024
    requires {first, second, a} <= DoAll(EMPTY, steps).forks.index.Keys
    requires Ancestor(a, first) && Ancestor(a, second) && NumFromId(a) >= WindowFloor(top, least)
    requires var g := DoAll(EMPTY, steps);
             forall id :: id in g.forks.index && NumFromId(id) > NumFromId(a) ==> g.forks.index[id].serial !in g.roots
    ensures ok && |b1| > 0 && |b2| > 0 && b1[0].Id() == first && b2[0].Id() == second
    ensures b1[|b1| - 1].block.previous == b2[|b2| - 1].block.previous
  {
    hide Do, NoOrphans, Within, AllLinked, WindowFloor;
    var t := RunFromStart(steps, top, least);
    t.CommonAncestorMeets(first, second, a);
    ghost var pinned := t.Pinned();
    ghost var c1, c2 :| MeetFrom(t.index, pinned, first, second, c1, c2);
    ok, b1, b2 := t.FetchBranchFrom(first, second);
    assert MeetFrom(t.index, t.Pinned(), first, second, c1, c2);
  }
}
