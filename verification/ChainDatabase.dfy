/** Pushing blocks: the object state follows the longest known branch, switching forks and taking failed switches back.

    Applying a block is a deterministic partial function of the object state. The undo database is represented by the
    states it can return to (exactness of that is the subject of module UndoDatabase). */
module ChainDatabase {
  import opened Common
  import opened Blocks
  import opened ForkDatabase

  /** What applying a block does to the rest of the object state. Part way through, the undo and fork windows are set
      anew; that is not taken back if the block is rejected later on. */
  datatype Effect<T> = Applied(body: T, window: nat) | Rejected(windowSet: Option<nat>)

  datatype State<T> = State(head: BlockId, body: T)

  type Transition<!T> = (T, Block) -> Effect<T>

  /** apply_block with its link check: the block must name the head block as its parent and becomes the head. */
  function Apply<T>(tr: Transition<T>, s: State<T>, b: Block): (r: Option<State<T>>) {
    if s.head != b.previous then None
    else match tr(s.body, b)
      case Applied(body, _) => Some(State(b.Id(), body))
      case Rejected(_) => None
  }

  /** Applying a sequence of blocks one after the other. */
  function Replay<T>(tr: Transition<T>, s: State<T>, bs: seq<Block>): (r: Option<State<T>>) {
    if bs == [] then Some(s)
    else
      var before := Replay(tr, s, bs[..|bs| - 1]);
      if before.None? then None else Apply(tr, before.value, bs[|bs| - 1])
  }

  /** The id at the head after the first `k` blocks. */
  ghost function HeadAt<T>(s: State<T>, bs: seq<Block>, k: nat): BlockId
    requires k <= |bs|
  {
    if k == 0 then s.head else bs[k - 1].Id()
  }

  /** A chain that replays is linked by `previous` from the starting head to its last block, and ends there. */
  lemma {:induction false} ReplayIsLinked<T>(tr: Transition<T>, s: State<T>, bs: seq<Block>)
    requires Replay(tr, s, bs).Some?
    ensures Replay(tr, s, bs).value.head == HeadAt(s, bs, |bs|)
    ensures forall i :: 0 <= i < |bs| ==> bs[i].previous == HeadAt(s, bs, i)
  {
    if bs != [] {
      var p := bs[..|bs| - 1];
      ReplayIsLinked(tr, s, p);
      forall i | 0 <= i < |bs| ensures bs[i].previous == HeadAt(s, bs, i) {
        if i < |p| {
          assert bs[i] == p[i] && HeadAt(s, bs, i) == HeadAt(s, p, i);
        }
      }
    }
  }

  lemma {:induction false} ReplayPrefix<T>(tr: Transition<T>, s: State<T>, bs: seq<Block>, k: nat)
    requires Replay(tr, s, bs).Some? && k <= |bs|
    ensures Replay(tr, s, bs[..k]).Some?
  {
    if k < |bs| {
      assert bs[..|bs| - 1][..k] == bs[..k];
      ReplayPrefix(tr, s, bs[..|bs| - 1], k);
    } else {
      assert bs[..k] == bs;
    }
  }

  lemma {:induction false} ReplayConcat<T>(tr: Transition<T>, s: State<T>, a: seq<Block>, b: seq<Block>)
    ensures Replay(tr, s, a + b) ==
            if Replay(tr, s, a).None? then None else Replay(tr, Replay(tr, s, a).value, b)
  {
    if b == [] {
      assert a + b == a;
    } else {
      var b' := b[..|b| - 1];
      assert (a + b)[..|a + b| - 1] == a + b';
      ReplayConcat(tr, s, a, b');
    }
  }

  lemma ReplayStep<T>(tr: Transition<T>, s: State<T>, bs: seq<Block>, b: Block)
    requires Replay(tr, s, bs).Some?
    ensures Replay(tr, s, bs + [b]) == Apply(tr, Replay(tr, s, bs).value, b)
  {
    assert (bs + [b])[..|bs + [b]| - 1] == bs;
  }

  /** The blocks of a branch in the order in which they are applied: the branch is read from its tip downwards. */
  function InOrder(b: seq<Item>): (r: seq<Block>)
    ensures |r| == |b|
    ensures forall i :: 0 <= i < |b| ==> r[i] == b[|b| - 1 - i].block
  {
    if b == [] then [] else InOrder(b[1..]) + [b[0].block]
  }

  /** The top of the applied chain is the branch that leads down from the head block. */
  lemma {:induction false} TopOfChain<T>(tr: Transition<T>, s: State<T>, bs: seq<Block>, index: Index,
                                         pinned: seq<Item>, b: seq<Item>, i: nat)
    requires Replay(tr, s, bs).Some?
    requires IsBranch(index, pinned, b)
    requires i < |b| && i < |bs|
    requires b[0].Id() == Replay(tr, s, bs).value.head
    ensures b[i].block == bs[|bs| - 1 - i]
  {
    ReplayIsLinked(tr, s, bs);
    if i > 0 {
      TopOfChain(tr, s, bs, index, pinned, b, i - 1);
      assert Lock(index, pinned, b[i - 1]) == Some(b[i - 1 + 1]);
      assert bs[|bs| - i].previous == HeadAt(s, bs, |bs| - i);
    }
    IdDeterminesBlock(b[i].block, bs[|bs| - 1 - i]);
  }

  /** The entries of `history` are the states after the blocks below the top of the chain, the newest one right below
      the last block. */
  ghost predicate HistoryReplays<T>(tr: Transition<T>, s: State<T>, bs: seq<Block>, history: seq<State<T>>) {
    && |history| <= |bs|
    && forall k {:trigger history[k]} :: 0 <= k < |history| ==>
         Replay(tr, s, bs[..|bs| - |history| + k]) == Some(history[k])
  }

  lemma HistoryDropOldest<T>(tr: Transition<T>, s: State<T>, bs: seq<Block>, history: seq<State<T>>, d: nat)
    requires HistoryReplays(tr, s, bs, history) && d <= |history|
    ensures HistoryReplays(tr, s, bs, history[d..])
  {
    forall k | 0 <= k < |history| - d
      ensures Replay(tr, s, bs[..|bs| - (|history| - d) + k]) == Some(history[d..][k])
    {
      assert history[d..][k] == history[d + k];
    }
  }

  lemma HistoryPush<T>(tr: Transition<T>, s: State<T>, bs: seq<Block>, history: seq<State<T>>, b: Block)
    requires HistoryReplays(tr, s, bs, history)
    requires Replay(tr, s, bs).Some?
    ensures HistoryReplays(tr, s, bs + [b], history + [Replay(tr, s, bs).value])
  {
    var h' := history + [Replay(tr, s, bs).value];
    forall k | 0 <= k < |h'|
      ensures Replay(tr, s, (bs + [b])[..|bs| + 1 - |h'| + k]) == Some(h'[k])
    {
      assert (bs + [b])[..|bs| + 1 - |h'| + k] == bs[..|bs| - |history| + k];
      if k < |history| {
        assert h'[k] == history[k];
      } else {
        assert bs[..|bs|] == bs;
      }
    }
  }

  lemma HistoryPop<T>(tr: Transition<T>, s: State<T>, bs: seq<Block>, history: seq<State<T>>)
    requires HistoryReplays(tr, s, bs, history) && history != []
    ensures |bs| > 0 && HistoryReplays(tr, s, bs[..|bs| - 1], history[..|history| - 1])
    ensures Replay(tr, s, bs[..|bs| - 1]) == Some(history[|history| - 1])
  {
    var n := |history| - 1;
    var shorter := bs[..|bs| - 1];
    forall k | 0 <= k < n
      ensures Replay(tr, s, shorter[..|shorter| - n + k]) == Some(history[..n][k])
    {
      assert history[k] == history[..n][k];
      assert shorter[..|shorter| - n + k] == bs[..|bs| - |history| + k];
    }
    assert Replay(tr, s, bs[..|bs| - |history| + n]) == Some(history[n]);
  }

  /** Every block of a branch is higher than the parent of its last block. */
  lemma BranchAboveItsFoot(index: Index, pinned: seq<Item>, b: seq<Item>, i: nat)
    requires IsBranch(index, pinned, b) && i < |b|
    ensures NumFromId(b[i].Id()) > NumFromId(b[|b| - 1].block.previous)
  {
    BranchNumbers(index, pinned, b, i);
    BranchNumbers(index, pinned, b, |b| - 1);
  }

  /** No block of the head's branch is the foot of that branch: going down, the foot is not met too soon. */
  lemma FootNotTooSoon<T>(tr: Transition<T>, s: State<T>, bs: seq<Block>, index: Index, pinned: seq<Item>,
                          b: seq<Item>, k: nat)
    requires Replay(tr, s, bs).Some?
    requires IsBranch(index, pinned, b) && |b| > 0
    requires b[0].Id() == Replay(tr, s, bs).value.head
    requires k <= |bs| && |bs| - k < |b|
    ensures HeadAt(s, bs, k) != b[|b| - 1].block.previous
  {
    var i := |bs| - k;
    ReplayIsLinked(tr, s, bs);
    BranchAboveItsFoot(index, pinned, b, i);
    if k > 0 {
      TopOfChain(tr, s, bs, index, pinned, b, i);
    } else if i > 0 {
      TopOfChain(tr, s, bs, index, pinned, b, i - 1);
      assert b[i].Id() == b[i - 1].block.previous by { BranchNumbers(index, pinned, b, i); }
    }
  }

  lemma TopIsBranch<T>(tr: Transition<T>, s: State<T>, bs: seq<Block>, index: Index, pinned: seq<Item>, b: seq<Item>)
    requires Replay(tr, s, bs).Some?
    requires IsBranch(index, pinned, b) && 0 < |b| <= |bs|
    requires b[0].Id() == Replay(tr, s, bs).value.head
    ensures bs[|bs| - |b|..] == InOrder(b)
    ensures HeadAt(s, bs, |bs| - |b|) == b[|b| - 1].block.previous
  {
    ReplayIsLinked(tr, s, bs);
    var top := bs[|bs| - |b|..];
    forall i | 0 <= i < |b| ensures top[i] == InOrder(b)[i] {
      TopOfChain(tr, s, bs, index, pinned, b, |b| - 1 - i);
    }
  }

  /** The undo and fork windows that applying a block sets, also if it is rejected later on. */
  function WindowSet<T>(tr: Transition<T>, s: State<T>, b: Block): Option<nat> {
    if s.head != b.previous then None
    else match tr(s.body, b)
      case Applied(_, window) => Some(window)
      case Rejected(windowSet) => windowSet
  }

  /** Every window set on the way through the blocks `bs` is at least `n`. */
  ghost predicate WindowsReach<T>(tr: Transition<T>, s: State<T>, bs: seq<Block>, n: nat) {
    forall j {:trigger bs[j]} :: 0 <= j < |bs| && Replay(tr, s, bs[..j]).Some? ==>
      var window := WindowSet(tr, Replay(tr, s, bs[..j]).value, bs[j]);
      window.Some? ==> window.value >= n
  }

  /** The window that a block sets, the first of `bs` or a later one, keeps an undo state for each block up to it. */
  ghost predicate WindowsGrow<T>(tr: Transition<T>, s: State<T>, bs: seq<Block>) {
    forall j {:trigger bs[j]} :: 0 <= j < |bs| && Replay(tr, s, bs[..j]).Some? ==>
      var window := WindowSet(tr, Replay(tr, s, bs[..j]).value, bs[j]);
      window.Some? ==> window.value >= j + 1
  }

  /** Windows as the chain sets them, from the last irreversible block to the new head, do so as long as the last
      irreversible block does not pass the block that `bs` build on. */
  lemma IrreversibleBelow<T>(tr: Transition<T>, s: State<T>, bs: seq<Block>, irreversible: nat)
    requires irreversible <= NumFromId(s.head)
    requires forall j {:trigger bs[j]} :: 0 <= j < |bs| && Replay(tr, s, bs[..j]).Some? ==>
               var window := WindowSet(tr, Replay(tr, s, bs[..j]).value, bs[j]);
               window.Some? ==> window.value >= NumFromId(s.head) + j + 1 - irreversible + 1
    ensures WindowsGrow(tr, s, bs) && WindowsReach(tr, s, bs, NumFromId(s.head) - irreversible + 2)
  {
    hide Replay, WindowSet;
  }

  /** What is left for a way back: undo states, how many of them may be kept, and the fork database with its window. */
  datatype Room = Room(undo: nat, maxUndo: nat, index: Index, maxSize: nat)

  /** Trying a block drops undo states and blocks beyond the windows; applying it adds an undo state. */
  function AfterBlock<T>(tr: Transition<T>, s: State<T>, b: Block, room: Room, head: Option<Item>): Room {
    var window := WindowSet(tr, s, b);
    var undo := (if room.undo > room.maxUndo then room.maxUndo else room.undo) + if Apply(tr, s, b).Some? then 1 else 0;
    if window.None? then room.(undo := undo)
    else Room(undo, window.value,
              if head.Some? then Retained(room.index, WindowFloor(head.value.Num(), window.value)) else room.index,
              window.value)
  }

  /** Trying blocks one after the other, up to the first that is rejected. */
  function AfterBlocks<T>(tr: Transition<T>, s: State<T>, bs: seq<Block>, room: Room, head: Option<Item>): Room {
    if bs == [] then room
    else
      var shorter := bs[..|bs| - 1];
      var before := AfterBlocks(tr, s, shorter, room, head);
      if Replay(tr, s, shorter).None? then before
      else AfterBlock(tr, Replay(tr, s, shorter).value, bs[|bs| - 1], before, head)
  }

  /** How many of the blocks apply before one is rejected. */
  function CountApplied<T>(tr: Transition<T>, s: State<T>, bs: seq<Block>): (k: nat)
    ensures k <= |bs| && Replay(tr, s, bs[..k]).Some?
    ensures k < |bs| ==> Replay(tr, s, bs[..k + 1]).None?
  {
    if bs == [] then 0
    else
      var shorter := bs[..|bs| - 1];
      var k := CountApplied(tr, s, shorter);
      assert bs[..|bs|] == bs && shorter[..k] == bs[..k] && (k < |shorter| ==> shorter[..k + 1] == bs[..k + 1]);
      if Replay(tr, s, bs).Some? then |bs| else k
  }

  lemma FirstRejected<T>(tr: Transition<T>, s: State<T>, bs: seq<Block>, k: nat)
    requires k < |bs| && Replay(tr, s, bs[..k]).Some? && Replay(tr, s, bs[..k + 1]).None?
    ensures CountApplied(tr, s, bs) == k
  {
    var n := CountApplied(tr, s, bs);
    if n < k {
      assert bs[..k][..n + 1] == bs[..n + 1];
      ReplayPrefix(tr, s, bs[..k], n + 1);
    } else if n > k {
      assert bs[..n][..k + 1] == bs[..k + 1];
      ReplayPrefix(tr, s, bs[..n], k + 1);
    }
  }

  lemma AfterOneMore<T>(tr: Transition<T>, s: State<T>, bs: seq<Block>, b: Block, room: Room, head: Option<Item>)
    requires Replay(tr, s, bs).Some?
    ensures AfterBlocks(tr, s, bs + [b], room, head) ==
            AfterBlock(tr, Replay(tr, s, bs).value, b, AfterBlocks(tr, s, bs, room, head), head)
  {
    assert (bs + [b])[..|bs + [b]| - 1] == bs;
  }

  lemma {:induction false} AfterRejection<T>(tr: Transition<T>, s: State<T>, bs: seq<Block>, j: nat, room: Room,
                                             head: Option<Item>)
    requires j <= |bs| && Replay(tr, s, bs[..j]).None?
    ensures AfterBlocks(tr, s, bs, room, head) == AfterBlocks(tr, s, bs[..j], room, head)
  {
    if j == |bs| {
      assert bs[..j] == bs;
    } else {
      var shorter := bs[..|bs| - 1];
      assert shorter[..j] == bs[..j];
      AfterRejection(tr, s, shorter, j, room, head);
      if Replay(tr, s, shorter).Some? { ReplayPrefix(tr, s, shorter, j); }
    }
  }

  /** Growing windows leave an undo state for every block applied. */
  lemma {:induction false} UndoStatesLeft<T>(tr: Transition<T>, s: State<T>, bs: seq<Block>, room: Room,
                                             head: Option<Item>)
    requires WindowsGrow(tr, s, bs)
    ensures var left, k := AfterBlocks(tr, s, bs, room, head), CountApplied(tr, s, bs);
            left.undo >= k && (k > 0 ==> left.maxUndo >= k)
  {
    if bs != [] {
      var shorter := bs[..|bs| - 1];
      assert WindowsGrow(tr, s, shorter) by {
        forall j | 0 <= j < |shorter| ensures bs[j] == shorter[j] && bs[..j] == shorter[..j] {}
      }
      UndoStatesLeft(tr, s, shorter, room, head);
      if Replay(tr, s, shorter).Some? {
        assert CountApplied(tr, s, shorter) == |shorter| by { assert shorter[..|shorter|] == shorter; }
        assert bs[..|bs| - 1] == shorter;
      }
    }
  }

  /** Windows that reach far enough leave the fork database that they reach. */
  lemma {:induction false} LinksLeft<T>(tr: Transition<T>, s: State<T>, bs: seq<Block>, room: Room,
                                        head: Option<Item>, n: nat)
    requires WindowsReach(tr, s, bs, n)
    ensures var left := AfterBlocks(tr, s, bs, room, head);
            Shrunk(room.index, left.index) && Kept(room.index, left.index, head, n)
  {
    if bs != [] {
      var shorter := bs[..|bs| - 1];
      assert WindowsReach(tr, s, shorter, n) by {
        forall j | 0 <= j < |shorter| ensures bs[j] == shorter[j] && bs[..j] == shorter[..j] {}
      }
      LinksLeft(tr, s, shorter, room, head, n);
      hide Kept, Shrunk;
      if Replay(tr, s, shorter).Some? {
        var before, b := Replay(tr, s, shorter).value, bs[|bs| - 1];
        var was := AfterBlocks(tr, s, shorter, room, head);
        assert shorter[..|shorter|] == shorter;
        LittleLost(room.index, was.index, AfterBlocks(tr, s, bs, room, head).index, head, WindowSet(tr, before, b), n);
      }
    }
  }

  /** What a smaller window leaves in the fork database is still there with the larger one. */
  ghost predicate Kept(was: Index, now: Index, head: Option<Item>, n: nat) {
    head.Some? ==> forall id :: id in was && was[id].Num() >= WindowFloor(head.value.Num(), n) ==> id in now
  }

  ghost predicate Shrunk(was: Index, now: Index) {
    forall id :: id in now ==> id in was && now[id] == was[id]
  }

  type Slots = map<nat, (BlockId, Block)>

  /** The block store has the block under its id. */
  predicate Stored(slots: Slots, id: BlockId) {
    NumFromId(id) in slots && slots[NumFromId(id)].0 == id
  }

  /** A block that is stored takes the place of the one with its number, and no other. */
  lemma StoringReplaces(slots: Slots, id: BlockId, b: Block, other: BlockId)
    ensures Stored(slots[NumFromId(id) := (id, b)], other) <==>
            other == id || (NumFromId(other) != NumFromId(id) && Stored(slots, other))
  {
  }

  /** Blocks stored one after the other, each under its own id. */
  function StoredAll(slots: Slots, bs: seq<Block>): Slots {
    if bs == [] then slots
    else
      var b := bs[|bs| - 1];
      StoredAll(slots, bs[..|bs| - 1])[NumFromId(b.Id()) := (b.Id(), b)]
  }

  /** fetch_block_by_id finds a block in the fork database or in the block store. */
  predicate Known(index: Index, slots: Slots, id: BlockId) {
    id in index || Stored(slots, id)
  }

  ghost predicate Descending(b: seq<Item>) {
    forall i, j :: 0 <= i < j < |b| ==> b[i].Num() > b[j].Num()
  }

  lemma BranchDescends(index: Index, pinned: seq<Item>, b: seq<Item>)
    requires IsBranch(index, pinned, b)
    ensures Descending(b)
  {
    forall i, j | 0 <= i < j < |b| ensures b[i].Num() > b[j].Num() {
      BranchNumbers(index, pinned, b, i);
      BranchNumbers(index, pinned, b, j);
    }
  }

  /** The fork head has `n` live ancestors to step down to. */
  ghost predicate CanStepDown(index: Index, pinned: seq<Item>, head: Option<Item>, n: nat) {
    n == 0 || (head.Some? && Below(index, pinned, head.value, n).Some?)
  }

  datatype PushResult = Extended | NotSwitched | Switched | Thrown(stage: Stage)

  /** Where a thrown push stopped. */
  datatype Stage =
    | ForkRejected         // the fork database refused the block
    | BranchSearch         // no two branches to a common ancestor
    | PoppingOld           // could not go back to the fork point
    | NewBranchRejected    // a block of the new branch is invalid; the old branch is back in place
    | PoppingNew           // could not go back to the fork point after that
    | BlockRejected        // the block does not apply on top of the head

  /** The way back from the old branch: undo states for its blocks, and as many ancestors of the fork head. */
  ghost predicate CanGoBack<T>(history: seq<State<T>>, f: Forks, b2: seq<Item>) {
    |b2| <= |history| && CanStepDown(f.index, [], f.head, |b2|)
  }

  /** The fork head always has the ancestors, if it is the item that the index has for its block: the new branch is the
      longer one. */
  lemma OnlyUndoStatesMatter<T>(history: seq<State<T>>, f: Forks, head: BlockId, b1: seq<Item>, b2: seq<Item>)
    requires f.head.Some? && MeetFrom(f.index, [], f.head.value.Id(), head, b1, b2) && f.head.value == b1[0]
    requires b1[0].Num() > b2[0].Num()
    ensures CanGoBack(history, f, b2) <==> |b2| <= |history|
  {
    BranchNumbers(f.index, [], b1, |b1| - 1);
    BranchNumbers(f.index, [], b2, |b2| - 1);
    BelowOnBranch(f.index, [], b1, |b2|);
  }

  /** How far the windows have to reach below the fork head for the ancestors of the old tip. */
  function Reach(b1: seq<Item>, b2: seq<Item>): nat {
    if |b1| > |b2| then 2 * (|b1| - |b2|) - 1 else 0
  }

  /** Enough for the way back from any part of the new branch: windows that grow with it, and ancestors of the old tip
      that the windows reach. */
  ghost predicate CanComeBack<T>(tr: Transition<T>, base: State<T>, f: Forks, b1: seq<Item>, b2: seq<Item>)
    requires |b1| > 0 && |b2| > 0
  {
    && WindowsGrow(tr, base, InOrder(b1)) && WindowsReach(tr, base, InOrder(b1), Reach(b1, b2))
    && Below(f.index, [], b2[0], |b1| - 1).Some?
  }

  /** For a new branch that is one block longer, growing windows and the block at the fork point are enough. */
  lemma OneBlockLonger<T>(tr: Transition<T>, base: State<T>, f: Forks, b1: seq<Item>, b2: seq<Item>)
    requires Meet(f.index, [], b1, b2) && |b1| == |b2| + 1
    ensures CanComeBack(tr, base, f, b1, b2) <==>
            WindowsGrow(tr, base, InOrder(b1)) && Lock(f.index, [], b2[|b2| - 1]).Some?
  {
    BelowOnBranch(f.index, [], b2, |b2| - 1);
  }

  /** How the way from the fork point ends. An invalid branch is left again, if there is an undo state for each block
      applied and as many live ancestors of the old tip, the branches being held. */
  ghost function ClimbResult<T>(tr: Transition<T>, base: State<T>, room: Room, head: Option<Item>,
                                b1: seq<Item>, b2: seq<Item>): (r: PushResult)
    requires |b1| > 0 && |b2| > 0
    ensures r in {Switched, Thrown(NewBranchRejected), Thrown(PoppingNew)}
  {
    var k, left := CountApplied(tr, base, InOrder(b1)), AfterBlocks(tr, base, InOrder(b1), room, head);
    if k == |b1| then Switched
    else if k <= left.undo && CanStepDown(left.index - Ids(b1[..|b1| - k]), b1 + b2, Some(b2[0]), k)
    then Thrown(NewBranchRejected)
    else Thrown(PoppingNew)
  }

  lemma AllApplied<T>(tr: Transition<T>, s: State<T>, b: seq<Item>)
    ensures CountApplied(tr, s, InOrder(b)) == |b| <==> Replay(tr, s, InOrder(b)).Some?
  {
    assert InOrder(b)[..|b|] == InOrder(b);
  }

  /** How a switch from branch `b2` to branch `b1` ends. */
  ghost function SwitchResult<T>(tr: Transition<T>, history: seq<State<T>>, maxUndo: nat, f: Forks,
                                 b1: seq<Item>, b2: seq<Item>): (r: PushResult)
    requires |b1| > 0 && |b2| > 0
    ensures r in {Switched, Thrown(PoppingOld), Thrown(NewBranchRejected), Thrown(PoppingNew)}
  {
    if !CanGoBack(history, f, b2) then Thrown(PoppingOld)
    else
      var n := |history| - |b2|;
      ClimbResult(tr, history[n], Room(n, maxUndo, f.index, f.maxSize), Below(f.index, [], f.head.value, |b2|), b1, b2)
  }

  /** What a switch leaves: the chain, what is left for a way back, the fork head and the block store. */
  datatype Ending = Ending(chain: seq<Block>, room: Room, head: Option<Item>, slots: Slots)

  /** The fork head after `n` steps down. */
  ghost function SteppedDown(index: Index, pinned: seq<Item>, head: Option<Item>, n: nat): Option<Item> {
    if n == 0 || head.None? then head else Below(index, pinned, head.value, n)
  }

  /** Popping `n` blocks has stopped half-way: there is no undo state or no live ancestor left. The fork head steps down
      before the undo state is looked for. */
  ghost predicate Stopped(was: Ending, pinned: seq<Item>, n: nat, e: Ending) {
    var i, index := |was.chain| - |e.chain|, was.room.index;
    && 0 <= i < n && i <= was.room.undo && CanStepDown(index, pinned, was.head, i)
    && !(i < was.room.undo && CanStepDown(index, pinned, was.head, i + 1))
    && e == Ending(was.chain[..|e.chain|], was.room.(undo := was.room.undo - i),
                   SteppedDown(index, pinned, was.head, if CanStepDown(index, pinned, was.head, i + 1) then i + 1
                   else i),
                   was.slots)
  }

  /** What it leaves from the fork point on, where chain and block store were `start` and `slots`. After a completed
      switch the fork head is still where the old branch was popped from under it; after a rejected one the last block
      of the old branch is stored under the id of the new block. */
  ghost predicate ClimbEnds<T>(tr: Transition<T>, base: State<T>, room: Room, head: Option<Item>, b1: seq<Item>,
                               b2: seq<Item>, b: Block, start: seq<Block>, slots: Slots, r: PushResult, e: Ending)
    requires |b1| > 0 && |b2| > 0
  {
    var k, left := CountApplied(tr, base, InOrder(b1)), AfterBlocks(tr, base, InOrder(b1), room, head);
    var applied := InOrder(b1)[..k];
    var was := Ending(start + applied, left, head, StoredAll(slots, applied));
    if k == |b1| then r == Switched && e == was
    else Restored(tr, base, b1, b2, |b1| - 1 - k, b, start, was, r, e)
  }

  /** The way back after the block at position `failed` of the new branch was rejected, the chain at the fork point
      being `start`: how it ends and what it leaves. */
  ghost predicate Restored<T>(tr: Transition<T>, base: State<T>, b1: seq<Item>, b2: seq<Item>, failed: nat, b: Block,
                              start: seq<Block>, was: Ending, r: PushResult, e: Ending)
    requires failed < |b1| && |b2| > 0
  {
    var k, index := |b1| - 1 - failed, was.room.index - Ids(b1[..failed + 1]);
    if k <= was.room.undo && CanStepDown(index, b1 + b2, Some(b2[0]), k) then
      var head := Below(index, b1 + b2, b2[0], k);
      && r == Thrown(NewBranchRejected)
      && e == Ending(start + InOrder(b2),
                     AfterBlocks(tr, base, InOrder(b2), was.room.(undo := was.room.undo - k, index := index), head),
                       head,
                     was.slots[NumFromId(b.Id()) := (b.Id(), b2[0].block)])
    else
      && r == Thrown(PoppingNew)
      && Stopped(was.(room := was.room.(index := index), head := Some(b2[0])), b1 + b2, k, e)
  }

  /** The way back, as part of the way from the fork point. */
  lemma RestoredResult<T>(tr: Transition<T>, base: State<T>, room: Room, head: Option<Item>, b1: seq<Item>,
                          b2: seq<Item>, failed: nat, b: Block, start: seq<Block>, was: Ending, r: PushResult,
                            e: Ending)
    requires failed < |b1| && |b2| > 0 && CountApplied(tr, base, InOrder(b1)) == |b1| - 1 - failed
    requires was.room == AfterBlocks(tr, base, InOrder(b1), room, head)
    requires Restored(tr, base, b1, b2, failed, b, start, was, r, e)
    ensures r == ClimbResult(tr, base, room, head, b1, b2)
  {
    hide CountApplied, AfterBlocks, CanStepDown, Below, Stopped, Ids, InOrder, NumFromId;
    assert b1[..failed + 1] == b1[..|b1| - (|b1| - 1 - failed)];
  }

  lemma RestoredOld<T>(tr: Transition<T>, base: State<T>, b1: seq<Item>, b2: seq<Item>, failed: nat, b: Block,
                       start: seq<Block>, was: Ending, r: PushResult, e: Ending)
    requires failed < |b1| && |b2| > 0 && Restored(tr, base, b1, b2, failed, b, start, was, r, e)
    ensures r == Thrown(NewBranchRejected) ==> e.chain == start + InOrder(b2)
  {
    hide AfterBlocks, CanStepDown, Below, Stopped, Ids, InOrder, NumFromId;
  }

  /** What a switch leaves, where chain and block store were `was` and `slots`. If the old branch cannot be popped, the
      chain ends somewhere on it. */
  ghost predicate SwitchEnds<T>(tr: Transition<T>, history: seq<State<T>>, maxUndo: nat, f: Forks, b1: seq<Item>,
                                b2: seq<Item>, b: Block, was: seq<Block>, slots: Slots, r: PushResult, e: Ending)
    requires |b1| > 0 && |b2| > 0
  {
    if !CanGoBack(history, f, b2) then
      && r == Thrown(PoppingOld)
      && Stopped(Ending(was, Room(|history|, maxUndo, f.index, f.maxSize), f.head, slots), [], |b2|, e)
    else
      var n := |history| - |b2|;
      && |b2| <= |was|
      && ClimbEnds(tr, history[n], Room(n, maxUndo, f.index, f.maxSize), Below(f.index, [], f.head.value, |b2|), b1, b2,
                   b, was[..|was| - |b2|], slots, r, e)
  }

  lemma SwitchStops<T>(tr: Transition<T>, history: seq<State<T>>, maxUndo: nat, f: Forks, b1: seq<Item>, b2: seq<Item>,
                       b: Block, was: seq<Block>, slots: Slots, e: Ending)
    requires |b1| > 0 && |b2| > 0 && !CanGoBack(history, f, b2)
    requires Stopped(Ending(was, Room(|history|, maxUndo, f.index, f.maxSize), f.head, slots), [], |b2|, e)
    ensures SwitchResult(tr, history, maxUndo, f, b1, b2) == Thrown(PoppingOld)
    ensures SwitchEnds(tr, history, maxUndo, f, b1, b2, b, was, slots, Thrown(PoppingOld), e)
  {
    hide Stopped;
  }

  lemma SwitchGoesOn<T>(tr: Transition<T>, history: seq<State<T>>, maxUndo: nat, f: Forks, b1: seq<Item>, b2: seq<Item>,
                        b: Block, was: seq<Block>, slots: Slots, r: PushResult, e: Ending)
    requires |b1| > 0 && |b2| > 0 && CanGoBack(history, f, b2) && |b2| <= |was|
    requires var n := |history| - |b2|;
             var room, head := Room(n, maxUndo, f.index, f.maxSize), Below(f.index, [], f.head.value, |b2|);
             && r == ClimbResult(tr, history[n], room, head, b1, b2)
             && ClimbEnds(tr, history[n], room, head, b1, b2, b, was[..|was| - |b2|], slots, r, e)
    ensures SwitchResult(tr, history, maxUndo, f, b1, b2) == r
    ensures SwitchEnds(tr, history, maxUndo, f, b1, b2, b, was, slots, r, e)
  {
    hide ClimbResult, ClimbEnds, Below;
  }

  /** With windows that reach that far, a thrown switch leaves everything as it was. */
  lemma SwitchIsSafe<T>(tr: Transition<T>, history: seq<State<T>>, maxUndo: nat, f: Forks, head: BlockId,
                        b1: seq<Item>, b2: seq<Item>)
    requires forall id :: id in f.index ==> f.index[id].Id() == id
    requires f.head.Some? && MeetFrom(f.index, [], f.head.value.Id(), head, b1, b2) && CanGoBack(history, f, b2)
    requires CanComeBack(tr, history[|history| - |b2|], f, b1, b2)
    ensures SwitchResult(tr, history, maxUndo, f, b1, b2) in {Switched, Thrown(NewBranchRejected)}
  {
    hide Replay, AfterBlocks, CountApplied, WindowsReach, WindowsGrow, InOrder, Lock, NoSharedParent, ClimbResult;
    var n := |history| - |b2|;
    BranchesInIndex(f.index, f.head.value.Id(), head, b1, b2);
    IdDeterminesBlock(f.head.value.block, b1[0].block);
    ClimbIsSafe(tr, history[n], Room(n, maxUndo, f.index, f.maxSize), f, Below(f.index, [], f.head.value, |b2|).value,
      b1, b2);
  }

  /** Blocks with payload 1 are rejected; the others apply, and leave wide windows. */
  function OnesRejected(): Transition<nat> {
    (body: nat, b: Block) => if b.payload == 1 then Rejected(None) else Applied(body, 100)
  }

  /** Without the block at the fork point in the fork database, an invalid second block of the new branch is enough
      to lose the old branch: the first one cannot be popped again. */
  lemma OldBranchLost(fork: BlockId)
    ensures var x, y := Item(0, Block(fork, 0), None), Item(1, Block(fork, 2), None);
            var z := Item(2, Block(y.Id(), 1), Some(1));
            var f := Forks(map[x.Id() := x, y.Id() := y, z.Id() := z], Some(z), 100, 3);
            var history := [State(fork, 0)];
            && MeetFrom(f.index, [], z.Id(), x.Id(), [z, y], [x]) && CanGoBack(history, f, [x])
            && SwitchResult(OnesRejected(), history, 100, f, [z, y], [x]) == Thrown(PoppingNew)
  {
    var x, y := Item(0, Block(fork, 0), None), Item(1, Block(fork, 2), None);
    var z := Item(2, Block(y.Id(), 1), Some(1));
    var f := Forks(map[x.Id() := x, y.Id() := y, z.Id() := z], Some(z), 100, 3);
    OneStepDown(f.index, [], z);
    assert MeetFrom(f.index, [], z.Id(), x.Id(), [z, y], [x]);
    var tr, base := OnesRejected(), State(fork, 0);
    var bs := InOrder([z, y]);
    assert bs == [y.block, z.block] && bs[..1] == [y.block] && bs[..2] == bs;
    TwoBlocks(tr, base, y.block, z.block);
    hide Replay, InOrder, AfterBlocks;
    FirstRejected(tr, base, bs, 1);
    forall index: Index, pinned: seq<Item> ensures Below(index, pinned, x, 1).None? { OneStepDown(index, pinned, x); }
  }

  lemma OneStepDown(index: Index, pinned: seq<Item>, item: Item)
    ensures Below(index, pinned, item, 1) == Lock(index, pinned, item)
  {
    assert Below(index, pinned, item, 0) == Some(item);
  }

  lemma TwoBlocks<T>(tr: Transition<T>, s: State<T>, a: Block, b: Block)
    ensures Replay(tr, s, [a]) == Apply(tr, s, a)
    ensures Replay(tr, s, [a, b]) == if Apply(tr, s, a).None? then None else Apply(tr, Apply(tr, s, a).value, b)
  {
    ReplayStep(tr, s, [], a);
    assert [] + [a] == [a];
    if Apply(tr, s, a).Some? {
      ReplayStep(tr, s, [a], b);
      assert [a] + [b] == [a, b];
    } else {
      assert [a, b][..1] == [a];
    }
  }

  lemma ClimbIsSafe<T>(tr: Transition<T>, base: State<T>, room: Room, f: Forks, top: Item, b1: seq<Item>, b2: seq<Item>)
    requires Meet(f.index, [], b1, b2) && AllIn(f.index, b1) && AllIn(f.index, b2) && room.index == f.index
    requires top.Num() + |b2| == b1[0].Num() && CanComeBack(tr, base, f, b1, b2)
    ensures ClimbResult(tr, base, room, Some(top), b1, b2) in {Switched, Thrown(NewBranchRejected)}
  {
    hide Replay, AfterBlocks, CountApplied, WindowsReach, WindowsGrow, InOrder, Kept, Shrunk, Lock, NoSharedParent,
         AllIn, Below,
         CanStepDown;
    UndoStatesLeft(tr, base, InOrder(b1), room, Some(top));
    LinksLeft(tr, base, InOrder(b1), room, Some(top), Reach(b1, b2));
    var k, left := CountApplied(tr, base, InOrder(b1)), AfterBlocks(tr, base, InOrder(b1), room, Some(top));
    if k < |b1| {
      WayBack(f, left.index, Some(top), b1, b2, |b1| - 1 - k);
    }
  }

  /** How a push ends and what it leaves, `f` being the fork database with the block in it, and `was` and `slots` chain
      and block store before. The block is applied if the fork head builds on the head of the chain; otherwise the fork
      head must be higher, and branches must meet. */
  ghost predicate Outcome<T>(tr: Transition<T>, s: State<T>, history: seq<State<T>>, maxUndo: nat, f: Forks, b: Block,
                             direct: bool, was: seq<Block>, slots: Slots, r: PushResult, e: Ending)
    requires direct || f.head.Some?
  {
    var before := Ending(was, Room(|history|, maxUndo, f.index, f.maxSize), f.head, slots);
    if direct || f.head.value.block.previous == s.head then OnTop(tr, s, b, before, r, e)
    else if f.head.value.Num() <= NumFromId(s.head) then r == NotSwitched && e == before
    else Switching(tr, s, history, maxUndo, f, b, was, slots, r, e)
  }

  /** The block is applied, or leaves the fork database again. */
  ghost predicate OnTop<T>(tr: Transition<T>, s: State<T>, b: Block, was: Ending, r: PushResult, e: Ending) {
    var room := AfterBlock(tr, s, b, was.room, was.head);
    if Apply(tr, s, b).Some? then
      && r == Extended
      && e == Ending(was.chain + [b], room, was.head, was.slots[NumFromId(b.Id()) := (b.Id(), b)])
    else r == Thrown(BlockRejected) && e == was.(room := room.(index := room.index - {b.Id()}))
  }

  /** How a push ends that has to change branches, and what it leaves. */
  ghost predicate Switching<T>(tr: Transition<T>, s: State<T>, history: seq<State<T>>, maxUndo: nat, f: Forks,
                               b: Block, was: seq<Block>, slots: Slots, r: PushResult, e: Ending)
    requires f.head.Some?
  {
    if r == Thrown(BranchSearch) then
      && e == Ending(was, Room(|history|, maxUndo, f.index, f.maxSize), f.head, slots)
      && !exists b1, b2 :: MeetFrom(f.index, [], f.head.value.Id(), s.head, b1, b2)
    else
      exists b1, b2 :: && MeetFrom(f.index, [], f.head.value.Id(), s.head, b1, b2)
                       && r == SwitchResult(tr, history, maxUndo, f, b1, b2)
                       && SwitchEnds(tr, history, maxUndo, f, b1, b2, b, was, slots, r, e)
  }

  class Chain<T> {
    const transition: Transition<T>
    const fork: Tree
    var state: State<T>
    /** Undo states of the committed blocks, oldest first, as the states they lead back to. */
    var history: seq<State<T>>
    var maxUndo: nat
    /** The block store: one slot per block number. */
    var slots: Slots

    ghost const genesis: State<T>
    /** The blocks applied since `genesis`. */
    ghost var chain: seq<Block>

    /** The object state is the replay of a chain, and every undo state is the replay of a prefix of it. */
    ghost predicate Valid()
      reads this, fork
    {
      && fork.Valid()
      && Replay(transition, genesis, chain) == Some(state)
      && HistoryReplays(transition, genesis, chain, history)
    }

    constructor (transition: Transition<T>, start: State<T>)
      ensures Valid() && fresh(fork)
      ensures this.transition == transition && genesis == start && state == start && chain == [] && history == []
      ensures slots == map[]
    {
      this.transition := transition;
      fork := new Tree();
      state, history, maxUndo, slots := start, [], 256, map[];
      genesis, chain := start, [];
    }

    /** What pop_block needs: a known head block, a live parent of the fork head, and an undo state. */
    ghost predicate CanPop()
      reads this, fork
    {
      Known(fork.index, slots, state.head) && fork.CanPopHead() && history != []
    }

    /** The trimming that start_undo_session does: the oldest undo states beyond `maxUndo` are dropped. */
    method TrimHistory()
      requires Valid()
      modifies this`history
      ensures Valid()
      ensures var kept := if |old(history)| > maxUndo then maxUndo else |old(history)|;
              history == old(history)[|old(history)| - kept..]
    {
      while |history| > maxUndo
        invariant |history| <= |old(history)| && history == old(history)[|old(history)| - |history|..]
        invariant |history| >= if |old(history)| > maxUndo then maxUndo else |old(history)|
        invariant Valid()
        decreases |history|
      {
        HistoryDropOldest(transition, genesis, chain, history, 1);
        history := history[1..];
      }
    }

    /** One undo session around apply_block, committed if the block applies. A rejected block changes neither the
        state nor the chain. */
    method TryApply(b: Block, storeAs: BlockId) returns (ok: bool)
      requires Valid()
      modifies this, fork`index, fork`maxSize, fork`floor
      ensures Valid()
      ensures ok <==> Apply(transition, old(state), b).Some?
      ensures ok ==> state == Apply(transition, old(state), b).value && chain == old(chain) + [b]
      ensures ok ==> slots == old(slots)[NumFromId(storeAs) := (storeAs, b)]
      ensures !ok ==> state == old(state) && chain == old(chain) && slots == old(slots)
      ensures var kept := if |old(history)| > old(maxUndo) then old(maxUndo) else |old(history)|;
              history == old(history)[|old(history)| - kept..] + if ok then [old(state)] else []
      ensures var window := WindowSet(transition, old(state), b);
              && maxUndo == (if window.Some? then window.value else old(maxUndo))
              && fork.maxSize == (if window.Some? then window.value else old(fork.maxSize))
              && fork.index == (if window.Some? && fork.head.Some?
                                then Retained(old(fork.index), WindowFloor(fork.head.value.Num(), window.value))
                                else old(fork.index))
              && fork.floor == if window.Some? && fork.head.Some?
                               then Higher(old(fork.floor), WindowFloor(fork.head.value.Num(), window.value))
                               else old(fork.floor)
      ensures old(fork.Linked()) ==> fork.Linked()
      // a block that is applied sets both windows
      ensures old(state).head == b.previous && transition(old(state).body, b).Applied? ==>
                var r := transition(old(state).body, b);
                ok && state.body == r.body && maxUndo == r.window && fork.maxSize == r.window
    {
      hide Replay, HistoryReplays, Tree.Valid, AllLinked;
      TrimHistory();
      if state.head != b.previous {
        return false;
      }
      match transition(state.body, b)
      case Applied(body, window) =>
        ReplayStep(transition, genesis, chain, b);
        HistoryPush(transition, genesis, chain, history, b);
        history := history + [state];
        state := State(b.Id(), body);
        chain := chain + [b];
        maxUndo := window;
        fork.SetMaxSize(window);
        slots := slots[NumFromId(storeAs) := (storeAs, b)];
        return true;
      case Rejected(window) =>
        // the session undoes itself; the windows stay as they were set
        if window.Some? {
          maxUndo := window.value;
          fork.SetMaxSize(window.value);
        }
        return false;
    }

    /** database::pop_block: the head block is taken back. */
    method PopBlock() returns (ok: bool)
      requires Valid()
      modifies this`state, this`history, this`chain, fork`head
      ensures Valid()
      ensures ok <==> old(CanPop())
      ensures ok ==> && |old(chain)| > 0 && chain == old(chain)[..|old(chain)| - 1]
                     && history == old(history)[..|old(history)| - 1]
                     && state == old(history)[|old(history)| - 1]
      ensures !ok ==> state == old(state) && chain == old(chain) && history == old(history)
      ensures ok ==> old(fork.head).Some?
      ensures fork.head == if old(Known(fork.index, slots, state.head)) && old(fork.CanPopHead())
                           then Lock(fork.index, fork.held, old(fork.head).value) else old(fork.head)
    {
      hide Replay, HistoryReplays, Lock, Known;
      if !Known(fork.index, slots, state.head) {
        return false;
      }
      ok := fork.PopBlock();
      if !ok {
        return;
      }
      if history == [] {
        return false;
      }
      var n := |history| - 1;
      HistoryPop(transition, genesis, chain, history);
      state := history[n];
      history, chain := history[..n], chain[..|chain| - 1];
      return true;
    }

    /** Pops blocks until the block `id`, which is `n` blocks below the head of the chain, is the head. */
    method PopTo(id: BlockId, ghost n: nat) returns (ok: bool)
      requires Valid()
      requires n <= |chain| ==> HeadAt(genesis, chain, |chain| - n) == id
      requires forall k :: 0 <= k <= |chain| && |chain| < k + n ==>
                 HeadAt(genesis, chain, k) != id && Known(fork.index, slots, HeadAt(genesis, chain, k))
      modifies this`state, this`history, this`chain, fork`head
      ensures Valid()
      ensures ok <==> n <= |old(history)| && CanStepDown(fork.index, fork.held, old(fork.head), n)
      ensures ok ==> && n <= |old(chain)| && chain == old(chain)[..|old(chain)| - n]
                     && history == old(history)[..|old(history)| - n]
                     && state == if n == 0 then old(state) else old(history)[|old(history)| - n]
      ensures ok && n > 0 ==> fork.head == Below(fork.index, fork.held, old(fork.head).value, n)
      ensures n == 0 ==> fork.head == old(fork.head)
      ensures !ok ==> Stopped(old(Now()), fork.held, n, Now())
    {
      hide Replay, HistoryReplays, CanStepDown, Lock, Known, Stopped, HeadAt, Below, Tree.Valid;
      ghost var i := 0;
      while state.head != id
        invariant Valid() && i <= n && i <= |old(chain)| && i <= |old(history)|
        invariant chain == old(chain)[..|old(chain)| - i] && history == old(history)[..|old(history)| - i]
        invariant state == if i == 0 then old(state) else old(history)[|old(history)| - i]
        invariant i == 0 ==> fork.head == old(fork.head)
        invariant i > 0 ==> && old(fork.head).Some? && fork.head.Some?
                            && fork.head == Below(fork.index, fork.held, old(fork.head).value, i)
        decreases |chain|
      {
        HeadOfPrefix(old(chain), |old(chain)| - i);
        assert i < n;
        StepRefused(fork.index, fork.held, old(fork.head), fork.head, i, n);
        ghost var head := fork.head;
        ok := PopBlock();
        if !ok {
          StoppedHere(old(Now()), fork.held, n, i, head, Now());
          return;
        }
        StepTaken(fork.index, fork.held, old(fork.head), head, i);
        i := i + 1;
      }
      HeadOfPrefix(old(chain), |old(chain)| - i);
      assert i == n;
      StepsTaken(fork.index, fork.held, old(fork.head), fork.head, n);
      return true;
    }

    lemma HeadOfPrefix(longer: seq<Block>, k: nat)
      requires k <= |longer| && chain == longer[..k] && Replay(transition, genesis, chain) == Some(state)
      ensures state.head == HeadAt(genesis, longer, k)
    {
      ReplayIsLinked(transition, genesis, chain);
    }

    ghost function RoomLeft(): Room
      reads this`history, this`maxUndo, fork`index, fork`maxSize
    {
      Room(|history|, maxUndo, fork.index, fork.maxSize)
    }

    ghost function Now(): Ending
      reads this`chain, this`history, this`maxUndo, this`slots, fork`index, fork`head, fork`maxSize
    {
      Ending(chain, RoomLeft(), fork.head, slots)
    }

    /** Applies the blocks of a branch, lowest first. Stops at the first block that does not apply: `failed` is its
        position in the branch. */
    method ApplyBranch(b: seq<Item>, storeAs: Option<BlockId>) returns (ok: bool, failed: nat)
      requires Valid() && Descending(b)
      modifies this, fork`index, fork`maxSize, fork`floor
      ensures Valid()
      ensures ok <==> Replay(transition, old(state), InOrder(b)).Some?
      ensures ok ==> chain == old(chain) + InOrder(b)
      ensures !ok ==> failed < |b| && chain == old(chain) + InOrder(b[failed + 1..])
                      && |b| - 1 - failed == CountApplied(transition, old(state), InOrder(b))
      ensures RoomLeft() == AfterBlocks(transition, old(state), InOrder(b), old(RoomLeft()), fork.head)
      ensures storeAs.None? ==>
                && (forall i :: (if ok then 0 else failed + 1) <= i < |b| ==> Stored(slots, b[i].Id()))
                && slots == StoredAll(old(slots), if ok then InOrder(b) else InOrder(b[failed + 1..]))
      ensures storeAs.Some? && ok && b != [] ==>
                slots == old(slots)[NumFromId(storeAs.value) := (storeAs.value, b[0].block)]
    {
      hide Replay, HistoryReplays, InOrder, Apply, Stored, WindowSet, Descending, AfterBlock, AfterBlocks, CountApplied,
           StoredAll;
      var i := |b|;
      ghost var start, room := state, RoomLeft();
      NothingApplied(transition, state, b, room, fork.head);
      assert StoredAll(slots, []) == slots by { StoredNone(slots); }
      while i > 0
        invariant 0 <= i <= |b|
        invariant Valid()
        invariant chain == old(chain) + InOrder(b[i..])
        invariant Replay(transition, start, InOrder(b[i..])) == Some(state)
        invariant storeAs.None? ==> && (forall j :: i <= j < |b| ==> Stored(slots, b[j].Id()))
                                    && slots == StoredAll(old(slots), InOrder(b[i..]))
        invariant storeAs.Some? ==>
                    slots == if i == |b| then old(slots)
                             else old(slots)[NumFromId(storeAs.value) := (storeAs.value, b[i].block)]
        invariant RoomLeft() == AfterBlocks(transition, start, InOrder(b[i..]), room, fork.head)
      {
        i := i - 1;
        OneMoreApplied(transition, start, b, i);
        AfterOneMore(transition, start, InOrder(b[i + 1..]), b[i].block, room, fork.head);
        ghost var before, s, stored := RoomLeft(), state, slots;
        ok := TryApply(b[i].block, if storeAs.Some? then storeAs.value else b[i].Id());
        RoomAfter(transition, s, b[i].block, before, RoomLeft(), fork.head);
        if !ok {
          RejectedAt(transition, start, b, i, room, fork.head);
          return false, i;
        }
        if storeAs.None? {
          OneMoreStored(stored, slots, b, i);
          StoredLast(old(slots), InOrder(b[i + 1..]), b[i].block);
        }
      }
      assert b[0..] == b;
      return true, 0;
    }

    /** The loop that drops the rest of a bad branch from the fork database, from position `from` up to the tip. */
    method RemoveBadBlocks(b: seq<Item>, from: nat)
      requires fork.Valid() && from < |b|
      modifies fork`index
      ensures fork.Valid()
      ensures fork.index == old(fork.index) - Ids(b[..from + 1])
    {
      var i := from + 1;
      while i > 0
        invariant 0 <= i <= from + 1 && fork.Valid()
        invariant fork.index == old(fork.index) - (set j | i <= j <= from :: b[j].Id())
      {
        i := i - 1;
        fork.Remove(b[i].Id());
      }
      assert Ids(b[..from + 1]) == set j | 0 <= j <= from :: b[j].Id() by {
        assert forall j :: 0 <= j <= from ==> b[..from + 1][j] == b[j];
      }
    }

    /** The first part of the way back from a new branch whose block at position `failed` is invalid: that block and
        those above it leave the fork database, and the blocks applied so far are popped. */
    method BackToFork(b1: seq<Item>, b2: seq<Item>, failed: nat, ghost base: seq<Block>, ghost index: Index)
      returns (ok: bool)
      requires Valid() && |b2| > 0 && b1 != [] && b1[|b1| - 1].block.previous == b2[|b2| - 1].block.previous
      requires IsBranch(index, [], b1) && fork.held == b1 + b2 && AllIn(index, b2)
      requires failed < |b1| && chain == base + InOrder(b1[failed + 1..])
      requires forall i :: failed < i < |b1| ==> Stored(slots, b1[i].Id())
      requires HeadAt(genesis, base, |base|) == b1[|b1| - 1].block.previous
      modifies this`state, this`history, this`chain, fork`index, fork`head
      ensures Valid() && fork.index == old(fork.index) - Ids(b1[..failed + 1])
      ensures ok <==> && |b1| - 1 - failed <= |old(history)|
                      && CanStepDown(fork.index, b1 + b2, Some(b2[0]), |b1| - 1 - failed)
      ensures ok ==> && chain == base && |history| == |old(history)| - (|b1| - 1 - failed)
                     && fork.head == Below(fork.index, b1 + b2, b2[0], |b1| - 1 - failed)
      ensures !ok ==> Stopped(old(Now()).(room := old(RoomLeft()).(index := fork.index), head := Some(b2[0])), b1 + b2,
                              |b1| - 1 - failed, Now())
    {
      hide Stopped, HeadAt, Replay, HistoryReplays, InOrder, Lock, Stored, CanStepDown, Below, IsBranch, AllIn, Ids;
      RemoveBadBlocks(b1, failed);
      NoStepDown(fork.index, b1 + b2, b2[0]);
      fork.SetHead(b2[0]);
      HeadsOfBranch(base, b1, failed, index);
      ok := PopTo(b2[|b2| - 1].block.previous, |b1| - 1 - failed);
    }

    /** The way back from a new branch: to the fork point, and up the old branch again. */
    method Restore(b1: seq<Item>, b2: seq<Item>, failed: nat, newBlock: Block,
                   ghost base: seq<Block>, ghost index: Index)
      returns (r: PushResult)
      requires Valid()
      requires Meet(index, [], b1, b2) && AllIn(index, b1) && AllIn(index, b2)
      requires fork.held == b1 + b2
      requires failed < |b1| && chain == base + InOrder(b1[failed + 1..])
      requires forall i :: failed < i < |b1| ==> Stored(slots, b1[i].Id())
      requires HeadAt(genesis, base, |base|) == b1[|b1| - 1].block.previous
      requires Replay(transition, genesis, base).Some? && Replay(transition, genesis, base + InOrder(b2)).Some?
      modifies this, fork`index, fork`head, fork`maxSize, fork`floor
      ensures Valid()
      ensures Restored(transition, Replay(transition, genesis, base).value, b1, b2, failed, newBlock, base, old(Now()),
                       r, Now())
    {
      hide Replay, HistoryReplays, InOrder, Lock, NoSharedParent, AfterBlocks, Stored, CanStepDown, Below, AllIn, Known,
           IsBranch, Ids, Stopped;
      var ok := BackToFork(b1, b2, failed, base, index);
      if !ok {
        return Thrown(PoppingNew);
      }
      ReplayConcat(transition, genesis, base, InOrder(b2));
      BranchDescends(index, [], b2);
      var again, _ := ApplyBranch(b2, Some(newBlock.Id()));
      assert again;  // blocks that applied before apply again
      return Thrown(NewBranchRejected);
    }

    /** The first part of a switch: back to the fork point. */
    method PopOldBranch(b1: seq<Item>, b2: seq<Item>) returns (ok: bool)
      requires Valid() && fork.held == b1 + b2 && AllIn(fork.index, b1) && AllIn(fork.index, b2)
      requires |b2| > 0 && IsBranch(fork.index, [], b2) && b2[0].Id() == state.head
      modifies this`state, this`history, this`chain, fork`head
      ensures Valid() && (ok <==> CanGoBack(old(history), old(fork.Contents()), b2))
      ensures ok ==>
                && old(chain) == chain + InOrder(b2) && |chain| == |old(chain)| - |b2|
                && HeadAt(genesis, chain, |chain|) == b2[|b2| - 1].block.previous
                && |history| == |old(history)| - |b2| && state == old(history)[|history|]
                && old(fork.head).Some? && fork.head == Below(fork.index, [], old(fork.head).value, |b2|)
      ensures !ok ==> Stopped(old(Now()), [], |b2|, Now())
    {
      hide Replay, HistoryReplays, InOrder, Lock, Known, CanStepDown, Below, IsBranch, AllIn, Stopped, Tree.Valid;
      ghost var start, f := chain, fork.Contents();
      HeadsOfOldBranch(b2);
      ok := PopTo(b2[|b2| - 1].block.previous, |b2|);
      StepsInIndex(f, b1, b2, |b2|);
      if ok {
        StepsThere(f, |b2|);
        assert start == chain + InOrder(b2) by { TopIsBranch(transition, genesis, start, f.index, [], b2); }
        ReplayIsLinked(transition, genesis, chain);
      } else {
        StoppedInIndex(old(Now()), b1, b2, |b2|, Now());
      }
    }

    /** The switch itself, from the branches on: back to the fork point, then up the new branch; if a block of the new
        branch is invalid, back again and up the old branch. */
    method SwitchTo(b1: seq<Item>, b2: seq<Item>, newBlock: Block) returns (r: PushResult)
      requires Valid() && fork.held == b1 + b2 && fork.head.Some?
      requires MeetFrom(fork.index, [], fork.head.value.Id(), state.head, b1, b2)
      modifies this, fork`index, fork`head, fork`maxSize, fork`floor
      ensures Valid()
      ensures r == SwitchResult(transition, old(history), old(maxUndo), old(fork.Contents()), b1, b2)
      ensures SwitchEnds(transition, old(history), old(maxUndo), old(fork.Contents()), b1, b2, newBlock, old(chain),
                         old(slots), r, Now())
      // a switch to an invalid branch: everything as before
      ensures r == Thrown(NewBranchRejected) ==> state == old(state) && chain == old(chain)
    {
      hide Replay, HistoryReplays, InOrder, Lock, NoSharedParent, Known, ClimbResult, ClimbEnds, CanStepDown, Below,
           IsBranch, AllIn, Stopped, SwitchResult, SwitchEnds, CanGoBack, HeadAt;
      ghost var start, f := chain, fork.Contents();
      BranchesInIndex(fork.index, fork.head.value.Id(), state.head, b1, b2);
      assert b1[|b1| - 1].block.previous == b2[|b2| - 1].block.previous;
      var ok := PopOldBranch(b1, b2);
      if !ok {
        SwitchStops(transition, old(history), old(maxUndo), f, b1, b2, newBlock, start, old(slots), Now());
        return Thrown(PoppingOld);
      }
      ghost var base := chain;
      assert start[..|start| - |b2|] == base;
      r := Climb(b1, b2, newBlock, f.index, base);
      SwitchGoesOn(transition, old(history), old(maxUndo), f, b1, b2, newBlock, start, old(slots), r, Now());
    }

    /** The second part of a switch, from the fork point on. */
    method Climb(b1: seq<Item>, b2: seq<Item>, newBlock: Block, ghost index: Index, ghost base: seq<Block>)
      returns (r: PushResult)
      requires Valid() && fork.held == b1 + b2 && fork.index == index && chain == base
      requires Meet(index, [], b1, b2) && AllIn(index, b1) && AllIn(index, b2)
      requires HeadAt(genesis, base, |base|) == b1[|b1| - 1].block.previous
      requires Replay(transition, genesis, base + InOrder(b2)).Some?
      modifies this, fork`index, fork`head, fork`maxSize, fork`floor
      ensures Valid()
      ensures r == ClimbResult(transition, old(state), old(RoomLeft()), old(fork.head), b1, b2)
      ensures ClimbEnds(transition, old(state), old(RoomLeft()), old(fork.head), b1, b2, newBlock, base, old(slots),
                        r, Now())
      ensures r == Thrown(NewBranchRejected) ==> chain == base + InOrder(b2)
    {
      hide Replay, HistoryReplays, InOrder, Lock, NoSharedParent, Stored, Known, AfterBlocks, CanStepDown, CountApplied,
           Below, AllIn, Ids, StoredAll, NumFromId;
      assert IsBranch(index, [], b1) && |b1| > 0 && |b2| > 0;
      hide Meet, IsBranch, Restored;
      BranchDescends(index, [], b1);
      var ok, failed := ApplyBranch(b1, None);
      AllApplied(transition, old(state), b1);
      if ok {
        assert InOrder(b1)[..|b1|] == InOrder(b1);
        return Switched;
      }
      ghost var was := Now();
      InOrderSuffix(b1, failed + 1);
      r := Restore(b1, b2, failed, newBlock, base, index);
      RestoredResult(transition, old(state), old(RoomLeft()), old(fork.head), b1, b2, failed, newBlock, base, was, r,
                     Now());
      RestoredOld(transition, old(state), b1, b2, failed, newBlock, base, was, r, Now());
    }

    /** database::_push_block. Whatever happens, also when it throws, the object state is a replay of a linked chain
        ending at the head block (`Valid`). */
    method PushBlock(newBlock: Block, skipForkDb: bool) returns (r: PushResult)
      requires Valid() && fork.held == []
      modifies this, fork
      ensures Valid() && fork.held == []
      ensures r == Thrown(ForkRejected) <==> !skipForkDb && !Accepts(old(fork.Contents()), newBlock)
      ensures r == Thrown(ForkRejected) ==> fork.Contents() == old(fork.Contents()) && Now() == old(Now())
      ensures r != Thrown(ForkRejected) ==>
                var f := if skipForkDb then old(fork.Contents()) else Pushed(old(fork.Contents()), newBlock);
                && Outcome(transition, old(state), old(history), old(maxUndo), f, newBlock, skipForkDb, old(chain),
                           old(slots), r, Now())
                && fork.nextSerial == f.nextSerial
      ensures r == Extended ==> state.head == newBlock.Id() && Some(state) == Apply(transition, old(state), newBlock)
      ensures r == NotSwitched || (r.Thrown? && r.stage !in {PoppingOld, PoppingNew}) ==>
                state == old(state) && chain == old(chain)
    {
      hide Switching, Replay, HistoryReplays, Pushed, AfterBlock;
      PushLeavesHead(fork.Contents(), newBlock);
      if !skipForkDb {
        var ok := fork.PushBlock(newBlock);
        if !ok {
          return Thrown(ForkRejected);
        }
        var newHead := fork.head.value;
        if newHead.block.previous != state.head {
          if newHead.Num() <= NumFromId(state.head) {
            return NotSwitched;
          }
          r := SwitchForks(newBlock);
          return;
        }
      }
      r := ApplyOnTop(newBlock);
    }

    /** The part of _push_block for a block on top of the head. */
    method ApplyOnTop(newBlock: Block) returns (r: PushResult)
      requires Valid() && fork.held == []
      modifies this, fork`index, fork`maxSize, fork`floor
      ensures Valid()
      ensures OnTop(transition, old(state), newBlock, old(Now()), r, Now())
      ensures r == Extended ==> Some(state) == Apply(transition, old(state), newBlock)
      ensures r == Thrown(BlockRejected) ==> state == old(state)
    {
      hide Replay, HistoryReplays, WindowSet, Apply, AfterBlock;
      var ok := TryApply(newBlock, newBlock.Id());
      RoomAfter(transition, old(state), newBlock, old(RoomLeft()), RoomLeft(), fork.head);
      if ok {
        return Extended;
      }
      fork.Remove(newBlock.Id());
      return Thrown(BlockRejected);
    }

    /** The part of _push_block that changes branches. */
    method SwitchForks(newBlock: Block) returns (r: PushResult)
      requires Valid() && fork.held == [] && fork.head.Some? && fork.head.value.Num() > NumFromId(state.head)
      modifies this, fork`index, fork`head, fork`maxSize, fork`floor, fork`held
      ensures Valid() && fork.held == []
      ensures r == Switched || (r.Thrown? && r.stage in {BranchSearch, PoppingOld, NewBranchRejected, PoppingNew})
      ensures Switching(transition, old(state), old(history), old(maxUndo), old(fork.Contents()), newBlock, old(chain),
                        old(slots), r, Now())
      ensures r == Thrown(NewBranchRejected) || r == Thrown(BranchSearch) ==> state == old(state) && chain == old(chain)
    {
      hide SwitchResult, SwitchEnds, Replay, HistoryReplays, InOrder, Lock, Meet, AllIn;
      var newHead := fork.head.value;
      var ok, b1, b2 := fork.FetchBranchFrom(newHead.Id(), state.head);
      SearchedBelow(newHead);
      if !ok {
        return Thrown(BranchSearch);
      }
      BranchesInIndex(fork.index, fork.head.value.Id(), state.head, b1, b2);
      fork.Hold(b1 + b2);
      r := SwitchTo(b1, b2, newBlock);
      fork.Hold([]);
    }

    /** The branches are those that the pointers to the head have no part in. */
    lemma SearchedBelow(newHead: Item)
      requires fork.Valid() && fork.head == Some(newHead) && fork.held == [] && newHead.Num() > NumFromId(state.head)
      ensures forall b1, b2 :: MeetFrom(fork.index, fork.Pinned(), newHead.Id(), state.head, b1, b2) <==>
                               MeetFrom(fork.index, [], newHead.Id(), state.head, b1, b2)
    {
      assert fork.Pinned() == [newHead];
      IdDeterminesBlock(newHead.block, newHead.block);
      if newHead.Id() in fork.index { IdDeterminesBlock(fork.index[newHead.Id()].block, newHead.block); }
      HeadIsNoMatter(fork.index, newHead, newHead.Id(), state.head);
    }

    /** What PopTo needs to know about the old branch. */
    lemma HeadsOfOldBranch(b2: seq<Item>)
      requires Replay(transition, genesis, chain) == Some(state)
      requires IsBranch(fork.index, [], b2) && AllIn(fork.index, b2) && |b2| > 0 && b2[0].Id() == state.head
      ensures |b2| <= |chain| ==> HeadAt(genesis, chain, |chain| - |b2|) == b2[|b2| - 1].block.previous
      ensures forall k :: 0 <= k <= |chain| && |chain| < k + |b2| ==>
                HeadAt(genesis, chain, k) != b2[|b2| - 1].block.previous
                && Known(fork.index, slots, HeadAt(genesis, chain, k))
    {
      if |b2| <= |chain| { TopIsBranch(transition, genesis, chain, fork.index, [], b2); }
      forall k | 0 <= k <= |chain| && |chain| < k + |b2|
        ensures HeadAt(genesis, chain, k) != b2[|b2| - 1].block.previous && HeadAt(genesis, chain, k) in fork.index
      {
        FootNotTooSoon(transition, genesis, chain, fork.index, [], b2, k);
        HeadOnBranch(transition, genesis, chain, fork.index, b2, |chain| - k);
      }
    }

    /** What PopTo needs to know about the part of the new branch that was applied. */
    lemma HeadsOfBranch(base: seq<Block>, b1: seq<Item>, failed: nat, index: Index)
      requires IsBranch(index, [], b1) && failed < |b1| && chain == base + InOrder(b1[failed + 1..])
      requires forall i :: failed < i < |b1| ==> Stored(slots, b1[i].Id())
      requires HeadAt(genesis, base, |base|) == b1[|b1| - 1].block.previous
      ensures HeadAt(genesis, chain, |base|) == b1[|b1| - 1].block.previous
      ensures chain[..|base|] == base && |chain| == |base| + |b1| - 1 - failed
      ensures forall k :: |base| < k <= |chain| ==>
                HeadAt(genesis, chain, k) != b1[|b1| - 1].block.previous && Stored(slots, HeadAt(genesis, chain, k))
    {
      forall k | |base| < k <= |chain|
        ensures HeadAt(genesis, chain, k) != b1[|b1| - 1].block.previous && Stored(slots, HeadAt(genesis, chain, k))
      {
        var i := |b1| - (k - |base|);
        assert chain[k - 1] == b1[i].block;
        BranchAboveItsFoot(index, [], b1, i);
      }
    }
  }

  lemma NothingApplied<T>(tr: Transition<T>, s: State<T>, b: seq<Item>, room: Room, head: Option<Item>)
    ensures AfterBlocks(tr, s, InOrder(b[|b|..]), room, head) == room
    ensures InOrder(b[|b|..]) == [] && Replay(tr, s, InOrder(b[|b|..])) == Some(s)
  {
  }

  /** The next block of a branch, from its tip downwards, is the last one applied; if it does not apply, the branch does
      not. */
  lemma OneMoreApplied<T>(tr: Transition<T>, s: State<T>, b: seq<Item>, i: nat)
    requires i < |b| && Replay(tr, s, InOrder(b[i + 1..])).Some?
    ensures InOrder(b[i..]) == InOrder(b[i + 1..]) + [b[i].block]
    ensures Replay(tr, s, InOrder(b[i..])) == Apply(tr, Replay(tr, s, InOrder(b[i + 1..])).value, b[i].block)
    ensures Replay(tr, s, InOrder(b[i..])).None? ==> Replay(tr, s, InOrder(b)).None?
  {
    hide Apply, Replay;
    assert b[i..][1..] == b[i + 1..];
    ReplayStep(tr, s, InOrder(b[i + 1..]), b[i].block);
    InOrderSuffix(b, i);
    hide InOrder;
    if Replay(tr, s, InOrder(b)).Some? {
      ReplayPrefix(tr, s, InOrder(b), |b| - i);
    }
  }

  lemma NoStepDown(index: Index, pinned: seq<Item>, item: Item)
    ensures Below(index, pinned, item, 0) == Some(item)
  {
  }

  lemma RejectedAt<T>(tr: Transition<T>, s: State<T>, b: seq<Item>, i: nat, room: Room, head: Option<Item>)
    requires i < |b| && Replay(tr, s, InOrder(b[i + 1..])).Some? && Replay(tr, s, InOrder(b[i..])).None?
    ensures CountApplied(tr, s, InOrder(b)) == |b| - 1 - i && Replay(tr, s, InOrder(b)).None?
    ensures AfterBlocks(tr, s, InOrder(b), room, head) == AfterBlocks(tr, s, InOrder(b[i..]), room, head)
  {
    InOrderSuffix(b, i);
    InOrderSuffix(b, i + 1);
    hide InOrder, AfterBlocks, Replay;
    FirstRejected(tr, s, InOrder(b), |b| - 1 - i);
    AfterRejection(tr, s, InOrder(b), |b| - i, room, head);
    assert InOrder(b)[..|b|] == InOrder(b);
  }

  lemma RoomAfter<T>(tr: Transition<T>, s: State<T>, b: Block, before: Room, after: Room, head: Option<Item>)
    requires var window := WindowSet(tr, s, b);
             && after.maxUndo == (if window.Some? then window.value else before.maxUndo)
             && after.index == (if window.Some? && head.Some?
                                then Retained(before.index, WindowFloor(head.value.Num(), window.value))
                                else before.index)
             && after.maxSize == (if window.Some? then window.value else before.maxSize)
    requires after.undo == (if before.undo > before.maxUndo then before.maxUndo else before.undo)
                           + if Apply(tr, s, b).Some? then 1 else 0
    ensures after == AfterBlock(tr, s, b, before, head)
  {
  }

  lemma {:induction false} InOrderSuffix(b: seq<Item>, i: nat)
    requires i <= |b|
    ensures InOrder(b)[..|b| - i] == InOrder(b[i..])
  {
    hide InOrder;
  }

  lemma BranchesInIndex(index: Index, first: BlockId, second: BlockId, b1: seq<Item>, b2: seq<Item>)
    requires MeetFrom(index, [], first, second, b1, b2) && forall id :: id in index ==> index[id].Id() == id
    ensures AllIn(index, b1) && AllIn(index, b2)
  {
    forall i | 0 <= i < |b1| ensures b1[i].Id() in index && index[b1[i].Id()] == b1[i] { BranchInIndex(index, b1, i); }
    forall i | 0 <= i < |b2| ensures b2[i].Id() in index && index[b2[i].Id()] == b2[i] { BranchInIndex(index, b2, i); }
  }

  lemma HeadOnBranch<T>(tr: Transition<T>, s: State<T>, bs: seq<Block>, index: Index, b: seq<Item>, i: nat)
    requires Replay(tr, s, bs).Some? && IsBranch(index, [], b) && i < |b| && i <= |bs|
    requires b[0].Id() == Replay(tr, s, bs).value.head
    ensures HeadAt(s, bs, |bs| - i) == b[i].Id()
  {
    ReplayIsLinked(tr, s, bs);
    if i < |bs| {
      TopOfChain(tr, s, bs, index, [], b, i);
    } else if i > 0 {
      TopOfChain(tr, s, bs, index, [], b, i - 1);
      BranchNumbers(index, [], b, i);
    }
  }

  lemma StepsThere(f: Forks, n: nat)
    requires n > 0 && CanStepDown(f.index, [], f.head, n)
    ensures f.head.Some?
  {
  }

  lemma StepsInIndex(f: Forks, b1: seq<Item>, b2: seq<Item>, n: nat)
    requires AllIn(f.index, b1) && AllIn(f.index, b2)
    ensures CanStepDown(f.index, b1 + b2, f.head, n) <==> CanStepDown(f.index, [], f.head, n)
    ensures f.head.Some? ==> Below(f.index, b1 + b2, f.head.value, n) == Below(f.index, [], f.head.value, n)
  {
    if f.head.Some? { BelowInIndex(f.index, b1 + b2, f.head.value, n); }
  }

  lemma PushLeavesHead(f: Forks, b: Block)
    ensures Accepts(f, b) ==> Pushed(f, b).head.Some?
  {
  }

  lemma StepRefused(index: Index, pinned: seq<Item>, start: Option<Item>, head: Option<Item>, i: nat, n: nat)
    requires i < n && (i == 0 ==> head == start)
    requires i > 0 ==> start.Some? && head.Some? && head == Below(index, pinned, start.value, i)
    ensures CanStepDown(index, pinned, start, n) ==> head.Some? && Lock(index, pinned, head.value).Some?
  {
    if CanStepDown(index, pinned, start, n) {
      BelowShorter(index, pinned, start.value, i + 1, n);
    }
  }

  lemma StoppedHere(was: Ending, pinned: seq<Item>, n: nat, i: nat, head: Option<Item>, e: Ending)
    requires i < n && i <= was.room.undo && i <= |was.chain| && (i == 0 ==> head == was.head)
    requires i > 0 ==> was.head.Some? && head.Some? && head == Below(was.room.index, pinned, was.head.value, i)
    requires var next := if head.Some? then Lock(was.room.index, pinned, head.value) else None;
             && (next.Some? ==> i == was.room.undo)
             && e == Ending(was.chain[..|was.chain| - i], was.room.(undo := was.room.undo - i),
                            if next.Some? then next else head, was.slots)
    ensures Stopped(was, pinned, n, e)
  {
    hide Lock;
    if i == 0 && head.Some? { NoStepDown(was.room.index, pinned, head.value); }
  }

  /** The branches keep nothing alive that is not in the index. */
  lemma StoppedInIndex(was: Ending, b1: seq<Item>, b2: seq<Item>, n: nat, e: Ending)
    requires AllIn(was.room.index, b1) && AllIn(was.room.index, b2) && Stopped(was, b1 + b2, n, e)
    ensures Stopped(was, [], n, e)
  {
    hide AllIn, Below, CanStepDown;
    var i := |was.chain| - |e.chain|;
    var f := Forks(was.room.index, was.head, 0, 0);
    StepsInIndex(f, b1, b2, i);
    StepsInIndex(f, b1, b2, i + 1);
  }

  lemma StepTaken(index: Index, pinned: seq<Item>, start: Option<Item>, head: Option<Item>, i: nat)
    requires start.Some? && head.Some? && (i == 0 ==> head == start)
    requires i > 0 ==> head == Below(index, pinned, start.value, i)
    ensures Below(index, pinned, start.value, i + 1) == Lock(index, pinned, head.value)
  {
    hide Lock;
    if i == 0 { OneStepDown(index, pinned, head.value); }
  }

  lemma StepsTaken(index: Index, pinned: seq<Item>, start: Option<Item>, head: Option<Item>, n: nat)
    requires n > 0 ==> start.Some? && head.Some? && head == Below(index, pinned, start.value, n)
    ensures CanStepDown(index, pinned, start, n)
  {
  }

  lemma LittleLost(first: Index, was: Index, now: Index, head: Option<Item>, window: Option<nat>, n: nat)
    requires Shrunk(first, was)
    requires now == if window.Some? && head.Some? then Retained(was, WindowFloor(head.value.Num(), window.value))
                    else was
    ensures Shrunk(first, now)
    ensures Kept(first, was, head, n) && (window.Some? ==> window.value >= n) ==> Kept(first, now, head, n)
  {
  }

  lemma OneMoreStored(was: Slots, now: Slots, b: seq<Item>, i: nat)
    requires i < |b| && Descending(b) && now == was[NumFromId(b[i].Id()) := (b[i].Id(), b[i].block)]
    requires forall j :: i < j < |b| ==> Stored(was, b[j].Id())
    ensures forall j :: i <= j < |b| ==> Stored(now, b[j].Id())
  {
    forall j | i < j < |b| ensures Stored(now, b[j].Id()) {
      assert b[i].Num() > b[j].Num();
      IdDeterminesBlock(b[i].block, b[i].block);
      IdDeterminesBlock(b[j].block, b[j].block);
      assert Stored(was, b[j].Id());
    }
  }

  lemma StoredNone(slots: Slots)
    ensures StoredAll(slots, []) == slots
  {
  }

  lemma StoredLast(slots: Slots, bs: seq<Block>, b: Block)
    ensures StoredAll(slots, bs + [b]) == StoredAll(slots, bs)[NumFromId(b.Id()) := (b.Id(), b)]
  {
    assert (bs + [b])[..|bs|] == bs;
  }

  /** After the new branch failed, the old tip still has the ancestors that the way back needs: those on the old
      branch are held, and those below the fork point are within the windows. */
  lemma WayBack(f: Forks, index: Index, head: Option<Item>, b1: seq<Item>, b2: seq<Item>, failed: nat)
    requires Meet(f.index, [], b1, b2) && AllIn(f.index, b1) && AllIn(f.index, b2) && failed < |b1|
    requires Shrunk(f.index, index) && Kept(f.index, index, head, Reach(b1, b2))
    requires head.Some? && head.value.Num() + |b2| == b1[0].Num()
    requires Below(f.index, [], b2[0], |b1| - 1).Some?
    ensures CanStepDown(index - Ids(b1[..failed + 1]), b1 + b2, Some(b2[0]), |b1| - 1 - failed)
  {
    hide Shrunk, Kept, Below, NoSharedParent, Lock;
    var n := |b1| - 1 - failed;
    BelowShorter(f.index, [], b2[0], n, |b1| - 1);
    assert forall x :: x in b1[..failed + 1] ==> x in b1;
    StillBelow(f.index, index, index - Ids(b1[..failed + 1]), head.value, b1, b2, n);
  }

  lemma {:induction false} StillBelow(was: Index, kept: Index, now: Index, head: Item, b1: seq<Item>, b2: seq<Item>,
                                      n: nat)
    requires Meet(was, [], b1, b2) && AllIn(was, b1) && AllIn(was, b2)
    requires Shrunk(was, kept) && Kept(was, kept, Some(head), Reach(b1, b2)) && head.Num() + |b2| == b1[0].Num()
    requires now.Keys <= kept.Keys && (forall id :: id in now ==> now[id] == kept[id])
    requires forall id :: id in kept && id !in now ==> id in Ids(b1)
    requires n < |b1| && Below(was, [], b2[0], |b1| - 1).Some?
    ensures Below(now, b1 + b2, b2[0], n) == Below(was, [], b2[0], n)
  {
    hide Lock, Kept, Shrunk, NoSharedParent, IsBranch, Ids;
    if n > 0 {
      BelowShorter(was, [], b2[0], n - 1, |b1| - 1);
      BelowShorter(was, [], b2[0], n, |b1| - 1);
      StillBelow(was, kept, now, head, b1, b2, n - 1);
      var above, item := Below(was, [], b2[0], n - 1).value, Below(was, [], b2[0], n).value;
      LockedInIndex(was, above);
      if n < |b2| {
        BelowOnBranch(was, [], b2, n);
      } else {
        BranchNumbers(was, [], b1, |b1| - 1);
        BranchNumbers(was, [], b2, |b2| - 1);
        BelowForkPoint(was, kept, now, head, b1, b2, item);
      }
      assert Shrunk(was, now) by { StillShrunk(was, kept, now); }
      StillThere(was, now, b1 + b2, above, item);
    }
  }

  lemma BelowForkPoint(was: Index, kept: Index, now: Index, head: Item, b1: seq<Item>, b2: seq<Item>, item: Item)
    requires IsBranch(was, [], b1) && |b1| > 0
    requires Kept(was, kept, Some(head), Reach(b1, b2))
    requires forall id :: id in kept && id !in now ==> id in Ids(b1)
    requires item.Id() in was && was[item.Id()] == item && item.Num() <= NumFromId(b1[|b1| - 1].block.previous)
    requires item.Num() >= WindowFloor(head.Num(), Reach(b1, b2))
    ensures item.Id() in now
  {
    forall i | 0 <= i < |b1| ensures b1[i].Id() != item.Id() {
      BranchAboveItsFoot(was, [], b1, i);
      IdDeterminesBlock(item.block, item.block);
    }
  }

  lemma StillShrunk(was: Index, kept: Index, now: Index)
    requires Shrunk(was, kept) && now.Keys <= kept.Keys && (forall id :: id in now ==> now[id] == kept[id])
    ensures Shrunk(was, now)
  {
  }

  lemma LockedInIndex(index: Index, item: Item)
    requires Lock(index, [], item).Some?
    ensures var p := Lock(index, [], item).value; p.Id() in index && index[p.Id()] == p
  {
  }

  lemma StillThere(was: Index, now: Index, held: seq<Item>, above: Item, item: Item)
    requires AllIn(was, held) && Lock(was, [], above) == Some(item)
    requires Shrunk(was, now) && (item.Id() in now || item in held)
    ensures Lock(now, held, above) == Some(item)
  {
  }

  function Ids(b: seq<Item>): set<BlockId> {
    set x | x in b :: x.Id()
  }
}
