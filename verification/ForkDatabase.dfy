/** The fork database: a window of the block tree, indexed by id, with links from each block to its parent. */
module ForkDatabase {
  import opened Common
  import opened Blocks

  /** A fork item is a shared object: `serial` is its identity, `prev` the identity of the parent it was linked to
      when it was pushed (a weak pointer: it is of use only while that very parent is alive). */
  datatype Item = Item(serial: nat, block: Block, prev: Option<nat>) {
    function Num(): nat { block.Num() }
    function Id(): BlockId { block.Id() }
  }

  type Index = map<BlockId, Item>

  /** The item with the given identity among `items`. */
  function Find(items: seq<Item>, serial: nat, id: BlockId): (r: Option<Item>)
    ensures r.Some? ==> r.value in items && r.value.serial == serial && r.value.Id() == id
    ensures r.None? ==> forall x :: x in items ==> x.serial != serial || x.Id() != id
  {
    if items == [] then None
    else if items[0].serial == serial && items[0].Id() == id then Some(items[0])
    else Find(items[1..], serial, id)
  }

  /** Following the parent link of an item, as weak_ptr::lock does: the parent must still be alive, that is, be in the
      index or be `pinned` by another pointer to it, such as the head. */
  function Lock(index: Index, pinned: seq<Item>, item: Item): (r: Option<Item>)
    ensures r.Some? ==> item.prev == Some(r.value.serial) && r.value.Id() == item.block.previous
    ensures r.Some? ==> r.value.Num() + 1 == item.Num()
  {
    if item.prev.None? then None
    else if item.block.previous in index && index[item.block.previous].serial == item.prev.value
            && index[item.block.previous].Id() == item.block.previous then
      Some(index[item.block.previous])
    else Find(pinned, item.prev.value, item.block.previous)
  }

  /** max(0, n - size) */
  function WindowFloor(n: nat, size: nat): nat {
    if n > size then n - size else 0
  }

  /** Within the window are the numbers that `n` is no more than `size` above. */
  lemma WindowIs(n: nat, size: nat, k: nat)
    ensures k >= WindowFloor(n, size) <==> k + size >= n
  {
  }

  function Higher(floor: nat, min: nat): nat {
    if min > floor then min else floor
  }

  /** A branch read from its tip downwards: each entry is the live parent of the one before it. */
  ghost predicate IsBranch(index: Index, pinned: seq<Item>, b: seq<Item>) {
    forall i :: 0 <= i < |b| - 1 ==> Lock(index, pinned, b[i]) == Some(b[i + 1])
  }

  lemma {:induction false} BranchNumbers(index: Index, pinned: seq<Item>, b: seq<Item>, i: nat)
    requires IsBranch(index, pinned, b)
    requires i < |b|
    ensures b[i].Num() + i == b[0].Num()
    ensures i > 0 ==> b[i].Id() == b[i - 1].block.previous
  {
    if i > 0 {
      BranchNumbers(index, pinned, b, i - 1);
      assert Lock(index, pinned, b[i - 1]) == Some(b[i - 1 + 1]);
    }
  }

  /** A walk down from its first entry that cannot go on. */
  ghost predicate Stuck(index: Index, pinned: seq<Item>, w: seq<Item>) {
    |w| > 0 && IsBranch(index, pinned, w) && Lock(index, pinned, w[|w| - 1]).None?
  }

  ghost predicate NoSharedParent(b1: seq<Item>, b2: seq<Item>) {
    forall i, j :: 0 <= i < |b1| && 0 <= j < |b2| && b1[i].Num() == b2[j].Num() ==>
      b1[i].block.previous != b2[j].block.previous
  }

  /** Two branches that end in blocks with the same parent, and in no such blocks further up. */
  ghost predicate Meet(index: Index, pinned: seq<Item>, b1: seq<Item>, b2: seq<Item>) {
    && |b1| > 0 && |b2| > 0
    && IsBranch(index, pinned, b1) && IsBranch(index, pinned, b2)
    && b1[|b1| - 1].block.previous == b2[|b2| - 1].block.previous
    && NoSharedParent(b1[..|b1| - 1], b2[..|b2| - 1])
  }

  lemma ExtendBranch(index: Index, pinned: seq<Item>, b: seq<Item>, x: Item, p: Item)
    requires IsBranch(index, pinned, b + [x]) && Lock(index, pinned, x) == Some(p)
    ensures IsBranch(index, pinned, b + [x] + [p])
  {
    var w := b + [x] + [p];
    forall i | 0 <= i < |w| - 1 ensures Lock(index, pinned, w[i]) == Some(w[i + 1]) {
      if i < |b| {
        assert Lock(index, pinned, (b + [x])[i]) == Some((b + [x])[i + 1]);
      }
    }
  }

  /** Walks down from the same tip agree as far as both go. */
  lemma {:induction false} WalksAgree(index: Index, pinned: seq<Item>, v: seq<Item>, w: seq<Item>, i: nat)
    requires IsBranch(index, pinned, v) && IsBranch(index, pinned, w)
    requires i < |v| && i < |w| && v[0] == w[0]
    ensures v[i] == w[i]
  {
    if i > 0 {
      WalksAgree(index, pinned, v, w, i - 1);
      assert Lock(index, pinned, v[i - 1]) == Some(v[i - 1 + 1]);
      assert Lock(index, pinned, w[i - 1]) == Some(w[i - 1 + 1]);
    }
  }

  /** No block of one branch is on the other, unless both branches end in that one block. */
  lemma MeetingBranchesAreDisjoint(index: Index, pinned: seq<Item>, b1: seq<Item>, b2: seq<Item>, i: nat, j: nat)
    requires Meet(index, pinned, b1, b2)
    requires i < |b1| && j < |b2| && b1[i].Id() == b2[j].Id()
    ensures i == |b1| - 1 && j == |b2| - 1
  {
    var m, n := |b1| - 1, |b2| - 1;
    BranchNumbers(index, pinned, b1, i);
    BranchNumbers(index, pinned, b1, m);
    BranchNumbers(index, pinned, b2, j);
    BranchNumbers(index, pinned, b2, n);
    IdDeterminesBlock(b1[i].block, b2[j].block);
  }

  /** The common parent is the lowest common ancestor of the tips when neither tip is an ancestor of the other: every
      block that walks down from both tips reach is no higher than it. */
  lemma MeetsAtLowestCommonAncestor(index: Index, pinned: seq<Item>, b1: seq<Item>, b2: seq<Item>,
                                    w1: seq<Item>, w2: seq<Item>)
    requires Meet(index, pinned, b1, b2)
    requires b1[|b1| - 1].Id() != b2[|b2| - 1].Id()
    requires IsBranch(index, pinned, w1) && |w1| > 0 && w1[0] == b1[0]
    requires IsBranch(index, pinned, w2) && |w2| > 0 && w2[0] == b2[0]
    requires w1[|w1| - 1].Id() == w2[|w2| - 1].Id()
    ensures w1[|w1| - 1].Num() <= NumFromId(b1[|b1| - 1].block.previous)
  {
    var i, j := |w1| - 1, |w2| - 1;
    var m, n := |b1| - 1, |b2| - 1;
    BranchNumbers(index, pinned, w1, i);
    BranchNumbers(index, pinned, w2, j);
    BranchNumbers(index, pinned, b1, m);
    BranchNumbers(index, pinned, b2, n);
    IdDeterminesBlock(w1[i].block, w2[j].block);
    if w1[i].Num() > NumFromId(b1[m].block.previous) {
      assert i <= m && j <= n;
      WalksAgree(index, pinned, w1, b1, i);
      WalksAgree(index, pinned, w2, b2, j);
      MeetingBranchesAreDisjoint(index, pinned, b1, b2, i, j);
      assert false;
    }
  }

  /** When the branches end in the same block, that block is one of the tips: one tip is an ancestor of (or equal to)
      the other. Conversely, a tip found on the other branch is the block both branches end in. */
  lemma SharedEndIsATip(index: Index, pinned: seq<Item>, b1: seq<Item>, b2: seq<Item>)
    requires Meet(index, pinned, b1, b2)
    ensures b1[|b1| - 1].Id() == b2[|b2| - 1].Id() <==>
            (exists i :: 0 <= i < |b1| && b1[i].Id() == b2[0].Id())
            || (exists j :: 0 <= j < |b2| && b2[j].Id() == b1[0].Id())
  {
    var m, n := |b1| - 1, |b2| - 1;
    BranchNumbers(index, pinned, b1, m);
    BranchNumbers(index, pinned, b2, n);
    if m > 0 { BranchNumbers(index, pinned, b1, m - 1); }
    if n > 0 { BranchNumbers(index, pinned, b2, n - 1); }
    assert m > 0 ==> b1[..m][m - 1] == b1[m - 1];
    assert n > 0 ==> b2[..n][n - 1] == b2[n - 1];
    assert b1[m].Id() == b2[n].Id() ==> m == 0 || n == 0;
    forall i | 0 <= i < |b1| && b1[i].Id() == b2[0].Id() ensures b1[m].Id() == b2[n].Id() {
      MeetingBranchesAreDisjoint(index, pinned, b1, b2, i, 0);
    }
    forall j | 0 <= j < |b2| && b2[j].Id() == b1[0].Id() ensures b1[m].Id() == b2[n].Id() {
      MeetingBranchesAreDisjoint(index, pinned, b1, b2, 0, j);
    }
  }

  /** The branches from two known blocks down to where they meet. */
  ghost predicate MeetFrom(index: Index, pinned: seq<Item>, first: BlockId, second: BlockId, b1: seq<Item>,
                           b2: seq<Item>) {
    && first in index && second in index
    && Meet(index, pinned, b1, b2) && b1[0] == index[first] && b2[0] == index[second]
  }

  lemma StuckStops(index: Index, pinned: seq<Item>, w: seq<Item>, c: seq<Item>)
    requires Stuck(index, pinned, w) && IsBranch(index, pinned, c) && |c| > 0 && c[0] == w[0]
    ensures |c| <= |w|
  {
    if |c| > |w| {
      var i := |w| - 1;
      assert Lock(index, pinned, c[i]) == Some(c[i + 1]);
      WalksAgree(index, pinned, c, w, i);
      assert false;
    }
  }

  /** If a walk gets stuck, no lower than another one and without a shared parent so far, no branches from the two tips
      meet. */
  lemma NoMeeting(index: Index, pinned: seq<Item>, w1: seq<Item>, w2: seq<Item>, c1: seq<Item>, c2: seq<Item>)
    requires IsBranch(index, pinned, w1) && IsBranch(index, pinned, w2) && |w1| > 0 && |w2| > 0
    requires var n1, n2 := w1[|w1| - 1].Num(), w2[|w2| - 1].Num();
             (Stuck(index, pinned, w1) && n1 >= n2) || (Stuck(index, pinned, w2) && n2 >= n1)
    requires NoSharedParent(w1, w2) && |c1| > 0 && |c2| > 0 && c1[0] == w1[0] && c2[0] == w2[0]
    ensures !Meet(index, pinned, c1, c2)
  {
    if Meet(index, pinned, c1, c2) {
      var i, j := |c1| - 1, |c2| - 1;
      BranchNumbers(index, pinned, c1, i);
      BranchNumbers(index, pinned, c2, j);
      BranchNumbers(index, pinned, w1, |w1| - 1);
      BranchNumbers(index, pinned, w2, |w2| - 1);
      if Stuck(index, pinned, w1) { StuckStops(index, pinned, w1, c1); }
      if Stuck(index, pinned, w2) { StuckStops(index, pinned, w2, c2); }
      WalksAgree(index, pinned, c1, w1, i);
      WalksAgree(index, pinned, c2, w2, j);
      assert false;
    }
  }

  /** There is only one pair of branches to find. */
  lemma BranchesAreUnique(index: Index, pinned: seq<Item>, first: BlockId, second: BlockId,
                          b1: seq<Item>, b2: seq<Item>, c1: seq<Item>, c2: seq<Item>)
    requires MeetFrom(index, pinned, first, second, b1, b2) && MeetFrom(index, pinned, first, second, c1, c2)
    ensures b1 == c1 && b2 == c2
  {
    NotShorter(index, pinned, b1, b2, c1, c2);
    NotShorter(index, pinned, c1, c2, b1, b2);
    forall i | 0 <= i < |b1| ensures b1[i] == c1[i] { WalksAgree(index, pinned, b1, c1, i); }
    forall j | 0 <= j < |b2| ensures b2[j] == c2[j] { WalksAgree(index, pinned, b2, c2, j); }
  }

  lemma NotShorter(index: Index, pinned: seq<Item>, b1: seq<Item>, b2: seq<Item>, c1: seq<Item>, c2: seq<Item>)
    requires Meet(index, pinned, b1, b2) && Meet(index, pinned, c1, c2) && b1[0] == c1[0] && b2[0] == c2[0]
    ensures |b1| <= |c1| && |b2| <= |c2|
  {
    var i, j := |c1| - 1, |c2| - 1;
    BranchNumbers(index, pinned, c1, i);
    BranchNumbers(index, pinned, c2, j);
    BranchNumbers(index, pinned, b1, |b1| - 1);
    BranchNumbers(index, pinned, b2, |b2| - 1);
    if i < |b1| - 1 {
      WalksAgree(index, pinned, b1, c1, i);
      WalksAgree(index, pinned, b2, c2, j);
      assert false;
    }
  }

  /** Two walks that come to blocks with the same parent have met there or further up. */
  lemma {:induction false} WalksMeet(index: Index, pinned: seq<Item>, w1: seq<Item>, w2: seq<Item>)
    requires IsBranch(index, pinned, w1) && IsBranch(index, pinned, w2) && |w1| > 0 && |w2| > 0
    requires w1[|w1| - 1].block.previous == w2[|w2| - 1].block.previous
    ensures exists b1, b2 :: Meet(index, pinned, b1, b2) && b1[0] == w1[0] && b2[0] == w2[0]
    decreases |w1|
  {
    if NoSharedParent(w1[..|w1| - 1], w2[..|w2| - 1]) {
      assert Meet(index, pinned, w1, w2);
    } else {
      var i, j :| 0 <= i < |w1| - 1 && 0 <= j < |w2| - 1 && w1[i].block.previous == w2[j].block.previous;
      WalksMeet(index, pinned, w1[..i + 1], w2[..j + 1]);
    }
  }

  /** The n-th live ancestor of an item. */
  function Below(index: Index, pinned: seq<Item>, item: Item, n: nat): (r: Option<Item>)
    ensures r.Some? ==> r.value.Num() + n == item.Num()
  {
    if n == 0 then Some(item)
    else
      var above := Below(index, pinned, item, n - 1);
      if above.None? then None else Lock(index, pinned, above.value)
  }

  lemma {:induction false} BelowOnBranch(index: Index, pinned: seq<Item>, b: seq<Item>, i: nat)
    requires IsBranch(index, pinned, b) && i < |b|
    ensures Below(index, pinned, b[0], i) == Some(b[i])
  {
    if i > 0 {
      BelowOnBranch(index, pinned, b, i - 1);
      assert Lock(index, pinned, b[i - 1]) == Some(b[i - 1 + 1]);
    }
  }

  lemma {:induction false} BelowShorter(index: Index, pinned: seq<Item>, item: Item, m: nat, n: nat)
    requires Below(index, pinned, item, n).Some? && m <= n
    ensures Below(index, pinned, item, m).Some?
  {
    if m < n { BelowShorter(index, pinned, item, m, n - 1); }
  }

  /** An item that is no lower does not keep a parent alive. */
  lemma HigherPin(index: Index, pinned: seq<Item>, high: Item, item: Item)
    requires high.Num() >= item.Num()
    ensures Lock(index, [high] + pinned, item) == Lock(index, pinned, item)
  {
    assert high.Id() == item.block.previous ==> high.Num() == NumFromId(item.block.previous) by {
      IdDeterminesBlock(high.block, high.block);
    }
    assert ([high] + pinned)[1..] == pinned;
  }

  /** The items of `b` are those of the index. */
  ghost predicate AllIn(index: Index, b: seq<Item>) {
    forall x :: x in b ==> x.Id() in index && index[x.Id()] == x
  }

  /** Pointers to items of the index keep nothing else alive. */
  lemma PinsOfIndex(index: Index, pinned: seq<Item>, item: Item)
    requires AllIn(index, pinned)
    ensures Lock(index, pinned, item) == Lock(index, [], item)
  {
  }

  lemma {:induction false} BelowInIndex(index: Index, pinned: seq<Item>, item: Item, n: nat)
    requires AllIn(index, pinned)
    ensures Below(index, pinned, item, n) == Below(index, [], item, n)
  {
    if n > 0 {
      BelowInIndex(index, pinned, item, n - 1);
      var above := Below(index, pinned, item, n - 1);
      if above.Some? { PinsOfIndex(index, pinned, above.value); }
    }
  }

  /** A branch from an item of the index is in the index. */
  lemma {:induction false} BranchInIndex(index: Index, b: seq<Item>, i: nat)
    requires IsBranch(index, [], b) && i < |b| && b[0].Id() in index && index[b[0].Id()] == b[0]
    ensures b[i].Id() in index && index[b[i].Id()] == b[i]
  {
    if i > 0 {
      assert Lock(index, [], b[i - 1]) == Some(b[i - 1 + 1]);
    }
  }

  lemma SameBranches(index: Index, high: Item, b: seq<Item>)
    requires |b| > 0 && high.Num() >= b[0].Num()
    ensures IsBranch(index, [high], b) <==> IsBranch(index, [], b)
  {
    assert [high] + [] == [high];
    forall i | 0 <= i < |b| - 1 ensures IsBranch(index, [high], b) || IsBranch(index, [], b) ==>
        Lock(index, [high], b[i]) == Lock(index, [], b[i])
    {
      if IsBranch(index, [high], b) {
        BranchNumbers(index, [high], b, i);
        HigherPin(index, [], high, b[i]);
      } else if IsBranch(index, [], b) {
        BranchNumbers(index, [], b, i);
        HigherPin(index, [], high, b[i]);
      }
    }
  }

  /** The head has no part in where branches meet that start no higher. */
  lemma HeadIsNoMatter(index: Index, high: Item, first: BlockId, second: BlockId)
    requires first in index ==> high.Num() >= index[first].Num()
    requires second in index ==> high.Num() >= index[second].Num()
    ensures forall b1, b2 :: MeetFrom(index, [high], first, second, b1, b2) <==>
              MeetFrom(index, [], first, second, b1, b2)
  {
    forall b1: seq<Item>, b2: seq<Item> | first in index && second in index && |b1| > 0 && |b2| > 0
                                          && b1[0] == index[first] && b2[0] == index[second]
      ensures Meet(index, [high], b1, b2) <==> Meet(index, [], b1, b2)
    {
      SameBranches(index, high, b1);
      SameBranches(index, high, b2);
    }
  }

  /** `a` is `id` or one of the ids that it names as previous, and so on. */
  predicate Ancestor(a: BlockId, id: BlockId) {
    a == id || (id.HashOf? && Ancestor(a, id.previous))
  }

  lemma {:induction false} AncestorIsLower(a: BlockId, id: BlockId)
    requires Ancestor(a, id)
    ensures NumFromId(a) <= NumFromId(id) && (a != id ==> NumFromId(a) < NumFromId(id))
  {
    if a != id { AncestorIsLower(a, id.previous); }
  }

  /** What the fork database holds. */
  datatype Forks = Forks(index: Index, head: Option<Item>, maxSize: nat, nextSerial: nat)

  /** A block is refused if it is too old for the window, or its parent is unknown. */
  predicate Accepts(f: Forks, b: Block) {
    || f.head.None?
    || (b.Num() > WindowFloor(f.head.value.Num(), f.maxSize) && (b.previous == ZERO_ID || b.previous in f.index))
  }

  /** The link a new item for `b` gets. */
  function LinkFor(f: Forks, b: Block): Option<nat>
    requires Accepts(f, b)
  {
    if f.head.Some? && b.previous != ZERO_ID then Some(f.index[b.previous].serial) else None
  }

  function Retained(index: Index, min: nat): Index {
    map id | id in index && index[id].Num() >= min :: index[id]
  }

  /** An accepted block is linked to its parent. The index keeps the item it has if the block is there already; the head
      moves to the new item if that is higher, and then the window slides. */
  function Pushed(f: Forks, b: Block): Forks
    requires Accepts(f, b)
  {
    var item := Item(f.nextSerial, b, LinkFor(f, b));
    var index := if b.Id() in f.index then f.index else f.index[b.Id() := item];
    var next := f.nextSerial + 1;
    if f.head.None? then Forks(index, Some(item), f.maxSize, next)
    else if b.Num() > f.head.value.Num() then
      Forks(Retained(index, WindowFloor(b.Num(), f.maxSize)), Some(item), f.maxSize, next)
    else Forks(index, f.head, f.maxSize, next)
  }

  /** What a push does: the block is in the index, linked if it is new; the head only rises; and only blocks that the
      window has passed are lost. */
  lemma PushedLaws(f: Forks, b: Block)
    requires Accepts(f, b) && forall id :: id in f.index ==> f.index[id].Id() == id
    ensures var g := Pushed(f, b);
            && b.Id() in g.index && g.index[b.Id()].block == b
            && (b.Id() !in f.index && f.head.Some? && b.previous != ZERO_ID ==>
                  b.previous in f.index && g.index[b.Id()].prev == Some(f.index[b.previous].serial))
            && g.head.Some? && (f.head.Some? ==> g.head.value.Num() >= f.head.value.Num())
            && (f.head.None? || b.Num() > f.head.value.Num() <==> g.head != f.head)
            && (g.head != f.head ==>
                  g.head.value.block == b && (b.Id() !in f.index ==> g.head.value == g.index[b.Id()]))
            && (forall id :: id in g.index && id != b.Id() ==> id in f.index && g.index[id] == f.index[id])
            && (forall id :: id in f.index && f.index[id].Num() >= WindowFloor(g.head.value.Num(), f.maxSize) ==>
                  id in g.index)
  {
    if b.Id() in f.index { IdDeterminesBlock(f.index[b.Id()].block, b); }
  }

  ghost predicate IsRoot(item: Item, roots: set<nat>) {
    item.prev.None? && (item.serial in roots || item.block.previous == ZERO_ID)
  }

  /** Every block above the floor is a root or has its parent, the very item it was linked to, in the index. */
  ghost predicate AllLinked(index: Index, floor: nat, roots: set<nat>) {
    forall id {:trigger id in index} :: id in index && index[id].Num() > floor ==>
      IsRoot(index[id], roots) || HasParent(index, index[id])
  }

  /** Removing a block that another one builds on breaks a link. */
  lemma RemovalBreaksALink()
    ensures var a := Block(Raw(1, 0), 0);
            var b := Block(a.Id(), 0);
            var index: Index := map[a.Id() := Item(0, a, None), b.Id() := Item(1, b, Some(0))];
            AllLinked(index, 0, {0}) && !AllLinked(index - {a.Id()}, 0, {0})
  {
    var a := Block(Raw(1, 0), 0);
    var b := Block(a.Id(), 0);
    var index: Index := map[a.Id() := Item(0, a, None), b.Id() := Item(1, b, Some(0))];
    assert b.Id() in index - {a.Id()};
  }

  /** When one tip is an ancestor of the other, the search ends below it: the common previous is not the lowest common
      ancestor. */
  lemma AncestorTipIsPassed()
    ensures var a := Block(Raw(1, 0), 0);
            var b := Block(a.Id(), 0);
            var x, y := Item(0, a, None), Item(1, b, Some(0));
            var index: Index := map[a.Id() := x, b.Id() := y];
            MeetFrom(index, [], b.Id(), a.Id(), [y, x], [x]) && NumFromId(x.block.previous) < x.Num()
  {
  }

  predicate HasParent(index: Index, item: Item) {
    item.prev.Some? && item.block.previous in index && index[item.block.previous].serial == item.prev.value
  }

  class Tree {
    var index: Index
    var head: Option<Item>
    var maxSize: nat
    var nextSerial: nat
    /** Items that somebody else keeps a pointer to: the branches, while forks are switched. */
    var held: seq<Item>

    /** The items that were entered without a link because there was nothing to link them to: started blocks, and a
        first block. */
    ghost var roots: set<nat>
    /** The highest window floor applied so far: everything below it has been dropped. */
    ghost var floor: nat

    function Contents(): Forks
      reads this`index, this`head, this`maxSize, this`nextSerial
    {
      Forks(index, head, maxSize, nextSerial)
    }

    function Pinned(): seq<Item>
      reads this`head, this`held
    {
      if head.Some? then [head.value] + held else held
    }

    ghost predicate Linked()
      reads this
    {
      AllLinked(index, floor, roots)
    }

    ghost predicate Valid()
      reads this
    {
      && (forall id :: id in index ==> index[id].Id() == id && index[id].serial < nextSerial)
      && (head.Some? ==> head.value.serial < nextSerial)
      && (forall x :: x in held ==> x.serial < nextSerial)
    }

    constructor ()
      ensures Valid() && Linked()
      ensures index == map[] && head == None && maxSize == 1024 && nextSerial == 0 && held == []
      ensures floor == 0 && roots == {}
    {
      index, head, maxSize, nextSerial, held := map[], None, 1024, 0, [];
      floor, roots := 0, {};
    }

    /** Drops every item numbered below `min`, lowest numbers first. */
    method Trim(min: nat)
      requires Valid()
      modifies this`index, this`floor
      ensures Valid()
      ensures index == Retained(old(index), min)
      ensures floor == Higher(old(floor), min)
      ensures old(Linked()) ==> Linked()
    {
      var doomed := set id | id in index && index[id].Num() < min;
      while doomed != {}
        invariant doomed == set id | id in index && index[id].Num() < min
        invariant index.Keys <= old(index).Keys
        invariant forall id :: id in index ==> index[id] == old(index)[id]
        invariant forall id :: id in old(index) && old(index)[id].Num() >= min ==> id in index
        modifies this`index
      {
        var id :| id in doomed;
        index := index - {id};
        doomed := doomed - {id};
      }
      if min > floor {
        floor := min;
      }
      assert forall id :: id in index ==> id !in doomed;
      assert index == Retained(old(index), min);
      if old(Linked()) {
        forall id | id in index && index[id].Num() > floor
          ensures IsRoot(index[id], roots) || HasParent(index, index[id])
        {
          assert id in old(index);
          if HasParent(old(index), index[id]) {
            var p := index[id].block.previous;
            IdDeterminesBlock(old(index)[p].block, old(index)[p].block);
          }
        }
      }
    }

    /** fork_database::set_max_size */
    method SetMaxSize(size: nat)
      requires Valid()
      modifies this`index, this`maxSize, this`floor
      ensures Valid()
      ensures maxSize == size
      ensures index == if head.None? then old(index) else Retained(old(index), WindowFloor(head.value.Num(), size))
      ensures floor == if head.None? then old(floor) else Higher(old(floor), WindowFloor(head.value.Num(), size))
      ensures head.Some? ==>
                forall id :: id in index <==> id in old(index) && old(index)[id].Num() + size >= head.value.Num()
      ensures old(Linked()) ==> Linked()
    {
      maxSize := size;
      if head.None? {
        return;
      }
      Trim(WindowFloor(head.value.Num(), size));
    }

    /** fork_database::start_block: the first block of the window has no parent link. */
    method StartBlock(b: Block)
      requires Valid()
      modifies this`index, this`head, this`nextSerial, this`roots
      ensures Valid() && nextSerial == old(nextSerial) + 1 && roots == old(roots) + {old(nextSerial)}
      ensures head == Some(Item(old(nextSerial), b, None))
      ensures index == if b.Id() in old(index) then old(index) else old(index)[b.Id() := head.value]
      ensures old(Linked()) ==> Linked()
    {
      var item := Item(nextSerial, b, None);
      nextSerial := nextSerial + 1;
      roots := roots + {item.serial};
      if item.Id() !in index {
        index := index[item.Id() := item];
      }
      head := Some(item);
    }

    /** fork_database::_push_block */
    method PushBlock(b: Block) returns (ok: bool)
      requires Valid()
      modifies this`index, this`head, this`nextSerial, this`floor, this`roots
      ensures Valid()
      ensures ok <==> Accepts(old(Contents()), b)
      ensures ok <==> old(head).None? || (&& b.Num() + maxSize > old(head).value.Num()
                                          && (b.previous == ZERO_ID || b.previous in old(index)))
      ensures Contents() == if ok then Pushed(old(Contents()), b) else old(Contents())
      ensures roots == old(roots) + if old(head).None? then {old(nextSerial)} else {}
      ensures floor == if ok && old(head).Some? && b.Num() > old(head).value.Num()
                       then Higher(old(floor), WindowFloor(b.Num(), maxSize)) else old(floor)
      // once the head has moved on, the index has just the blocks in its window
      ensures ok && old(head).Some? && b.Num() > old(head).value.Num() ==>
                forall id :: id in index <==>
                  id == b.Id() || (id in old(index) && old(index)[id].Num() + maxSize >= b.Num())
      ensures old(Linked()) ==> Linked()
    {
      if head.Some? && b.Num() <= WindowFloor(head.value.Num(), maxSize) {
        return false;
      }
      var prev := None;
      if head.Some? && b.previous != ZERO_ID {
        if b.previous !in index {
          return false;
        }
        prev := Some(index[b.previous].serial);
      }
      var item := AddItem(b, prev);
      if head.None? {
        head := Some(item);
      } else if item.Num() > head.value.Num() {
        head := Some(item);
        Trim(WindowFloor(item.Num(), maxSize));
      }
      return true;
    }

    /** A new item for block `b`; the index keeps the item it has if the block is there already. */
    method AddItem(b: Block, prev: Option<nat>) returns (item: Item)
      requires Valid()
      requires prev.Some? ==> b.previous in index && index[b.previous].serial == prev.value
      requires prev.None? ==> head.None? || b.previous == ZERO_ID
      modifies this`index, this`nextSerial, this`roots
      ensures Valid() && nextSerial == old(nextSerial) + 1
      ensures item == Item(old(nextSerial), b, prev)
      ensures roots == old(roots) + if head.None? then {old(nextSerial)} else {}
      ensures index == if b.Id() in old(index) then old(index) else old(index)[b.Id() := item]
      ensures old(Linked()) ==> Linked()
    {
      item := Item(nextSerial, b, prev);
      nextSerial := nextSerial + 1;
      if head.None? {
        roots := roots + {item.serial};
      }
      if item.Id() !in index {
        index := index[item.Id() := item];
      }
    }

    /** The head has a live parent to step down to. */
    predicate CanPopHead()
      reads this
    {
      head.Some? && Lock(index, held, head.value).Some?
    }

    /** fork_database::pop_block: the head steps down to its parent, which must be alive. */
    method PopBlock() returns (ok: bool)
      requires Valid()
      modifies this`head
      ensures Valid()
      ensures ok <==> old(CanPopHead())
      ensures head == if ok then Lock(index, held, old(head).value) else old(head)
      ensures old(Linked()) ==> Linked()
    {
      if head.None? {
        return false;
      }
      var prev := Lock(index, Pinned(), head.value);
      HigherPin(index, held, head.value, head.value);
      if prev.None? {
        return false;
      }
      head := prev;
      return true;
    }

    /** Pointers to these items, and no others, are kept outside. */
    method Hold(items: seq<Item>)
      requires Valid() && AllIn(index, items)
      modifies this`held
      ensures Valid() && held == items
    {
      held := items;
    }

    method SetHead(h: Item)
      requires Valid() && h.serial < nextSerial
      modifies this`head
      ensures Valid() && head == Some(h)
      ensures old(Linked()) ==> Linked()
    {
      head := Some(h);
    }

    /** fork_database::remove. The links survive exactly when no retained block above the floor hangs on the removed
        one. */
    method Remove(id: BlockId)
      requires Valid()
      modifies this`index
      ensures Valid()
      ensures index == old(index) - {id}
      ensures old(Linked()) ==>
                (Linked() <==>
                 !exists c :: c in old(index) && c != id && old(index)[c].block.previous == id
                              && old(index)[c].prev.Some? && old(index)[c].Num() > floor)
    {
      index := index - {id};
      if old(Linked()) {
        if c :| c in old(index) && c != id && old(index)[c].block.previous == id
                && old(index)[c].prev.Some? && old(index)[c].Num() > floor {
          assert c in index;
        } else {
          forall c | c in index && index[c].Num() > floor
            ensures IsRoot(index[c], roots) || HasParent(index, index[c])
          {
            assert c in old(index);
          }
        }
      }
    }

    /** In a linked tree a walk can only get stuck on a root or at the trimming floor. */
    lemma DeadEndIsRootOrFloor(item: Item)
      requires Valid() && Linked()
      requires item.Id() in index && index[item.Id()] == item
      requires Lock(index, Pinned(), item).None?
      ensures IsRoot(item, roots) || item.Num() <= floor
    {
      assert item.Id() in index;
    }

    /** In a linked tree the walk down to an ancestor does not get stuck, unless the floor or a root comes before it. */
    lemma {:induction false} WalkToAncestor(tip: BlockId, a: BlockId) returns (w: seq<Item>)
      requires Valid() && Linked() && tip in index && a in index && Ancestor(a, tip) && NumFromId(a) >= floor
      requires forall id :: id in index && NumFromId(id) > NumFromId(a) ==> index[id].serial !in roots
      ensures |w| > 0 && IsBranch(index, Pinned(), w) && w[0] == index[tip] && w[|w| - 1] == index[a]
      decreases tip
    {
      var item := index[tip];
      if tip == a {
        return [item];
      }
      AncestorIsLower(a, tip);
      IdDeterminesBlock(item.block, item.block);
      assert NumFromId(a) > 0 by { assert index[a].Id() == a; }
      var p := item.block.previous;
      AncestorIsLower(a, p);
      assert HasParent(index, item);
      assert index[p].Id() == p;
      var rest := WalkToAncestor(p, a);
      w := [item] + rest;
      forall i | 0 <= i < |w| - 1 ensures Lock(index, Pinned(), w[i]) == Some(w[i + 1]) {
        if i > 0 { assert Lock(index, Pinned(), rest[i - 1]) == Some(rest[i - 1 + 1]); }
      }
    }

    /** In a linked tree two known blocks with a known common ancestor, above the floor and the roots, have branches
        that meet. */
    lemma CommonAncestorMeets(first: BlockId, second: BlockId, a: BlockId)
      requires Valid() && Linked() && first in index && second in index && a in index && NumFromId(a) >= floor
      requires Ancestor(a, first) && Ancestor(a, second)
      requires forall id :: id in index && NumFromId(id) > NumFromId(a) ==> index[id].serial !in roots
      ensures exists b1, b2 :: MeetFrom(index, Pinned(), first, second, b1, b2)
    {
      var w1 := WalkToAncestor(first, a);
      var w2 := WalkToAncestor(second, a);
      WalksMeet(index, Pinned(), w1, w2);
      var b1, b2 :| Meet(index, Pinned(), b1, b2) && b1[0] == w1[0] && b2[0] == w2[0];
      assert MeetFrom(index, Pinned(), first, second, b1, b2);
    }

    /** The walk down from `tip` has passed the blocks of `b` and come to `x`. */
    ghost predicate WalkedTo(tip: Item, b: seq<Item>, x: Item)
      reads this
    {
      && IsBranch(index, Pinned(), b + [x]) && (b + [x])[0] == tip
      && forall i :: 0 <= i < |b| ==> b[i].Num() > x.Num()
    }

    /** The first two loops of fetch_branch_from: walks down from `tip` until the number is at most `num`. */
    method LowerTo(tip: Item, num: nat) returns (ok: bool, b: seq<Item>, x: Item)
      ensures IsBranch(index, Pinned(), b + [x]) && (b + [x])[0] == tip
      ensures !ok ==> Stuck(index, Pinned(), b + [x]) && x.Num() > num
      ensures ok ==> x.Num() <= num && (b != [] ==> x.Num() == num)
      ensures b == [] <== tip.Num() <= num
      ensures forall i :: 0 <= i < |b| ==> b[i].Num() > x.Num()
    {
      b, x := [], tip;
      while x.Num() > num
        invariant IsBranch(index, Pinned(), b + [x]) && (b + [x])[0] == tip
        invariant b != [] ==> x.Num() >= num
        invariant tip.Num() <= num ==> b == [] && x == tip
        invariant forall i :: 0 <= i < |b| ==> b[i].Num() > x.Num()
        decreases x.Num()
      {
        var p := Lock(index, Pinned(), x);
        if p.None? {
          return false, b, x;
        }
        ExtendBranch(index, Pinned(), b, x, p.value);
        b, x := b + [x], p.value;
      }
      return true, b, x;
    }

    /** The last loop of fetch_branch_from: walks down on both sides, from the same height, until the previous blocks
        are the same. */
    method LowerBoth(first: Item, second: Item, up1: seq<Item>, from1: Item, up2: seq<Item>, from2: Item)
      returns (ok: bool, b1: seq<Item>, x: Item, b2: seq<Item>, y: Item)
      requires WalkedTo(first, up1, from1) && WalkedTo(second, up2, from2)
      requires from1.Num() == from2.Num() && NoSharedParent(up1, up2)
      ensures WalkedTo(first, b1, x) && WalkedTo(second, b2, y)
      ensures x.Num() == y.Num() && NoSharedParent(b1, b2) && (ok <==> x.block.previous == y.block.previous)
      ensures !ok ==> Stuck(index, Pinned(), b1 + [x]) || Stuck(index, Pinned(), b2 + [y])
    {
      b1, x, b2, y := up1, from1, up2, from2;
      while x.block.previous != y.block.previous
        invariant WalkedTo(first, b1, x) && WalkedTo(second, b2, y)
        invariant x.Num() == y.Num() && NoSharedParent(b1, b2)
        decreases x.Num()
      {
        var p, q := Lock(index, Pinned(), x), Lock(index, Pinned(), y);
        if p.None? || q.None? {
          return false, b1, x, b2, y;
        }
        ExtendBranch(index, Pinned(), b1, x, p.value);
        ExtendBranch(index, Pinned(), b2, y, q.value);
        b1, b2 := b1 + [x], b2 + [y];
        x, y := p.value, q.value;
      }
      return true, b1, x, b2, y;
    }

    /** fork_database::fetch_branch_from: finds the two branches from the given tips down to where they meet, whenever
        there are such branches. */
    method FetchBranchFrom(first: BlockId, second: BlockId)
      returns (ok: bool, b1: seq<Item>, b2: seq<Item>)
      ensures ok <==> exists c1, c2 :: MeetFrom(index, Pinned(), first, second, c1, c2)
      ensures ok ==> MeetFrom(index, Pinned(), first, second, b1, b2)
    {
      b1, b2 := [], [];
      if first !in index || second !in index {
        return false, b1, b2;
      }
      var x, y := index[first], index[second];
      ok, b1, x := LowerTo(x, y.Num());
      if !ok {
        NeverMeet(first, second, b1 + [x], [y]);
        return;
      }
      ok, b2, y := LowerTo(y, x.Num());
      if !ok {
        NeverMeet(first, second, [x], b2 + [y]);
        return;
      }
      ok, b1, x, b2, y := LowerBoth(index[first], index[second], b1, x, b2, y);
      if !ok {
        NeverMeet(first, second, b1 + [x], b2 + [y]);
        return;
      }
      assert b1 == (b1 + [x])[..|b1 + [x]| - 1] && b2 == (b2 + [y])[..|b2 + [y]| - 1];
      b1, b2 := b1 + [x], b2 + [y];
      assert MeetFrom(index, Pinned(), first, second, b1, b2);
      return true, b1, b2;
    }

    lemma NeverMeet(first: BlockId, second: BlockId, w1: seq<Item>, w2: seq<Item>)
      requires first in index && second in index && |w1| > 0 && |w2| > 0
      requires w1[0] == index[first] && w2[0] == index[second]
      requires IsBranch(index, Pinned(), w1) && IsBranch(index, Pinned(), w2) && NoSharedParent(w1, w2)
      requires var n1, n2 := w1[|w1| - 1].Num(), w2[|w2| - 1].Num();
               (Stuck(index, Pinned(), w1) && n1 >= n2) || (Stuck(index, Pinned(), w2) && n2 >= n1)
      ensures !exists c1, c2 :: MeetFrom(index, Pinned(), first, second, c1, c2)
    {
      forall c1, c2 | |c1| > 0 && |c2| > 0 && c1[0] == w1[0] && c2[0] == w2[0] ensures !Meet(index, Pinned(), c1, c2) {
        NoMeeting(index, Pinned(), w1, w2, c1, c2);
      }
    }
  }
}
