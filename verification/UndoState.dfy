/** One recorded state of the undo database, as a value.

    An undo state is a delta: it says how to get from the store as it is now back to the store as it was when the
    state was opened. `Records` is that meaning; `Rollback` is how the delta is used; `Merged` composes two deltas. */
module UndoState {

  /** An object id names the index (space and type) and the instance inside it. */
  datatype ObjectId = ObjectId(kind: nat, instance: nat)

  /** The object store: every live object, and the next instance number of every registered index. */
  datatype Store<V> = Store(objects: map<ObjectId, V>, nextIds: map<nat, nat>) {

    /** Ids are handed out in increasing order, so no live object has an id that is still to come. */
    ghost predicate WellFormed() {
      forall id :: id in objects ==> id.kind in nextIds && id.instance < nextIds[id.kind]
    }
  }

  datatype Delta<V> = Delta(
    oldValues: map<ObjectId, V>,
    oldNextIds: map<nat, nat>,
    newIds: set<ObjectId>,
    removed: map<ObjectId, V>)

  function Empty<V>(): Delta<V> {
    Delta(map[], map[], {}, map[])
  }

  // --------------------------------------------------------------------------------------------------------------
  // Recording: what on_create, on_modify and on_remove add to the top state.

  /** `on_create` runs just after the object got its id, so its id is the counter before the creation. */
  function RecordCreate<V>(d: Delta<V>, id: ObjectId): (r: Delta<V>) {
    var next := if id.kind in d.oldNextIds then d.oldNextIds else d.oldNextIds[id.kind := id.instance];
    d.(oldNextIds := next, newIds := d.newIds + {id})
  }

  function RecordModify<V>(d: Delta<V>, id: ObjectId, value: V): (r: Delta<V>) {
    if id in d.newIds || id in d.oldValues then d
    else d.(oldValues := d.oldValues[id := value])
  }

  function RecordRemove<V>(d: Delta<V>, id: ObjectId, value: V): (r: Delta<V>) {
    if id in d.newIds then d.(newIds := d.newIds - {id})
    else if id in d.oldValues then
      d.(removed := d.removed[id := d.oldValues[id]], oldValues := d.oldValues - {id})
    else if id in d.removed then d
    else d.(removed := d.removed[id := value])
  }

  // --------------------------------------------------------------------------------------------------------------
  // Meaning and use.

  /** What `d` says about one object: it is new, removed, changed or untouched between `before` and `after`. */
  ghost predicate ObjectRecorded<V>(d: Delta<V>, before: Store<V>, after: Store<V>, id: ObjectId) {
    && (id in d.newIds <==> id !in before.objects && id in after.objects)
    && (id in d.newIds ==> id.kind in before.nextIds && before.nextIds[id.kind] <= id.instance)
    && (id in d.removed <==> id in before.objects && id !in after.objects)
    && (id in d.removed ==> d.removed[id] == before.objects[id])
    && (id in d.oldValues ==> id in before.objects && id in after.objects && d.oldValues[id] == before.objects[id])
    && (id in before.objects && id in after.objects && id !in d.oldValues ==> after.objects[id] == before.objects[id])
  }

  /** What `d` says about one id counter: counters never go down, and a counter that moved has its old value kept. */
  ghost predicate CounterRecorded<V>(d: Delta<V>, before: Store<V>, after: Store<V>, k: nat) {
    && (k in before.nextIds <==> k in after.nextIds)
    && (k in before.nextIds ==> before.nextIds[k] <= after.nextIds[k])
    && (k in d.oldNextIds ==> k in before.nextIds && d.oldNextIds[k] == before.nextIds[k])
    && (k in before.nextIds && k !in d.oldNextIds ==> after.nextIds[k] == before.nextIds[k])
  }

  /** `d` is exactly the difference between the store `before` and the store `after`. */
  ghost predicate Records<V>(d: Delta<V>, before: Store<V>, after: Store<V>) {
    && before.WellFormed() && after.WellFormed()
    && (forall id :: ObjectRecorded(d, before, after, id))
    && (forall k :: CounterRecorded(d, before, after, k))
  }

  /** What undo and pop_commit do to the store: restore values, drop the new objects, reset the counters, put the
      removed objects back. */
  function Rollback<V>(d: Delta<V>, s: Store<V>): (r: Store<V>) {
    Store((s.objects + d.oldValues - d.newIds) + d.removed, s.nextIds + d.oldNextIds)
  }

  lemma EmptyRecords<V>(s: Store<V>)
    requires s.WellFormed()
    ensures Records(Empty(), s, s)
  {
  }

  lemma RecordedShape<V>(d: Delta<V>, before: Store<V>, after: Store<V>)
    requires Records(d, before, after)
    ensures d.oldValues.Keys <= after.objects.Keys && d.newIds <= after.objects.Keys
    ensures d.removed.Keys !! after.objects.Keys && d.newIds !! d.oldValues.Keys
  {
    forall id
      ensures id in d.oldValues || id in d.newIds ==> id in after.objects
      ensures id in d.removed ==> id !in after.objects
      ensures id in d.newIds ==> id !in d.oldValues
    {
      assert ObjectRecorded(d, before, after, id);
    }
  }

  /** Undo is exact: rolling back a recorded difference gives back the store it was recorded from. */
  lemma RollbackExact<V>(d: Delta<V>, before: Store<V>, after: Store<V>)
    requires Records(d, before, after)
    ensures Rollback(d, after) == before
  {
    var r := Rollback(d, after);
    forall id ensures id in r.objects <==> id in before.objects
              ensures id in r.objects ==> r.objects[id] == before.objects[id]
    {
      assert ObjectRecorded(d, before, after, id);
    }
    assert r.objects == before.objects;
    forall k ensures k in r.nextIds <==> k in before.nextIds
             ensures k in r.nextIds ==> r.nextIds[k] == before.nextIds[k]
    {
      assert CounterRecorded(d, before, after, k);
    }
    assert r.nextIds == before.nextIds;
  }

  // --------------------------------------------------------------------------------------------------------------
  // Each recording step keeps the meaning.

  function Created<V>(s: Store<V>, id: ObjectId, value: V): Store<V>
    requires id.kind in s.nextIds
  {
    Store(s.objects[id := value], s.nextIds[id.kind := s.nextIds[id.kind] + 1])
  }

  lemma CreateRecorded<V>(d: Delta<V>, before: Store<V>, s: Store<V>, id: ObjectId, value: V)
    requires Records(d, before, s)
    requires id.kind in s.nextIds && id.instance == s.nextIds[id.kind]
    ensures Records(RecordCreate(d, id), before, Created(s, id, value))
  {
    var d', s' := RecordCreate(d, id), Created(s, id, value);
    assert id !in s.objects;
    assert CounterRecorded(d, before, s, id.kind);
    forall i ensures ObjectRecorded(d', before, s', i) {
      assert ObjectRecorded(d, before, s, i);
    }
    forall k ensures CounterRecorded(d', before, s', k) {
      assert CounterRecorded(d, before, s, k);
    }
  }

  lemma ModifyRecorded<V>(d: Delta<V>, before: Store<V>, s: Store<V>, id: ObjectId, value: V)
    requires Records(d, before, s)
    requires id in s.objects
    ensures Records(RecordModify(d, id, s.objects[id]), before, s.(objects := s.objects[id := value]))
  {
    var d', s' := RecordModify(d, id, s.objects[id]), s.(objects := s.objects[id := value]);
    forall i ensures ObjectRecorded(d', before, s', i) {
      assert ObjectRecorded(d, before, s, i);
    }
    forall k ensures CounterRecorded(d', before, s', k) {
      assert CounterRecorded(d, before, s, k);
    }
  }

  lemma RemoveRecorded<V>(d: Delta<V>, before: Store<V>, s: Store<V>, id: ObjectId)
    requires Records(d, before, s)
    requires id in s.objects
    ensures Records(RecordRemove(d, id, s.objects[id]), before, s.(objects := s.objects - {id}))
  {
    var d', s' := RecordRemove(d, id, s.objects[id]), s.(objects := s.objects - {id});
    forall i ensures ObjectRecorded(d', before, s', i) {
      assert ObjectRecorded(d, before, s, i);
    }
    forall k ensures CounterRecorded(d', before, s', k) {
      assert CounterRecorded(d, before, s, k);
    }
  }

  // --------------------------------------------------------------------------------------------------------------
  // Merging.

  /** The composition of the delta `a` (older) and the delta `b` (newer), cell by cell of the table in merge(). */
  function Merged<V>(a: Delta<V>, b: Delta<V>): (r: Delta<V>) {
    Delta(
      (map id | id in b.oldValues && id !in a.newIds :: b.oldValues[id]) + (a.oldValues - b.removed.Keys),
      b.oldNextIds + a.oldNextIds,
      a.newIds + b.newIds - b.removed.Keys,
      a.removed
      + (map id | id in b.removed && id !in a.newIds ::
           if id in a.oldValues then a.oldValues[id] else b.removed[id]))
  }

  /** The cells marked N/A in the table never occur: an id that the older state already knows is never new to the
      newer one, and an object that the older state removed is not seen again. */
  lemma MergeCellsReachable<V>(a: Delta<V>, b: Delta<V>, s0: Store<V>, s1: Store<V>, s2: Store<V>, id: ObjectId)
    requires Records(a, s0, s1) && Records(b, s1, s2)
    ensures id in b.newIds ==> id !in a.newIds && id !in a.oldValues && id !in a.removed
    ensures id in b.oldValues ==> id !in a.removed
    ensures id in b.removed ==> id !in a.removed && id !in b.newIds && id !in b.oldValues
  {
    assert ObjectRecorded(a, s0, s1, id) && ObjectRecorded(b, s1, s2, id) && CounterRecorded(a, s0, s1, id.kind);
  }

  /** Merging two recorded differences records the difference across both. */
  lemma MergeRecorded<V>(a: Delta<V>, b: Delta<V>, s0: Store<V>, s1: Store<V>, s2: Store<V>)
    requires Records(a, s0, s1) && Records(b, s1, s2)
    ensures Records(Merged(a, b), s0, s2)
  {
    forall id ensures ObjectRecorded(Merged(a, b), s0, s2, id) {
      assert ObjectRecorded(a, s0, s1, id) && ObjectRecorded(b, s1, s2, id) && CounterRecorded(a, s0, s1, id.kind);
      MergeCellsReachable(a, b, s0, s1, s2, id);
    }
    forall k ensures CounterRecorded(Merged(a, b), s0, s2, k) {
      assert CounterRecorded(a, s0, s1, k) && CounterRecorded(b, s1, s2, k);
    }
  }

  /** Merge is composition: undoing once after a merge gives what undoing the child and then the parent would. */
  lemma MergeIsComposition<V>(a: Delta<V>, b: Delta<V>, s0: Store<V>, s1: Store<V>, s2: Store<V>)
    requires Records(a, s0, s1) && Records(b, s1, s2)
    ensures Rollback(Merged(a, b), s2) == Rollback(a, Rollback(b, s2)) == s0
  {
    MergeRecorded(a, b, s0, s1, s2);
    RollbackExact(Merged(a, b), s0, s2);
    RollbackExact(b, s1, s2);
    RollbackExact(a, s0, s1);
  }

  // --------------------------------------------------------------------------------------------------------------
  // A whole stack of states.

  /** The store that the i-th state of a stack leads up to. */
  ghost function EndOf<V>(snaps: seq<Store<V>>, now: Store<V>, i: nat): Store<V> {
    if i + 1 < |snaps| then snaps[i + 1] else now
  }

  /** `stack[i]` records the way from `snaps[i]` to the next snapshot; the last one ends in the present store. */
  ghost predicate StackRecords<V>(stack: seq<Delta<V>>, snaps: seq<Store<V>>, now: Store<V>) {
    && |stack| == |snaps|
    && now.WellFormed()
    && forall i {:trigger stack[i]} :: 0 <= i < |stack| ==> Records(stack[i], snaps[i], EndOf(snaps, now, i))
  }

  /** Undoing the top `k` states one after the other. */
  ghost function Unwind<V>(stack: seq<Delta<V>>, s: Store<V>, k: nat): Store<V>
    requires k <= |stack|
  {
    if k == 0 then s
    else Unwind(stack[..|stack| - 1], Rollback(stack[|stack| - 1], s), k - 1)
  }

  lemma DropLast<V>(stack: seq<Delta<V>>, snaps: seq<Store<V>>, now: Store<V>)
    requires StackRecords(stack, snaps, now) && |stack| > 0
    ensures StackRecords(stack[..|stack| - 1], snaps[..|stack| - 1], snaps[|stack| - 1])
    ensures Rollback(stack[|stack| - 1], now) == snaps[|stack| - 1]
  {
    var n := |stack| - 1;
    assert Records(stack[n], snaps[n], EndOf(snaps, now, n));
    RollbackExact(stack[n], snaps[n], now);
  }

  /** Undoing the top `k` nested states restores exactly the store at the start of the k-th of them. */
  lemma {:induction false} UnwindExact<V>(stack: seq<Delta<V>>, snaps: seq<Store<V>>, now: Store<V>, k: nat)
    requires StackRecords(stack, snaps, now)
    requires 0 < k <= |stack|
    ensures Unwind(stack, now, k) == snaps[|stack| - k]
  {
    var n := |stack| - 1;
    DropLast(stack, snaps, now);
    assert Unwind(stack, now, k) == Unwind(stack[..n], snaps[n], k - 1);
    if k > 1 {
      UnwindExact(stack[..n], snaps[..n], snaps[n], k - 1);
      assert snaps[..n][n - (k - 1)] == snaps[|stack| - k];
    }
  }

  lemma DropFirst<V>(stack: seq<Delta<V>>, snaps: seq<Store<V>>, now: Store<V>)
    requires StackRecords(stack, snaps, now) && |stack| > 0
    ensures StackRecords(stack[1..], snaps[1..], now)
  {
    forall i | 0 <= i < |stack| - 1
      ensures Records(stack[1..][i], snaps[1..][i], EndOf(snaps[1..], now, i))
    {
      assert Records(stack[i + 1], snaps[i + 1], EndOf(snaps, now, i + 1));
    }
  }

  /** Replacing the present store and the top state together. */
  lemma ReplaceTop<V>(stack: seq<Delta<V>>, snaps: seq<Store<V>>, now: Store<V>, top: Delta<V>, now': Store<V>)
    requires StackRecords(stack, snaps, now) && |stack| > 0
    requires Records(top, snaps[|stack| - 1], now')
    ensures StackRecords(stack[..|stack| - 1] + [top], snaps, now')
  {
    var stack' := stack[..|stack| - 1] + [top];
    forall i | 0 <= i < |stack'|
      ensures Records(stack'[i], snaps[i], EndOf(snaps, now', i))
    {
      if i < |stack| - 1 {
        assert Records(stack[i], snaps[i], EndOf(snaps, now, i));
      }
    }
  }

  lemma PushTop<V>(stack: seq<Delta<V>>, snaps: seq<Store<V>>, now: Store<V>)
    requires StackRecords(stack, snaps, now)
    ensures StackRecords(stack + [Empty()], snaps + [now], now)
  {
    EmptyRecords(now);
    var stack', snaps' := stack + [Empty()], snaps + [now];
    forall i | 0 <= i < |stack'|
      ensures Records(stack'[i], snaps'[i], EndOf(snaps', now, i))
    {
      if i < |stack| {
        assert Records(stack[i], snaps[i], EndOf(snaps, now, i));
      }
    }
  }

  /** Merging the two top states of a stack leaves every remaining snapshot reachable. */
  lemma MergeTop<V>(stack: seq<Delta<V>>, snaps: seq<Store<V>>, now: Store<V>)
    requires StackRecords(stack, snaps, now) && |stack| >= 2
    ensures var n := |stack|;
            StackRecords(stack[..n - 2] + [Merged(stack[n - 2], stack[n - 1])], snaps[..n - 1], now)
  {
    var n := |stack|;
    assert Records(stack[n - 2], snaps[n - 2], EndOf(snaps, now, n - 2));
    assert Records(stack[n - 1], snaps[n - 1], EndOf(snaps, now, n - 1));
    MergeRecorded(stack[n - 2], stack[n - 1], snaps[n - 2], snaps[n - 1], now);
    var stack' := stack[..n - 2] + [Merged(stack[n - 2], stack[n - 1])];
    forall i | 0 <= i < n - 1
      ensures Records(stack'[i], snaps[..n - 1][i], EndOf(snaps[..n - 1], now, i))
    {
      if i < n - 2 {
        assert Records(stack[i], snaps[i], EndOf(snaps, now, i));
      }
    }
  }
}
