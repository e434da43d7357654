/** The object database together with its undo database: nested sessions over a store of objects.

    `snaps` is the history variable of the refinement: the store as it was when each stacked state was opened. */
module UndoDatabase {
  import opened Common
  import opened UndoState

  /** Do the entries of `b` for updated objects fit the state `a` below it? (No del + upd cell.) */
  ghost predicate CellsReachable<V>(a: Delta<V>, b: Delta<V>) {
    && (forall id :: id in b.oldValues ==> id !in a.removed)
    && (forall id :: id in b.newIds ==> id !in b.removed)
    && (forall id :: id in b.removed ==> id !in a.removed && id !in b.oldValues)
    && (forall id :: id in a.newIds ==> id !in a.oldValues)
  }

  lemma RecordedCellsReachable<V>(a: Delta<V>, b: Delta<V>, s0: Store<V>, s1: Store<V>, s2: Store<V>)
    requires Records(a, s0, s1) && Records(b, s1, s2)
    ensures CellsReachable(a, b)
  {
    forall id
      ensures id in b.oldValues ==> id !in a.removed
      ensures id in b.newIds ==> id !in b.removed
      ensures id in b.removed ==> id !in a.removed && id !in b.oldValues
      ensures id in a.newIds ==> id !in a.oldValues
    {
      MergeCellsReachable(a, b, s0, s1, s2, id);
      assert ObjectRecorded(a, s0, s1, id);
    }
  }

  /** First loop of merge(): objects updated in the newer state. */
  method MergeUpdated<V>(a: Delta<V>, b: Delta<V>) returns (upd: map<ObjectId, V>)
    requires CellsReachable(a, b)
    ensures upd == (map id | id in b.oldValues && id !in a.newIds :: b.oldValues[id]) + a.oldValues
  {
    upd := a.oldValues;
    var todo := b.oldValues.Keys;
    while todo != {}
      invariant todo <= b.oldValues.Keys
      invariant upd == (map id | id in b.oldValues && id !in todo && id !in a.newIds :: b.oldValues[id]) + a.oldValues
    {
      var id :| id in todo;
      todo := todo - {id};
      if id in a.newIds {
        // new + upd -> new
      } else if id in upd {
        // upd + upd -> the older upd
      } else {
        assert id !in a.removed;
        upd := upd[id := b.oldValues[id]];
      }
    }
  }

  /** Third loop of merge(): the id counters, where the older value wins. */
  method MergeCounters<V>(a: Delta<V>, b: Delta<V>) returns (next: map<nat, nat>)
    ensures next == b.oldNextIds + a.oldNextIds
  {
    next := a.oldNextIds;
    var kinds := b.oldNextIds.Keys;
    while kinds != {}
      invariant kinds <= b.oldNextIds.Keys
      invariant next == (b.oldNextIds - kinds) + a.oldNextIds
    {
      var k :| k in kinds;
      kinds := kinds - {k};
      if k !in next {
        next := next[k := b.oldNextIds[k]];
      }
    }
    assert b.oldNextIds - {} == b.oldNextIds;
  }

  ghost function RemovedSoFar<V>(a: Delta<V>, b: Delta<V>, upd: map<ObjectId, V>, gone: set<ObjectId>)
    : map<ObjectId, V>
  {
    a.removed + (map id | id in b.removed && id !in gone && id !in a.newIds ::
                   if id in upd then upd[id] else b.removed[id])
  }

  lemma RemovedStep<V>(a: Delta<V>, b: Delta<V>, upd: map<ObjectId, V>, gone: set<ObjectId>, id: ObjectId)
    requires id in gone && id in b.removed
    ensures var before := RemovedSoFar(a, b, upd, gone);
            RemovedSoFar(a, b, upd, gone - {id}) ==
            if id in a.newIds then before else before[id := if id in upd then upd[id] else b.removed[id]]
  {
  }

  /** Last loop of merge(): objects removed in the newer state, starting from the results of the other loops. */
  method MergeRemoved<V>(a: Delta<V>, b: Delta<V>, upd: map<ObjectId, V>)
    returns (newIds: set<ObjectId>, values: map<ObjectId, V>, removed: map<ObjectId, V>)
    requires CellsReachable(a, b)
    requires forall id :: id in a.newIds ==> id !in upd
    ensures newIds == a.newIds + b.newIds - b.removed.Keys
    ensures values == upd - b.removed.Keys
    ensures removed == RemovedSoFar(a, b, upd, {})
  {
    newIds, values, removed := a.newIds + b.newIds, upd, a.removed;
    var gone := b.removed.Keys;
    while gone != {}
      invariant gone <= b.removed.Keys
      invariant newIds == a.newIds + b.newIds - (b.removed.Keys - gone)
      invariant values == upd - (b.removed.Keys - gone)
      invariant removed == RemovedSoFar(a, b, upd, gone)
    {
      var id :| id in gone;
      RemovedStep(a, b, upd, gone, id);
      gone := gone - {id};
      assert id !in b.newIds && id !in a.removed;
      if id in newIds {
        // new + del -> nop
        newIds := newIds - {id};
      } else if id in values {
        // upd(was=X) + del(was=Y) -> del(was=X)
        removed, values := removed[id := values[id]], values - {id};
      } else {
        removed := removed[id := b.removed[id]];
      }
    }
  }

  /** merge() on the two states: moves the entries of `b` into the older state `a`. */
  method MergeDeltas<V>(a: Delta<V>, b: Delta<V>, ghost s0: Store<V>, ghost s1: Store<V>, ghost s2: Store<V>)
    returns (prev: Delta<V>)
    requires Records(a, s0, s1) && Records(b, s1, s2)
    ensures prev == Merged(a, b)
    ensures Records(prev, s0, s2)
  {
    RecordedCellsReachable(a, b, s0, s1, s2);
    var upd := MergeUpdated(a, b);
    var next := MergeCounters(a, b);
    var newIds, values, removed := MergeRemoved(a, b, upd);
    prev := Delta(values, next, newIds, removed);
    MergedCellwise(a, b, upd);
    MergeRecorded(a, b, s0, s1, s2);
  }

  lemma MergedCellwise<V>(a: Delta<V>, b: Delta<V>, upd: map<ObjectId, V>)
    requires CellsReachable(a, b)
    requires upd == (map id | id in b.oldValues && id !in a.newIds :: b.oldValues[id]) + a.oldValues
    ensures Merged(a, b).oldValues == upd - b.removed.Keys
    ensures Merged(a, b).removed == RemovedSoFar(a, b, upd, {})
  {
    MergedUpdates(a, b, upd);
    MergedRemovals(a, b, upd);
  }

  lemma MergedUpdates<V>(a: Delta<V>, b: Delta<V>, upd: map<ObjectId, V>)
    requires CellsReachable(a, b)
    requires upd == (map id | id in b.oldValues && id !in a.newIds :: b.oldValues[id]) + a.oldValues
    ensures Merged(a, b).oldValues == upd - b.removed.Keys
  {
  }

  lemma MergedRemovals<V>(a: Delta<V>, b: Delta<V>, upd: map<ObjectId, V>)
    requires CellsReachable(a, b)
    requires upd == (map id | id in b.oldValues && id !in a.newIds :: b.oldValues[id]) + a.oldValues
    ensures Merged(a, b).removed == RemovedSoFar(a, b, upd, {})
  {
  }

  class Database<V> {
    // the object store
    var objects: map<ObjectId, V>
    var nextIds: map<nat, nat>
    // the undo database
    var stack: seq<Delta<V>>
    var activeSessions: nat
    var disabled: bool
    var maxSize: nat

    ghost var snaps: seq<Store<V>>

    ghost function Snapshot(): Store<V>
      reads this
    {
      Store(objects, nextIds)
    }

    /** Every stacked state records the way back to its snapshot. */
    ghost predicate Valid()
      reads this
    {
      StackRecords(stack, snaps, Snapshot())
    }

    /** Every active session still has its state on the stack. */
    ghost predicate Covered()
      reads this
    {
      activeSessions <= |stack|
    }

    constructor (kinds: set<nat>)
      ensures Valid() && Covered()
      ensures objects == map[] && nextIds == map k | k in kinds :: 0
      ensures stack == [] && activeSessions == 0 && !disabled && maxSize == 256
    {
      objects, nextIds := map[], map k | k in kinds :: 0;
      stack, activeSessions, disabled, maxSize := [], 0, false, 256;
      snaps := [];
    }

    // ------------------------------------------------------------------------------------------------------------
    // Recording hooks. With no state on the stack the first change opens one.

    /** Makes sure there is a top state to record into. */
    method OpenIfEmpty()
      requires Valid()
      modifies this`stack, this`snaps
      ensures Valid() && |stack| > 0
      ensures old(stack) != [] ==> stack == old(stack) && snaps == old(snaps)
      ensures old(stack) == [] ==> stack == [Empty()] && snaps == [Snapshot()]
    {
      if stack == [] {
        PushTop(stack, snaps, Snapshot());
        stack, snaps := stack + [Empty()], snaps + [Snapshot()];
      }
    }

    /** Creates an object under the next id of its index; fails for an index that is not registered. While undo is
        enabled the stack keeps recording; changes made while it is disabled are not recorded. */
    method Create(kind: nat, value: V) returns (r: Option<ObjectId>)
      requires Valid()
      modifies this`objects, this`nextIds, this`stack, this`snaps
      ensures r.None? <==> kind !in old(nextIds)
      ensures r.None? ==> Snapshot() == old(Snapshot()) && stack == old(stack) && snaps == old(snaps)
      ensures r.Some? ==> r.value == ObjectId(kind, old(nextIds)[kind]) && r.value !in old(objects)
                          && Snapshot() == Created(old(Snapshot()), r.value, value)
      ensures !disabled || stack == [] ==> Valid()
      ensures disabled ==> stack == old(stack)
      ensures |stack| >= |old(stack)|
      ensures snaps == if r.None? || disabled || old(stack) != [] then old(snaps) else [old(Snapshot())]
    {
      if kind !in nextIds {
        return None;
      }
      var id := ObjectId(kind, nextIds[kind]);
      ghost var before := Snapshot();
      if !disabled {
        OpenIfEmpty();
        var top := |stack| - 1;
        assert Records(stack[top], snaps[top], EndOf(snaps, before, top));
        CreateRecorded(stack[top], snaps[top], before, id, value);
        ReplaceTop(stack, snaps, before, RecordCreate(stack[top], id), Created(before, id, value));
        stack := stack[..top] + [RecordCreate(stack[top], id)];
      } else if stack == [] {
        assert Created(before, id, value).WellFormed();
      }
      objects := objects[id := value];
      nextIds := nextIds[kind := nextIds[kind] + 1];
      return Some(id);
    }

    /** Replaces the value of a live object; fails if there is no such object. */
    method Modify(id: ObjectId, value: V) returns (found: bool)
      requires Valid()
      modifies this`objects, this`stack, this`snaps
      ensures found <==> id in old(objects)
      ensures objects == if found then old(objects)[id := value] else old(objects)
      ensures !disabled || stack == [] || !found ==> Valid()
      ensures disabled || !found ==> stack == old(stack)
      ensures |stack| >= |old(stack)|
      ensures snaps == if !found || disabled || old(stack) != [] then old(snaps) else [old(Snapshot())]
    {
      if id !in objects {
        return false;
      }
      ghost var before := Snapshot();
      if !disabled {
        OpenIfEmpty();
        var top := |stack| - 1;
        assert Records(stack[top], snaps[top], EndOf(snaps, before, top));
        ModifyRecorded(stack[top], snaps[top], before, id, value);
        ReplaceTop(stack, snaps, before, RecordModify(stack[top], id, objects[id]),
                   before.(objects := before.objects[id := value]));
        stack := stack[..top] + [RecordModify(stack[top], id, objects[id])];
      }
      objects := objects[id := value];
      return true;
    }

    /** Removes a live object; fails if there is no such object. */
    method Remove(id: ObjectId) returns (found: bool)
      requires Valid()
      modifies this`objects, this`stack, this`snaps
      ensures found <==> id in old(objects)
      ensures objects == old(objects) - {id}
      ensures !disabled || stack == [] || !found ==> Valid()
      ensures disabled || !found ==> stack == old(stack)
      ensures |stack| >= |old(stack)|
      ensures snaps == if !found || disabled || old(stack) != [] then old(snaps) else [old(Snapshot())]
    {
      if id !in objects {
        assert objects == objects - {id};
        return false;
      }
      ghost var before := Snapshot();
      if !disabled {
        OpenIfEmpty();
        var top := |stack| - 1;
        assert Records(stack[top], snaps[top], EndOf(snaps, before, top));
        RemoveRecorded(stack[top], snaps[top], before, id);
        ReplaceTop(stack, snaps, before, RecordRemove(stack[top], id, objects[id]),
                   before.(objects := before.objects - {id}));
        stack := stack[..top] + [RecordRemove(stack[top], id, objects[id])];
      }
      objects := objects - {id};
      return true;
    }

    // ------------------------------------------------------------------------------------------------------------
    // Sessions.

    /** Opens a session: drops the oldest states beyond `maxSize`, then pushes an empty state. The new snapshot is
        the present store. Every active session stays covered exactly when `maxSize` is at least the number of
        sessions that were active. */
    method StartSession(forceEnable: bool) returns (disableOnExit: bool)
      requires Valid()
      modifies this`stack, this`snaps, this`activeSessions, this`disabled
      ensures disableOnExit == (old(disabled) && forceEnable)
      ensures Valid()
      ensures old(disabled) && !forceEnable ==>
                stack == old(stack) && snaps == old(snaps) && activeSessions == old(activeSessions) && disabled
      ensures !old(disabled) || forceEnable ==>
                && !disabled
                && activeSessions == old(activeSessions) + 1
                && var kept := if |old(stack)| > maxSize then maxSize else |old(stack)|;
                   && stack == old(stack)[|old(stack)| - kept..] + [Empty()]
                   && snaps == old(snaps)[|old(stack)| - kept..] + [Snapshot()]
      ensures old(Covered()) && (!old(disabled) || forceEnable) ==> (Covered() <==> old(activeSessions) <= maxSize)
    {
      if disabled && !forceEnable {
        return false;
      }
      disableOnExit := disabled && forceEnable;
      if forceEnable {
        disabled := false;
      }
      hide StackRecords;
      TrimStack();
      PushTop(stack, snaps, Snapshot());
      stack, snaps := stack + [Empty()], snaps + [Snapshot()];
      activeSessions := activeSessions + 1;
    }

    /** The oldest states beyond `maxSize` are dropped. */
    method TrimStack()
      requires Valid()
      modifies this`stack, this`snaps
      ensures Valid() && |stack| == |snaps| == |old(snaps)| - (|old(stack)| - |stack|)
      ensures var kept := if |old(stack)| > maxSize then maxSize else |old(stack)|;
              stack == old(stack)[|old(stack)| - kept..] && snaps == old(snaps)[|old(stack)| - kept..]
    {
      while |stack| > maxSize
        invariant Valid()
        invariant |stack| <= |old(stack)| && stack == old(stack)[|old(stack)| - |stack|..]
        invariant snaps == old(snaps)[|old(stack)| - |stack|..]
        invariant |stack| >= if |old(stack)| > maxSize then maxSize else |old(stack)|
        decreases |stack|
      {
        DropFirst(stack, snaps, Snapshot());
        stack, snaps := stack[1..], snaps[1..];
      }
    }

    // ------------------------------------------------------------------------------------------------------------
    // The loops shared by undo and pop_commit.

    method RestoreValues(values: map<ObjectId, V>)
      requires values.Keys <= objects.Keys
      modifies this`objects
      ensures objects == old(objects) + values
    {
      var todo := values.Keys;
      while todo != {}
        invariant todo <= values.Keys <= objects.Keys
        invariant objects == old(objects) + (values - todo)
      {
        var id :| id in todo;
        objects := objects[id := values[id]];
        todo := todo - {id};
      }
      assert values - {} == values;
    }

    method RemoveNew(ids: set<ObjectId>)
      requires ids <= objects.Keys
      modifies this`objects
      ensures objects == old(objects) - ids
    {
      var todo := ids;
      while todo != {}
        invariant todo <= ids && todo <= objects.Keys
        invariant objects == old(objects) - (ids - todo)
      {
        var id :| id in todo;
        objects := objects - {id};
        todo := todo - {id};
      }
      assert ids - {} == ids;
    }

    method ResetCounters(next: map<nat, nat>)
      modifies this`nextIds
      ensures nextIds == old(nextIds) + next
    {
      var todo := next.Keys;
      while todo != {}
        invariant todo <= next.Keys
        invariant nextIds == old(nextIds) + (next - todo)
      {
        var k :| k in todo;
        nextIds := nextIds[k := next[k]];
        todo := todo - {k};
      }
      assert next - {} == next;
    }

    method Reinsert(removed: map<ObjectId, V>)
      requires removed.Keys !! objects.Keys
      modifies this`objects
      ensures objects == old(objects) + removed
    {
      var todo := removed.Keys;
      while todo != {}
        invariant todo <= removed.Keys && todo !! objects.Keys
        invariant objects == old(objects) + (removed - todo)
      {
        var id :| id in todo;
        objects := objects[id := removed[id]];
        todo := todo - {id};
      }
      assert removed - {} == removed;
    }

    /** Rolls the newest state back: none of the lookups and insertions it makes can fail. */
    method RollBackTop()
      requires Valid() && stack != []
      modifies this`objects, this`nextIds, this`stack, this`snaps
      ensures Valid()
      ensures Snapshot() == old(snaps)[|old(stack)| - 1]
      ensures stack == old(stack)[..|old(stack)| - 1] && snaps == old(snaps)[..|old(stack)| - 1]
    {
      var n := |stack| - 1;
      var top := stack[n];
      ghost var now := Snapshot();
      assert top.oldValues.Keys <= objects.Keys && top.newIds <= objects.Keys
             && top.removed.Keys !! objects.Keys && top.newIds !! top.oldValues.Keys by {
        assert Records(top, snaps[n], EndOf(snaps, now, n));
        RecordedShape(top, snaps[n], now);
      }
      RestoreValues(top.oldValues);
      RemoveNew(top.newIds);
      ResetCounters(top.oldNextIds);
      Reinsert(top.removed);
      assert Snapshot() == Rollback(top, now);
      DropLast(stack, snaps, now);
      stack, snaps := stack[..n], snaps[..n];
    }

    /** Undoes the newest state: the store is again exactly what it was when that state was opened. Throws while undo is
        disabled or no session is active; without a state on the stack the source is undefined. */
    method Undo() returns (ok: bool)
      requires Valid() && (!disabled && activeSessions > 0 ==> stack != [])
      modifies this
      ensures ok <==> !old(disabled) && old(activeSessions) > 0
      ensures Valid() && disabled == old(disabled) && maxSize == old(maxSize) && (old(Covered()) ==> Covered())
      ensures !ok ==> Snapshot() == old(Snapshot()) && stack == old(stack) && snaps == old(snaps)
                      && activeSessions == old(activeSessions)
      ensures ok ==> && Snapshot() == old(snaps)[|old(snaps)| - 1]
                     && snaps == old(snaps)[..|old(snaps)| - 1]
                     && stack == old(stack)[..|old(stack)| - 1]
                     && activeSessions == old(activeSessions) - 1
    {
      if disabled || activeSessions == 0 {
        return false;
      }
      disabled := true;
      RollBackTop();
      disabled := false;
      activeSessions := activeSessions - 1;
      return true;
    }

    /** Folds the newest session into the state below it. The store does not change, and undoing the merged state
        later leads back to the snapshot of the older of the two. */
    method Merge() returns (ok: bool)
      requires Valid()
      modifies this`stack, this`snaps, this`activeSessions
      ensures ok <==> old(activeSessions) > 0 && (|old(stack)| >= 2 || (old(activeSessions) == 1 && |old(stack)| == 1))
      ensures Valid() && (old(Covered()) ==> Covered())
      ensures !ok ==> stack == old(stack) && snaps == old(snaps) && activeSessions == old(activeSessions)
      ensures ok ==> && snaps == old(snaps)[..|old(snaps)| - 1]
                     && activeSessions == old(activeSessions) - 1
                     && |stack| == |old(stack)| - 1
      ensures ok && |old(stack)| >= 2 ==>
                var n := |old(stack)|;
                stack == old(stack)[..n - 2] + [Merged(old(stack)[n - 2], old(stack)[n - 1])]
    {
      if activeSessions == 0 {
        return false;
      }
      var n := |stack|;
      if activeSessions == 1 && n == 1 {
        stack, snaps, activeSessions := stack[..0], snaps[..0], 0;
        return true;
      }
      if n < 2 {
        return false;
      }
      assert Records(stack[n - 2], snaps[n - 2], EndOf(snaps, Snapshot(), n - 2));
      assert Records(stack[n - 1], snaps[n - 1], EndOf(snaps, Snapshot(), n - 1));
      var m := MergeDeltas(stack[n - 2], stack[n - 1], snaps[n - 2], snaps[n - 1], Snapshot());
      MergeTop(stack, snaps, Snapshot());
      stack, snaps := stack[..n - 2] + [m], snaps[..n - 1];
      activeSessions := activeSessions - 1;
      return true;
    }

    /** Keeps the newest session's changes; its state stays on the stack for a later pop_commit. */
    method Commit() returns (ok: bool)
      requires Valid()
      modifies this`activeSessions
      ensures ok <==> old(activeSessions) > 0
      ensures Valid() && (old(Covered()) ==> Covered())
      ensures activeSessions == if ok then old(activeSessions) - 1 else 0
    {
      if activeSessions == 0 {
        return false;
      }
      activeSessions := activeSessions - 1;
      return true;
    }

    /** Takes back the newest committed state. Throws when a session is active or nothing is left to take back. Undo
        is enabled afterwards, whatever it was before. */
    method PopCommit() returns (ok: bool)
      requires Valid()
      modifies this`objects, this`nextIds, this`stack, this`snaps, this`disabled
      ensures ok <==> old(activeSessions) == 0 && old(stack) != []
      ensures Valid()
      ensures !ok ==> Snapshot() == old(Snapshot()) && stack == old(stack) && snaps == old(snaps)
                      && disabled == old(disabled)
      ensures ok ==> && Snapshot() == old(snaps)[|old(snaps)| - 1]
                     && snaps == old(snaps)[..|old(snaps)| - 1]
                     && !disabled
    {
      if activeSessions != 0 || stack == [] {
        return false;
      }
      disabled := true;
      RollBackTop();
      disabled := false;
      return true;
    }
  }
}
