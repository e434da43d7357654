/** Whole runs of the undo database: it does what a database would do that keeps a copy of the store for every state. */
module UndoRuns {
  import opened UndoState
  import opened UndoDatabase

  datatype Op<V> =
    | Creating(kind: nat, value: V)
    | Changing(id: ObjectId, value: V)
    | Removing(id: ObjectId)
    | Starting
    | Undoing
    | Merging
    | Committing
    | PoppingCommit
    | Resizing(size: nat)

  /** The simple form: the store, and a copy of it from the start of every state that is kept. */
  datatype Copies<V> = Copies(now: Store<V>, saved: seq<Store<V>>, active: nat, maxSize: nat)

  /** A change; the first one opens a state if there is none. */
  function Changed<V>(c: Copies<V>, next: Store<V>): Copies<V> {
    c.(now := next, saved := if c.saved == [] then [c.now] else c.saved)
  }

  /** One operation on copies. An operation that throws does nothing. */
  function Do<V>(c: Copies<V>, op: Op<V>): Copies<V> {
    var n := |c.saved|;
    match op
    case Creating(kind, value) =>
      if kind !in c.now.nextIds then c else Changed(c, Created(c.now, ObjectId(kind, c.now.nextIds[kind]), value))
    case Changing(id, value) =>
      if id !in c.now.objects then c else Changed(c, c.now.(objects := c.now.objects[id := value]))
    case Removing(id) =>
      if id !in c.now.objects then c else Changed(c, c.now.(objects := c.now.objects - {id}))
    case Starting =>
      var kept := if n > c.maxSize then c.maxSize else n;
      c.(saved := c.saved[n - kept..] + [c.now], active := c.active + 1)
    case Undoing =>
      if c.active == 0 || n == 0 then c
      else c.(now := c.saved[n - 1], saved := c.saved[..n - 1], active := c.active - 1)
    case Merging =>
      if c.active > 0 && (n >= 2 || (c.active == 1 && n == 1))
      then c.(saved := c.saved[..n - 1], active := c.active - 1)
      else c
    case Committing => if c.active > 0 then c.(active := c.active - 1) else c
    case PoppingCommit => if c.active > 0 || n == 0 then c else c.(now := c.saved[n - 1], saved := c.saved[..n - 1])
    case Resizing(size) => c.(maxSize := size)
  }

  function DoAll<V>(c: Copies<V>, ops: seq<Op<V>>): Copies<V> {
    if ops == [] then c else Do(DoAll(c, ops[..|ops| - 1]), ops[|ops| - 1])
  }

  ghost function View<V>(d: Database<V>): Copies<V>
    reads d
  {
    Copies(d.Snapshot(), d.snaps, d.activeSessions, d.maxSize)
  }

  /** The database with its deltas does the same as the one with copies. (To undo without a state on the stack, which is
      undefined, is not tried.) */
  method Perform<V>(d: Database<V>, op: Op<V>)
    requires d.Valid() && !d.disabled
    modifies d
    ensures d.Valid() && !d.disabled && View(d) == Do(old(View(d)), op)
  {
    assert |d.stack| == |d.snaps|;
    hide StackRecords;
    match op
    case Creating(_, _) => Change(d, op);
    case Changing(_, _) => Change(d, op);
    case Removing(_) => Change(d, op);
    case Starting => var _ := d.StartSession(false);
    case Undoing => if d.stack != [] { var _ := d.Undo(); }
    case Merging => var _ := d.Merge();
    case Committing => var _ := d.Commit();
    case PoppingCommit => var _ := d.PopCommit();
    case Resizing(size) => d.maxSize := size;
  }

  method Change<V>(d: Database<V>, op: Op<V>)
    requires d.Valid() && !d.disabled && (op.Creating? || op.Changing? || op.Removing?)
    modifies d
    ensures d.Valid() && !d.disabled && View(d) == Do(old(View(d)), op)
  {
    assert |d.stack| == |d.snaps|;
    hide StackRecords;
    match op
    case Creating(kind, value) => var _ := d.Create(kind, value);
    case Changing(id, value) => var _ := d.Modify(id, value);
    case Removing(id) => var _ := d.Remove(id);
  }

  method Run<V>(d: Database<V>, ops: seq<Op<V>>)
    requires d.Valid() && !d.disabled
    modifies d
    ensures d.Valid() && !d.disabled && View(d) == DoAll(old(View(d)), ops)
  {
    for i := 0 to |ops|
      invariant d.Valid() && !d.disabled && View(d) == DoAll(old(View(d)), ops[..i])
    {
      hide Do;
      assert ops[..i + 1][..i] == ops[..i];
      Perform(d, ops[i]);
    }
    assert ops[..|ops|] == ops;
  }

  // --------------------------------------------------------------------------------------------------------------
  // What sessions promise.

  ghost function Undone<V>(c: Copies<V>, k: nat): Copies<V> {
    if k == 0 then c else Do(Undone(c, k - 1), Undoing)
  }

  /** Undoing k times restores the k-th copy from the end. */
  lemma {:induction false} UndoneExact<V>(c: Copies<V>, k: nat)
    requires k <= c.active && k <= |c.saved|
    ensures Undone(c, k) == c.(now := if k == 0 then c.now else c.saved[|c.saved| - k],
                               saved := c.saved[..|c.saved| - k], active := c.active - k)
  {
    if k == 0 {
      assert c.saved[..|c.saved|] == c.saved;
    } else {
      UndoneExact(c, k - 1);
    }
  }

  /** How many states there are from the one that the last operation before `ops` opened up to the newest. */
  ghost function Depth<V>(c: Copies<V>, ops: seq<Op<V>>): int {
    if ops == [] then 1
    else
      var shorter, last := ops[..|ops| - 1], ops[|ops| - 1];
      var before := DoAll(c, shorter);
      Depth(c, shorter) + if last.Starting? then 1 else |Do(before, last).saved| - |before.saved|
  }

  /** That state is never left, and never so far down that a start would drop it. */
  ghost predicate Inside<V>(c: Copies<V>, ops: seq<Op<V>>) {
    ops != [] ==>
      var shorter := ops[..|ops| - 1];
      && Inside(c, shorter) && Depth(c, ops) >= 1
      && (ops[|ops| - 1].Starting? ==> Depth(c, shorter) <= DoAll(c, shorter).maxSize)
  }

  /** Then its copy is where it is expected, whatever was dropped below it. */
  lemma {:induction false} CopyKept<V>(c: Copies<V>, ops: seq<Op<V>>)
    requires c.saved != [] && Inside(c, ops)
    ensures var saved, depth := DoAll(c, ops).saved, Depth(c, ops);
            1 <= depth <= |saved| && saved[|saved| - depth] == c.saved[|c.saved| - 1]
  {
    hide Do;
    if ops != [] {
      var shorter := ops[..|ops| - 1];
      CopyKept(c, shorter);
      OpKeepsCopy(DoAll(c, shorter), ops[|ops| - 1], Depth(c, shorter));
    }
  }

  lemma OpKeepsCopy<V>(c: Copies<V>, op: Op<V>, depth: nat)
    requires 1 <= depth <= |c.saved| && (op.Starting? ==> depth <= c.maxSize)
    ensures var saved := Do(c, op).saved;
            var depth' := depth + if op.Starting? then 1 else |saved| - |c.saved|;
            depth' >= 1 ==> depth' <= |saved| && saved[|saved| - depth'] == c.saved[|c.saved| - depth]
  {
  }

  /** A session: whatever is done in it, with nested sessions begun, undone, merged or committed in any order,
      undoing as many states as have been opened since restores the store at its start. */
  lemma {:induction false} SessionRestores<V>(c: Copies<V>, ops: seq<Op<V>>)
    requires Inside(Do(c, Starting), ops) && Depth(Do(c, Starting), ops) <= DoAll(Do(c, Starting), ops).active
    ensures var c1 := Do(c, Starting);
            1 <= Depth(c1, ops) <= |DoAll(c1, ops).saved| && Undone(DoAll(c1, ops), Depth(c1, ops)).now == c.now
  {
    hide Do, DoAll, Inside, Undone, Depth;
    StartSaves(c);
    var c1 := Do(c, Starting);
    CopyKept(c1, ops);
    UndoneExact(DoAll(c1, ops), Depth(c1, ops));
  }

  lemma StartSaves<V>(c: Copies<V>)
    ensures var saved := Do(c, Starting).saved; saved != [] && saved[|saved| - 1] == c.now
  {
  }

  /** Sessions nested in a session, all of them undone or merged, with room for those that are active together. */
  ghost predicate Nested<V>(c: Copies<V>, ops: seq<Op<V>>) {
    ops != [] ==>
      var shorter, last := ops[..|ops| - 1], ops[|ops| - 1];
      var before := DoAll(c, shorter);
      && Nested(c, shorter) && !last.Committing? && DoAll(c, ops).active >= c.active
      && (last.Starting? ==> before.active - c.active < before.maxSize)
  }

  /** Then there is one state for each active session, and undoing the sessions restores the start of the outermost. */
  lemma {:induction false} NestedSessionsRestore<V>(c: Copies<V>, ops: seq<Op<V>>)
    requires Nested(Do(c, Starting), ops)
    ensures var d := DoAll(Do(c, Starting), ops);
            d.active > c.active && Undone(d, d.active - c.active).now == c.now
  {
    var c1 := Do(c, Starting);
    StartSaves(c);
    assert c1.active == c.active + 1;
    hide Do, DoAll, Inside, Undone, Depth;
    OneStateEach(c1, ops);
    SessionRestores(c, ops);
  }

  lemma {:induction false} OneStateEach<V>(c: Copies<V>, ops: seq<Op<V>>)
    requires c.saved != [] && c.active > 0 && Nested(c, ops)
    ensures Inside(c, ops) && Depth(c, ops) == DoAll(c, ops).active - c.active + 1 && DoAll(c, ops).active >= c.active
  {
    if ops != [] {
      var shorter, last := ops[..|ops| - 1], ops[|ops| - 1];
      OneStateEach(c, shorter);
      CopyKept(c, shorter);
      hide Inside, Nested;
      OneStateMore(DoAll(c, shorter), last);
    }
  }

  lemma OneStateMore<V>(c: Copies<V>, op: Op<V>)
    requires c.saved != [] && c.active > 0 && !op.Committing?
    ensures !op.Starting? ==> |Do(c, op).saved| - |c.saved| == Do(c, op).active - c.active
    ensures op.Starting? ==> Do(c, op).active == c.active + 1
  {
  }

  /** The same of the database itself. */
  method Session<V>(d: Database<V>, ops: seq<Op<V>>)
    requires d.Valid() && !d.disabled
    requires var c := Do(View(d), Starting); Inside(c, ops) && Depth(c, ops) <= DoAll(c, ops).active
    modifies d
    ensures d.Valid() && d.Snapshot() == old(d.Snapshot())
  {
    SessionRestores(View(d), ops);
    hide StackRecords, Inside, Do, Undone;
    Perform(d, Starting);
    ghost var c := View(d);
    var depth := 1;
    for i := 0 to |ops|
      invariant d.Valid() && !d.disabled && View(d) == DoAll(c, ops[..i]) && depth == Depth(c, ops[..i])
    {
      assert ops[..i + 1][..i] == ops[..i];
      SameHeight(d.stack, d.snaps, d.Snapshot());
      var height := |d.stack|;
      Perform(d, ops[i]);
      SameHeight(d.stack, d.snaps, d.Snapshot());
      depth := depth + if ops[i].Starting? then 1 else |d.stack| - height;
    }
    assert ops[..|ops|] == ops;
    ghost var e := View(d);
    hide DoAll, Depth;
    for k := 0 to depth
      invariant d.Valid() && !d.disabled && View(d) == Undone(e, k)
    {
      UndoneStep(e, k);
      Perform(d, Undoing);
    }
  }

  lemma UndoneStep<V>(c: Copies<V>, k: nat)
    ensures Undone(c, 0) == c && Undone(c, k + 1) == Do(Undone(c, k), Undoing)
  {
  }

  lemma SameHeight<V>(stack: seq<Delta<V>>, snaps: seq<Store<V>>, now: Store<V>)
    requires StackRecords(stack, snaps, now)
    ensures |stack| == |snaps|
  {
  }

  /** A session committed within another one leaves its state on top: the next undo goes back to its start, not to that
      of the session that is still active. */
  lemma CommittedStateIsUndoneFirst<V>(c: Copies<V>, id: ObjectId, value: V)
    requires c.maxSize >= 1 && id in c.now.objects
    ensures var changed := Do(Do(c, Starting), Changing(id, value));
            var undone := Do(Do(Do(changed, Starting), Committing), Undoing);
            undone.now == changed.now && undone.active == c.active
  {
  }

  /** With room for one state, the third of three nested sessions costs the first one its state. */
  lemma StartIsLost(c: Copies<nat>)
    requires c.saved == [] && c.active == 0 && c.maxSize == 1
    ensures var d := Do(Do(Do(c, Starting), Starting), Starting); d.active == 3 && |d.saved| == 2
  {
  }
}
