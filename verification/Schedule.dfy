/** Slots and witnesses: when blocks may be produced, and by whom. Times are in seconds. */
module Schedule {
  import opened Arithmetic
  import opened Common
  import opened Irreversible

  // --------------------------------------------------------------------------------------------------------------
  // Slot times.

  function Times(n: nat, interval: nat): (t: nat)
    ensures t == n * interval
  {
    n * interval
  }

  /** What slot times depend on: the head block (or the genesis time before there is one), and the parameters. */
  datatype Clock = Clock(headNumber: nat, headTime: nat, interval: nat, maintenance: bool, skipSlots: nat) {

    /** get_slot_time */
    function SlotTime(slot: nat): nat
      requires interval > 0
    {
      if slot == 0 then 0
      else if headNumber == 0 then headTime + Times(slot, interval)
      else
        var headSlotTime := Times(headTime / interval, interval);
        headSlotTime + Times(if maintenance then slot + skipSlots else slot, interval)
    }

    /** get_slot_at_time */
    function SlotAtTime(when: nat): nat
      requires interval > 0
    {
      var first := SlotTime(1);
      if when < first then 0 else (when - first) / interval + 1
    }
  }

  /** Slots are one interval apart. */
  lemma SlotsEvenlySpaced(c: Clock, k: nat)
    requires c.interval > 0 && k > 0
    ensures c.SlotTime(k) == c.SlotTime(1) + (k - 1) * c.interval
  {
    var n := if c.maintenance then c.skipSlots else 0;
    Spread(k + n, 1 + n, c.interval);
    Spread(k, 1, c.interval);
  }

  lemma Spread(x: int, y: int, m: int)
    ensures x * m - y * m == (x - y) * m
  {
  }

  /** A slot's number and its time determine each other. */
  lemma SlotRoundTrip(c: Clock, k: nat)
    requires c.interval > 0 && k > 0
    ensures c.SlotAtTime(c.SlotTime(k)) == k
  {
    SlotsEvenlySpaced(c, k);
    var n, m := k - 1, c.interval;
    assert n * m == m * n;
    assert n * m / m == n by { Divides(m, n); }
  }

  /** Every time from the first slot on falls into exactly one slot, and earlier times into none. */
  lemma SlotBrackets(c: Clock, when: nat)
    requires c.interval > 0
    ensures c.SlotAtTime(when) == 0 <==> when < c.SlotTime(1)
    ensures var k := c.SlotAtTime(when);
            k > 0 ==> c.SlotTime(k) <= when < c.SlotTime(k + 1)
  {
    var first := c.SlotTime(1);
    if when >= first {
      var q := (when - first) / c.interval;
      assert when - first == c.interval * q + (when - first) % c.interval;
      SlotsEvenlySpaced(c, q + 1);
      SlotsEvenlySpaced(c, q + 2);
      Spread(q + 1, q, c.interval);
    }
  }

  /** The next block comes after the head block. */
  lemma SlotsInTheFuture(c: Clock, k: nat)
    requires c.interval > 0 && k > 0
    ensures c.SlotTime(k) > c.headTime
  {
    SlotsEvenlySpaced(c, k);
    assert (k - 1) * c.interval >= 0;
    var q := c.headTime / c.interval;
    assert c.headTime == c.interval * q + c.headTime % c.interval;
    var n := if c.maintenance then 1 + c.skipSlots else 1;
    MulStep(0, n, c.interval);
  }

  /** The clock after a block in slot `k`. */
  function Advanced(c: Clock, k: nat, maintenance: bool): Clock
    requires c.interval > 0
  {
    c.(headNumber := c.headNumber + 1, headTime := c.SlotTime(k), maintenance := maintenance)
  }

  /** A block in slot `k` moves all later slots down by `k` and does not change their times, unless it is a maintenance
      block, which skips some; except after genesis, if and only if the genesis time is not on a slot. */
  lemma SlotsMoveDown(c: Clock, k: nat, j: nat, maintenance: bool)
    requires c.interval > 0 && k > 0 && j > 0
    ensures var slots := j + if maintenance then c.skipSlots else 0;
            Advanced(c, k, maintenance).SlotTime(j) == c.SlotTime(k + slots)
            <==> c.headNumber > 0 || c.headTime % c.interval == 0
  {
    var m, t := c.interval, c.SlotTime(k);
    var slots := j + if maintenance then c.skipSlots else 0;
    SlotsEvenlySpaced(c, k);
    SlotsEvenlySpaced(c, k + slots);
    Spread(k + slots - 1, k - 1, m);
    assert c.SlotTime(k + slots) == t + slots * m;
    assert Advanced(c, k, maintenance).SlotTime(j) == t / m * m + slots * m;
    assert t % m == (if c.headNumber == 0 then c.headTime % m else 0) by { SlotTimeMod(c, k); }
    WholePart(t, m);
  }

  /** After a genesis one second off the grid the times of all later slots move. */
  lemma GenesisOffTheGrid(c: Clock)
    requires c.interval == 3 && c.headNumber == 0 && c.headTime == 1 && !c.maintenance
    ensures c.SlotTime(2) == 7 && Advanced(c, 1, false).SlotTime(1) == 6
  {
  }

  lemma SlotTimeMod(c: Clock, k: nat)
    requires c.interval > 0 && k > 0
    ensures c.SlotTime(k) % c.interval == if c.headNumber == 0 then c.headTime % c.interval else 0
  {
    var m := c.interval;
    if c.headNumber == 0 {
      ModShift(c.headTime, k, m);
    } else {
      var q, n := c.headTime / m, if c.maintenance then k + c.skipSlots else k;
      Spread(q + n, q, m);
      ModShift(0, q + n, m);
    }
  }

  lemma WholePart(t: nat, m: nat)
    requires m > 0
    ensures t / m * m == t <==> t % m == 0
  {
    assert t == m * (t / m) + t % m;
  }

  lemma ModShift(x: nat, n: nat, m: nat)
    requires m > 0
    ensures (x + n * m) % m == x % m
  {
    var q, r := x / m, (x + n * m) / m;
    assert x == m * q + x % m && x + n * m == m * r + (x + n * m) % m;
    assert m * (q + n) == m * q + n * m;
    MulStep(r, q + n, m);
    MulStep(q + n, r, m);
  }

  // --------------------------------------------------------------------------------------------------------------
  // Whose slot it is.

  /** get_scheduled_witness: absolute slots count all slots so far, filled or missed. */
  function Scheduled(shuffled: seq<WitnessId>, aslot: nat, slot: nat): WitnessId
    requires shuffled != []
  {
    shuffled[(aslot + slot) % |shuffled|]
  }

  /** Any n consecutive slots under one schedule give each of the n witnesses exactly one slot. */
  lemma EveryWitnessOnce(shuffled: seq<WitnessId>, active: set<WitnessId>, aslot: nat, w: WitnessId)
    requires shuffled != [] && Lists(shuffled, active) && w in active
    ensures exists slot :: 0 <= slot < |shuffled| && Scheduled(shuffled, aslot, slot) == w
    ensures forall a, b :: && 0 <= a < |shuffled| && Scheduled(shuffled, aslot, a) == w
                           && 0 <= b < |shuffled| && Scheduled(shuffled, aslot, b) == w
                           ==> a == b
  {
    var n := |shuffled|;
    var i :| 0 <= i < n && shuffled[i] == w;
    var slot := SlotFor(aslot, i, n);
    assert Scheduled(shuffled, aslot, slot) == w;
    forall a, b | 0 <= a < n && 0 <= b < n && Scheduled(shuffled, aslot, a) == w && Scheduled(shuffled, aslot, b) == w
      ensures a == b
    {
      SameOffset(aslot, a, b, n);
    }
  }

  /** The slots go through the schedule in its order, over and over, beginning with absolute slot 0. */
  lemma SlotsInOrder(shuffled: seq<WitnessId>, aslot: nat, slot: nat, round: nat, i: nat)
    requires i < |shuffled| && aslot + slot == round * |shuffled| + i
    ensures Scheduled(shuffled, aslot, slot) == shuffled[i]
  {
    ModIs(aslot + slot, round, i, |shuffled|);
  }

  lemma SlotFor(x: nat, i: nat, n: nat) returns (a: nat)
    requires i < n
    ensures a < n && (x + a) % n == i
  {
    var r := x % n;
    a := if i >= r then i - r else i - r + n;
    OffsetWithin(x, a, n);
  }

  lemma SameOffset(x: nat, a: nat, b: nat, n: nat)
    requires a < n && b < n
    ensures (x + a) % n == (x + b) % n ==> a == b
  {
    OffsetWithin(x, a, n);
    OffsetWithin(x, b, n);
  }

  lemma OffsetWithin(x: nat, a: nat, n: nat)
    requires a < n
    ensures (x + a) % n == if x % n + a < n then x % n + a else x % n + a - n
  {
    var q, r := x / n, x % n + a;
    assert x == q * n + x % n;
    if r < n {
      ModIs(x + a, q, r, n);
    } else {
      assert (q + 1) * n == q * n + n;
      ModIs(x + a, q + 1, r - n, n);
    }
  }

  lemma ModIs(y: nat, q: nat, r: nat, n: nat)
    requires y == q * n + r && r < n
    ensures y % n == r
  {
    ModShift(r, q, n);
    SmallMod(r, n);
  }

  lemma SmallMod(r: nat, n: nat)
    requires r < n
    ensures r % n == r
  {
  }

  // --------------------------------------------------------------------------------------------------------------
  // Shuffling.

  /** The pseudo-random number for position `i`, on 64-bit words. */
  function Key(now: bv64, i: bv64): bv64 {
    var k0 := (now << 32) + i * 2685821657736338717;
    var k1 := k0 ^ (k0 >> 12);
    var k2 := k1 ^ (k1 << 25);
    var k3 := k2 ^ (k2 >> 27);
    k3 * 2685821657736338717
  }

  /** Three values of it. */
  lemma KeyExamples()
    ensures Key(1, 0) == 4396774442519208864 && Key(0, 1) == 12492341101037700564
    ensures Key(1469000000, 7) == 2460423816773868302
  {
  }

  /** The position that position `i` of `n` is swapped with; `word` is `i` as a 64-bit word. */
  function Target(now: bv64, i: nat, word: bv64, n: nat): (j: nat)
    requires i < n
    ensures i <= j < n
  {
    i + Key(now, word) as nat % (n - i)
  }

  /** It is the remainder of the number by how many positions are left, counted from `i` on. */
  lemma TargetIsRemainder(now: bv64, i: nat, word: bv64, n: nat) returns (q: nat)
    requires i < n
    ensures Key(now, word) as nat == q * (n - i) + (Target(now, i, word, n) - i)
  {
    var key: nat := Key(now, word) as nat;
    assert Target(now, i, word, n) == i + key % (n - i);
    hide Key, Target;
    q := Quotient(key, n - i);
  }

  lemma Quotient(x: nat, d: nat) returns (q: nat)
    requires d > 0
    ensures x == q * d + x % d
  {
    q := x / d;
    assert x == d * q + x % d;
  }

  function Swapped(s: seq<WitnessId>, i: nat, j: nat): (r: seq<WitnessId>)
    requires i < |s| && j < |s|
    ensures |r| == |s|
  {
    s[i := s[j]][j := s[i]]
  }

  /** The witnesses after the swaps from position `i` on. */
  function ShuffledFrom(s: seq<WitnessId>, now: bv64, i: nat, word: bv64): (r: seq<WitnessId>)
    requires i <= |s|
    decreases |s| - i
  {
    if i == |s| then s else ShuffledFrom(Swapped(s, i, Target(now, i, word, |s|)), now, i + 1, word + 1)
  }

  /** Whatever the time, shuffling lists every witness once. */
  lemma {:induction false} ShuffleIsPermutation(s: seq<WitnessId>, now: bv64, i: nat, word: bv64,
                                                active: set<WitnessId>)
    requires i <= |s| && Lists(s, active)
    ensures |ShuffledFrom(s, now, i, word)| == |s| && Lists(ShuffledFrom(s, now, i, word), active)
    decreases |s| - i
  {
    hide Target, Lists;
    if i < |s| {
      var j := Target(now, i, word, |s|);
      SwapLists(s, Swapped(s, i, j), i, j, active);
      ShuffleIsPermutation(Swapped(s, i, j), now, i + 1, word + 1, active);
    }
  }

  /** The active witnesses in the order of their ids. */
  ghost predicate InIdOrder(s: seq<WitnessId>, active: set<WitnessId>) {
    (forall i, j :: 0 <= i < j < |s| ==> s[i] < s[j]) && Members(s) == active
  }

  lemma {:induction false} IdOrderIsUnique(s: seq<WitnessId>, t: seq<WitnessId>, active: set<WitnessId>)
    requires InIdOrder(s, active) && InIdOrder(t, active)
    ensures s == t
    decreases |s|
  {
    if s == [] {
      MembersOfSome(t);
    } else {
      var m, n := |s| - 1, |t| - 1;
      assert s[m] in Members(s) && s[m] in t;
      assert t[n] == s[m] by {
        assert t[n] in Members(t) && t[n] in s;
      }
      assert Members(s[..m]) == active - {s[m]} by { assert s == s[..m] + [s[m]]; }
      assert Members(t[..n]) == active - {t[n]} by { assert t == t[..n] + [t[n]]; }
      IdOrderIsUnique(s[..m], t[..n], active - {s[m]});
      assert s == s[..m] + [s[m]] && t == t[..n] + [t[n]];
    }
  }

  lemma MembersOfSome(s: seq<WitnessId>)
    ensures s != [] ==> Members(s) != {}
  {
    if s != [] { assert s[0] in Members(s); }
  }

  method ListInIdOrder(active: set<WitnessId>) returns (ws: array<WitnessId>)
    ensures fresh(ws) && InIdOrder(ws[..], active) && ws.Length == |active|
  {
    var listed: seq<WitnessId> := [];
    var rest := active;
    assert active - active == {};
    while rest != {}
      invariant rest <= active && InIdOrder(listed, active - rest) && AllBefore(listed, rest)
      decreases |rest|
    {
      hide InIdOrder, Least, AllBefore;
      LeastExists(rest);
      var w :| w in rest && Least(rest, w);
      NextInOrder(listed, active, rest, w);
      listed, rest := listed + [w], rest - {w};
    }
    assert active - rest == active;
    DistinctSize(listed);
    ws := new WitnessId[|listed|](i requires 0 <= i < |listed| => listed[i]);
    assert ws[..] == listed;
  }

  ghost predicate AllBefore(s: seq<WitnessId>, c: set<WitnessId>) {
    forall v, w :: v in s && w in c ==> v < w
  }

  lemma NextInOrder(s: seq<WitnessId>, active: set<WitnessId>, rest: set<WitnessId>, w: WitnessId)
    requires rest <= active && InIdOrder(s, active - rest) && AllBefore(s, rest) && Least(rest, w)
    ensures InIdOrder(s + [w], active - (rest - {w})) && AllBefore(s + [w], rest - {w})
  {
    OneMoreInOrder(s, active - rest, w);
    assert active - rest + {w} == active - (rest - {w});
  }

  lemma OneMoreInOrder(s: seq<WitnessId>, c: set<WitnessId>, w: WitnessId)
    requires InIdOrder(s, c) && forall v :: v in s ==> v < w
    ensures InIdOrder(s + [w], c + {w})
  {
    assert Members(s + [w]) == Members(s) + {w};
    assert forall i :: 0 <= i < |s| ==> s[i] in s && (s + [w])[i] == s[i];
  }

  predicate Least(c: set<WitnessId>, w: WitnessId) {
    w in c && forall v :: v in c ==> w <= v
  }

  lemma LeastExists(c: set<WitnessId>)
    requires c != {}
    ensures exists w :: w in c && Least(c, w)
  {
    var w := FirstExists(c, (v: WitnessId, w: WitnessId) => v <= w);
    assert Least(c, w);
  }

  class WitnessSchedule {
    var shuffled: array<WitnessId>

    constructor (active: set<WitnessId>)
      ensures fresh(shuffled) && Lists(shuffled[..], active)
    {
      var ws := ListInIdOrder(active);
      shuffled := ws;
    }

    /** update_witness_schedule: every n blocks the n active witnesses are shuffled. The outcome depends on the active
        witnesses and the time alone, so all nodes agree on it. */
    method Update(headNumber: nat, headTime: bv64, active: set<WitnessId>)
      requires active != {}
      modifies this
      ensures headNumber % |active| != 0 ==> shuffled == old(shuffled)
      ensures headNumber % |active| == 0 ==>
                && fresh(shuffled) && Lists(shuffled[..], active) && shuffled.Length == |active|
                && forall s :: InIdOrder(s, active) ==> shuffled[..] == ShuffledFrom(s, headTime, 0, 0)
    {
      if headNumber % |active| != 0 {
        return;
      }
      shuffled := ListInIdOrder(active);
      ghost var s := shuffled[..];
      forall t | InIdOrder(t, active) ensures t == s {
        IdOrderIsUnique(s, t, active);
      }
      Shuffle(shuffled, headTime);
      ShuffleIsPermutation(s, headTime, 0, 0, active);
    }
  }

  /** The shuffle, in place. */
  method Shuffle(ws: array<WitnessId>, now: bv64)
    modifies ws
    ensures ws[..] == ShuffledFrom(old(ws[..]), now, 0, 0)
  {
    hide Target;
    var word: bv64 := 0;
    for i := 0 to ws.Length
      invariant ShuffledFrom(ws[..], now, i, word) == ShuffledFrom(old(ws[..]), now, 0, 0)
    {
      ghost var before := ws[..];
      var j := Target(now, i, word, ws.Length);
      ws[i], ws[j] := ws[j], ws[i];
      assert ws[..] == Swapped(before, i, j);
      word := word + 1;
    }
  }

  // --------------------------------------------------------------------------------------------------------------
  // Maintenance.

  /** When the next maintenance is, seen from a block at or after the current one. */
  function NextMaintenance(next: nat, blockNumber: nat, now: nat, interval: nat): nat
    requires interval > 0
  {
    if next > now then next
    else if blockNumber == 1 then (now / interval + 1) * interval
    else next + ((now - next) / interval + 1) * interval
  }

  /** It is in the future, and as soon as possible in whole intervals. */
  lemma NextMaintenanceIsNext(next: nat, blockNumber: nat, now: nat, interval: nat)
    requires interval > 0
    ensures var t := NextMaintenance(next, blockNumber, now, interval);
            && t > now
            && (next > now ==> t == next)
            && (next <= now ==> t <= now + interval && (t - if blockNumber == 1 then 0 else next) % interval == 0)
  {
    if next <= now {
      var from := if blockNumber == 1 then 0 else next;
      var q := (now - from) / interval;
      assert now - from == interval * q + (now - from) % interval;
      assert (q + 1) * interval == interval * q + interval;
      ModShift(0, q + 1, interval);
    }
  }
}
