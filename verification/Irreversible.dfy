/** The last irreversible block: the highest block number that enough active witnesses have built upon. */
module Irreversible {
  import opened Common
  import opened Sums

  type WitnessId = nat

  const IRREVERSIBLE_THRESHOLD: nat := 7000

  /** How many of `n` witnesses may lag behind. */
  function Offset(n: nat): nat {
    (HUNDRED_PERCENT - IRREVERSIBLE_THRESHOLD) * n / HUNDRED_PERCENT
  }

  /** The active witnesses whose last confirmed block is `v` or later. */
  function Confirming(active: set<WitnessId>, confirmed: map<WitnessId, nat>, v: nat): set<WitnessId>
    requires active <= confirmed.Keys
  {
    set w | w in active && confirmed[w] >= v
  }

  /** `v` is the highest number that all but `Offset` of the active witnesses have confirmed. */
  ghost predicate HighestConfirmed(active: set<WitnessId>, confirmed: map<WitnessId, nat>, v: nat)
    requires active <= confirmed.Keys
  {
    && |Confirming(active, confirmed, v)| >= |active| - Offset(|active|)
    && forall x :: x > v ==> |Confirming(active, confirmed, x)| < |active| - Offset(|active|)
  }

  /** Those witnesses are at least seven tenths of all active ones; one fewer would be too few. */
  lemma OffsetIsThreshold(n: nat)
    requires n > 0
    ensures Offset(n) < n
    ensures 10 * (n - Offset(n)) >= 7 * n > 10 * (n - Offset(n) - 1)
  {
  }

  function Members(ws: seq<WitnessId>): set<WitnessId> {
    set w | w in ws
  }

  lemma {:induction false} DistinctSize(ws: seq<WitnessId>)
    requires forall i, j :: 0 <= i < j < |ws| ==> ws[i] != ws[j]
    ensures |Members(ws)| == |ws|
  {
    if ws != [] {
      var n := |ws| - 1;
      DistinctSize(ws[..n]);
      assert Members(ws) == Members(ws[..n]) + {ws[n]};
      assert ws[n] !in ws[..n];
    }
  }

  /** The array lists each active witness once. */
  ghost predicate Lists(ws: seq<WitnessId>, active: set<WitnessId>) {
    && (forall i, j :: 0 <= i < j < |ws| ==> ws[i] != ws[j])
    && Members(ws) == active
  }

  lemma SwapLists(ws: seq<WitnessId>, ws': seq<WitnessId>, i: nat, j: nat, active: set<WitnessId>)
    requires i <= j < |ws| && Lists(ws, active)
    requires ws' == ws[i := ws[j]][j := ws[i]]
    ensures Lists(ws', active)
  {
    assert forall k :: 0 <= k < |ws| ==> ws[k] == ws'[if k == i then j else if k == j then i else k];
    assert forall w :: w in ws <==> w in ws';
  }

  /** nth_element by last confirmed block: what comes before position `n` is no higher, what comes after no lower. */
  method NthElement(ws: array<WitnessId>, n: nat, confirmed: map<WitnessId, nat>, ghost active: set<WitnessId>)
    requires n < ws.Length && Lists(ws[..], active) && active <= confirmed.Keys
    modifies ws
    ensures Lists(ws[..], active) && forall w :: w in ws[..] ==> w in confirmed
    ensures forall i, j :: 0 <= i <= n <= j < ws.Length ==> confirmed[ws[i]] <= confirmed[ws[j]]
  {
    for i := 0 to n + 1
      invariant Lists(ws[..], active)
      invariant forall w :: w in ws[..] ==> w in confirmed
      invariant forall a, b :: 0 <= a < i && a <= b < ws.Length ==> confirmed[ws[a]] <= confirmed[ws[b]]
    {
      var least := i;
      for j := i to ws.Length
        invariant i <= least < ws.Length
        invariant forall b :: i <= b < j ==> confirmed[ws[least]] <= confirmed[ws[b]]
      {
        assert ws[j] in ws[..] && ws[least] in ws[..];
        if confirmed[ws[j]] < confirmed[ws[least]] {
          least := j;
        }
      }
      SwapLists(ws[..], ws[..][i := ws[least]][least := ws[i]], i, least, active);
      ghost var before := ws[..];
      ws[i], ws[least] := ws[least], ws[i];
      assert ws[..] == before[i := before[least]][least := before[i]];
    }
  }

  /** The number at position Offset is the highest confirmed one. */
  lemma PartitionIsHighest(ws: seq<WitnessId>, active: set<WitnessId>, confirmed: map<WitnessId, nat>)
    requires ws != [] && Lists(ws, active) && active <= confirmed.Keys && Offset(|ws|) < |ws|
    requires forall i, j :: 0 <= i <= Offset(|ws|) <= j < |ws| ==> confirmed[ws[i]] <= confirmed[ws[j]]
    ensures HighestConfirmed(active, confirmed, confirmed[ws[Offset(|ws|)]])
  {
    DistinctSize(ws);
    var n := Offset(|ws|);
    var v := confirmed[ws[n]];
    DistinctSize(ws[n..]);
    SubsetSize(Members(ws[n..]), Confirming(active, confirmed, v));
    forall x | x > v ensures |Confirming(active, confirmed, x)| < |active| - n {
      DistinctSize(ws[n + 1..]);
      forall w | w in Confirming(active, confirmed, x) ensures w in Members(ws[n + 1..]) {
        var k :| 0 <= k < |ws| && ws[k] == w;
        assert k > n;
        assert ws[n + 1..][k - n - 1] == w;
      }
      SubsetSize(Confirming(active, confirmed, x), Members(ws[n + 1..]));
    }
  }

  class Consensus {
    var head: nat
    var lastIrreversible: nat
    var confirmed: map<WitnessId, nat>
    var active: set<WitnessId>

    ghost predicate Valid()
      reads this
    {
      && active != {} && active <= confirmed.Keys
      && (forall w :: w in confirmed ==> confirmed[w] <= head)
      && lastIrreversible <= head
    }

    constructor (active: set<WitnessId>)
      requires active != {}
      ensures Valid() && head == 0 && lastIrreversible == 0
    {
      this.active := active;
      confirmed := map w | w in active :: 0;
      head, lastIrreversible := 0, 0;
    }

    /** update_last_irreversible_block: it only ever moves forward, and where it moves to is the highest confirmed
        number. */
    method UpdateLastIrreversible()
      requires Valid()
      modifies this`lastIrreversible
      ensures Valid() && lastIrreversible >= old(lastIrreversible)
      ensures lastIrreversible != old(lastIrreversible) ==> HighestConfirmed(active, confirmed, lastIrreversible)
      ensures lastIrreversible == old(lastIrreversible) ==>
                exists v: nat :: v <= lastIrreversible && HighestConfirmed(active, confirmed, v)
    {
      var witnesses := ListWitnesses(active);
      OffsetIsThreshold(witnesses.Length);
      var offset := Offset(witnesses.Length);
      NthElement(witnesses, offset, confirmed, active);
      PartitionIsHighest(witnesses[..], active, confirmed);
      assert witnesses[offset] in witnesses[..];
      var confirmedByEnough := confirmed[witnesses[offset]];
      if confirmedByEnough > lastIrreversible {
        lastIrreversible := confirmedByEnough;
      }
    }

    /** A block signed by a known witness is applied. */
    method ApplyBlock(signer: WitnessId)
      requires Valid() && signer in confirmed
      modifies this
      ensures Valid() && head == old(head) + 1 && active == old(active)
      ensures confirmed == old(confirmed)[signer := head]
      ensures lastIrreversible >= old(lastIrreversible)
      ensures lastIrreversible != old(lastIrreversible) ==> HighestConfirmed(active, confirmed, lastIrreversible)
      ensures lastIrreversible == old(lastIrreversible) ==>
                exists v: nat :: v <= lastIrreversible && HighestConfirmed(active, confirmed, v)
    {
      head := head + 1;
      confirmed := confirmed[signer := head];
      UpdateLastIrreversible();
    }

    /** A vote changes the active witnesses: new ones start with whatever they confirmed before, or with nothing. */
    method ChangeActive(elected: set<WitnessId>)
      requires Valid() && elected != {}
      modifies this`active, this`confirmed
      ensures Valid() && active == elected && confirmed.Keys == old(confirmed).Keys + elected
      ensures forall w :: w in confirmed ==> confirmed[w] == if w in old(confirmed) then old(confirmed)[w] else 0
    {
      confirmed := (map w | w in elected :: 0) + confirmed;
      active := elected;
    }
  }

  method ListWitnesses(active: set<WitnessId>) returns (ws: array<WitnessId>)
    ensures fresh(ws) && Lists(ws[..], active) && ws.Length == |active|
  {
    var listed: seq<WitnessId> := [];
    var rest := active;
    while rest != {}
      invariant rest <= active && Lists(listed, active - rest)
      decreases |rest|
    {
      var w :| w in rest;
      assert Members(listed + [w]) == Members(listed) + {w};
      listed, rest := listed + [w], rest - {w};
    }
    assert active - rest == active;
    DistinctSize(listed);
    ws := new WitnessId[|listed|](i requires 0 <= i < |listed| => listed[i]);
    assert ws[..] == listed;
  }

  datatype Event = Signed(signer: WitnessId) | Elected(witnesses: set<WitnessId>)

  /** The witnesses known after a run. */
  ghost function KnownAfter(known: set<WitnessId>, events: seq<Event>): set<WitnessId> {
    if events == [] then known
    else
      var before, last := KnownAfter(known, events[..|events| - 1]), events[|events| - 1];
      if last.Elected? then before + last.witnesses else before
  }

  /** How many blocks of a run are signed by a witness that is known by then. */
  ghost function BlocksIn(known: set<WitnessId>, events: seq<Event>): nat {
    if events == [] then 0
    else
      var shorter, last := events[..|events| - 1], events[|events| - 1];
      BlocksIn(known, shorter) + if last.Signed? && last.signer in KnownAfter(known, shorter) then 1 else 0
  }

  /** Over every run of blocks and elections, in any order, the last irreversible block never moves back and never
      passes the head. A witness that was voted out may still sign; a block by an unknown witness and an election of
      nobody are refused. */
  method Run(c: Consensus, events: seq<Event>)
    requires c.Valid()
    modifies c
    ensures c.Valid() && old(c.lastIrreversible) <= c.lastIrreversible <= c.head
    ensures c.confirmed.Keys == KnownAfter(old(c.confirmed).Keys, events)
    ensures c.head == old(c.head) + BlocksIn(old(c.confirmed).Keys, events)
  {
    for i := 0 to |events|
      invariant c.Valid() && c.lastIrreversible >= old(c.lastIrreversible)
      invariant c.confirmed.Keys == KnownAfter(old(c.confirmed).Keys, events[..i])
      invariant c.head == old(c.head) + BlocksIn(old(c.confirmed).Keys, events[..i])
    {
      assert events[..i + 1][..i] == events[..i];
      match events[i]
      case Signed(signer) => if signer in c.confirmed { c.ApplyBlock(signer); }
      case Elected(witnesses) => if witnesses != {} { c.ChangeActive(witnesses); }
    }
    assert events[..|events|] == events;
  }
}
