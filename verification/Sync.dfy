/** Synchronizing with a peer: a node summarizes its chain in a few block ids, and a peer answers with the ids that
    follow the last one it recognizes. A chain is given by the ids of its blocks from number 1 on. */
module Sync {
  import opened Common
  import opened Blocks
  import opened ForkDatabase

  ghost predicate Numbered(chain: seq<BlockId>) {
    forall i :: 0 <= i < |chain| ==> NumFromId(chain[i]) == i + 1
  }

  // --------------------------------------------------------------------------------------------------------------
  // Which blocks go into a synopsis.

  /** The block numbers of a synopsis from `low` to `high`: each is half way from the one before to `end`. */
  function Picks(low: nat, high: nat, end: nat): (r: seq<nat>)
    requires high <= end
    decreases high + 1 - low
  {
    if low > high then [] else [low] + Picks(Next(low, end), high, end)
  }

  function Next(low: nat, end: nat): (n: nat)
    requires low <= end
    ensures low < n <= end + 1
  {
    low + (end - low + 2) / 2
  }

  function Log2(n: nat): nat {
    if n <= 1 then 0 else 1 + Log2(n / 2)
  }

  ghost predicate Increasing(s: seq<nat>) {
    forall i, j :: 0 <= i < j < |s| ==> s[i] < s[j]
  }

  lemma {:induction false} PicksInRange(low: nat, high: nat, end: nat)
    requires high <= end
    ensures forall n :: n in Picks(low, high, end) ==> low <= n <= high
    ensures Increasing(Picks(low, high, end))
    ensures low <= high ==> Picks(low, high, end) != [] && Picks(low, high, end)[0] == low
    decreases high + 1 - low
  {
    if low <= high {
      PicksInRange(Next(low, end), high, end);
    }
  }

  /** Without ids to be appended, the synopsis ends with exactly the highest block, and its length is logarithmic. */
  lemma {:induction false} PicksEndHigh(low: nat, high: nat)
    requires low <= high
    ensures var r := Picks(low, high, high);
            |r| == Log2(high - low + 1) + 1 && r[|r| - 1] == high
    decreases high - low
  {
    var next := Next(low, high);
    assert high - next + 1 == (high - low + 1) / 2;
    if next <= high {
      PicksEndHigh(next, high);
    }
  }

  /** With ids to be appended, the synopsis is the part up to `high` of the synopsis of the whole: the places for the
      appended ids follow. */
  lemma {:induction false} PicksLeaveSpace(low: nat, high: nat, end: nat) returns (next: nat)
    requires high <= end
    ensures next > high && Picks(low, end, end) == Picks(low, high, end) + Picks(next, end, end)
    decreases high + 1 - low
  {
    if low > high {
      next := low;
      assert Picks(low, high, end) == [];
    } else {
      var n := Next(low, end);
      next := PicksLeaveSpace(n, high, end);
      Associate([low], Picks(n, high, end), Picks(next, end, end));
    }
  }

  lemma Associate(a: seq<nat>, b: seq<nat>, c: seq<nat>)
    ensures a + (b + c) == (a + b) + c
  {
  }

  /** The greatest entry of a synopsis that does not exceed `f`. */
  ghost predicate LastUpTo(picks: seq<nat>, f: nat, k: nat) {
    k < |picks| && picks[k] <= f && (k + 1 < |picks| ==> picks[k + 1] > f)
  }

  lemma {:induction false} LastUpToExists(low: nat, high: nat, f: nat) returns (k: nat)
    requires low <= f && low <= high
    ensures LastUpTo(Picks(low, high, high), f, k)
    decreases high - low
  {
    var next := Next(low, high);
    if next <= high && next <= f {
      var k' := LastUpToExists(next, high, f);
      k := k' + 1;
    } else {
      k := 0;
      PicksInRange(next, high, high);
    }
  }

  /** What a peer that left our chain after block `f` sends us again is never more than what we have beyond `f`. */
  lemma {:induction false} OverlapIsShort(low: nat, high: nat, f: nat, k: nat)
    requires low <= f <= high && LastUpTo(Picks(low, high, high), f, k)
    ensures f - Picks(low, high, high)[k] <= high - f
    decreases high - low
  {
    var picks, next := Picks(low, high, high), Next(low, high);
    if k > 0 {
      PicksInRange(next, high, high);
      assert picks[1..] == Picks(next, high, high) && picks[1] == next;
      PicksInRange(low, high, high);
      OverlapIsShort(next, high, f, k - 1);
    } else if next <= high {
      PicksInRange(next, high, high);
      assert picks[1] == next;
    }
  }

  // --------------------------------------------------------------------------------------------------------------
  // Making a synopsis.

  function IdsAt(chain: seq<BlockId>, picks: seq<nat>): (r: seq<BlockId>)
    requires forall n :: n in picks ==> 0 < n <= |chain|
    ensures |r| == |picks|
  {
    seq(|picks|, i requires 0 <= i < |picks| => assert picks[i] in picks; chain[picks[i] - 1])
  }

  /** What get_block_ids_on_fork returns: the fork from its newest block down, and then the block it builds on. */
  ghost predicate ForkHistory(main: seq<BlockId>, reference: BlockId, h: seq<BlockId>) {
    && |h| >= 2 && h[0] == reference
    && var base := NumFromId(h[|h| - 1]);
       && base <= |main| && (if base == 0 then h[|h| - 1] == ZERO_ID else main[base - 1] == h[|h| - 1])
       && forall i :: 0 <= i < |h| - 1 ==> NumFromId(h[i]) == base + |h| - 1 - i
  }

  /** The second branch that fetch_branch_from finds, with the block it builds on, if that is on our chain. */
  lemma BranchIsForkHistory(index: Index, b1: seq<Item>, b2: seq<Item>, main: seq<BlockId>, h: seq<BlockId>)
    requires Meet(index, [], b1, b2) && |h| == |b2| + 1 && h[|b2|] == b1[|b1| - 1].block.previous
    requires forall i :: 0 <= i < |b2| ==> h[i] == b2[i].Id()
    requires var base := NumFromId(h[|b2|]);
             base <= |main| && if base == 0 then h[|b2|] == ZERO_ID else main[base - 1] == h[|b2|]
    ensures ForkHistory(main, b2[0].Id(), h)
  {
    var n := |b2|;
    BranchNumbers(index, [], b2, n - 1);
    forall i | 0 <= i < n ensures NumFromId(h[i]) == NumFromId(h[n]) + n - i {
      BranchNumbers(index, [], b2, i);
      IdDeterminesBlock(b2[i].block, b2[i].block);
    }
  }

  function Reversed(s: seq<BlockId>): (r: seq<BlockId>)
    ensures |r| == |s|
  {
    if s == [] then [] else Reversed(s[1..]) + [s[0]]
  }

  lemma {:induction false} ReversedAt(s: seq<BlockId>, i: nat)
    requires i < |s|
    ensures Reversed(s)[i] == s[|s| - 1 - i]
  {
    if i < |s| - 1 {
      ReversedAt(s[1..], i);
    }
  }

  /** The chain to summarize: ours up to the reference block, or the fork that leads to it. */
  function Summarized(main: seq<BlockId>, reference: BlockId, history: seq<BlockId>): seq<BlockId> {
    var num := NumFromId(reference);
    if reference == ZERO_ID then main
    else if 0 < num <= |main| && main[num - 1] == reference then main[..num]
    else if |history| < 2 || NumFromId(history[|history| - 1]) > |main| then []
    else main[..NumFromId(history[|history| - 1])] + Reversed(history[..|history| - 1])
  }

  /** It is numbered from 1 on, and ends in the reference block. */
  lemma SummarizedChain(main: seq<BlockId>, reference: BlockId, history: seq<BlockId>)
    requires Numbered(main) && reference != ZERO_ID && ForkHistory(main, reference, history)
    ensures var chain := Summarized(main, reference, history);
            Numbered(chain) && chain != [] && chain[|chain| - 1] == reference
  {
    hide Reversed;
    var chain, base := Summarized(main, reference, history), NumFromId(history[|history| - 1]);
    var fork := history[..|history| - 1];
    if !(0 < NumFromId(reference) <= |main| && main[NumFromId(reference) - 1] == reference) {
      forall i | 0 <= i < |chain| ensures NumFromId(chain[i]) == i + 1 {
        if i >= base { ReversedAt(fork, i - base); }
      }
      ReversedAt(fork, |fork| - 1);
    }
  }

  /** The lowest block to mention: the last one that cannot be undone, or the reference block if that is lower. */
  function LowestBlock(main: seq<BlockId>, undoable: nat, reference: BlockId): nat
    requires undoable <= |main|
  {
    var low, num := |main| - undoable, NumFromId(reference);
    var onMain := reference != ZERO_ID && 0 < num <= |main| && main[num - 1] == reference;
    var low' := if onMain && num < low then num else low;
    if low' == 0 then 1 else low'
  }

  /** Every block above it can be undone; and it cannot itself, unless it is the first. */
  lemma LowestIsLastFinal(main: seq<BlockId>, undoable: nat)
    requires undoable <= |main|
    ensures var low := LowestBlock(main, undoable, ZERO_ID);
            low > 0 && |main| - low <= undoable && (low > 1 ==> |main| - low == undoable)
  {
  }

  /** get_blockchain_synopsis. `history` is the fork history of a reference block that is not on our chain, if there is
      one. It throws if the reference block is not linked, or if its fork leaves our chain before what can be undone. */
  method GetSynopsis(main: seq<BlockId>, undoable: nat, reference: BlockId, history: Option<seq<BlockId>>, after: nat)
    returns (synopsis: Option<seq<BlockId>>)
    requires Numbered(main) && undoable <= |main|
    requires history.Some? ==> ForkHistory(main, reference, history.value)
    ensures synopsis.None? <==> Refused(main, undoable, reference, history)
    ensures synopsis.Some? ==>
              var chain := Summarized(main, reference, if history.Some? then history.value else []);
              if chain == [] then synopsis.value == []
              else
                var picks := Picks(LowestBlock(main, undoable, reference), |chain|, |chain| + after);
                && LowestBlock(main, undoable, reference) <= |chain|
                && (forall n :: n in picks ==> 0 < n <= |chain|)
                && synopsis.value == IdsAt(chain, picks)
  {
    hide Picks, IdsAt, Reversed, Summarized, LowestBlock;
    var scope := FindScope(main, undoable, reference, history);
    if scope.None? {
      return None;
    }
    var (low, nonForkHigh, fork) := scope.value;
    var high := nonForkHigh + |fork|;
    if high == 0 {
      return Some([]);
    }
    var ids := Pick(main, nonForkHigh, fork, low, high, high + after);
    return Some(ids);
  }

  /** The first part of get_blockchain_synopsis: where to begin, and up to where to follow our chain and then the
      fork. */
  method FindScope(main: seq<BlockId>, undoable: nat, reference: BlockId, history: Option<seq<BlockId>>)
    returns (scope: Option<(nat, nat, seq<BlockId>)>)
    requires undoable <= |main|
    requires history.Some? ==> ForkHistory(main, reference, history.value)
    ensures scope.None? <==> Refused(main, undoable, reference, history)
    ensures scope.Some? ==>
              var (low, nonForkHigh, fork) := scope.value;
              && nonForkHigh <= |main|
              && main[..nonForkHigh] + fork == Summarized(main, reference, if history.Some? then history.value else [])
              && (nonForkHigh + |fork| > 0 ==>
                    low == LowestBlock(main, undoable, reference) && 0 < low <= nonForkHigh + |fork|)
  {
    hide Reversed, ForkHistory;
    var low := |main| - undoable;
    if reference == ZERO_ID {
      assert main[..|main|] + [] == main;
      return Some((if low == 0 then 1 else low, |main|, []));
    }
    var num := NumFromId(reference);
    if num == 0 || num > |main| {
      return None;
    }
    if main[num - 1] == reference {
      low := if num < low then num else low;
      assert main[..num] + [] == main[..num];
      return Some((if low == 0 then 1 else low, num, []));
    }
    if history.None? {
      return None;
    }
    var h := history.value;
    assert |h| >= 2 && NumFromId(h[|h| - 1]) <= |main| by { ForkBase(main, reference, h); }
    var nonForkHigh := NumFromId(h[|h| - 1]);
    if nonForkHigh < low {
      return None;
    }
    return Some((if low == 0 then 1 else low, nonForkHigh, Reversed(h[..|h| - 1])));
  }

  lemma ForkBase(main: seq<BlockId>, reference: BlockId, h: seq<BlockId>)
    requires ForkHistory(main, reference, h)
    ensures |h| >= 2 && NumFromId(h[|h| - 1]) <= |main|
  {
  }

  /** The reference block is not linked, or its fork leaves our chain before what can be undone. */
  ghost predicate Refused(main: seq<BlockId>, undoable: nat, reference: BlockId, history: Option<seq<BlockId>>)
    requires undoable <= |main| && (history.Some? ==> history.value != [])
  {
    var num := NumFromId(reference);
    && reference != ZERO_ID
    && (|| num == 0 || num > |main|
        || (main[num - 1] != reference
            && (history.None? || NumFromId(history.value[|history.value| - 1]) < |main| - undoable)))
  }

  /** A fork is refused exactly if it lacks a block of ours that cannot be undone. */
  lemma ForkLacksFinalBlock(main: seq<BlockId>, undoable: nat, reference: BlockId, h: seq<BlockId>)
    requires undoable <= |main| && ForkHistory(main, reference, h)
    requires 0 < NumFromId(reference) <= |main| && main[NumFromId(reference) - 1] != reference
    ensures Refused(main, undoable, reference, Some(h)) <==>
            exists i {:trigger main[i]} :: NumFromId(h[|h| - 1]) <= i < |main| - undoable
  {
    var base := NumFromId(h[|h| - 1]);
    if base < |main| - undoable {
      var first := main[base];
    }
  }

  /** The loop of get_blockchain_synopsis: ids up to `nonForkHigh` come from our chain, the others from the fork. */
  method Pick(main: seq<BlockId>, nonForkHigh: nat, fork: seq<BlockId>, low0: nat, high: nat, end: nat)
    returns (ids: seq<BlockId>)
    requires nonForkHigh <= |main| && high == nonForkHigh + |fork| && 0 < low0 <= high <= end
    ensures var picks, chain := Picks(low0, high, end), main[..nonForkHigh] + fork;
            && (forall n :: n in picks ==> 0 < n <= |chain|)
            && ids == IdsAt(chain, picks)
  {
    ghost var picks, chain := Picks(low0, high, end), main[..nonForkHigh] + fork;
    PicksInRange(low0, high, end);
    hide Picks, IdsAt, ChosenSoFar;
    NothingChosen(chain, picks);
    ids := [];
    var low := low0;
    ghost var k := 0;
    while low <= high
      invariant 0 < low && k <= |picks| && picks[k..] == Picks(low, high, end)
      invariant ChosenSoFar(chain, picks, ids, k)
      decreases high + 1 - low
    {
      NextPick(picks, k, low, high, end);
      var id := if low <= nonForkHigh then main[low - 1] else fork[low - nonForkHigh - 1];
      assert id == chain[low - 1];
      OneMoreChosen(chain, picks, ids, k, id);
      ids := ids + [id];
      low, k := low + (end - low + 2) / 2, k + 1;
    }
    AllChosen(chain, picks, ids, k, low, high, end);
  }

  ghost predicate ChosenSoFar(chain: seq<BlockId>, picks: seq<nat>, ids: seq<BlockId>, k: nat) {
    k <= |picks| && |ids| == k && forall i :: 0 <= i < k ==> 0 < picks[i] <= |chain| && ids[i] == chain[picks[i] - 1]
  }

  lemma NothingChosen(chain: seq<BlockId>, picks: seq<nat>)
    ensures ChosenSoFar(chain, picks, [], 0) && picks[0..] == picks
  {
  }

  lemma OneMoreChosen(chain: seq<BlockId>, picks: seq<nat>, ids: seq<BlockId>, k: nat, id: BlockId)
    requires ChosenSoFar(chain, picks, ids, k) && k < |picks| && 0 < picks[k] <= |chain| && id == chain[picks[k] - 1]
    ensures ChosenSoFar(chain, picks, ids + [id], k + 1)
  {
  }

  lemma NextPick(picks: seq<nat>, k: nat, low: nat, high: nat, end: nat)
    requires k <= |picks| && low <= high <= end && picks[k..] == Picks(low, high, end)
    ensures k < |picks| && picks[k] == low
    ensures picks[k + 1..] == Picks(Next(low, end), high, end)
  {
    assert picks[k..][0] == low && picks[k + 1..] == picks[k..][1..];
  }

  lemma AllChosen(chain: seq<BlockId>, picks: seq<nat>, ids: seq<BlockId>, k: nat, low: nat, high: nat, end: nat)
    requires ChosenSoFar(chain, picks, ids, k) && (forall n :: n in picks ==> 0 < n <= |chain|)
    requires low > high && high <= end && picks[k..] == Picks(low, high, end)
    ensures ids == IdsAt(chain, picks)
  {
  }

  // --------------------------------------------------------------------------------------------------------------
  // Answering a synopsis.

  /** get_block_ids on a node with chain `main` that knows the blocks in `known`. It throws if it recognizes nothing, or
      comes to a block it knows with a number it has no block for. The answer starts with the last id it recognizes,
      although its documentation says after it. */
  method GetBlockIds(main: seq<BlockId>, known: set<BlockId>, synopsis: seq<BlockId>, limit: nat)
    returns (result: Option<(seq<BlockId>, nat)>)
    requires Numbered(main)
    ensures main == [] ==> result == Some(([], 0))
    ensures main != [] && FromStart(synopsis) ==> result == Some(Answer(main, 1, limit))
    ensures main != [] && !FromStart(synopsis) ==>
              && (result.None? <==> forall k: nat :: !LastRecognized(main, known, synopsis, k))
              && (forall k: nat :: LastRecognized(main, known, synopsis, k) ==>
                    result == Some(Answer(main, NumFromId(synopsis[k]), limit)))
  {
    hide Answer, LastRecognized;
    if main == [] {
      return Some(([], 0));
    }
    var num := 0;
    if !FromStart(synopsis) {
      var last := FindLast(main, known, synopsis);
      if last.None? {
        return None;
      }
      num := NumFromId(synopsis[last.value]);
    }
    var ids, remaining := Collect(main, num, limit);
    assert Answer(main, 0, limit) == Answer(main, 1, limit) by { FromFirst(main, limit); }
    return Some((ids, remaining));
  }

  /** The position of the last entry that is recognized, looked for from the end. */
  method FindLast(main: seq<BlockId>, known: set<BlockId>, synopsis: seq<BlockId>) returns (last: Option<nat>)
    ensures last.None? ==> forall k: nat :: !LastRecognized(main, known, synopsis, k)
    ensures last.Some? ==> LastRecognized(main, known, synopsis, last.value) && last.value < |synopsis|
    ensures forall k: nat :: LastRecognized(main, known, synopsis, k) ==> last == Some(k)
  {
    hide Recognized, Unstored;
    var i := |synopsis|;
    while i > 0 && !Recognized(main, known, synopsis[i - 1])
      invariant 0 <= i <= |synopsis|
      invariant forall j :: i <= j < |synopsis| ==>
                  !Recognized(main, known, synopsis[j]) && !Unstored(main, known, synopsis[j])
    {
      if Unstored(main, known, synopsis[i - 1]) {
        return None;
      }
      i := i - 1;
    }
    return if i == 0 then None else Some(i - 1);
  }

  /** The ids from block `num` on (there is no block 0), and how many follow. */
  method Collect(main: seq<BlockId>, num: nat, limit: nat) returns (ids: seq<BlockId>, remaining: nat)
    requires Numbered(main) && main != []
    ensures (ids, remaining) == Answer(main, num, limit)
  {
    var start, next := if num == 0 then 1 else num, num;
    ids := [];
    while next <= |main| && |ids| < limit
      invariant num <= next && (next <= |main| + 1 || next == num)
      invariant next == 0 ==> ids == []
      invariant next > 0 ==> |ids| <= limit && next == start + |ids| && (ids != [] ==> ids == main[start - 1..next - 1])
      decreases |main| + 1 - next
    {
      if next > 0 {
        ids := ids + [main[next - 1]];
      }
      next := next + 1;
    }
    remaining := 0;
    if ids != [] && NumFromId(ids[|ids| - 1]) < |main| {
      remaining := |main| - NumFromId(ids[|ids| - 1]);
    }
  }

  lemma FromFirst(main: seq<BlockId>, limit: nat)
    requires main != []
    ensures Answer(main, 0, limit) == Answer(main, 1, limit)
  {
  }

  predicate FromStart(synopsis: seq<BlockId>) {
    synopsis == [] || synopsis == [ZERO_ID]
  }

  /** The zero id, or a known block on the preferred chain. */
  predicate Recognized(main: seq<BlockId>, known: set<BlockId>, id: BlockId) {
    id == ZERO_ID || (id in known && 0 < NumFromId(id) <= |main| && main[NumFromId(id) - 1] == id)
  }

  /** The zero id stands for the beginning of every chain; a block of another chain is not recognized, known or not. */
  lemma WhatIsRecognized(main: seq<BlockId>, known: set<BlockId>, id: BlockId)
    requires Numbered(main) && forall i :: 0 <= i < |main| ==> main[i] in known
    ensures Recognized(main, known, id) <==> id == ZERO_ID || id in main
  {
    if id in main {
      var i :| 0 <= i < |main| && main[i] == id;
    }
  }

  /** A block that is known, but has no counterpart on the preferred chain: looking that up throws. */
  predicate Unstored(main: seq<BlockId>, known: set<BlockId>, id: BlockId) {
    id in known && (NumFromId(id) == 0 || NumFromId(id) > |main|)
  }

  ghost predicate LastRecognized(main: seq<BlockId>, known: set<BlockId>, synopsis: seq<BlockId>, k: nat) {
    && k < |synopsis| && Recognized(main, known, synopsis[k])
    && forall j :: k < j < |synopsis| ==> !Recognized(main, known, synopsis[j]) && !Unstored(main, known, synopsis[j])
  }

  /** Up to `limit` ids from block `start` on, and how many blocks follow the last of them. */
  function Answer(main: seq<BlockId>, start: nat, limit: nat): (seq<BlockId>, nat)
    requires main != []
  {
    var from := if start == 0 then 0 else start - 1;
    if from >= |main| || limit == 0 then ([], 0)
    else
      var to := if from + limit < |main| then from + limit else |main|;
      (main[from..to], |main| - to)
  }

  /** Block ids in a row from `start` on, no more than the limit; together with what remains they reach our head, and
      something remains only if the limit was reached. */
  lemma AnswerIsARun(main: seq<BlockId>, start: nat, limit: nat)
    requires Numbered(main) && 0 < start <= |main| && limit > 0
    ensures var (ids, remaining) := Answer(main, start, limit);
            && 0 < |ids| <= limit && (forall i :: 0 <= i < |ids| ==> NumFromId(ids[i]) == start + i)
            && (forall i :: 0 <= i < |ids| ==> ids[i] == main[start - 1 + i])
            && start - 1 + |ids| + remaining == |main| && (remaining > 0 ==> |ids| == limit)
  {
  }

  // --------------------------------------------------------------------------------------------------------------
  // Together.

  /** The two chains have the same blocks up to number `f` and different ones after it. */
  ghost predicate Diverge(ours: seq<BlockId>, theirs: seq<BlockId>, f: nat) {
    && f <= |ours| && f <= |theirs|
    && (forall i :: 0 <= i < f ==> ours[i] == theirs[i])
    && (forall i :: f <= i < |ours| && i < |theirs| ==> ours[i] != theirs[i])
  }

  /** What a peer that shares our chain up to block `f` makes of an entry of our synopsis. */
  lemma PeerRecognizes(ours: seq<BlockId>, theirs: seq<BlockId>, known: set<BlockId>, picks: seq<nat>, f: nat, i: nat)
    requires Numbered(ours) && Numbered(theirs) && Diverge(ours, theirs, f)
    requires forall j :: 0 <= j < |theirs| ==> theirs[j] in known
    requires (forall n :: n in picks ==> 0 < n <= |ours|) && i < |picks|
    ensures var id := IdsAt(ours, picks)[i];
            && picks[i] in picks && NumFromId(id) == picks[i] && id != ZERO_ID && id == ours[picks[i] - 1]
            && (Recognized(theirs, known, id) <==> picks[i] <= f)
            && (Unstored(theirs, known, id) <==> picks[i] > |theirs| && id in known)
  {
    assert picks[i] in picks;
  }

  /** Some entry of our synopsis is a block that the peer knows, but that is higher than its chain. */
  ghost predicate Trips(ours: seq<BlockId>, theirs: seq<BlockId>, known: set<BlockId>, picks: seq<nat>)
    requires forall n :: n in picks ==> 0 < n <= |ours|
  {
    exists n :: n in picks && n > |theirs| && ours[n - 1] in known
  }

  /** The last entry that it recognizes is the greatest common one, unless it trips before. */
  lemma LastCommonEntry(ours: seq<BlockId>, theirs: seq<BlockId>, known: set<BlockId>, picks: seq<nat>, f: nat, k: nat)
    requires Numbered(ours) && Numbered(theirs) && Diverge(ours, theirs, f)
    requires forall j :: 0 <= j < |theirs| ==> theirs[j] in known
    requires (forall n :: n in picks ==> 0 < n <= |ours|) && Increasing(picks)
    ensures LastRecognized(theirs, known, IdsAt(ours, picks), k) <==>
              LastUpTo(picks, f, k) && !Trips(ours, theirs, known, picks)
    ensures LastUpTo(picks, f, k) ==> GreatestUpTo(picks, f, picks[k])
  {
    hide Diverge, Numbered, Recognized, Unstored, IdsAt;
    var synopsis := IdsAt(ours, picks);
    assert |synopsis| == |picks| by { SameCount(ours, picks); }
    forall i | 0 <= i < |picks|
      ensures Recognized(theirs, known, synopsis[i]) <==> picks[i] <= f
      ensures picks[i] in picks && (Unstored(theirs, known, synopsis[i]) <==>
                picks[i] > |theirs| && ours[picks[i] - 1] in known)
    {
      PeerRecognizes(ours, theirs, known, picks, f, i);
    }
    assert f <= |theirs| by { CommonPartIsTheirs(ours, theirs, f); }
    EntriesAfter(picks, f, k);
    if Trips(ours, theirs, known, picks) {
      var n :| n in picks && n > |theirs| && ours[n - 1] in known;
      var i :| 0 <= i < |picks| && picks[i] == n;
      assert Unstored(theirs, known, synopsis[i]);
      assert k < |picks| && picks[k] <= f ==> i > k;
    }
  }

  lemma SameCount(chain: seq<BlockId>, picks: seq<nat>)
    requires forall n :: n in picks ==> 0 < n <= |chain|
    ensures |IdsAt(chain, picks)| == |picks|
  {
  }

  lemma CommonPartIsTheirs(ours: seq<BlockId>, theirs: seq<BlockId>, f: nat)
    requires Diverge(ours, theirs, f)
    ensures f <= |theirs|
  {
  }

  /** In an increasing sequence, the entries up to `f` are those up to the last of them. */
  lemma EntriesAfter(picks: seq<nat>, f: nat, k: nat)
    requires Increasing(picks)
    ensures LastUpTo(picks, f, k) <==> k < |picks| && picks[k] <= f && forall i :: k < i < |picks| ==> picks[i] > f
    ensures LastUpTo(picks, f, k) ==> forall i :: 0 <= i < |picks| && picks[i] <= f ==> picks[i] <= picks[k]
  {
    if LastUpTo(picks, f, k) {
      forall i | k < i < |picks| ensures picks[i] > f {
        assert picks[k + 1] <= picks[i];
      }
    }
  }

  ghost predicate GreatestUpTo(picks: seq<nat>, f: nat, n: nat) {
    n in picks && n <= f && forall m :: m in picks && m <= f ==> m <= n
  }

  /** The exchange as a whole: the peer answers with its own blocks from the greatest entry of our synopsis that we
      have in common, which overlaps with our chain by no more than we have beyond the last common block. It throws
      if we have no entry in common, or it knows one above its head. */
  method Exchange(ours: seq<BlockId>, undoable: nat, theirs: seq<BlockId>, known: set<BlockId>, limit: nat,
                  ghost f: nat)
    returns (answer: Option<(seq<BlockId>, nat)>)
    requires Numbered(ours) && Numbered(theirs) && undoable <= |ours|
    requires Diverge(ours, theirs, f) && forall i :: 0 <= i < |theirs| ==> theirs[i] in known
    ensures theirs == [] ==> answer == Some(([], 0))
    ensures theirs != [] && ours == [] ==> answer == Some(Answer(theirs, 1, limit))
    ensures theirs != [] && ours != [] ==>
              var low := LowestBlock(ours, undoable, ZERO_ID);
              var picks := Picks(low, |ours|, |ours|);
              && (forall n :: n in picks ==> 0 < n <= |ours|)
              && (answer.None? <==> f < low || Trips(ours, theirs, known, picks))
              && (answer.Some? ==> exists n :: && GreatestUpTo(picks, f, n) && f - n <= |ours| - f
                                               && answer == Some(Answer(theirs, n, limit)))
  {
    hide Answer, Recognized, Picks, IdsAt, Diverge, Numbered, Unstored, LastRecognized, Trips, GreatestUpTo, LastUpTo,
         Increasing;
    var synopsis := GetSynopsis(ours, undoable, ZERO_ID, None, 0);
    if ours != [] {
      ghost var low := LowestBlock(ours, undoable, ZERO_ID);
      assert f <= |ours| by { CommonPart(ours, theirs, f); }
      PicksInRange(low, |ours|, |ours|);
      SynopsisForPeer(ours, low, theirs, known, f);
    }
    answer := GetBlockIds(theirs, known, synopsis.value, limit);
  }

  lemma SynopsisForPeer(ours: seq<BlockId>, low: nat, theirs: seq<BlockId>, known: set<BlockId>, f: nat)
    requires Numbered(ours) && Numbered(theirs) && Diverge(ours, theirs, f) && 0 < low <= |ours| && f <= |ours|
    requires forall i :: 0 <= i < |theirs| ==> theirs[i] in known
    requires forall n :: n in Picks(low, |ours|, |ours|) ==> 0 < n <= |ours|
    ensures var picks := Picks(low, |ours|, |ours|);
            var synopsis := IdsAt(ours, picks);
            && !FromStart(synopsis)
            && ((forall k: nat :: !LastRecognized(theirs, known, synopsis, k)) <==>
                  f < low || Trips(ours, theirs, known, picks))
            && forall k: nat :: LastRecognized(theirs, known, synopsis, k) ==>
                 && NumFromId(synopsis[k]) == picks[k] && GreatestUpTo(picks, f, picks[k]) && f - picks[k] <= |ours| - f
  {
    hide Diverge, Numbered, Picks, IdsAt, Trips, LastRecognized, Recognized, Unstored;
    var picks := Picks(low, |ours|, |ours|);
    PicksInRange(low, |ours|, |ours|);
    SameCount(ours, picks);
    PeerRecognizes(ours, theirs, known, picks, f, 0);
    if f >= low {
      var k := LastUpToExists(low, |ours|, f);
      LastCommonEntry(ours, theirs, known, picks, f, k);
    }
    forall k: nat
      ensures LastRecognized(theirs, known, IdsAt(ours, picks), k) ==>
                && f >= low && !Trips(ours, theirs, known, picks) && k < |picks|
                && NumFromId(IdsAt(ours, picks)[k]) == picks[k]
                && GreatestUpTo(picks, f, picks[k]) && f - picks[k] <= |ours| - f
    {
      LastCommonEntry(ours, theirs, known, picks, f, k);
      if LastUpTo(picks, f, k) {
        PeerRecognizes(ours, theirs, known, picks, f, k);
        OverlapIsShort(low, |ours|, f, k);
      }
    }
  }

  lemma CommonPart(ours: seq<BlockId>, theirs: seq<BlockId>, f: nat)
    requires Diverge(ours, theirs, f)
    ensures f <= |ours|
  {
  }

  lemma OnePick(low: nat, high: nat, rest: seq<nat>)
    requires low <= high && rest == Picks(low + (high - low + 2) / 2, high, high)
    ensures Picks(low, high, high) == [low] + rest
  {
  }

  /** The example of the documentation: of 26 blocks a to z, the synopsis has a n u x z. */
  lemma AlphabetExample()
    ensures Picks(1, 26, 26) == [1, 14, 21, 24, 26]
  {
    hide Picks;
    assert Picks(27, 26, 26) == [] by { NoPick(27, 26); }
    OnePick(26, 26, []);
    OnePick(24, 26, [26]);
    OnePick(21, 26, [24, 26]);
    OnePick(14, 26, [21, 24, 26]);
    OnePick(1, 26, [14, 21, 24, 26]);
  }

  lemma NoPick(low: nat, high: nat)
    requires low > high
    ensures Picks(low, high, high) == []
  {
  }
}
