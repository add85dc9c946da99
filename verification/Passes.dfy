/**
 The broker's two maintenance passes. Promotion repeats one atomic script until
 it moves nothing; reclaiming takes a snapshot of the running ids and runs one
 atomic script for each, while other workers may act in between.
 */
module Passes {
  import opened Tasks
  import opened Broker

  // --------------------------------------------------------------- promotion

  /** ZRANGEBYSCORE -inf t LIMIT 0 1: a member of least score, if that score is at most t. */
  method FirstDue<K(==)>(delayed: map<K, int>, t: int) returns (due: Option<K>)
    ensures due.None? ==> forall j :: j in delayed ==> delayed[j] > t
    ensures due.Some? ==> due.value in delayed && delayed[due.value] <= t
    ensures due.Some? ==> forall j :: j in delayed ==> delayed[due.value] <= delayed[j]
  {
    due := None;
    var rest := delayed.Keys;
    while rest != {}
      invariant rest <= delayed.Keys
      invariant due.None? ==> forall j :: j in delayed && j !in rest ==> delayed[j] > t
      invariant due.Some? ==> due.value in delayed && delayed[due.value] <= t
      invariant due.Some? ==> forall j :: j in delayed && j !in rest ==> delayed[due.value] <= delayed[j]
      decreases rest
    {
      var j :| j in rest;
      rest := rest - {j};
      if delayed[j] <= t && (due.None? || delayed[j] < delayed[due.value]) {
        due := Some(j);
      }
    }
  }

  /** Each promoted member is, when its turn comes, due and of least score. */
  ghost predicate PromotePass(b: BrokerState, t: int, ms: seq<TaskMessage>)
    decreases ms
  {
    ms == [] || (NextDue(b, ms[0], t) && PromotePass(Promote(b, ms[0]), t, ms[1..]))
  }

  function PromoteAll(b: BrokerState, ms: seq<TaskMessage>): BrokerState
    decreases ms
  {
    if ms == [] then b else PromoteAll(Promote(b, ms[0]), ms[1..])
  }

  predicate NothingDue(b: BrokerState, t: int) {
    forall m :: m in b.delayed ==> b.delayed[m] > t
  }

  function PromotedCopies(ms: seq<TaskMessage>): seq<TaskMessage> {
    seq(|ms|, i requires 0 <= i < |ms| => PromotedCopy(ms[i]))
  }

  lemma {:induction false} PassAppend(b: BrokerState, t: int, ms: seq<TaskMessage>, m: TaskMessage)
    requires PromotePass(b, t, ms) && NextDue(PromoteAll(b, ms), m, t)
    ensures PromotePass(b, t, ms + [m]) && PromoteAll(b, ms + [m]) == Promote(PromoteAll(b, ms), m)
    decreases ms
  {
    if ms == [] {
      assert [m][1..] == [];
      assert ms + [m] == [m];
    } else {
      assert (ms + [m])[0] == ms[0] && (ms + [m])[1..] == ms[1..] + [m];
      PassAppend(Promote(b, ms[0]), t, ms[1..], m);
    }
  }

  lemma {:induction false} PassQueue(b: BrokerState, t: int, ms: seq<TaskMessage>)
    requires PromotePass(b, t, ms)
    ensures var b' := PromoteAll(b, ms);
            && b'.pending == b.pending + PromotedCopies(ms)
            && b'.running == b.running && b'.dead == b.dead && b'.results == b.results && b'.failures == b.failures
    decreases ms
  {
    if ms == [] {
    } else {
      PassQueue(Promote(b, ms[0]), t, ms[1..]);
      assert PromotedCopies(ms) == [PromotedCopy(ms[0])] + PromotedCopies(ms[1..]);
    }
  }

  /** The recorded status of an id is pending if it was moved, and unchanged otherwise. */
  ghost predicate StatusAfterPass(
      before: map<string, TaskStatus>, ms: seq<TaskMessage>, after: map<string, TaskStatus>, id: string) {
    if exists m :: m in ms && m.id == id then id in after && after[id] == Pending
    else (id in after <==> id in before) && (id in before ==> after[id] == before[id])
  }

  lemma {:induction false} PassStatus(b: BrokerState, t: int, ms: seq<TaskMessage>, id: string)
    requires PromotePass(b, t, ms)
    ensures StatusAfterPass(b.status, ms, PromoteAll(b, ms).status, id)
    decreases ms
  {
    if ms == [] {
    } else {
      PassStatus(Promote(b, ms[0]), t, ms[1..], id);
      assert ms == [ms[0]] + ms[1..];
    }
  }

  lemma {:induction false} PassDelayed(b: BrokerState, t: int, ms: seq<TaskMessage>)
    requires PromotePass(b, t, ms)
    ensures forall m :: m in ms ==> m in b.delayed && b.delayed[m] <= t
    ensures forall m :: m in PromoteAll(b, ms).delayed <==> m in b.delayed && m !in ms
    ensures forall m :: m in PromoteAll(b, ms).delayed ==> PromoteAll(b, ms).delayed[m] == b.delayed[m]
    decreases ms
  {
    if ms == [] {
    } else {
      PassDelayed(Promote(b, ms[0]), t, ms[1..]);
      assert ms == [ms[0]] + ms[1..];
    }
  }

  lemma {:induction false} PassOrder(b: BrokerState, t: int, ms: seq<TaskMessage>, i: nat, j: nat)
    requires PromotePass(b, t, ms) && i < j < |ms|
    ensures ms[i] in b.delayed && ms[j] in b.delayed
    ensures ms[i] != ms[j] && b.delayed[ms[i]] <= b.delayed[ms[j]]
    decreases ms
  {
    var rest := ms[1..];
    PassDelayed(Promote(b, ms[0]), t, rest);
    assert ms[j] == rest[j - 1] && rest[j - 1] in rest;
    if i == 0 {
    } else {
      PassOrder(Promote(b, ms[0]), t, rest, i - 1, j - 1);
    }
  }

  /**
   A promotion pass that runs until nothing is due moves exactly the members with
   score at most t, each once, in nondecreasing score order, to the back of the
   queue, marks them pending, and leaves everything else as it was.
   */
  lemma PromotePassIsExact(b: BrokerState, t: int, ms: seq<TaskMessage>)
    requires PromotePass(b, t, ms) && NothingDue(PromoteAll(b, ms), t)
    ensures forall m :: m in ms <==> m in b.delayed && b.delayed[m] <= t
    ensures forall i, j :: 0 <= i < j < |ms| ==> ms[i] != ms[j] && b.delayed[ms[i]] <= b.delayed[ms[j]]
    ensures PromoteAll(b, ms).pending == b.pending + PromotedCopies(ms)
    ensures PromoteAll(b, ms).delayed == map m | m in b.delayed && b.delayed[m] > t :: b.delayed[m]
    ensures forall id :: StatusAfterPass(b.status, ms, PromoteAll(b, ms).status, id)
    ensures PromoteAll(b, ms) == b.(pending := PromoteAll(b, ms).pending, delayed := PromoteAll(b, ms).delayed,
                                    status := PromoteAll(b, ms).status)
  {
    PassDelayed(b, t, ms);
    forall id
      ensures StatusAfterPass(b.status, ms, PromoteAll(b, ms).status, id)
    {
      PassStatus(b, t, ms, id);
    }
    PassQueue(b, t, ms);
    forall i, j | 0 <= i < j < |ms|
      ensures ms[i] != ms[j] && b.delayed[ms[i]] <= b.delayed[ms[j]]
    {
      PassOrder(b, t, ms, i, j);
    }
  }

  // -------------------------------------------------------------- reclaiming

  function ReclaimAll(b: BrokerState, ids: seq<string>, t: int, timeout: int): BrokerState
    decreases ids
  {
    if ids == [] then b else ReclaimAll(Reclaim(b, ids[0], t, timeout), ids[1..], t, timeout)
  }

  function ReclaimCount(b: BrokerState, ids: seq<string>, t: int, timeout: int): nat
    decreases ids
  {
    if ids == [] then 0
    else (if Reclaims(b, ids[0], t, timeout) then 1 else 0)
         + ReclaimCount(Reclaim(b, ids[0], t, timeout), ids[1..], t, timeout)
  }

  lemma {:induction false} ReclaimAppend(b: BrokerState, ids: seq<string>, id: string, t: int, timeout: int)
    ensures ReclaimAll(b, ids + [id], t, timeout) == Reclaim(ReclaimAll(b, ids, t, timeout), id, t, timeout)
    ensures ReclaimCount(b, ids + [id], t, timeout)
            == ReclaimCount(b, ids, t, timeout)
               + if Reclaims(ReclaimAll(b, ids, t, timeout), id, t, timeout) then 1 else 0
    decreases ids
  {
    if ids == [] {
      assert [id][1..] == [] && ids + [id] == [id];
    } else {
      assert (ids + [id])[0] == ids[0] && (ids + [id])[1..] == ids[1..] + [id];
      ReclaimAppend(Reclaim(b, ids[0], t, timeout), ids[1..], id, t, timeout);
    }
  }

  lemma {:induction false} ReclaimGrowsQueue(b: BrokerState, ids: seq<string>, t: int, timeout: int)
    ensures |ReclaimAll(b, ids, t, timeout).pending| == |b.pending| + ReclaimCount(b, ids, t, timeout)
    decreases ids
  {
    if ids == [] {
    } else {
      ReclaimGrowsQueue(Reclaim(b, ids[0], t, timeout), ids[1..], t, timeout);
    }
  }

  /** The copies that go back to the queue, in the order of the ids. */
  function ReclaimedCopies(
      running: map<string, TaskMessage>, ids: seq<string>, t: int, timeout: int): seq<TaskMessage> {
    if ids == [] then []
    else (if ids[0] in running && Stale(running[ids[0]], t, timeout) then [ReclaimedCopy(running[ids[0]])] else [])
         + ReclaimedCopies(running, ids[1..], t, timeout)
  }

  predicate Distinct(ids: seq<string>) {
    forall i, j :: 0 <= i < j < |ids| ==> ids[i] != ids[j]
  }

  lemma DistinctTail(ids: seq<string>)
    requires Distinct(ids) && ids != []
    ensures Distinct(ids[1..]) && ids[0] !in ids[1..]
  {
  }

  lemma {:induction false} ReclaimedElsewhere(
      r: map<string, TaskMessage>, id: string, ids: seq<string>, t: int, timeout: int)
    requires id !in ids
    ensures ReclaimedCopies(r - {id}, ids, t, timeout) == ReclaimedCopies(r, ids, t, timeout)
  {
    if ids == [] {
    } else {
      ReclaimedElsewhere(r, id, ids[1..], t, timeout);
    }
  }

  lemma {:induction false} ReclaimPassMoves(b: BrokerState, ids: seq<string>, t: int, timeout: int)
    requires Distinct(ids)
    ensures var b' := ReclaimAll(b, ids, t, timeout);
            && b'.pending == b.pending + ReclaimedCopies(b.running, ids, t, timeout)
            && ReclaimCount(b, ids, t, timeout) == |ReclaimedCopies(b.running, ids, t, timeout)|
            && b'.delayed == b.delayed && b'.dead == b.dead && b'.results == b.results && b'.failures == b.failures
    decreases ids
  {
    if ids == [] {
    } else {
      DistinctTail(ids);
      hide Stale, ReclaimedCopy, Distinct;
      var b1 := Reclaim(b, ids[0], t, timeout);
      ReclaimPassMoves(b1, ids[1..], t, timeout);
      ReclaimedElsewhere(b.running, ids[0], ids[1..], t, timeout);
      var rest := ReclaimedCopies(b.running, ids[1..], t, timeout);
      if Reclaims(b, ids[0], t, timeout) {
        var copy := ReclaimedCopy(b.running[ids[0]]);
        assert ReclaimedCopies(b.running, ids, t, timeout) == [copy] + rest;
        assert b.pending + [copy] + rest == b.pending + ([copy] + rest);
      } else {
        assert ReclaimedCopies(b.running, ids, t, timeout) == rest;
      }
    }
  }

  /** What happened to one id: moved if it was visited and stale, otherwise left alone. */
  ghost predicate EntryAfterReclaim(
      b: BrokerState, ids: seq<string>, b': BrokerState, t: int, timeout: int, id: string) {
    if id in ids && Reclaims(b, id, t, timeout) then
      id !in b'.running && id in b'.status && b'.status[id] == Pending
    else
      && (id in b'.running <==> id in b.running) && (id in b.running ==> b'.running[id] == b.running[id])
      && (id in b'.status <==> id in b.status) && (id in b.status ==> b'.status[id] == b.status[id])
  }

  lemma {:induction false} ReclaimPassEntry(b: BrokerState, ids: seq<string>, t: int, timeout: int, id: string)
    ensures EntryAfterReclaim(b, ids, ReclaimAll(b, ids, t, timeout), t, timeout, id)
    decreases ids
  {
    if ids == [] {
    } else {
      hide Stale, ReclaimedCopy;
      ReclaimPassEntry(Reclaim(b, ids[0], t, timeout), ids[1..], t, timeout, id);
      assert id in ids <==> id == ids[0] || id in ids[1..];
    }
  }

  /**
   An undisturbed pass over a snapshot of the running ids returns every stale
   entry to the queue and marks it pending, touches no other, and counts what it
   moved.
   */
  lemma ReclaimPassIsExact(b: BrokerState, ids: seq<string>, t: int, timeout: int)
    requires Distinct(ids)
    ensures var b' := ReclaimAll(b, ids, t, timeout);
            && b'.pending == b.pending + ReclaimedCopies(b.running, ids, t, timeout)
            && ReclaimCount(b, ids, t, timeout) == |ReclaimedCopies(b.running, ids, t, timeout)|
            && b'.delayed == b.delayed && b'.dead == b.dead && b'.results == b.results && b'.failures == b.failures
    ensures forall id :: EntryAfterReclaim(b, ids, ReclaimAll(b, ids, t, timeout), t, timeout, id)
  {
    ReclaimPassMoves(b, ids, t, timeout);
    forall id
      ensures EntryAfterReclaim(b, ids, ReclaimAll(b, ids, t, timeout), t, timeout, id)
    {
      ReclaimPassEntry(b, ids, t, timeout, id);
    }
  }

  lemma {:induction false} ReclaimedCopiesMembers(
      running: map<string, TaskMessage>, ids: seq<string>, t: int, timeout: int)
    ensures forall id :: id in ids && id in running && Stale(running[id], t, timeout) ==>
                           ReclaimedCopy(running[id]) in ReclaimedCopies(running, ids, t, timeout)
    ensures ReclaimedCopies(running, ids, t, timeout) != [] ==>
              exists id :: id in ids && id in running && Stale(running[id], t, timeout)
  {
    if ids == [] {
    } else {
      hide Stale, ReclaimedCopy;
      ReclaimedCopiesMembers(running, ids[1..], t, timeout);
      assert ids == [ids[0]] + ids[1..];
    }
  }

  /** No running entry has outlived its lease. */
  predicate NothingStale(b: BrokerState, t: int, timeout: int) {
    forall id :: id in b.running ==> !Stale(b.running[id], t, timeout)
  }
}
