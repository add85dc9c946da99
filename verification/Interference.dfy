/**
 A reclaim pass among other workers. The pass takes a snapshot of the running ids
 and runs one script for each; between the snapshot and each script, others may
 take any steps of the protocol.
 */
module Interference {
  import opened Tasks
  import opened Broker
  import opened Protocol
  import opened Passes

  /** The steps of the pass, each after the steps that others take before it. */
  function PassSteps(others: seq<seq<Step>>, ids: seq<string>, t: int, timeout: int): seq<Step>
    requires |others| == |ids|
    decreases ids
  {
    if ids == [] then []
    else others[0] + ([ReclaimStep(ids[0], t, timeout)] + PassSteps(others[1..], ids[1..], t, timeout))
  }

  /** A run of a pass is what others do first, one script, and a run of the rest. */
  lemma PassSplit(s: System, others: seq<seq<Step>>, ids: seq<string>, t: int, timeout: int)
    requires |others| == |ids| > 0 && Run(s, PassSteps(others, ids, t, timeout))
    ensures var e := ReclaimStep(ids[0], t, timeout);
            var rest := PassSteps(others[1..], ids[1..], t, timeout);
            && Run(s, others[0]) && Enabled(Exec(s, others[0]), e) && Run(Next(Exec(s, others[0]), e), rest)
            && Exec(s, PassSteps(others, ids, t, timeout)) == Exec(Next(Exec(s, others[0]), e), rest)
  {
    var e := ReclaimStep(ids[0], t, timeout);
    var rest := PassSteps(others[1..], ids[1..], t, timeout);
    RunSplit(s, others[0], [e] + rest);
    RunSplit(Exec(s, others[0]), [e], rest);
    RunOne(Exec(s, others[0]), e);
  }

  /** The state that the i-th script of the pass finds. */
  ghost function Found(s: System, others: seq<seq<Step>>, ids: seq<string>, t: int, timeout: int, i: nat): System
    requires |others| == |ids| && Run(s, PassSteps(others, ids, t, timeout)) && i < |ids|
    decreases ids
  {
    PassSplit(s, others, ids, t, timeout);
    var found := Exec(s, others[0]);
    if i == 0 then found
    else Found(Next(found, ReclaimStep(ids[0], t, timeout)), others[1..], ids[1..], t, timeout, i - 1)
  }

  /** The ids whose entries the pass moved. */
  ghost function Moved(s: System, others: seq<seq<Step>>, ids: seq<string>, t: int, timeout: int): (moved: set<string>)
    requires |others| == |ids| && Run(s, PassSteps(others, ids, t, timeout))
    ensures forall id :: id in moved ==> id in ids
    decreases ids
  {
    if ids == [] then {}
    else
      PassSplit(s, others, ids, t, timeout);
      var found := Exec(s, others[0]);
      (if Reclaims(found.b, ids[0], t, timeout) then {ids[0]} else {})
      + Moved(Next(found, ReclaimStep(ids[0], t, timeout)), others[1..], ids[1..], t, timeout)
  }

  /** What the pass returns: the sum of its scripts' replies. */
  ghost function PassCount(s: System, others: seq<seq<Step>>, ids: seq<string>, t: int, timeout: int): nat
    requires |others| == |ids| && Run(s, PassSteps(others, ids, t, timeout))
    decreases ids
  {
    if ids == [] then 0
    else
      PassSplit(s, others, ids, t, timeout);
      var found := Exec(s, others[0]);
      (if Reclaims(found.b, ids[0], t, timeout) then 1 else 0)
      + PassCount(Next(found, ReclaimStep(ids[0], t, timeout)), others[1..], ids[1..], t, timeout)
  }

  /** How many entries the other workers' own passes moved meanwhile. */
  ghost function MovedByOthers(s: System, others: seq<seq<Step>>, ids: seq<string>, t: int, timeout: int): int
    requires |others| == |ids| && Run(s, PassSteps(others, ids, t, timeout))
    decreases ids
  {
    if ids == [] then 0
    else
      PassSplit(s, others, ids, t, timeout);
      var found := Exec(s, others[0]);
      |found.reclaimed| - |s.reclaimed|
      + MovedByOthers(Next(found, ReclaimStep(ids[0], t, timeout)), others[1..], ids[1..], t, timeout)
  }

  // --------------------------------------------------------------- invariant

  /** Reservations made meanwhile carry clock readings within the timeout of the pass's. */
  predicate RecentReserves(steps: seq<Step>, t: int, timeout: int) {
    forall e :: e in steps && e.ReserveStep? ==> t - e.t <= timeout
  }

  predicate AllRecent(others: seq<seq<Step>>, t: int, timeout: int) {
    forall i :: 0 <= i < |others| ==> RecentReserves(others[i], t, timeout)
  }

  /** The entry is one that the snapshot held. */
  predicate FromSnapshot(was: BrokerState, b: BrokerState, id: string)
    requires id in b.running
  {
    id in was.running && was.running[id] == b.running[id]
  }

  /** Stale entries are the snapshot's own, under ids still to be visited. */
  ghost predicate StaleAhead(was: BrokerState, b: BrokerState, rest: seq<string>, t: int, timeout: int) {
    forall id :: id in b.running && Stale(b.running[id], t, timeout) ==> id in rest && FromSnapshot(was, b, id)
  }

  lemma StaleAheadStep(was: BrokerState, s: System, e: Step, rest: seq<string>, t: int, timeout: int)
    requires StaleAhead(was, s.b, rest, t, timeout) && Enabled(s, e)
    requires e.ReserveStep? ==> t - e.t <= timeout
    ensures StaleAhead(was, Next(s, e).b, rest, t, timeout)
  {
    hide Parseable, RetriedCopy, FirstWithId;
  }

  lemma {:induction false} StaleAheadOthers(
      was: BrokerState, s: System, steps: seq<Step>, rest: seq<string>, t: int, timeout: int)
    requires StaleAhead(was, s.b, rest, t, timeout) && Run(s, steps) && RecentReserves(steps, t, timeout)
    ensures StaleAhead(was, Exec(s, steps).b, rest, t, timeout)
    decreases steps
  {
    if steps == [] {
    } else {
      hide StaleAhead, Next;
      StaleAheadStep(was, s, steps[0], rest, t, timeout);
      StaleAheadOthers(was, Next(s, steps[0]), steps[1..], rest, t, timeout);
    }
  }

  lemma StaleAheadScript(was: BrokerState, b: BrokerState, ids: seq<string>, t: int, timeout: int)
    requires ids != [] && StaleAhead(was, b, ids, t, timeout)
    ensures StaleAhead(was, Reclaim(b, ids[0], t, timeout), ids[1..], t, timeout)
  {
  }

  /** One round of the pass: what others do, and then the script. */
  lemma Round(was: BrokerState, s: System, others: seq<seq<Step>>, ids: seq<string>, t: int, timeout: int)
    requires |others| == |ids| > 0 && Run(s, PassSteps(others, ids, t, timeout)) && AllRecent(others, t, timeout)
    requires StaleAhead(was, s.b, ids, t, timeout)
    ensures Run(s, others[0]) && Enabled(Exec(s, others[0]), ReclaimStep(ids[0], t, timeout))
    ensures AllRecent(others[1..], t, timeout)
    ensures StaleAhead(was, Exec(s, others[0]).b, ids, t, timeout)
    ensures StaleAhead(was, Next(Exec(s, others[0]), ReclaimStep(ids[0], t, timeout)).b, ids[1..], t, timeout)
  {
    hide StaleAhead;
    PassSplit(s, others, ids, t, timeout);
    StaleAheadOthers(was, s, others[0], ids, t, timeout);
    StaleAheadScript(was, Exec(s, others[0]).b, ids, t, timeout);
  }

  lemma {:induction false} NothingStaleAfter(
      was: BrokerState, s: System, others: seq<seq<Step>>, ids: seq<string>, t: int, timeout: int)
    requires |others| == |ids| && Run(s, PassSteps(others, ids, t, timeout)) && AllRecent(others, t, timeout)
    requires StaleAhead(was, s.b, ids, t, timeout)
    ensures NothingStale(Exec(s, PassSteps(others, ids, t, timeout)).b, t, timeout)
    decreases ids
  {
    if ids == [] {
    } else {
      hide StaleAhead, NothingStale, AllRecent, Next;
      PassSplit(s, others, ids, t, timeout);
      Round(was, s, others, ids, t, timeout);
      var next := Next(Exec(s, others[0]), ReclaimStep(ids[0], t, timeout));
      NothingStaleAfter(was, next, others[1..], ids[1..], t, timeout);
    }
  }

  lemma {:induction false} FoundStaleIsSnapshots(
      was: BrokerState, s: System, others: seq<seq<Step>>, ids: seq<string>, t: int, timeout: int, i: nat)
    requires |others| == |ids| && Run(s, PassSteps(others, ids, t, timeout)) && AllRecent(others, t, timeout)
    requires StaleAhead(was, s.b, ids, t, timeout) && i < |ids|
    ensures StaleAhead(was, Found(s, others, ids, t, timeout, i).b, ids, t, timeout)
    decreases ids
  {
    Round(was, s, others, ids, t, timeout);
    if i == 0 {
    } else {
      PassSplit(s, others, ids, t, timeout);
      var next := Next(Exec(s, others[0]), ReclaimStep(ids[0], t, timeout));
      hide Next, AllRecent;
      FoundStaleIsSnapshots(was, next, others[1..], ids[1..], t, timeout, i - 1);
      assert forall id :: id in ids[1..] ==> id in ids;
    }
  }

  // ---------------------------------------------------------------- counting

  /** Every growth of the log of reclaims is this pass's count or the others'. */
  lemma {:induction false} CountIsOwnGrowth(s: System, others: seq<seq<Step>>, ids: seq<string>, t: int, timeout: int)
    requires |others| == |ids| && Run(s, PassSteps(others, ids, t, timeout))
    ensures |Exec(s, PassSteps(others, ids, t, timeout)).reclaimed|
            == |s.reclaimed| + PassCount(s, others, ids, t, timeout) + MovedByOthers(s, others, ids, t, timeout)
    decreases ids
  {
    if ids == [] {
    } else {
      PassSplit(s, others, ids, t, timeout);
      var next := Next(Exec(s, others[0]), ReclaimStep(ids[0], t, timeout));
      CountIsOwnGrowth(next, others[1..], ids[1..], t, timeout);
    }
  }

  lemma AddOne(rest: set<string>, id: string, moved: bool)
    requires id !in rest
    ensures |(if moved then {id} else {}) + rest| == (if moved then 1 else 0) + |rest|
  {
    if moved {
      assert {id} + rest - {id} == rest;
    } else {
      assert {} + rest == rest;
    }
  }

  /** The first round of a pass, in its count and in what it moved. */
  lemma FirstRound(s: System, others: seq<seq<Step>>, ids: seq<string>, t: int, timeout: int) returns (next: System)
    requires |others| == |ids| > 0 && Run(s, PassSteps(others, ids, t, timeout))
    ensures Run(s, others[0]) && Run(next, PassSteps(others[1..], ids[1..], t, timeout))
    ensures var moves := Reclaims(Exec(s, others[0]).b, ids[0], t, timeout);
            && PassCount(s, others, ids, t, timeout)
               == (if moves then 1 else 0) + PassCount(next, others[1..], ids[1..], t, timeout)
            && Moved(s, others, ids, t, timeout)
               == (if moves then {ids[0]} else {}) + Moved(next, others[1..], ids[1..], t, timeout)
  {
    hide Next, Reclaims, Run, Exec;
    PassSplit(s, others, ids, t, timeout);
    next := Next(Exec(s, others[0]), ReclaimStep(ids[0], t, timeout));
  }

  lemma {:induction false} CountIsMoved(s: System, others: seq<seq<Step>>, ids: seq<string>, t: int, timeout: int)
    requires |others| == |ids| && Run(s, PassSteps(others, ids, t, timeout)) && Distinct(ids)
    ensures PassCount(s, others, ids, t, timeout) == |Moved(s, others, ids, t, timeout)|
    decreases ids
  {
    if ids == [] {
    } else {
      hide Next, Reclaims, Run, Exec, Distinct, PassCount, Moved, PassSteps;
      DistinctTail(ids);
      var next := FirstRound(s, others, ids, t, timeout);
      var rest := Moved(next, others[1..], ids[1..], t, timeout);
      CountIsMoved(next, others[1..], ids[1..], t, timeout);
      AddOne(rest, ids[0], Reclaims(Exec(s, others[0]).b, ids[0], t, timeout));
    }
  }

  lemma {:induction false} MovedWereStale(
      was: BrokerState, s: System, others: seq<seq<Step>>, ids: seq<string>, t: int, timeout: int)
    requires |others| == |ids| && Run(s, PassSteps(others, ids, t, timeout)) && AllRecent(others, t, timeout)
    requires StaleAhead(was, s.b, ids, t, timeout)
    ensures forall id :: id in Moved(s, others, ids, t, timeout) ==> Reclaims(was, id, t, timeout)
    decreases ids
  {
    if ids == [] {
    } else {
      PassSplit(s, others, ids, t, timeout);
      Round(was, s, others, ids, t, timeout);
      var found := Exec(s, others[0]);
      assert Reclaims(found.b, ids[0], t, timeout) ==> Reclaims(was, ids[0], t, timeout);
      var next := Next(found, ReclaimStep(ids[0], t, timeout));
      hide StaleAhead, AllRecent, Next, Reclaims, Run, Exec;
      MovedWereStale(was, next, others[1..], ids[1..], t, timeout);
    }
  }

  // ----------------------------------------------------------------- theorem

  /** A script of the pass moves only the snapshot's own stale entry; leases taken since then survive it. */
  ghost predicate SparesNewLeases(was: BrokerState, before: BrokerState, id: string, t: int, timeout: int) {
    var after := Reclaim(before, id, t, timeout);
    && (after != before ==> id in before.running && FromSnapshot(was, before, id) && Stale(was.running[id], t, timeout))
    && (forall k :: k in before.running && !FromSnapshot(was, before, k) ==>
          k in after.running && after.running[k] == before.running[k])
  }

  lemma ScriptSparesNewLeases(was: BrokerState, before: BrokerState, ids: seq<string>, id: string, t: int, timeout: int)
    requires StaleAhead(was, before, ids, t, timeout)
    ensures SparesNewLeases(was, before, id, t, timeout)
  {
  }

  /**
   A reclaim pass under interference. Let the ids be those running at the snapshot
   s, and let others take any steps in between, reservations included, as long as
   these carry clock readings within the timeout of the pass's. Then at the end no
   running entry is stale, whatever others did; each script moves only an entry
   that was there at the snapshot, and every lease taken since survives it; the
   returned count is the pass's own share of the entries reclaimed meanwhile, and
   counts distinct tasks that were stale at the snapshot.
   */
  lemma ReclaimPassUnderInterference(s: System, others: seq<seq<Step>>, ids: seq<string>, t: int, timeout: int)
    requires |others| == |ids| && Run(s, PassSteps(others, ids, t, timeout)) && AllRecent(others, t, timeout)
    requires Distinct(ids) && forall id :: id in ids <==> id in s.b.running
    ensures NothingStale(Exec(s, PassSteps(others, ids, t, timeout)).b, t, timeout)
    ensures forall i :: 0 <= i < |ids| ==>
              SparesNewLeases(s.b, Found(s, others, ids, t, timeout, i).b, ids[i], t, timeout)
    ensures |Exec(s, PassSteps(others, ids, t, timeout)).reclaimed|
            == |s.reclaimed| + PassCount(s, others, ids, t, timeout) + MovedByOthers(s, others, ids, t, timeout)
    ensures PassCount(s, others, ids, t, timeout) == |Moved(s, others, ids, t, timeout)|
    ensures forall id :: id in Moved(s, others, ids, t, timeout) ==> Reclaims(s.b, id, t, timeout)
  {
    assert StaleAhead(s.b, s.b, ids, t, timeout);
    hide StaleAhead, AllRecent, SparesNewLeases;
    NothingStaleAfter(s.b, s, others, ids, t, timeout);
    CountIsOwnGrowth(s, others, ids, t, timeout);
    CountIsMoved(s, others, ids, t, timeout);
    MovedWereStale(s.b, s, others, ids, t, timeout);
    forall i | 0 <= i < |ids|
      ensures SparesNewLeases(s.b, Found(s, others, ids, t, timeout, i).b, ids[i], t, timeout)
    {
      FoundStaleIsSnapshots(s.b, s, others, ids, t, timeout, i);
      ScriptSparesNewLeases(s.b, Found(s, others, ids, t, timeout, i).b, ids, ids[i], t, timeout);
    }
  }
}
