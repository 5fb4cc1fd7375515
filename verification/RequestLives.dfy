/**
  Which requests of a run are in progress and which ids hold a slot, for runs of checks and finishes with any ids.
  It is told here in terms of the events alone, and holds for both enforcers.
 */
module RequestLives {
  import opened Options
  import opened QuotaLog

  /** An event of a run and, if it is a check, whether it was admitted. */
  datatype Step = Step(event: Event, allowed: bool) {
    function Ticket(): Ticket {
      match event
      case Check(c) => c.ticket
      case Finish(t, _) => t
    }

    predicate Admits() { event.Check? && allowed }

    predicate AdmitsTo(scope: Scope) { Admits() && Ticket().In(scope) }

    /** A finish closes the slots with its id, whichever request of that id it ends. */
    predicate Closes(scope: Scope, id: string) { event.Finish? && Ticket().In(scope) && Ticket().id == id }
  }

  ghost predicate InOrder(run: seq<Step>) {
    forall i, j :: 0 <= i <= j < |run| ==> run[i].event.Time() <= run[j].event.Time()
  }

  ghost predicate UpTo(run: seq<Step>, now: int) {
    forall i :: 0 <= i < |run| ==> run[i].event.Time() <= now
  }

  // ---------------------------------------------------------------- who holds a slot

  /** An admission to a scope after which no finish there carried its id. */
  ghost predicate Unreturned(run: seq<Step>, scope: Scope, i: int) {
    0 <= i < |run| && run[i].AdmitsTo(scope) && forall j :: i < j < |run| ==> !run[j].Closes(scope, run[i].Ticket().id)
  }

  ghost predicate HeldBy(run: seq<Step>, scope: Scope, id: string, cutoff: int, i: int) {
    Unreturned(run, scope, i) && run[i].Ticket().id == id && run[i].event.Time() > cutoff
  }

  ghost predicate Held(run: seq<Step>, scope: Scope, id: string, cutoff: int) {
    exists i :: HeldBy(run, scope, id, cutoff, i)
  }

  /** What one event does to the slots of a scope. */
  function NextSlots(m: map<string, nat>, ttl: nat, scope: Scope, s: Step): map<string, nat> {
    if !s.Ticket().In(scope) then m
    else
      match s.event
      case Check(c) =>
        var live := Live(m, c.now - ttl);
        if s.allowed then live[c.ticket.id := c.now] else live
      case Finish(t, _) => m - {t.id}
  }

  /** From a cutoff on, the slots are the unreturned admissions. */
  ghost predicate SlotsAre(m: map<string, nat>, run: seq<Step>, scope: Scope, from: int) {
    forall id, cutoff: int {:trigger Held(run, scope, id, cutoff)} :: from <= cutoff ==> (id in Live(m, cutoff) <==> Held(run, scope, id, cutoff))
  }

  lemma UnreturnedAppend(run: seq<Step>, s: Step, scope: Scope, i: int)
    requires 0 <= i < |run|
    ensures Unreturned(run + [s], scope, i) <==> Unreturned(run, scope, i) && !s.Closes(scope, run[i].Ticket().id)
  {
    var all := run + [s];
    assert all[|run|] == s && forall j :: 0 <= j < |run| ==> all[j] == run[j];
  }

  /** One more event: an admission is held from its own time, a finish closes its id, and all else stays. */
  lemma HeldAppend(run: seq<Step>, s: Step, scope: Scope, id: string, cutoff: int)
    ensures Held(run + [s], scope, id, cutoff) <==>
            (Held(run, scope, id, cutoff) && !s.Closes(scope, id)) ||
            (s.AdmitsTo(scope) && s.Ticket().id == id && s.event.Time() > cutoff)
  {
    var all, n := run + [s], |run|;
    assert all[n] == s && forall j :: 0 <= j < n ==> all[j] == run[j];
    if i :| HeldBy(all, scope, id, cutoff, i) {
      if i < n {
        UnreturnedAppend(run, s, scope, i);
        assert HeldBy(run, scope, id, cutoff, i);
      }
    }
    if i :| HeldBy(run, scope, id, cutoff, i) && !s.Closes(scope, id) {
      UnreturnedAppend(run, s, scope, i);
      assert HeldBy(all, scope, id, cutoff, i);
    }
    if s.AdmitsTo(scope) && s.Ticket().id == id && s.event.Time() > cutoff {
      assert HeldBy(all, scope, id, cutoff, n);
    }
  }

  /** The ids that are held, event by event. */
  function HeldIds(run: seq<Step>, scope: Scope, cutoff: int): set<string> {
    if run == [] then {}
    else
      var ids, s := HeldIds(run[..|run| - 1], scope, cutoff), run[|run| - 1];
      if s.Closes(scope, s.Ticket().id) then ids - {s.Ticket().id}
      else if s.AdmitsTo(scope) && s.event.Time() > cutoff then ids + {s.Ticket().id}
      else ids
  }

  lemma {:induction false} HeldIdsAre(run: seq<Step>, scope: Scope, cutoff: int, id: string)
    ensures id in HeldIds(run, scope, cutoff) <==> Held(run, scope, id, cutoff)
  {
    if run == [] {
      assert forall i :: !HeldBy(run, scope, id, cutoff, i);
    } else {
      var p, s := run[..|run| - 1], run[|run| - 1];
      assert run == p + [s];
      HeldIdsAre(p, scope, cutoff, id);
      HeldAppend(p, s, scope, id, cutoff);
    }
  }

  lemma NotHeldLater(run: seq<Step>, scope: Scope, id: string, cutoff: int)
    requires UpTo(run, cutoff)
    ensures !Held(run, scope, id, cutoff)
  {
    forall i | 0 <= i < |run| ensures !HeldBy(run, scope, id, cutoff, i) {
      assert run[i].event.Time() <= cutoff;
    }
  }

  /** The slots follow the events, whatever ids they carry. */
  lemma SlotsStep(m: map<string, nat>, run: seq<Step>, s: Step, ttl: nat, scope: Scope, from: int)
    requires SlotsAre(m, run, scope, from) && from <= s.event.Time() - ttl && UpTo(run, s.event.Time())
    ensures SlotsAre(NextSlots(m, ttl, scope, s), run + [s], scope, s.event.Time() - ttl)
  {
    forall id, cutoff: int | s.event.Time() - ttl <= cutoff
      ensures id in Live(NextSlots(m, ttl, scope, s), cutoff) <==> Held(run + [s], scope, id, cutoff)
    {
      assert id in Live(m, cutoff) <==> Held(run, scope, id, cutoff);
      HeldAppend(run, s, scope, id, cutoff);
      if s.event.Time() <= cutoff {
        NotHeldLater(run, scope, id, cutoff) by {
          assert forall i :: 0 <= i < |run| ==> run[i].event.Time() <= cutoff;
        }
      }
    }
  }

  lemma LiveCount(m: map<string, nat>, run: seq<Step>, scope: Scope, from: int, cutoff: int)
    requires SlotsAre(m, run, scope, from) && from <= cutoff
    ensures |Live(m, cutoff)| == |HeldIds(run, scope, cutoff)|
  {
    var live := Live(m, cutoff);
    assert live.Keys == HeldIds(run, scope, cutoff) && |live| == |live.Keys| by {
      SameKeys(m, run, scope, from, cutoff);
    }
  }

  lemma SameKeys(m: map<string, nat>, run: seq<Step>, scope: Scope, from: int, cutoff: int)
    requires SlotsAre(m, run, scope, from) && from <= cutoff
    ensures Live(m, cutoff).Keys == HeldIds(run, scope, cutoff)
  {
    forall id ensures id in Live(m, cutoff) <==> id in HeldIds(run, scope, cutoff) {
      HeldIdsAre(run, scope, cutoff, id);
    }
  }

  // ---------------------------------------------------------------- which requests are in progress

  /**
    Which request each finish ends, as the caller knows it: every finish ends an earlier admission of its own ticket,
    and no two end the same.
   */
  ghost predicate Matched(run: seq<Step>, ends: seq<nat>) {
    |ends| == |run| && forall j :: 0 <= j < |run| ==> EndsOne(run, ends, j)
  }

  ghost predicate EndsOne(run: seq<Step>, ends: seq<nat>, j: int)
    requires |ends| == |run| && 0 <= j < |run|
  {
    run[j].event.Finish? ==>
      ends[j] < j && run[ends[j]].Admits() && run[ends[j]].Ticket() == run[j].Ticket() && !Ended(run, ends, ends[j], j)
  }

  /** One of the first n events ended the request. */
  ghost predicate Ended(run: seq<Step>, ends: seq<nat>, i: int, n: nat)
    requires |ends| == |run|
  {
    exists j :: 0 <= j < n && j < |run| && run[j].event.Finish? && ends[j] == i
  }

  ghost predicate InProgress(run: seq<Step>, ends: seq<nat>, scope: Scope, i: int)
    requires |ends| == |run|
  {
    0 <= i < |run| && run[i].AdmitsTo(scope) && !Ended(run, ends, i, |run|)
  }

  /** The requests of a scope in progress that were admitted after the cutoff. */
  ghost function Young(run: seq<Step>, ends: seq<nat>, scope: Scope, cutoff: int): set<int>
    requires |ends| == |run|
  {
    YoungTo(run, ends, scope, cutoff, |run|)
  }

  /** Those among the first n events. */
  ghost function YoungTo(run: seq<Step>, ends: seq<nat>, scope: Scope, cutoff: int, n: nat): set<int>
    requires n <= |run| == |ends|
  {
    if n == 0 then {}
    else if InProgress(run, ends, scope, n - 1) && run[n - 1].event.Time() > cutoff then YoungTo(run, ends, scope, cutoff, n - 1) + {n - 1}
    else YoungTo(run, ends, scope, cutoff, n - 1)
  }

  lemma {:induction false} YoungToAre(run: seq<Step>, ends: seq<nat>, scope: Scope, cutoff: int, n: nat, i: int)
    requires n <= |run| == |ends|
    ensures i in YoungTo(run, ends, scope, cutoff, n) <==> 0 <= i < n && InProgress(run, ends, scope, i) && run[i].event.Time() > cutoff
  {
    if n > 0 {
      YoungToAre(run, ends, scope, cutoff, n - 1, i);
    }
  }

  lemma YoungAre(run: seq<Step>, ends: seq<nat>, scope: Scope, cutoff: int)
    requires |ends| == |run|
    ensures Young(run, ends, scope, cutoff) ==
            set i | 0 <= i < |run| && InProgress(run, ends, scope, i) && run[i].event.Time() > cutoff
  {
    forall i ensures i in Young(run, ends, scope, cutoff) <==> 0 <= i < |run| && InProgress(run, ends, scope, i) && run[i].event.Time() > cutoff {
      YoungToAre(run, ends, scope, cutoff, |run|, i);
    }
  }

  /** Those of them that hold a slot. */
  ghost function Holders(run: seq<Step>, scope: Scope, cutoff: int): set<int> {
    set i | 0 <= i < |run| && Unreturned(run, scope, i) && run[i].event.Time() > cutoff
  }

  ghost predicate SameId(run: seq<Step>, i: int, n: int) {
    0 <= i < n < |run| && run[i].Admits() && run[n].Admits() &&
    run[i].Ticket().tenant == run[n].Ticket().tenant && run[i].Ticket().id == run[n].Ticket().id
  }

  /** No id is admitted for a tenant while a request with it is in progress there. */
  ghost predicate Exclusive(run: seq<Step>, ends: seq<nat>)
    requires |ends| == |run|
  {
    forall i, n :: SameId(run, i, n) ==> Ended(run, ends, i, n)
  }

  /** An admission whose id was not returned has not ended: its own finish would have returned it. */
  lemma UnreturnedInProgress(run: seq<Step>, ends: seq<nat>, scope: Scope, i: int)
    requires Matched(run, ends) && Unreturned(run, scope, i)
    ensures InProgress(run, ends, scope, i)
  {
    forall j | 0 <= j < |run| && run[j].event.Finish? ensures ends[j] != i {
      assert EndsOne(run, ends, j);
      assert i < j ==> !run[j].Closes(scope, run[i].Ticket().id);
    }
  }

  /** If ids are exclusive, a later finish with the id of a request ends that request, or comes after its end. */
  lemma ClosedIsEnded(run: seq<Step>, ends: seq<nat>, scope: Scope, i: int, j: int)
    requires Matched(run, ends) && Exclusive(run, ends)
    requires 0 <= i < j < |run| && run[i].AdmitsTo(scope) && run[j].Closes(scope, run[i].Ticket().id)
    ensures Ended(run, ends, i, |run|)
  {
    var k := ends[j];
    assert EndsOne(run, ends, j);
    assert k < i ==> SameId(run, k, i);
    assert i < k ==> SameId(run, i, k);
  }

  lemma ExclusiveUnreturned(run: seq<Step>, ends: seq<nat>, scope: Scope, i: int)
    requires Matched(run, ends) && Exclusive(run, ends) && InProgress(run, ends, scope, i)
    ensures Unreturned(run, scope, i)
  {
    if j :| i < j < |run| && run[j].Closes(scope, run[i].Ticket().id) {
      ClosedIsEnded(run, ends, scope, i, j);
    }
  }

  ghost predicate DistinctIds(run: seq<Step>, s: set<int>) {
    (forall i :: i in s ==> 0 <= i < |run|) && forall i, j :: i in s && j in s && i != j ==> run[i].Ticket().id != run[j].Ticket().id
  }

  function IdsOf(run: seq<Step>, s: set<int>): set<string> {
    set i | i in s && 0 <= i < |run| :: run[i].Ticket().id
  }

  lemma {:induction false} IdsOfSize(run: seq<Step>, s: set<int>)
    requires forall i :: i in s ==> 0 <= i < |run|
    ensures |IdsOf(run, s)| <= |s| && (|IdsOf(run, s)| == |s| <==> DistinctIds(run, s))
  {
    if s != {} {
      var i := SomeMember(s);
      IdsOfSize(run, s - {i});
      IdsOfMore(run, s - {i}, i);
      assert s - {i} + {i} == s;
    } else {
      assert IdsOf(run, s) == {};
    }
  }

  lemma IdsOfMore(run: seq<Step>, s: set<int>, i: int)
    requires i !in s && 0 <= i < |run| && forall j :: j in s ==> 0 <= j < |run|
    ensures IdsOf(run, s + {i}) == IdsOf(run, s) + {run[i].Ticket().id}
    ensures DistinctIds(run, s + {i}) <==> DistinctIds(run, s) && run[i].Ticket().id !in IdsOf(run, s)
  {
    assert forall j :: j in s ==> j in s + {i};
    if run[i].Ticket().id in IdsOf(run, s) {
      var j :| j in s && run[j].Ticket().id == run[i].Ticket().id;
      assert j in s + {i} && i in s + {i};
    }
  }

  lemma HeldAreHolders(run: seq<Step>, scope: Scope, cutoff: int)
    ensures HeldIds(run, scope, cutoff) == IdsOf(run, Holders(run, scope, cutoff))
  {
    forall id ensures id in HeldIds(run, scope, cutoff) <==> id in IdsOf(run, Holders(run, scope, cutoff)) {
      HeldIdsAre(run, scope, cutoff, id);
      if i :| HeldBy(run, scope, id, cutoff, i) {
        assert i in Holders(run, scope, cutoff);
      }
      if i :| i in Holders(run, scope, cutoff) && run[i].Ticket().id == id {
        assert HeldBy(run, scope, id, cutoff, i);
      }
    }
  }

  lemma HoldersAreYoung(run: seq<Step>, ends: seq<nat>, scope: Scope, cutoff: int)
    requires Matched(run, ends)
    ensures Holders(run, scope, cutoff) <= Young(run, ends, scope, cutoff)
  {
    YoungAre(run, ends, scope, cutoff);
    forall i | i in Holders(run, scope, cutoff) ensures i in Young(run, ends, scope, cutoff) {
      UnreturnedInProgress(run, ends, scope, i);
    }
  }

  /**
    The slots never outnumber the requests in progress, and number the same exactly if every one of those still has
    its slot and no two share an id.
   */
  lemma CountedExactly(run: seq<Step>, ends: seq<nat>, scope: Scope, cutoff: int)
    requires Matched(run, ends)
    ensures var young, ids := Young(run, ends, scope, cutoff), HeldIds(run, scope, cutoff);
            |ids| <= |young| &&
            (|ids| == |young| <==> DistinctIds(run, young) && forall i :: i in young ==> Unreturned(run, scope, i))
  {
    var young, holders := Young(run, ends, scope, cutoff), Holders(run, scope, cutoff);
    YoungAre(run, ends, scope, cutoff);
    HeldAreHolders(run, scope, cutoff);
    HoldersAreYoung(run, ends, scope, cutoff);
    IdsOfSize(run, holders);
    SubsetFull(holders, young);
    assert holders == young <==> forall i :: i in young ==> Unreturned(run, scope, i);
  }

  /** Ids that come back only after their request has ended are as good as fresh ones. */
  lemma ExclusiveIsCounted(run: seq<Step>, ends: seq<nat>, scope: Scope, cutoff: int)
    requires Matched(run, ends) && Exclusive(run, ends)
    ensures |HeldIds(run, scope, cutoff)| == |Young(run, ends, scope, cutoff)|
    ensures HeldIds(run, scope, cutoff) == IdsOf(run, Young(run, ends, scope, cutoff))
  {
    var young := Young(run, ends, scope, cutoff);
    YoungAre(run, ends, scope, cutoff);
    forall i | i in young ensures Unreturned(run, scope, i) {
      ExclusiveUnreturned(run, ends, scope, i);
    }
    forall i, j | i in young && j in young && i < j ensures run[i].Ticket().id != run[j].Ticket().id {
      assert !Ended(run, ends, i, j);
      assert !SameId(run, i, j);
    }
    CountedExactly(run, ends, scope, cutoff);
    HeldAreHolders(run, scope, cutoff);
    HoldersAreYoung(run, ends, scope, cutoff);
    assert Holders(run, scope, cutoff) == young;
  }

  /** And an id is held if and only if it is that of a young request in progress, which no two share. */
  lemma ExclusiveHeld(run: seq<Step>, ends: seq<nat>, scope: Scope, cutoff: int, id: string)
    requires Matched(run, ends) && Exclusive(run, ends)
    ensures Held(run, scope, id, cutoff) <==> id in IdsOf(run, Young(run, ends, scope, cutoff))
    ensures DistinctIds(run, Young(run, ends, scope, cutoff))
  {
    HeldIdsAre(run, scope, cutoff, id);
    ExclusiveIsCounted(run, ends, scope, cutoff);
    CountedExactly(run, ends, scope, cutoff);
  }

  /** So there are no more of those than slots. */
  lemma ExclusiveFit(m: map<string, nat>, run: seq<Step>, ends: seq<nat>, scope: Scope, from: int, cutoff: int)
    requires SlotsAre(m, run, scope, from) && from <= cutoff && Matched(run, ends) && Exclusive(run, ends)
    ensures |Young(run, ends, scope, cutoff)| <= |m|
  {
    ExclusiveIsCounted(run, ends, scope, cutoff);
    LiveCount(m, run, scope, from, cutoff);
    SubsetSize(Live(m, cutoff).Keys, m.Keys);
  }
}
