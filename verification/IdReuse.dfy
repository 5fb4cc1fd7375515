/**
  Ids that are reused while a request with them is in progress: how they let a tenant overrun its concurrency limit.
  All of it rests on one thing both enforcers do, which is to count the ids that hold a slot (`Gated`).
 */
module IdReuse {
  import opened Options
  import opened QuotaLog
  import opened RequestLives

  function SlotsOnly(limit: pos): Limits { Limits(None, None, Some(limit)) }

  /** A check is judged by the ids that hold a slot. */
  ghost predicate JudgedByIds(d: Decision, l: Limits, users: nat, tenants: nat) {
    var userFull, tenantFull := Reached(l.concurrent, users), Reached(l.concurrent, tenants);
    (d.reason.UserConcurrency? <==> userFull) && (d.reason.TenantConcurrency? <==> !userFull && tenantFull) &&
    (l.requests.None? && l.inputTokens.None? ==> (d.allowed <==> !userFull && !tenantFull))
  }

  /** A check limited in nothing but concurrency is admitted exactly if user and tenant hold fewer ids than the limit. */
  ghost predicate GatedAt(run: seq<Step>, ttl: nat, n: nat)
    requires n < |run|
  {
    run[n].event.Check? ==>
      var c := run[n].event.call;
      forall limit: pos :: c.limits == SlotsOnly(limit) ==>
        (run[n].allowed <==> |HeldIds(run[..n], c.UserScope(), c.now - ttl)| < limit &&
                             |HeldIds(run[..n], c.TenantScope(), c.now - ttl)| < limit)
  }

  ghost predicate Gated(run: seq<Step>, ttl: nat) {
    forall n: nat :: n < |run| ==> GatedAt(run, ttl, n)
  }

  /** A check judged by the ids is gated. */
  lemma JudgedIsGated(run: seq<Step>, before: seq<Step>, ttl: nat, n: nat, d: Decision, cutoff: int)
    requires n < |run| && run[..n] == before && run[n].event.Check? && run[n].allowed == d.allowed && cutoff == run[n].event.call.now - ttl
    requires var c := run[n].event.call;
             JudgedByIds(d, c.limits, |HeldIds(before, c.UserScope(), cutoff)|, |HeldIds(before, c.TenantScope(), cutoff)|)
    ensures GatedAt(run, ttl, n)
  {
  }

  /** The gate looks at no more than the events up to its own. */
  lemma GatedByPrefix(run: seq<Step>, ttl: nat, n: nat)
    requires n < |run| && GatedAt(run[..n + 1], ttl, n)
    ensures GatedAt(run, ttl, n)
  {
    assert run[..n + 1][..n] == run[..n] && run[..n + 1][n] == run[n];
  }

  lemma HeldIdsAppend(run: seq<Step>, s: Step, scope: Scope, cutoff: int)
    ensures HeldIds(run + [s], scope, cutoff) ==
            (if s.event.Finish? && s.Ticket().In(scope) then HeldIds(run, scope, cutoff) - {s.Ticket().id}
             else if s.AdmitsTo(scope) && s.event.Time() > cutoff then HeldIds(run, scope, cutoff) + {s.Ticket().id}
             else HeldIds(run, scope, cutoff))
  {
    assert (run + [s])[..|run|] == run;
  }

  // ---------------------------------------------------------------- filling a tenant up

  function FillCall(tenant: string, user: string, id: RequestId, limit: pos, now: nat): Call {
    Call(Ticket(tenant, user, id), None, SlotsOnly(limit), now)
  }

  ghost predicate Distinct(ids: seq<RequestId>) {
    forall i, j :: 0 <= i < j < |ids| ==> ids[i] != ids[j]
  }

  function Among(ids: seq<RequestId>, m: nat): set<string>
    requires m <= |ids|
  {
    if m == 0 then {} else Among(ids, m - 1) + {ids[m - 1]}
  }

  lemma {:induction false} AmongFirst(ids: seq<RequestId>, m: nat, id: string)
    requires m <= |ids|
    ensures |Among(ids, m)| <= m && (id in Among(ids, m) ==> exists i :: 0 <= i < m && ids[i] == id)
  {
    if m > 0 {
      AmongFirst(ids, m - 1, id);
    }
  }

  /** From the given event on, the run is checks of one user with these ids at one time. */
  ghost predicate Fills(run: seq<Step>, from: nat, tenant: string, user: string, ids: seq<RequestId>, limit: pos, now: nat) {
    |run| == from + |ids| &&
    forall m :: 0 <= m < |ids| ==> run[from + m].event == Check(FillCall(tenant, user, ids[m], limit, now))
  }

  /** The user's ids are among the first ones of the filling, the tenant's among them and those it had, and they are many. */
  ghost predicate Filling(mine: set<string>, all: set<string>, base: set<string>, among: set<string>, many: nat) {
    mine <= among && all <= base + among && |all| >= many
  }

  function AtMost(m: nat, limit: nat): nat { if m < limit then m else limit }

  /** What is held after the first m of them. */
  ghost predicate FilledTo(run: seq<Step>, from: nat, tenant: string, user: string, ids: seq<RequestId>, limit: pos, cutoff: int, m: nat)
    requires m <= |ids| && |run| == from + |ids|
  {
    Filling(HeldIds(run[..from + m], User(tenant, user), cutoff), HeldIds(run[..from + m], Tenant(tenant), cutoff),
            HeldIds(run[..from], Tenant(tenant), cutoff), Among(ids, m), AtMost(m, limit))
  }

  /** One more check, by what is held for the user and for the tenant. */
  lemma FillSets(mine: set<string>, all: set<string>, base: set<string>, among: set<string>, id: string, limit: pos, m: nat, allowed: bool)
    requires Filling(mine, all, base, among, AtMost(m, limit)) && |among| <= m < limit && id !in base && id !in among
    requires allowed <==> |mine| < limit && |all| < limit
    ensures Filling(if allowed then mine + {id} else mine, if allowed then all + {id} else all, base, among + {id}, AtMost(m + 1, limit))
  {
    SubsetSize(mine, among);
    assert id !in all;
  }

  lemma HeldIdsCheck(run: seq<Step>, s: Step, scope: Scope, cutoff: int)
    requires s.event.Check? && s.Ticket().In(scope) && s.event.Time() > cutoff
    ensures HeldIds(run + [s], scope, cutoff) ==
            if s.allowed then HeldIds(run, scope, cutoff) + {s.Ticket().id} else HeldIds(run, scope, cutoff)
  {
    HeldIdsAppend(run, s, scope, cutoff);
  }

  lemma FillOne(run: seq<Step>, s: Step, user: Scope, tenant: Scope, cutoff: int, base: set<string>, among: set<string>, id: string,
                limit: pos, m: nat)
    requires Filling(HeldIds(run, user, cutoff), HeldIds(run, tenant, cutoff), base, among, AtMost(m, limit))
    requires |among| <= m < limit && id !in base && id !in among
    requires s.event.Check? && s.event.Time() > cutoff && s.Ticket().In(user) && s.Ticket().In(tenant) && s.Ticket().id == id
    requires s.allowed <==> |HeldIds(run, user, cutoff)| < limit && |HeldIds(run, tenant, cutoff)| < limit
    ensures Filling(HeldIds(run + [s], user, cutoff), HeldIds(run + [s], tenant, cutoff), base, among + {id}, AtMost(m + 1, limit))
  {
    HeldIdsCheck(run, s, user, cutoff);
    HeldIdsCheck(run, s, tenant, cutoff);
    FillSets(HeldIds(run, user, cutoff), HeldIds(run, tenant, cutoff), base, among, id, limit, m, s.allowed);
  }

  lemma OneLonger(run: seq<Step>, n: nat)
    requires n < |run|
    ensures run[..n + 1] == run[..n] + [run[n]]
  {
  }

  ghost predicate NoneHeld(ids: seq<RequestId>, held: set<string>) {
    forall m :: 0 <= m < |ids| ==> ids[m] !in held
  }

  lemma FillStep(run: seq<Step>, ttl: nat, from: nat, tenant: string, user: string, ids: seq<RequestId>, limit: pos, now: nat, m: nat)
    requires Gated(run, ttl) && 0 < ttl && Fills(run, from, tenant, user, ids, limit, now) && Distinct(ids)
    requires NoneHeld(ids, HeldIds(run[..from], Tenant(tenant), now - ttl))
    requires m < |ids| && m < limit && FilledTo(run, from, tenant, user, ids, limit, now - ttl, m)
    ensures FilledTo(run, from, tenant, user, ids, limit, now - ttl, m + 1)
  {
    var s, before := run[from + m], run[..from + m];
    assert s.event == Check(FillCall(tenant, user, ids[m], limit, now));
    AmongNext(ids, m);
    FillDecision(run, ttl, from, tenant, user, ids, limit, now, m);
    FillOne(before, s, User(tenant, user), Tenant(tenant), now - ttl, HeldIds(run[..from], Tenant(tenant), now - ttl), Among(ids, m),
            ids[m], limit, m);
    OneLonger(run, from + m);
  }

  lemma AmongNext(ids: seq<RequestId>, m: nat)
    requires m < |ids| && Distinct(ids)
    ensures ids[m] !in Among(ids, m) && |Among(ids, m)| <= m
  {
    AmongFirst(ids, m, ids[m]);
  }

  /** What the gate says to it. */
  lemma FillDecision(run: seq<Step>, ttl: nat, from: nat, tenant: string, user: string, ids: seq<RequestId>, limit: pos, now: nat, m: nat)
    requires Gated(run, ttl) && Fills(run, from, tenant, user, ids, limit, now) && m < |ids|
    ensures run[from + m].allowed <==>
            |HeldIds(run[..from + m], User(tenant, user), now - ttl)| < limit &&
            |HeldIds(run[..from + m], Tenant(tenant), now - ttl)| < limit
  {
    assert run[from + m].event == Check(FillCall(tenant, user, ids[m], limit, now));
    assert GatedAt(run, ttl, from + m);
  }

  lemma {:induction false} Filled(run: seq<Step>, ttl: nat, from: nat, tenant: string, user: string, ids: seq<RequestId>, limit: pos,
                                  now: nat, m: nat)
    requires Gated(run, ttl) && 0 < ttl && Fills(run, from, tenant, user, ids, limit, now) && Distinct(ids) && m <= |ids| == limit
    requires HeldIds(run[..from], User(tenant, user), now - ttl) == {}
    requires NoneHeld(ids, HeldIds(run[..from], Tenant(tenant), now - ttl))
    ensures FilledTo(run, from, tenant, user, ids, limit, now - ttl, m)
  {
    if m > 0 {
      Filled(run, ttl, from, tenant, user, ids, limit, now, m - 1);
      FillStep(run, ttl, from, tenant, user, ids, limit, now, m - 1);
    }
  }

  lemma FillsAreChecks(run: seq<Step>, from: nat, tenant: string, user: string, ids: seq<RequestId>, limit: pos, now: nat)
    requires Fills(run, from, tenant, user, ids, limit, now)
    ensures forall j :: from <= j < |run| ==> run[j].event.Check?
  {
    forall j | from <= j < |run| ensures run[j].event.Check? {
      var m := j - from;
      assert run[from + m].event == Check(FillCall(tenant, user, ids[m], limit, now));
    }
  }

  lemma FilledUp(run: seq<Step>, ttl: nat, from: nat, tenant: string, user: string, ids: seq<RequestId>, limit: pos, now: nat)
    requires Gated(run, ttl) && 0 < ttl && Fills(run, from, tenant, user, ids, limit, now) && Distinct(ids) && |ids| == limit
    requires HeldIds(run[..from], User(tenant, user), now - ttl) == {}
    requires NoneHeld(ids, HeldIds(run[..from], Tenant(tenant), now - ttl))
    ensures |HeldIds(run, Tenant(tenant), now - ttl)| >= limit
  {
    Filled(run, ttl, from, tenant, user, ids, limit, now, limit);
    assert run[..from + limit] == run;
  }

  // ---------------------------------------------------------------- the overrun

  /** The matching of a run that goes on: the next event ends the request, and after it nothing ends. */
  function EndsThen(ends: seq<nat>, n: nat, i: nat, more: nat): seq<nat>
    requires n < |ends|
  {
    ends[..n + 1] + [i] + seq(more, _ => 0)
  }

  lemma StillMatched(run: seq<Step>, ends: seq<nat>, full: seq<Step>, n: nat, i: nat)
    requires Matched(run, ends) && SameId(run, i, n) && !Ended(run, ends, i, n)
    requires n + 2 <= |full| && full[..n + 1] == run[..n + 1]
    requires full[n + 1].event.Finish? && full[n + 1].Ticket() == run[i].Ticket()
    requires forall j :: n + 2 <= j < |full| ==> full[j].event.Check?
    ensures Matched(full, EndsThen(ends, n, i, |full| - n - 2))
  {
    var ends' := EndsThen(ends, n, i, |full| - n - 2);
    forall j | 0 <= j <= n ensures full[j] == run[j] && ends'[j] == ends[j] {
      assert full[j] == full[..n + 1][j] && run[j] == run[..n + 1][j];
    }
    forall j | 0 <= j < |full| ensures EndsOne(full, ends', j) {
      if j <= n {
        assert EndsOne(run, ends, j);
      }
    }
  }

  /**
    An id admitted while a request with it is in progress: the other's finish takes its slot away, and as many more
    requests as the limit allows are admitted beside it.
   */
  lemma {:induction false} ReuseOverruns(run: seq<Step>, ends: seq<nat>, full: seq<Step>, ttl: nat, i: nat, n: nat, user: string,
                                         ids: seq<RequestId>, limit: pos)
    requires Matched(run, ends) && SameId(run, i, n) && !Ended(run, ends, i, n)
    requires Gated(full, ttl) && 0 < ttl && n + 2 <= |full| && full[..n + 1] == run[..n + 1]
    requires full[n + 1].event == Finish(run[i].Ticket(), run[n].event.Time())
    requires Fills(full, n + 2, run[n].Ticket().tenant, user, ids, limit, run[n].event.Time()) && Distinct(ids) && |ids| == limit
    requires var cutoff := run[n].event.Time() - ttl;
             HeldIds(full[..n + 2], User(run[n].Ticket().tenant, user), cutoff) == {} &&
             NoneHeld(ids, HeldIds(full[..n + 2], Tenant(run[n].Ticket().tenant), cutoff))
    ensures var ends' := EndsThen(ends, n, i, limit);
            Matched(full, ends') &&
            |Young(full, ends', Tenant(run[n].Ticket().tenant), run[n].event.Time() - ttl)| > limit
  {
    var tenant, now := run[n].Ticket().tenant, run[n].event.Time();
    FillsAreChecks(full, n + 2, tenant, user, ids, limit, now);
    StillMatched(run, ends, full, n, i);
    FilledUp(full, ttl, n + 2, tenant, user, ids, limit, now);
    assert full[n] == full[..n + 1][n] && run[n] == run[..n + 1][n];
    SlotlessInProgress(full, EndsThen(ends, n, i, limit), Tenant(tenant), now - ttl, n, limit);
  }

  /** A request in progress without a slot beside as many slots as the limit allows. */
  lemma SlotlessInProgress(run: seq<Step>, ends: seq<nat>, scope: Scope, cutoff: int, n: nat, limit: nat)
    requires Matched(run, ends) && n + 1 < |run| && run[n].AdmitsTo(scope) && run[n].event.Time() > cutoff
    requires run[n + 1].Closes(scope, run[n].Ticket().id) && ends[n + 1] != n
    requires forall j :: n + 2 <= j < |run| ==> run[j].event.Check?
    requires |HeldIds(run, scope, cutoff)| >= limit
    ensures |Young(run, ends, scope, cutoff)| > limit
  {
    NotEndedYet(run, ends, n);
    YoungAre(run, ends, scope, cutoff);
    assert n in Young(run, ends, scope, cutoff) && !Unreturned(run, scope, n);
    CountedExactly(run, ends, scope, cutoff);
  }

  /** A request is not ended by events that end other ones. */
  lemma NotEndedYet(run: seq<Step>, ends: seq<nat>, n: nat)
    requires Matched(run, ends) && n + 1 < |run| && run[n].event.Check?
    requires run[n + 1].event.Finish? ==> ends[n + 1] != n
    requires forall j :: n + 2 <= j < |run| ==> run[j].event.Check?
    ensures !Ended(run, ends, n, |run|)
  {
    forall j | 0 <= j < |run| && run[j].event.Finish? ensures ends[j] != n {
      assert EndsOne(run, ends, j);
    }
  }

  // ---------------------------------------------------------------- one ticket, never finished

  ghost predicate OneTicket(run: seq<Step>, t: Ticket, limit: pos) {
    forall i :: 0 <= i < |run| ==> run[i].event.Check? && run[i].Ticket() == t && run[i].event.call.limits == SlotsOnly(limit)
  }

  lemma OnlyItsId(run: seq<Step>, t: Ticket, limit: pos, scope: Scope, cutoff: int)
    requires OneTicket(run, t, limit)
    ensures HeldIds(run, scope, cutoff) <= {t.id} && |HeldIds(run, scope, cutoff)| <= 1
  {
    forall id | id in HeldIds(run, scope, cutoff) ensures id == t.id {
      HeldIdsAre(run, scope, cutoff, id);
    }
    SubsetSize(HeldIds(run, scope, cutoff), {t.id});
  }

  /** Under a limit of two or more it is always admitted; under a limit of one never while it is young. */
  lemma OneTicketAt(run: seq<Step>, ttl: nat, t: Ticket, limit: pos, n: nat)
    requires Gated(run, ttl) && OneTicket(run, t, limit) && n < |run|
    ensures limit >= 2 ==> run[n].allowed
    ensures limit == 1 && run[n].allowed ==>
              forall i :: 0 <= i < n && run[i].event.Time() > run[n].event.Time() - ttl ==> !run[i].allowed
  {
    var c, before := run[n].event.call, run[..n];
    assert GatedAt(run, ttl, n) && c.limits == SlotsOnly(limit);
    OnlyItsId(before, t, limit, c.UserScope(), c.now - ttl);
    OnlyItsId(before, t, limit, c.TenantScope(), c.now - ttl);
    if limit == 1 && run[n].allowed {
      assert HeldIds(before, c.TenantScope(), c.now - ttl) == {};
      forall i | 0 <= i < n && run[i].event.Time() > c.now - ttl ensures !run[i].allowed {
        HeldIdsAre(before, c.TenantScope(), c.now - ttl, t.id);
        assert before[i] == run[i] && !HeldBy(before, c.TenantScope(), t.id, c.now - ttl, i);
      }
    }
  }

  /**
    A client that sends one id and never finishes: under a limit of two or more every request is admitted, so all of
    the last lifetime are in progress, however many; under a limit of one no two of them are.
   */
  lemma OneTicketRun(run: seq<Step>, ends: seq<nat>, ttl: nat, t: Ticket, limit: pos, now: int, cutoff: int)
    requires Gated(run, ttl) && OneTicket(run, t, limit) && InOrder(run) && UpTo(run, now) && cutoff == now - ttl && |ends| == |run|
    ensures var young := Young(run, ends, Tenant(t.tenant), cutoff);
            (limit >= 2 ==> young == set i | 0 <= i < |run| && run[i].event.Time() > cutoff) && (limit == 1 ==> |young| <= 1)
  {
    var young := Young(run, ends, Tenant(t.tenant), cutoff);
    YoungAre(run, ends, Tenant(t.tenant), cutoff);
    if limit >= 2 {
      forall i | 0 <= i < |run| && run[i].event.Time() > cutoff ensures i in young {
        OneTicketAt(run, ttl, t, limit, i);
        assert InProgress(run, ends, Tenant(t.tenant), i);
      }
    } else {
      forall i, j | i in young && j in young ensures i == j {
        OneTicketAt(run, ttl, t, limit, if i < j then j else i);
        assert run[i].event.Time() <= now && run[j].event.Time() <= now;
      }
      AtMostOne(young);
    }
  }

  // ---------------------------------------------------------------- two runs that overrun

  function Plain(t: Ticket, limit: pos, now: nat): Event {
    Check(Call(t, None, SlotsOnly(limit), now))
  }

  /** Under a limit of one: the id comes back when its slot has gone stale, and the first request's finish frees it again. */
  function StaleRun(t: Ticket, start: nat, ttl: nat): seq<Event> {
    [Plain(t, 1, start), Plain(t, 1, start + ttl), Finish(t, start + ttl), Plain(t, 1, start + ttl)]
  }

  /** Under a limit of two: an id in progress twice, of which one finishes, and two other requests of the tenant. */
  function SharedRun(x: Ticket, y: Ticket, z: Ticket, now: nat): seq<Event> {
    [Plain(x, 2, now), Plain(x, 2, now), Finish(x, now), Plain(y, 2, now), Plain(z, 2, now)]
  }

  lemma StaleRunIsTimely(t: Ticket, start: nat, ttl: nat)
    ensures Timely(StaleRun(t, start, ttl))
  {
  }

  lemma SharedRunIsTimely(x: Ticket, y: Ticket, z: Ticket, now: nat)
    ensures Timely(SharedRun(x, y, z, now))
  {
  }

  ghost predicate Tells(run: seq<Step>, es: seq<Event>) {
    |run| == |es| && forall i :: 0 <= i < |es| ==> run[i].event == es[i]
  }

  /** The gate on one of these checks, by what its tenant holds. */
  lemma PlainAdmitted(run: seq<Step>, ttl: nat, n: nat, t: Ticket, limit: pos, now: nat)
    requires Gated(run, ttl) && n < |run| && run[n].event == Plain(t, limit, now)
    requires |HeldIds(run[..n], User(t.tenant, t.user), now - ttl)| < limit && |HeldIds(run[..n], Tenant(t.tenant), now - ttl)| < limit
    ensures run[n].allowed
  {
    assert GatedAt(run, ttl, n);
  }

  /** What a scope of the one ticket holds during the stale run. */
  lemma StaleHeld(run: seq<Step>, t: Ticket, start: nat, ttl: nat, scope: Scope)
    requires Tells(run, StaleRun(t, start, ttl)) && t.In(scope) && 0 < ttl
    ensures HeldIds(run[..0], scope, start - ttl) == {} && HeldIds(run[..1], scope, start) == {} && HeldIds(run[..3], scope, start) == {}
  {
    var events := StaleRun(t, start, ttl);
    assert run[0].event == events[0] && run[1].event == events[1] && run[2].event == events[2];
    OneLonger(run, 0);
    HeldIdsAppend(run[..0], run[0], scope, start);
    OneLonger(run, 1);
    HeldIdsAppend(run[..1], run[1], scope, start);
    OneLonger(run, 2);
    HeldIdsAppend(run[..2], run[2], scope, start);
  }

  /** Of the stale run the checks that find their id stale or finished are admitted. */
  lemma {:induction false} StaleAdmitted(run: seq<Step>, t: Ticket, start: nat, ttl: nat)
    requires Gated(run, ttl) && 0 < ttl && Tells(run, StaleRun(t, start, ttl))
    ensures run[0].allowed && run[1].allowed && run[3].allowed
  {
    var events := StaleRun(t, start, ttl);
    assert run[0].event == events[0] && run[1].event == events[1] && run[3].event == events[3];
    StaleHeld(run, t, start, ttl, User(t.tenant, t.user));
    StaleHeld(run, t, start, ttl, Tenant(t.tenant));
    PlainAdmitted(run, ttl, 0, t, 1, start);
    PlainAdmitted(run, ttl, 1, t, 1, start + ttl);
    PlainAdmitted(run, ttl, 3, t, 1, start + ttl);
  }

  /** Its one finish ends the first request. */
  lemma {:induction false} StaleMatched(run: seq<Step>, t: Ticket, start: nat, ttl: nat)
    requires Tells(run, StaleRun(t, start, ttl)) && run[0].allowed
    ensures Matched(run, [0, 0, 0, 0])
  {
    var events := StaleRun(t, start, ttl);
    assert run[0].event == events[0] && run[1].event == events[1] && run[2].event == events[2] && run[3].event == events[3];
  }

  lemma {:induction false} StaleRunOverruns(run: seq<Step>, t: Ticket, start: nat, ttl: nat)
    requires Gated(run, ttl) && 0 < ttl && Tells(run, StaleRun(t, start, ttl))
    ensures Matched(run, [0, 0, 0, 0])
    ensures Young(run, [0, 0, 0, 0], Tenant(t.tenant), start) == {1, 3} && |{1, 3}| == 2
  {
    var events, young := StaleRun(t, start, ttl), Young(run, [0, 0, 0, 0], Tenant(t.tenant), start);
    StaleAdmitted(run, t, start, ttl);
    StaleMatched(run, t, start, ttl);
    assert run[0].event == events[0] && run[1].event == events[1] && run[2].event == events[2] && run[3].event == events[3];
    YoungAre(run, [0, 0, 0, 0], Tenant(t.tenant), start);
    assert 0 !in young && 1 in young && 2 !in young && 3 in young;
  }

  /** What a scope holds during the shared run: the first ticket's id until it finishes, then at most the next one's. */
  lemma SharedHeld(run: seq<Step>, x: Ticket, y: Ticket, z: Ticket, now: nat, ttl: nat, scope: Scope)
    requires Tells(run, SharedRun(x, y, z, now)) && 0 < ttl
    ensures forall k :: 0 <= k <= 3 ==> HeldIds(run[..k], scope, now - ttl) <= {x.id}
    ensures HeldIds(run[..3], scope, now - ttl) == {} && HeldIds(run[..4], scope, now - ttl) <= {y.id}
  {
    var events, cutoff := SharedRun(x, y, z, now), now - ttl;
    assert run[0].event == events[0] && run[1].event == events[1] && run[2].event == events[2] && run[3].event == events[3];
    OneLonger(run, 0);
    HeldIdsAppend(run[..0], run[0], scope, cutoff);
    OneLonger(run, 1);
    HeldIdsAppend(run[..1], run[1], scope, cutoff);
    OneLonger(run, 2);
    HeldIdsAppend(run[..2], run[2], scope, cutoff);
    OneLonger(run, 3);
    HeldIdsAppend(run[..3], run[3], scope, cutoff);
    assert run[..0] == [];
  }

  lemma {:induction false} SharedRunOverruns(run: seq<Step>, x: Ticket, y: Ticket, z: Ticket, now: nat, ttl: nat)
    requires Gated(run, ttl) && 0 < ttl && Tells(run, SharedRun(x, y, z, now)) && x.tenant == y.tenant == z.tenant
    ensures Matched(run, [0, 0, 0, 0, 0])
    ensures Young(run, [0, 0, 0, 0, 0], Tenant(x.tenant), now - ttl) == {1, 3, 4} && |{1, 3, 4}| == 3
  {
    var events := SharedRun(x, y, z, now);
    assert run[0].event == events[0] && run[1].event == events[1] && run[2].event == events[2] && run[3].event == events[3] &&
           run[4].event == events[4];
    SharedAdmitted(run, x, y, z, now, ttl, 0, x);
    SharedAdmitted(run, x, y, z, now, ttl, 1, x);
    SharedAdmitted(run, x, y, z, now, ttl, 3, y);
    SharedAdmitted(run, x, y, z, now, ttl, 4, z);
    YoungAre(run, [0, 0, 0, 0, 0], Tenant(x.tenant), now - ttl);
  }

  lemma SharedAdmitted(run: seq<Step>, x: Ticket, y: Ticket, z: Ticket, now: nat, ttl: nat, n: nat, t: Ticket)
    requires Gated(run, ttl) && 0 < ttl && Tells(run, SharedRun(x, y, z, now)) && n < 5 && n != 2
    requires run[n].event == Plain(t, 2, now)
    ensures run[n].allowed
  {
    var mine, all := User(t.tenant, t.user), Tenant(t.tenant);
    SharedHeld(run, x, y, z, now, ttl, mine);
    SharedHeld(run, x, y, z, now, ttl, all);
    OneOfThem(HeldIds(run[..n], mine, now - ttl), if n < 4 then x.id else y.id);
    OneOfThem(HeldIds(run[..n], all, now - ttl), if n < 4 then x.id else y.id);
    PlainAdmitted(run, ttl, n, t, 2, now);
  }

  lemma OneOfThem(s: set<string>, id: string)
    requires s <= {id}
    ensures |s| <= 1
  {
    SubsetSize(s, {id});
  }

  // ---------------------------------------------------------------- fresh names

  function Longest(es: seq<Event>): nat {
    if es == [] then 0
    else
      var l, e := Longest(es[..|es| - 1]), es[|es| - 1];
      var t := if e.Check? then e.call.ticket else e.ticket;
      Max(l, Max(|t.id|, |t.user|))
  }

  function Max(a: nat, b: nat): nat { if a < b then b else a }

  function TicketOf(e: Event): Ticket {
    match e
    case Check(c) => c.ticket
    case Finish(t, _) => t
  }

  lemma {:induction false} NoLonger(es: seq<Event>, i: nat)
    requires i < |es|
    ensures |TicketOf(es[i]).id| <= Longest(es) && |TicketOf(es[i]).user| <= Longest(es)
  {
    if i < |es| - 1 {
      NoLonger(es[..|es| - 1], i);
    }
  }

  function Pad(n: nat): (s: string)
    ensures |s| == n
  {
    seq(n, _ => 'r')
  }

  function PadId(n: pos): (id: RequestId)
    ensures |id| == n
  {
    Pad(n)
  }

  function FreshIds(es: seq<Event>, count: nat): (ids: seq<RequestId>)
    ensures |ids| == count && forall m :: 0 <= m < count ==> |ids[m]| == Longest(es) + 1 + m
  {
    if count == 0 then [] else FreshIds(es, count - 1) + [PadId(Longest(es) + count)]
  }

  lemma FreshIdsAreFresh(es: seq<Event>, count: nat)
    ensures Distinct(FreshIds(es, count))
    ensures forall i, m :: 0 <= i < |es| && 0 <= m < count ==> TicketOf(es[i]).id != FreshIds(es, count)[m]
    ensures forall i :: 0 <= i < |es| ==> TicketOf(es[i]).user != Pad(Longest(es) + 1)
  {
    var ids := FreshIds(es, count);
    forall i | 0 <= i < |es| ensures |TicketOf(es[i]).id| <= Longest(es) && |TicketOf(es[i]).user| <= Longest(es) {
      NoLonger(es, i);
    }
  }

  /** Nobody holds a slot under a name no event carries. */
  lemma UnusedHoldNothing(run: seq<Step>, tenant: string, user: string, id: string, cutoff: int)
    ensures (forall i :: 0 <= i < |run| ==> run[i].Ticket().user != user) ==> HeldIds(run, User(tenant, user), cutoff) == {}
    ensures (forall i :: 0 <= i < |run| ==> run[i].Ticket().id != id) ==> id !in HeldIds(run, Tenant(tenant), cutoff)
  {
    if x :| x in HeldIds(run, User(tenant, user), cutoff) {
      HeldIdsAre(run, User(tenant, user), cutoff, x);
      var i :| HeldBy(run, User(tenant, user), x, cutoff, i);
      assert run[i].Ticket().user == user;
    }
    HeldIdsAre(run, Tenant(tenant), cutoff, id);
    if i :| HeldBy(run, Tenant(tenant), id, cutoff, i) {
      assert run[i].Ticket().id == id;
    }
  }

  // ---------------------------------------------------------------- the overrunning continuation

  /** The first request finishes, and as many checks as the limit allows follow, of a new user and with new ids. */
  function Continuation(es: seq<Event>, first: Ticket, tenant: string, now: nat, limit: pos): (later: seq<Event>)
    ensures |later| == 1 + limit
  {
    var user, ids := Pad(Longest(es) + 1), FreshIds(es, limit);
    [Finish(first, now)] + seq(limit, m requires 0 <= m < limit => Check(FillCall(tenant, user, ids[m], limit, now)))
  }

  lemma ContinuationIsTimely(es: seq<Event>, n: nat, first: Ticket, tenant: string, limit: pos)
    requires Timely(es) && n < |es|
    ensures var later := Continuation(es, first, tenant, es[n].Time(), limit);
            Timely(es[..n + 1] + later) && FixedLimits(later, tenant, SlotsOnly(limit)) &&
            forall j :: 0 <= j < |later| ==> later[j].Finish? || later[j].call.ticket.tenant == tenant
  {
    var later := Continuation(es, first, tenant, es[n].Time(), limit);
    assert forall j :: 0 <= j < |later| ==> later[j].Time() == es[n].Time();
  }

  ghost predicate Mentions(es: seq<Event>, t: Ticket) {
    exists j :: 0 <= j < |es| && TicketOf(es[j]) == t
  }

  /** Its new names hold nothing when it starts. */
  lemma NamesAreFree(es: seq<Event>, run: seq<Step>, tenant: string, count: nat, cutoff: int)
    requires forall i :: 0 <= i < |run| ==> Mentions(es, run[i].Ticket())
    ensures HeldIds(run, User(tenant, Pad(Longest(es) + 1)), cutoff) == {}
    ensures NoneHeld(FreshIds(es, count), HeldIds(run, Tenant(tenant), cutoff))
  {
    FreshIdsAreFresh(es, count);
    UnusedHoldNothing(run, tenant, Pad(Longest(es) + 1), "", cutoff);
    forall m | 0 <= m < count ensures FreshIds(es, count)[m] !in HeldIds(run, Tenant(tenant), cutoff) {
      UnusedHoldNothing(run, tenant, "", FreshIds(es, count)[m], cutoff);
    }
  }

  /** The run that goes on like this is the filling of the tenant. */
  lemma ContinuationFills(events: seq<Event>, es: seq<Event>, full: seq<Step>, n: nat, first: Ticket, tenant: string, now: nat, limit: pos)
    requires Tells(full, events) && n < |es| && events == es[..n + 1] + Continuation(es, first, tenant, now, limit)
    ensures full[n + 1].event == Finish(first, now)
    ensures Fills(full, n + 2, tenant, Pad(Longest(es) + 1), FreshIds(es, limit), limit, now)
  {
    var later := Continuation(es, first, tenant, now, limit);
    assert full[n + 1].event == events[n + 1] == later[0];
    forall m | 0 <= m < limit
      ensures full[n + 2 + m].event == Check(FillCall(tenant, Pad(Longest(es) + 1), FreshIds(es, limit)[m], limit, now))
    {
      assert full[n + 2 + m].event == events[n + 2 + m] == later[1 + m];
    }
  }

  /** The continuation overruns the limit, if the gate counts ids. */
  lemma {:induction false} ContinuationOverruns(es: seq<Event>, events: seq<Event>, run: seq<Step>, ends: seq<nat>, full: seq<Step>,
                                                ttl: nat, i: nat, n: nat, limit: pos)
    requires Tells(run, es) && Matched(run, ends) && SameId(run, i, n) && !Ended(run, ends, i, n) && 0 < ttl && Gated(full, ttl)
    requires events == es[..n + 1] + Continuation(es, TicketOf(es[i]), es[n].TenantId(), es[n].Time(), limit)
    requires Tells(full, events) && full[..n + 1] == run[..n + 1]
    ensures Matched(full, EndsThen(ends, n, i, limit))
    ensures |Young(full, EndsThen(ends, n, i, limit), Tenant(es[n].TenantId()), es[n].Time() - ttl)| > limit
  {
    var tenant, now := es[n].TenantId(), es[n].Time();
    assert run[i].Ticket() == TicketOf(es[i]) && run[n].Ticket().tenant == tenant && run[n].event.Time() == now;
    ContinuationFills(events, es, full, n, TicketOf(es[i]), tenant, now, limit);
    FirstEventsKnown(es, run, full, i, n);
    NamesAreFree(es, full[..n + 2], tenant, limit, now - ttl);
    FreshIdsAreFresh(es, limit);
    ReuseOverruns(run, ends, full, ttl, i, n, Pad(Longest(es) + 1), FreshIds(es, limit), limit);
  }

  lemma FirstEventsKnown(es: seq<Event>, run: seq<Step>, full: seq<Step>, i: nat, n: nat)
    requires Tells(run, es) && i < n < |run| && n + 1 < |full| && full[..n + 1] == run[..n + 1]
    requires full[n + 1].Ticket() == run[i].Ticket()
    ensures forall k :: 0 <= k < n + 2 ==> Mentions(es, full[k].Ticket())
  {
    forall k | 0 <= k < n + 2 ensures Mentions(es, full[k].Ticket()) {
      var j := if k <= n then k else i;
      assert k <= n ==> full[k] == full[..n + 1][k] && run[k] == run[..n + 1][k];
      assert TicketOf(es[j]) == run[j].Ticket();
    }
  }
}
