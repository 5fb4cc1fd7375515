/** How many requests the in-memory enforcer lets be in progress at once, with fresh and with reused ids. */
module OpenRequests {
  import opened Options
  import opened QuotaLog
  import opened MemoryQuota
  import opened MemoryRuns
  import opened RequestLives
  import opened IdReuse

  /** The requests of a scope admitted and not finished, younger than a slot's lifetime. */
  function Unfinished(cfg: Config, log: seq<Admission>, finished: set<Ticket>, scope: Scope, now: int): seq<Admission> {
    Window(log, finished, scope, now - cfg.SlotTtl())
  }

  /** With fresh ids, at no time are more requests of a user or tenant in progress than the limit allows. */
  lemma {:induction false} InProgressBound(cfg: Config, es: seq<Event>, l: Limits, scope: Scope, now: nat)
    requires Timely(es) && Sound(cfg, es) && FixedLimits(es, scope.tenant, l) && l.concurrent.Some? && Clock(es) <= now
    ensures |Unfinished(cfg, Run(cfg, es).log, Reference(cfg, es).book.finished, scope, now)| <= l.concurrent.value
  {
    RefinesReference(cfg, es);
    ConcurrencyBound(cfg, es, l, scope);
    UnfinishedFit(cfg, Run(cfg, es).store, Reference(cfg, es).book, Clock(es), scope, now);
  }

  lemma UnfinishedFit(cfg: Config, s: Store, b: Book, clock: int, scope: Scope, now: nat)
    requires SlotsMatch(cfg, s, b, clock) && UniqueIds(b.log) && clock <= now
    ensures |Unfinished(cfg, b.log, b.finished, scope, now)| <= |s.Active(scope)|
  {
    var w := Unfinished(cfg, b.log, b.finished, scope, now);
    assert |Index(Slots, w)| == |w| by {
      IndexSize(Slots, b.log, b.finished, scope, now - cfg.SlotTtl());
    }
    SlotsLater(cfg, s, b, clock, now, scope);
    LiveSize(s.Active(scope), now - cfg.SlotTtl());
  }

  // ---------------------------------------------------------------- any ids: the slots follow the events

  /** The run as its events and which checks were admitted. */
  function TraceOf(cfg: Config, es: seq<Event>): (run: seq<RequestLives.Step>)
    ensures |run| == |es|
  {
    if es == [] then []
    else
      var n := |es| - 1;
      var d := Run(cfg, es).decisions[n];
      TraceOf(cfg, es[..n]) + [RequestLives.Step(es[n], d.Some? && d.value.allowed)]
  }

  lemma {:induction false} TracePrefix(cfg: Config, es: seq<Event>, n: nat)
    requires n <= |es|
    ensures TraceOf(cfg, es)[..n] == TraceOf(cfg, es[..n])
  {
    if n == |es| {
      assert es[..n] == es;
    } else {
      var p := es[..|es| - 1];
      assert es[..n] == p[..n];
      TracePrefix(cfg, p, n);
      assert TraceOf(cfg, es)[..n] == TraceOf(cfg, p)[..n];
    }
  }

  lemma {:induction false} TraceTellsAt(cfg: Config, es: seq<Event>, i: nat)
    requires i < |es|
    ensures TraceOf(cfg, es)[i].event == es[i]
  {
    if i < |es| - 1 {
      TraceTellsAt(cfg, es[..|es| - 1], i);
    }
  }

  lemma {:induction false} TraceTells(cfg: Config, es: seq<Event>)
    ensures Tells(TraceOf(cfg, es), es)
  {
    forall i: nat | i < |es| ensures TraceOf(cfg, es)[i].event == es[i] {
      TraceTellsAt(cfg, es, i);
    }
  }

  lemma TimelyTrace(cfg: Config, es: seq<Event>)
    requires Timely(es)
    ensures InOrder(TraceOf(cfg, es)) && UpTo(TraceOf(cfg, es), Clock(es))
  {
    TraceTells(cfg, es);
  }

  /** On any run the slots of a scope are its admissions that no later finish returned. */
  lemma {:induction false} SlotsFollow(cfg: Config, es: seq<Event>, scope: Scope)
    requires Timely(es)
    ensures SlotsAre(Run(cfg, es).store.Active(scope), TraceOf(cfg, es), scope, Clock(es) - cfg.SlotTtl())
  {
    if es != [] {
      var p, e := es[..|es| - 1], es[|es| - 1];
      assert Clock(p) <= e.Time();
      SlotsFollow(cfg, p, scope);
      TimelyTrace(cfg, p);
      match e {
        case Check(c) => CheckNext(cfg, Run(cfg, p).store, c, scope, CheckStep(cfg, Run(cfg, p).store, c).1);
        case Finish(t, at) => FinishNext(cfg, Run(cfg, p).store, t, at, scope);
      }
      var s := TraceOf(cfg, es)[|p|];
      SlotsStep(Run(cfg, p).store.Active(scope), TraceOf(cfg, p), s, cfg.SlotTtl(), scope, Clock(p) - cfg.SlotTtl());
    }
  }

  lemma {:induction false} CheckNext(cfg: Config, s: Store, c: Call, scope: Scope, d: Decision)
    requires d == CheckStep(cfg, s, c).1
    ensures CheckStep(cfg, s, c).0.Active(scope) == NextSlots(s.Active(scope), cfg.SlotTtl(), scope, RequestLives.Step(Check(c), d.allowed))
  {
    var s' := CheckStep(cfg, s, c).0;
    assert s'.Active(scope) == (if !c.ticket.In(scope) then s.Active(scope)
                                else if d.allowed then Live(s.Active(scope), c.now - cfg.SlotTtl())[c.ticket.id := c.now]
                                else Live(s.Active(scope), c.now - cfg.SlotTtl())) by {
      CheckEffect(cfg, s, c, scope);
    }
  }

  lemma {:induction false} FinishNext(cfg: Config, s: Store, t: Ticket, at: nat, scope: Scope)
    ensures FinishStep(s, t).Active(scope) == NextSlots(s.Active(scope), cfg.SlotTtl(), scope, RequestLives.Step(Finish(t, at), false))
  {
    FinishEffect(s, t, scope);
  }

  /**
    Whatever ids a run uses, an id holds a live slot of a user or tenant if and only if it was admitted there less
    than a lifetime ago and no finish of that id came there since.
   */
  lemma {:induction false} SlotHeldExactly(cfg: Config, es: seq<Event>, scope: Scope, now: nat, id: string)
    requires Timely(es) && Clock(es) <= now
    ensures Holds(cfg, Run(cfg, es).store, scope, id, now) <==> Held(TraceOf(cfg, es), scope, id, now - 1000 * cfg.slotSeconds)
  {
    SlotsFollow(cfg, es, scope);
  }

  /** Concurrency is judged first, by the live slots of the caller's two scopes. */
  lemma {:induction false} JudgedBySlots(cfg: Config, s: Store, c: Call, users: nat, tenants: nat)
    requires |Live(s.Active(c.UserScope()), c.now - cfg.SlotTtl())| == users
    requires |Live(s.Active(c.TenantScope()), c.now - cfg.SlotTtl())| == tenants
    ensures JudgedByIds(CheckStep(cfg, s, c).1, c.limits, users, tenants)
  {
    RefreshEffect(cfg, s, c, c.UserScope());
    RefreshEffect(cfg, s, c, c.TenantScope());
  }

  lemma {:induction false} StoreCountsIds(cfg: Config, s: Store, run: seq<RequestLives.Step>, from: int, c: Call, cutoff: int)
    requires SlotsAre(s.Active(c.UserScope()), run, c.UserScope(), from) && SlotsAre(s.Active(c.TenantScope()), run, c.TenantScope(), from)
    requires from <= cutoff == c.now - cfg.SlotTtl()
    ensures JudgedByIds(CheckStep(cfg, s, c).1, c.limits, |HeldIds(run, c.UserScope(), cutoff)|, |HeldIds(run, c.TenantScope(), cutoff)|)
  {
    LiveCount(s.Active(c.UserScope()), run, c.UserScope(), from, cutoff);
    LiveCount(s.Active(c.TenantScope()), run, c.TenantScope(), from, cutoff);
    JudgedBySlots(cfg, s, c, |HeldIds(run, c.UserScope(), cutoff)|, |HeldIds(run, c.TenantScope(), cutoff)|);
  }

  /**
    So the limit is one on ids: on any run, a call is refused for its user's concurrency if and only if the user holds as
    many ids as the limit allows, and for the tenant's if and only if only the tenant does. How these compare with the
    requests in progress is `CountedExactly`.
   */
  lemma {:induction false} ConcurrencyCountsIds(cfg: Config, es: seq<Event>, c: Call, cutoff: int)
    requires Timely(es) && Clock(es) <= c.now && cutoff == c.now - 1000 * cfg.slotSeconds
    ensures JudgedByIds(CheckStep(cfg, Run(cfg, es).store, c).1, c.limits,
                        |HeldIds(TraceOf(cfg, es), c.UserScope(), cutoff)|, |HeldIds(TraceOf(cfg, es), c.TenantScope(), cutoff)|)
  {
    SlotsFollow(cfg, es, c.UserScope());
    SlotsFollow(cfg, es, c.TenantScope());
    StoreCountsIds(cfg, Run(cfg, es).store, TraceOf(cfg, es), Clock(es) - cfg.SlotTtl(), c, cutoff);
  }

  lemma {:induction false} RunsAreGated(cfg: Config, es: seq<Event>)
    requires Timely(es)
    ensures Gated(TraceOf(cfg, es), cfg.SlotTtl())
  {
    forall n: nat | n < |es| ensures GatedAt(TraceOf(cfg, es), cfg.SlotTtl(), n) {
      TracePrefix(cfg, es, n + 1);
      LastIsGated(cfg, es[..n + 1]);
      GatedByPrefix(TraceOf(cfg, es), cfg.SlotTtl(), n);
    }
  }

  lemma {:induction false} LastIsGated(cfg: Config, es: seq<Event>)
    requires Timely(es) && es != []
    ensures GatedAt(TraceOf(cfg, es), cfg.SlotTtl(), |es| - 1)
  {
    var n := |es| - 1;
    var p, e := es[..n], es[n];
    assert TraceOf(cfg, es)[..n] == TraceOf(cfg, p);
    if e.Check? {
      assert Clock(p) <= e.Time();
      ConcurrencyCountsIds(cfg, p, e.call, e.call.now - cfg.SlotTtl());
      JudgedIsGated(TraceOf(cfg, es), TraceOf(cfg, p), cfg.SlotTtl(), n, CheckStep(cfg, Run(cfg, p).store, e.call).1,
                    e.call.now - cfg.SlotTtl());
    }
  }

  // ---------------------------------------------------------------- when that bounds the requests, and when not

  /**
    If no id is admitted for a tenant while a request with it is in progress there, then of its young requests there
    are never more in progress than the limit. Ids may be used again once their request has finished.
   */
  lemma {:induction false} ExclusiveIdsBound(cfg: Config, es: seq<Event>, ends: seq<nat>, l: Limits, scope: Scope, now: nat, cutoff: int)
    requires Timely(es) && Clock(es) <= now && cutoff == now - cfg.SlotTtl() && FixedLimits(es, scope.tenant, l) && l.concurrent.Some?
    requires Matched(TraceOf(cfg, es), ends) && Exclusive(TraceOf(cfg, es), ends)
    ensures |Young(TraceOf(cfg, es), ends, scope, cutoff)| <= l.concurrent.value
  {
    YoungFitSlots(cfg, es, ends, scope, Clock(es) - cfg.SlotTtl(), cutoff);
    ConcurrencyBound(cfg, es, l, scope);
  }

  /** The slots are then those requests, one each: an id holds one if and only if it is that of a young request in progress. */
  lemma {:induction false} ExclusiveIdsHoldSlots(cfg: Config, es: seq<Event>, ends: seq<nat>, scope: Scope, now: nat, id: string)
    requires Timely(es) && Clock(es) <= now
    requires Matched(TraceOf(cfg, es), ends) && Exclusive(TraceOf(cfg, es), ends)
    ensures Holds(cfg, Run(cfg, es).store, scope, id, now) <==>
            id in IdsOf(TraceOf(cfg, es), Young(TraceOf(cfg, es), ends, scope, now - cfg.SlotTtl()))
    ensures DistinctIds(TraceOf(cfg, es), Young(TraceOf(cfg, es), ends, scope, now - cfg.SlotTtl()))
  {
    assert Holds(cfg, Run(cfg, es).store, scope, id, now) <==> Held(TraceOf(cfg, es), scope, id, now - cfg.SlotTtl()) by {
      SlotHeldExactly(cfg, es, scope, now, id);
    }
    ExclusiveHeld(TraceOf(cfg, es), ends, scope, now - cfg.SlotTtl(), id);
  }

  lemma {:induction false} YoungFitSlots(cfg: Config, es: seq<Event>, ends: seq<nat>, scope: Scope, from: int, cutoff: int)
    requires Timely(es) && from == Clock(es) - cfg.SlotTtl() && from <= cutoff
    requires Matched(TraceOf(cfg, es), ends) && Exclusive(TraceOf(cfg, es), ends)
    ensures |Young(TraceOf(cfg, es), ends, scope, cutoff)| <= |Run(cfg, es).store.Active(scope)|
  {
    SlotsFollow(cfg, es, scope);
    ExclusiveFit(Run(cfg, es).store.Active(scope), TraceOf(cfg, es), ends, scope, from, cutoff);
  }

  /**
    Conversely, once an id is admitted for a tenant while a request with it is in progress, then whatever the limit,
    the run has a continuation after which more of the tenant's young requests are in progress than that.
   */
  lemma {:induction false} ReusedIdOverruns(cfg: Config, es: seq<Event>, ends: seq<nat>, i: nat, n: nat, limit: pos)
    returns (later: seq<Event>, ends': seq<nat>)
    requires Timely(es) && Matched(TraceOf(cfg, es), ends) && SameId(TraceOf(cfg, es), i, n) && !Ended(TraceOf(cfg, es), ends, i, n)
    ensures var full, tenant := es[..n + 1] + later, es[n].TenantId();
            Timely(full) && FixedLimits(later, tenant, SlotsOnly(limit)) && Matched(TraceOf(cfg, full), ends') &&
            |Young(TraceOf(cfg, full), ends', Tenant(tenant), es[n].Time() - cfg.SlotTtl())| > limit
  {
    TraceTells(cfg, es);
    later := Continuation(es, TicketOf(es[i]), es[n].TenantId(), es[n].Time(), limit);
    ends' := EndsThen(ends, n, i, limit);
    ContinuationIsTimely(es, n, TicketOf(es[i]), es[n].TenantId(), limit);
    var full := es[..n + 1] + later;
    assert full[..n + 1] == es[..n + 1];
    ContinuedRun(cfg, es, n, full);
    ContinuedOverruns(cfg, es, ends, i, n, limit, full);
  }

  lemma {:induction false} ContinuedOverruns(cfg: Config, es: seq<Event>, ends: seq<nat>, i: nat, n: nat, limit: pos, full: seq<Event>)
    requires Matched(TraceOf(cfg, es), ends) && SameId(TraceOf(cfg, es), i, n) && !Ended(TraceOf(cfg, es), ends, i, n)
    requires full == es[..n + 1] + Continuation(es, TicketOf(es[i]), es[n].TenantId(), es[n].Time(), limit)
    requires Goes(cfg, es, n, full)
    ensures Matched(TraceOf(cfg, full), EndsThen(ends, n, i, limit))
    ensures |Young(TraceOf(cfg, full), EndsThen(ends, n, i, limit), Tenant(es[n].TenantId()), es[n].Time() - cfg.SlotTtl())| > limit
  {
    ContinuationOverruns(es, full, TraceOf(cfg, es), ends, TraceOf(cfg, full), cfg.SlotTtl(), i, n, limit);
  }

  /** The second run is gated and agrees with the first up to the event. */
  ghost predicate Goes(cfg: Config, es: seq<Event>, n: nat, full: seq<Event>)
    requires n < |es| && n < |full|
  {
    Tells(TraceOf(cfg, es), es) && Tells(TraceOf(cfg, full), full) && Gated(TraceOf(cfg, full), cfg.SlotTtl()) &&
    TraceOf(cfg, full)[..n + 1] == TraceOf(cfg, es)[..n + 1]
  }

  /** A run that goes on differently after an event is the same up to there. */
  lemma {:induction false} ContinuedRun(cfg: Config, es: seq<Event>, n: nat, full: seq<Event>)
    requires n < |es| && Timely(full) && n < |full| && full[..n + 1] == es[..n + 1]
    ensures Goes(cfg, es, n, full)
  {
    assert Tells(TraceOf(cfg, es), es) by { TraceTells(cfg, es); }
    assert Tells(TraceOf(cfg, full), full) by { TraceTells(cfg, full); }
    assert Gated(TraceOf(cfg, full), cfg.SlotTtl()) by { RunsAreGated(cfg, full); }
    SamePrefix(cfg, es, full, n + 1);
  }

  lemma {:induction false} SamePrefix(cfg: Config, es: seq<Event>, full: seq<Event>, n: nat)
    requires n <= |es| && n <= |full| && full[..n] == es[..n]
    ensures TraceOf(cfg, full)[..n] == TraceOf(cfg, es)[..n]
  {
    TracePrefix(cfg, es, n);
    TracePrefix(cfg, full, n);
  }

  /** A client that sends one id and finishes nothing has all requests of the last lifetime in progress, or under a limit of one at most one. */
  lemma {:induction false} OneIdOverrunsLimit(cfg: Config, es: seq<Event>, ends: seq<nat>, t: Ticket, limit: pos, now: nat, cutoff: int)
    requires Timely(es) && Clock(es) <= now && cutoff == now - cfg.SlotTtl() && OneTicket(TraceOf(cfg, es), t, limit) && |ends| == |es|
    ensures var young := Young(TraceOf(cfg, es), ends, Tenant(t.tenant), cutoff);
            (limit >= 2 ==> young == set i | 0 <= i < |es| && TraceOf(cfg, es)[i].event.Time() > cutoff) && (limit == 1 ==> |young| <= 1)
  {
    RunsAreGated(cfg, es);
    TimelyTrace(cfg, es);
    OneTicketRun(TraceOf(cfg, es), ends, cfg.SlotTtl(), t, limit, now, cutoff);
  }

  /** Two requests of one id in progress under a limit of one: the finish of the first, stale one frees the slot of the second. */
  lemma {:induction false} StaleIdOverrunsOne(cfg: Config, es: seq<Event>, t: Ticket, start: nat)
    requires es == StaleRun(t, start, cfg.SlotTtl())
    ensures Timely(es) && Matched(TraceOf(cfg, es), [0, 0, 0, 0])
    ensures Young(TraceOf(cfg, es), [0, 0, 0, 0], Tenant(t.tenant), start) == {1, 3} && |{1, 3}| > 1
  {
    StaleRunIsTimely(t, start, cfg.SlotTtl());
    RunsAreGated(cfg, es);
    TraceTells(cfg, es);
    StaleRunOverruns(TraceOf(cfg, es), t, start, cfg.SlotTtl());
  }

  /** Three ids in progress under a limit of two: the first is in progress twice, and one of its requests finishes. */
  lemma {:induction false} SharedIdOverrunsTwo(cfg: Config, es: seq<Event>, x: Ticket, y: Ticket, z: Ticket, now: nat)
    requires es == SharedRun(x, y, z, now) && x.tenant == y.tenant == z.tenant
    ensures Timely(es) && Matched(TraceOf(cfg, es), [0, 0, 0, 0, 0])
    ensures Young(TraceOf(cfg, es), [0, 0, 0, 0, 0], Tenant(x.tenant), now - cfg.SlotTtl()) == {1, 3, 4} && |{1, 3, 4}| > 2
  {
    SharedRunIsTimely(x, y, z, now);
    RunsAreGated(cfg, es);
    TraceTells(cfg, es);
    SharedRunOverruns(TraceOf(cfg, es), x, y, z, now, cfg.SlotTtl());
  }
}
