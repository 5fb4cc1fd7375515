/** How many requests the Redis enforcer lets be in progress at once, with any ids and colon-free tenants. */
module RedisOpenRequests {
  import opened Options
  import opened QuotaLog
  import opened RedisKeys
  import opened RedisQuota
  import opened RedisRefinement
  import opened RedisReuse
  import opened RequestLives
  import opened IdReuse
  import RedisBounds

  /** The run as its events and which checks were admitted. */
  ghost function TraceOf(cfg: Config, prefix: string, es: seq<Event>): (run: seq<RequestLives.Step>)
    ensures |run| == |es|
  {
    if es == [] then []
    else
      var n := |es| - 1;
      var d := Run(cfg, prefix, es).decisions[n];
      TraceOf(cfg, prefix, es[..n]) + [RequestLives.Step(es[n], d.Some? && d.value.allowed)]
  }

  lemma {:induction false} TracePrefix(cfg: Config, prefix: string, es: seq<Event>, n: nat)
    requires n <= |es|
    ensures TraceOf(cfg, prefix, es)[..n] == TraceOf(cfg, prefix, es[..n])
  {
    if n == |es| {
      assert es[..n] == es;
    } else {
      var p := es[..|es| - 1];
      assert es[..n] == p[..n];
      TracePrefix(cfg, prefix, p, n);
      assert TraceOf(cfg, prefix, es)[..n] == TraceOf(cfg, prefix, p)[..n];
    }
  }

  lemma {:induction false} TraceTellsAt(cfg: Config, prefix: string, es: seq<Event>, i: nat)
    requires i < |es|
    ensures TraceOf(cfg, prefix, es)[i].event == es[i]
  {
    if i < |es| - 1 {
      TraceTellsAt(cfg, prefix, es[..|es| - 1], i);
    }
  }

  lemma {:induction false} TraceTells(cfg: Config, prefix: string, es: seq<Event>)
    ensures Tells(TraceOf(cfg, prefix, es), es)
  {
    forall i: nat | i < |es| ensures TraceOf(cfg, prefix, es)[i].event == es[i] {
      TraceTellsAt(cfg, prefix, es, i);
    }
  }

  lemma TimelyTrace(cfg: Config, prefix: string, es: seq<Event>)
    requires Timely(es)
    ensures InOrder(TraceOf(cfg, prefix, es)) && UpTo(TraceOf(cfg, prefix, es), Clock(es))
  {
    TraceTells(cfg, prefix, es);
  }

  lemma {:induction false} CheckNext(cfg: Config, prefix: string, ks: Keys, db: Db, c: Call, scope: Scope, allowed: bool)
    requires ColonFree(c.ticket.tenant) && ColonFree(scope.tenant) && Serves(ks, prefix, c.ticket)
    requires allowed == CheckStep(cfg, ks, db, c).1.allowed
    ensures Set(prefix, CheckStep(cfg, ks, db, c).0, Slots, scope) ==
            NextSlots(Set(prefix, db, Slots, scope), cfg.SlotTtl(), scope, RequestLives.Step(Check(c), allowed))
  {
    TouchesOwn(c.ticket, scope);
    CheckEffect(cfg, ks, db, c, Key(prefix, Slots, scope));
  }

  lemma {:induction false} FinishNext(cfg: Config, prefix: string, ks: Keys, db: Db, t: Ticket, at: nat, scope: Scope)
    requires ColonFree(t.tenant) && ColonFree(scope.tenant) && Serves(ks, prefix, t)
    ensures Set(prefix, FinishStep(cfg, ks, db, t.id, at), Slots, scope) ==
            NextSlots(Set(prefix, db, Slots, scope), cfg.SlotTtl(), scope, RequestLives.Step(Finish(t, at), false))
  {
    TouchesOwn(t, scope);
    FinishEffect(cfg, ks, db, t.id, at, Key(prefix, Slots, scope));
  }

  /** On any run the slot set of a scope is its admissions that no later finish returned. */
  lemma {:induction false} SlotsFollow(cfg: Config, prefix: string, es: seq<Event>, scope: Scope)
    requires Timely(es) && AllColonFree(es) && ColonFree(scope.tenant)
    ensures SlotsAre(Set(prefix, Run(cfg, prefix, es).db, Slots, scope), TraceOf(cfg, prefix, es), scope, Clock(es) - cfg.SlotTtl())
  {
    if es != [] {
      var p, e := es[..|es| - 1], es[|es| - 1];
      assert Clock(p) <= e.Time() && ColonFree(e.TenantId());
      SlotsFollow(cfg, prefix, p, scope);
      TimelyTrace(cfg, prefix, p);
      var db := Run(cfg, prefix, p).db;
      match e {
        case Check(c) =>
          KeysServe(prefix, c.ticket);
          CheckNext(cfg, prefix, KeysOf(prefix, c.ticket), db, c, scope, CheckStep(cfg, KeysOf(prefix, c.ticket), db, c).1.allowed);
        case Finish(t, at) =>
          KeysServe(prefix, t);
          FinishNext(cfg, prefix, KeysOf(prefix, t), db, t, at, scope);
      }
      SlotsStep(Set(prefix, db, Slots, scope), TraceOf(cfg, prefix, p), TraceOf(cfg, prefix, es)[|p|], cfg.SlotTtl(), scope,
                Clock(p) - cfg.SlotTtl());
    }
  }

  /**
    Whatever ids a run uses, an id is a live member of the slot set of a user or tenant if and only if it was admitted
    there less than a lifetime ago and no finish of that id came there since.
   */
  lemma {:induction false} SlotHeldExactly(cfg: Config, prefix: string, es: seq<Event>, scope: Scope, now: nat, id: string)
    requires Timely(es) && AllColonFree(es) && ColonFree(scope.tenant) && Clock(es) <= now
    ensures id in Live(Set(prefix, Run(cfg, prefix, es).db, Slots, scope), now - cfg.SlotTtl()) <==>
            Held(TraceOf(cfg, prefix, es), scope, id, now - 1000 * cfg.slotSeconds)
  {
    SlotsFollow(cfg, prefix, es, scope);
  }

  /** The purged slot set of a scope has one member for each id held. */
  lemma {:induction false} PurgedCount(cfg: Config, prefix: string, ks: Keys, db: Db, run: seq<RequestLives.Step>, from: int, c: Call,
                                       scope: Scope, cutoff: int)
    requires ColonFree(c.ticket.tenant) && Serves(ks, prefix, c.ticket) && c.ticket.In(scope) && from <= cutoff == c.now - cfg.SlotTtl()
    requires SlotsAre(Set(prefix, db, Slots, scope), run, scope, from)
    ensures |Set(prefix, Purge(cfg, ks, db, c.now), Slots, scope)| == |HeldIds(run, scope, cutoff)|
  {
    var z, purged := Set(prefix, db, Slots, scope), Set(prefix, Purge(cfg, ks, db, c.now), Slots, scope);
    assert purged == Live(z, cutoff) by { PurgedOwn(cfg, prefix, ks, db, c.ticket, c.now, Slots, scope); }
    LiveCount(z, run, scope, from, cutoff);
  }

  /** Concurrency is judged first, by the purged slot sets of the caller's two scopes. */
  lemma {:induction false} JudgedBySlots(cfg: Config, ks: Keys, db: Db, c: Call, users: nat, tenants: nat)
    requires |Purge(cfg, ks, db, c.now).Members(ks.userSlots)| == users && |Purge(cfg, ks, db, c.now).Members(ks.tenantSlots)| == tenants
    ensures JudgedByIds(CheckStep(cfg, ks, db, c).1, c.limits, users, tenants)
  {
  }

  lemma {:induction false} SetsCountIds(cfg: Config, prefix: string, ks: Keys, db: Db, run: seq<RequestLives.Step>, from: int, c: Call,
                                        cutoff: int)
    requires ColonFree(c.ticket.tenant) && Serves(ks, prefix, c.ticket) && from <= cutoff == c.now - cfg.SlotTtl()
    requires ks.userSlots == Key(prefix, Slots, c.UserScope()) && ks.tenantSlots == Key(prefix, Slots, c.TenantScope())
    requires SlotsAre(Set(prefix, db, Slots, c.UserScope()), run, c.UserScope(), from)
    requires SlotsAre(Set(prefix, db, Slots, c.TenantScope()), run, c.TenantScope(), from)
    ensures JudgedByIds(CheckStep(cfg, ks, db, c).1, c.limits, |HeldIds(run, c.UserScope(), cutoff)|, |HeldIds(run, c.TenantScope(), cutoff)|)
  {
    PurgedCount(cfg, prefix, ks, db, run, from, c, c.UserScope(), cutoff);
    PurgedCount(cfg, prefix, ks, db, run, from, c, c.TenantScope(), cutoff);
    JudgedBySlots(cfg, ks, db, c, |HeldIds(run, c.UserScope(), cutoff)|, |HeldIds(run, c.TenantScope(), cutoff)|);
  }

  /**
    On any run a call is refused for its user's concurrency if and only if the user holds as many ids as the limit
    allows, and for the tenant's if and only if only the tenant does.
   */
  lemma {:induction false} ConcurrencyCountsIds(cfg: Config, prefix: string, es: seq<Event>, c: Call, cutoff: int)
    requires Timely(es) && AllColonFree(es) && Clock(es) <= c.now && ColonFree(c.ticket.tenant) && cutoff == c.now - 1000 * cfg.slotSeconds
    ensures JudgedByIds(CheckStep(cfg, KeysOf(prefix, c.ticket), Run(cfg, prefix, es).db, c).1, c.limits,
                        |HeldIds(TraceOf(cfg, prefix, es), c.UserScope(), cutoff)|, |HeldIds(TraceOf(cfg, prefix, es), c.TenantScope(), cutoff)|)
  {
    KeysServe(prefix, c.ticket);
    SlotsFollow(cfg, prefix, es, c.UserScope());
    SlotsFollow(cfg, prefix, es, c.TenantScope());
    SetsCountIds(cfg, prefix, KeysOf(prefix, c.ticket), Run(cfg, prefix, es).db, TraceOf(cfg, prefix, es), Clock(es) - cfg.SlotTtl(), c, cutoff);
  }

  lemma {:induction false} LastIsGated(cfg: Config, prefix: string, es: seq<Event>)
    requires Timely(es) && AllColonFree(es) && es != []
    ensures GatedAt(TraceOf(cfg, prefix, es), cfg.SlotTtl(), |es| - 1)
  {
    var n := |es| - 1;
    var p, e := es[..n], es[n];
    assert TraceOf(cfg, prefix, es)[..n] == TraceOf(cfg, prefix, p);
    if e.Check? {
      assert Clock(p) <= e.Time() && ColonFree(e.TenantId());
      var cutoff := e.call.now - cfg.SlotTtl();
      ConcurrencyCountsIds(cfg, prefix, p, e.call, cutoff);
      JudgedIsGated(TraceOf(cfg, prefix, es), TraceOf(cfg, prefix, p), cfg.SlotTtl(), n,
                    CheckStep(cfg, KeysOf(prefix, e.call.ticket), Run(cfg, prefix, p).db, e.call).1, cutoff);
    }
  }

  lemma {:induction false} RunsAreGated(cfg: Config, prefix: string, es: seq<Event>)
    requires Timely(es) && AllColonFree(es)
    ensures Gated(TraceOf(cfg, prefix, es), cfg.SlotTtl())
  {
    forall n: nat | n < |es| ensures GatedAt(TraceOf(cfg, prefix, es), cfg.SlotTtl(), n) {
      TracePrefix(cfg, prefix, es, n + 1);
      LastIsGated(cfg, prefix, es[..n + 1]);
      GatedByPrefix(TraceOf(cfg, prefix, es), cfg.SlotTtl(), n);
    }
  }

  // ---------------------------------------------------------------- when that bounds the requests, and when not

  /** With ids that are exclusive while in progress, never more young requests are in progress than the limit. */
  lemma {:induction false} ExclusiveIdsBound(cfg: Config, prefix: string, es: seq<Event>, ends: seq<nat>, l: Limits, scope: Scope, now: nat,
                                             cutoff: int)
    requires Timely(es) && AllColonFree(es) && ColonFree(scope.tenant) && Clock(es) <= now && cutoff == now - cfg.SlotTtl()
    requires FixedLimits(es, scope.tenant, l) && l.concurrent.Some?
    requires Matched(TraceOf(cfg, prefix, es), ends) && Exclusive(TraceOf(cfg, prefix, es), ends)
    ensures |Young(TraceOf(cfg, prefix, es), ends, scope, cutoff)| <= l.concurrent.value
  {
    YoungFitSlots(cfg, prefix, es, ends, scope, Clock(es) - cfg.SlotTtl(), cutoff);
    RedisBounds.OwnLimits(es, scope, l);
    RedisBounds.ConcurrencyBound(cfg, prefix, es, l, scope);
  }

  lemma {:induction false} YoungFitSlots(cfg: Config, prefix: string, es: seq<Event>, ends: seq<nat>, scope: Scope, from: int, cutoff: int)
    requires Timely(es) && AllColonFree(es) && ColonFree(scope.tenant) && from == Clock(es) - cfg.SlotTtl() && from <= cutoff
    requires Matched(TraceOf(cfg, prefix, es), ends) && Exclusive(TraceOf(cfg, prefix, es), ends)
    ensures |Young(TraceOf(cfg, prefix, es), ends, scope, cutoff)| <= |Set(prefix, Run(cfg, prefix, es).db, Slots, scope)|
  {
    SlotsFollow(cfg, prefix, es, scope);
    ExclusiveFit(Set(prefix, Run(cfg, prefix, es).db, Slots, scope), TraceOf(cfg, prefix, es), ends, scope, from, cutoff);
  }

  /** Conversely, once an id is admitted for a tenant while a request with it is in progress, every limit can be overrun. */
  lemma {:induction false} ReusedIdOverruns(cfg: Config, prefix: string, es: seq<Event>, ends: seq<nat>, i: nat, n: nat, limit: pos)
    returns (later: seq<Event>, ends': seq<nat>)
    requires Timely(es) && AllColonFree(es) && Matched(TraceOf(cfg, prefix, es), ends)
    requires SameId(TraceOf(cfg, prefix, es), i, n) && !Ended(TraceOf(cfg, prefix, es), ends, i, n)
    ensures var full, tenant := es[..n + 1] + later, es[n].TenantId();
            Timely(full) && FixedLimits(later, tenant, SlotsOnly(limit)) && Matched(TraceOf(cfg, prefix, full), ends') &&
            |Young(TraceOf(cfg, prefix, full), ends', Tenant(tenant), es[n].Time() - cfg.SlotTtl())| > limit
  {
    TraceTells(cfg, prefix, es);
    later := Continuation(es, TicketOf(es[i]), es[n].TenantId(), es[n].Time(), limit);
    ends' := EndsThen(ends, n, i, limit);
    ContinuationIsTimely(es, n, TicketOf(es[i]), es[n].TenantId(), limit);
    var full := es[..n + 1] + later;
    assert full[..n + 1] == es[..n + 1];
    StaysColonFree(es, n, later, es[i].TenantId());
    ContinuedRun(cfg, prefix, es, n, full);
    ContinuedOverruns(cfg, prefix, es, ends, i, n, limit, full);
  }

  lemma StaysColonFree(es: seq<Event>, n: nat, later: seq<Event>, tenant: string)
    requires AllColonFree(es) && n < |es| && ColonFree(tenant)
    requires forall j :: 0 <= j < |later| ==> later[j].TenantId() == tenant
    ensures AllColonFree(es[..n + 1] + later)
  {
    var full := es[..n + 1] + later;
    forall k | 0 <= k < |full| ensures ColonFree(full[k].TenantId()) {
      assert full[k] == if k > n then later[k - n - 1] else es[k];
    }
  }

  lemma {:induction false} ContinuedOverruns(cfg: Config, prefix: string, es: seq<Event>, ends: seq<nat>, i: nat, n: nat, limit: pos,
                                             full: seq<Event>)
    requires Matched(TraceOf(cfg, prefix, es), ends) && SameId(TraceOf(cfg, prefix, es), i, n) && !Ended(TraceOf(cfg, prefix, es), ends, i, n)
    requires full == es[..n + 1] + Continuation(es, TicketOf(es[i]), es[n].TenantId(), es[n].Time(), limit)
    requires Goes(cfg, prefix, es, n, full)
    ensures Matched(TraceOf(cfg, prefix, full), EndsThen(ends, n, i, limit))
    ensures |Young(TraceOf(cfg, prefix, full), EndsThen(ends, n, i, limit), Tenant(es[n].TenantId()), es[n].Time() - cfg.SlotTtl())| > limit
  {
    ContinuationOverruns(es, full, TraceOf(cfg, prefix, es), ends, TraceOf(cfg, prefix, full), cfg.SlotTtl(), i, n, limit);
  }

  /** The second run is gated and agrees with the first up to the event. */
  ghost predicate Goes(cfg: Config, prefix: string, es: seq<Event>, n: nat, full: seq<Event>)
    requires n < |es| && n < |full|
  {
    Tells(TraceOf(cfg, prefix, es), es) && Tells(TraceOf(cfg, prefix, full), full) && Gated(TraceOf(cfg, prefix, full), cfg.SlotTtl()) &&
    TraceOf(cfg, prefix, full)[..n + 1] == TraceOf(cfg, prefix, es)[..n + 1]
  }

  lemma {:induction false} ContinuedRun(cfg: Config, prefix: string, es: seq<Event>, n: nat, full: seq<Event>)
    requires n < |es| && Timely(full) && AllColonFree(full) && n < |full| && full[..n + 1] == es[..n + 1]
    ensures Goes(cfg, prefix, es, n, full)
  {
    assert Tells(TraceOf(cfg, prefix, es), es) by { TraceTells(cfg, prefix, es); }
    assert Tells(TraceOf(cfg, prefix, full), full) by { TraceTells(cfg, prefix, full); }
    assert Gated(TraceOf(cfg, prefix, full), cfg.SlotTtl()) by { RunsAreGated(cfg, prefix, full); }
    SamePrefix(cfg, prefix, es, full, n + 1);
  }

  lemma {:induction false} SamePrefix(cfg: Config, prefix: string, es: seq<Event>, full: seq<Event>, n: nat)
    requires n <= |es| && n <= |full| && full[..n] == es[..n]
    ensures TraceOf(cfg, prefix, full)[..n] == TraceOf(cfg, prefix, es)[..n]
  {
    TracePrefix(cfg, prefix, es, n);
    TracePrefix(cfg, prefix, full, n);
  }
}
