/** What the in-memory enforcer promises over whole runs of checks and finishes. */
module MemoryRuns {
  import opened Options
  import opened QuotaLog
  import opened MemoryQuota

  /** The state after a run, the decision of every check in it, and the admitted history. */
  datatype Outcome = Outcome(store: Store, decisions: seq<Option<Decision>>, log: seq<Admission>)

  function Step(cfg: Config, o: Outcome, e: Event): Outcome {
    match e
    case Check(c) =>
      var (s, d) := CheckStep(cfg, o.store, c);
      Outcome(s, o.decisions + [Some(d)], if d.allowed then o.log + [c.AsAdmission()] else o.log)
    case Finish(t, _) => Outcome(FinishStep(o.store, t), o.decisions + [None], o.log)
  }

  function Run(cfg: Config, es: seq<Event>): (o: Outcome)
    ensures |o.decisions| == |es|
  {
    if es == [] then Outcome(EMPTY_STORE, [], []) else Step(cfg, Run(cfg, es[..|es| - 1]), es[|es| - 1])
  }

  function Reasons(ds: seq<Option<Decision>>): seq<Option<Reason>> {
    seq(|ds|, i requires 0 <= i < |ds| => if ds[i].Some? then Some(ds[i].value.reason) else None)
  }

  // ------------------------------------------------------------ window bound

  /** On every run, whatever ids it uses, the deques are the admitted history filtered to the window. */
  lemma {:induction false} DequesAreHistory(cfg: Config, es: seq<Event>)
    requires Timely(es)
    ensures RecordsMatch(cfg, Run(cfg, es).store, Run(cfg, es).log, Clock(es)) && Ordered(Run(cfg, es).log, Clock(es))
  {
    if es != [] {
      var p, e := es[..|es| - 1], es[|es| - 1];
      DequesAreHistory(cfg, p);
      assert Clock(p) <= e.Time();
      var o := Run(cfg, p);
      match e {
        case Check(c) => CheckKeepsRecords(cfg, o.store, o.log, Clock(p), c);
        case Finish(t, at) => FinishKeepsRecords(cfg, o.store, o.log, Clock(p), t, at);
      }
    }
  }

  lemma {:induction false} RunEarned(cfg: Config, es: seq<Event>, tenant: string, l: Limits)
    requires Timely(es) && FixedLimits(es, tenant, l)
    ensures Earned(cfg, Run(cfg, es).log, tenant, l)
  {
    if es != [] {
      var p, e := es[..|es| - 1], es[|es| - 1];
      RunEarned(cfg, p, tenant, l);
      DequesAreHistory(cfg, p);
      var o := Run(cfg, p);
      if e.Check? && CheckStep(cfg, o.store, e.call).1.allowed {
        AdmissionEarned(cfg, o.store, o.log, Clock(p), e.call);
        assert (o.log + [e.call.AsAdmission()])[..|o.log|] == o.log;
      }
    }
  }

  /**
    Sliding-window bound: over any run, in every interval (t - window, t], a tenant and
    each of its users had at most the allowed number of requests and input tokens admitted.
   */
  lemma {:induction false} WindowBound(cfg: Config, es: seq<Event>, l: Limits, scope: Scope, t: int)
    requires Timely(es) && FixedLimits(es, scope.tenant, l)
    ensures var burst := Between(Run(cfg, es).log, scope, t - 1000 * cfg.windowSeconds, t);
            (l.requests.Some? ==> |burst| <= l.requests.value) &&
            (l.inputTokens.Some? ==> TokenSum(burst) <= l.inputTokens.value)
  {
    RunEarned(cfg, es, scope.tenant, l);
    BoundAtEveryInstant(cfg, Run(cfg, es).log, l, scope, t);
  }

  // ------------------------------------------------------------ concurrency

  lemma LiveSize(m: map<string, nat>, cutoff: int)
    ensures |Live(m, cutoff)| <= |m|
  {
    SubsetSize(Live(m, cutoff).Keys, m.Keys);
  }

  lemma InsertAtMost(m: map<string, nat>, k: string, v: nat)
    ensures |m[k := v]| <= |m| + 1
  {
    assert m[k := v].Keys == m.Keys + {k};
  }

  lemma AdmittedHadSlot(cfg: Config, s: Store, c: Call, scope: Scope)
    requires c.ticket.In(scope) && CheckStep(cfg, s, c).1.allowed && c.limits.concurrent.Some?
    ensures |Live(s.Active(scope), c.now - cfg.SlotTtl())| < c.limits.concurrent.value
  {
    RefreshEffect(cfg, s, c, scope);
    assert scope == c.UserScope() || scope == c.TenantScope();
  }

  lemma CheckKeepsBound(cfg: Config, s: Store, c: Call, scope: Scope, limit: nat)
    requires |s.Active(scope)| <= limit
    requires c.ticket.In(scope) ==> c.limits.concurrent.Some? && c.limits.concurrent.value == limit
    ensures |CheckStep(cfg, s, c).0.Active(scope)| <= limit
  {
    CheckEffect(cfg, s, c, scope);
    var d := CheckStep(cfg, s, c).1;
    if c.ticket.In(scope) {
      LiveSize(s.Active(scope), c.now - cfg.SlotTtl());
      if d.allowed {
        AdmittedHadSlot(cfg, s, c, scope);
        InsertAtMost(Live(s.Active(scope), c.now - cfg.SlotTtl()), c.ticket.id, c.now);
      }
    }
  }

  /** Over any run, no user and no tenant ever holds more slots than the limit. */
  lemma {:induction false} ConcurrencyBound(cfg: Config, es: seq<Event>, l: Limits, scope: Scope)
    requires FixedLimits(es, scope.tenant, l) && l.concurrent.Some?
    ensures |Run(cfg, es).store.Active(scope)| <= l.concurrent.value
  {
    if es != [] {
      var p, e := es[..|es| - 1], es[|es| - 1];
      ConcurrencyBound(cfg, p, l, scope);
      var s := Run(cfg, p).store;
      match e {
        case Check(c) =>
          CheckKeepsBound(cfg, s, c, scope, l.concurrent.value);
        case Finish(t, at) =>
          FinishEffect(s, t, scope);
          SubsetSize(FinishStep(s, t).Active(scope).Keys, s.Active(scope).Keys);
      }
    }
  }

  // ------------------------------------------------------------ refinement

  lemma SlotCount(cfg: Config, s: Store, b: Book, clock: int, c: Call, scope: Scope)
    requires SlotsMatch(cfg, s, b, clock) && UniqueIds(b.log) && clock <= c.now && c.ticket.In(scope)
    ensures |Refresh(cfg, s, c).Active(scope)| == |Window(b.log, b.finished, scope, c.now - cfg.SlotTtl())|
  {
    RefreshEffect(cfg, s, c, scope);
    SlotsLater(cfg, s, b, clock, c.now, scope);
    IndexSize(Slots, b.log, b.finished, scope, c.now - cfg.SlotTtl());
  }

  /** The store and the book describe the same history. */
  ghost predicate Matches(cfg: Config, s: Store, b: Book, clock: int) {
    RecordsMatch(cfg, s, b.log, clock) && SlotsMatch(cfg, s, b, clock) && Ordered(b.log, clock) && UniqueIds(b.log)
  }

  lemma {:induction false} LoadFromBook(cfg: Config, s: Store, b: Book, clock: int, c: Call)
    requires Matches(cfg, s, b, clock) && clock <= c.now
    ensures LoadOf(Refresh(cfg, s, c), c) == b.LoadOf(cfg, c)
  {
    LoadFromHistory(cfg, s, b.log, clock, c);
    SlotCounts(cfg, s, b, clock, c);
  }

  lemma SlotCounts(cfg: Config, s: Store, b: Book, clock: int, c: Call)
    requires SlotsMatch(cfg, s, b, clock) && UniqueIds(b.log) && clock <= c.now
    ensures LoadOf(Refresh(cfg, s, c), c).userSlots == |Window(b.log, b.finished, c.UserScope(), c.now - cfg.SlotTtl())|
    ensures LoadOf(Refresh(cfg, s, c), c).tenantSlots == |Window(b.log, b.finished, c.TenantScope(), c.now - cfg.SlotTtl())|
  {
    SlotCount(cfg, s, b, clock, c, c.UserScope());
    SlotCount(cfg, s, b, clock, c, c.TenantScope());
  }

  lemma CheckRefines(cfg: Config, s: Store, b: Book, clock: int, c: Call)
    requires Matches(cfg, s, b, clock) && clock <= c.now && FreshTicket(b.log, c.ticket)
    ensures CheckStep(cfg, s, c).1.reason == b.Verdict(cfg, c)
    ensures Matches(cfg, CheckStep(cfg, s, c).0, b.Next(cfg, Check(c)), c.now)
  {
    LoadFromBook(cfg, s, b, clock, c);
    CheckKeepsRecords(cfg, s, b.log, clock, c);
    CheckKeepsSlots(cfg, s, b, clock, c);
  }

  lemma FinishRefines(cfg: Config, s: Store, b: Book, clock: int, t: Ticket, now: nat)
    requires Matches(cfg, s, b, clock) && clock <= now && OwnTicket(b.log, t)
    ensures Matches(cfg, FinishStep(s, t), b.Next(cfg, Finish(t, now)), now)
  {
    FinishKeepsRecords(cfg, s, b.log, clock, t, now);
    FinishKeepsSlots(cfg, s, b, clock, t, now);
  }

  lemma ReasonsAppend(ds: seq<Option<Decision>>, d: Option<Decision>)
    ensures Reasons(ds + [d]) == Reasons(ds) + [if d.Some? then Some(d.value.reason) else None]
  {
  }

  /** The in-memory enforcer gives the reference verdict at every check, and its four maps are the filtered history. */
  lemma {:induction false} RefinesReference(cfg: Config, es: seq<Event>)
    requires Timely(es) && Sound(cfg, es)
    ensures Reasons(Run(cfg, es).decisions) == Reference(cfg, es).verdicts
    ensures Run(cfg, es).log == Reference(cfg, es).book.log
    ensures Matches(cfg, Run(cfg, es).store, Reference(cfg, es).book, Clock(es))
  {
    if es != [] {
      var p, e := es[..|es| - 1], es[|es| - 1];
      RefinesReference(cfg, p);
      assert Clock(p) <= e.Time();
      var o, b := Run(cfg, p), Reference(cfg, p).book;
      match e {
        case Check(c) =>
          CheckRefines(cfg, o.store, b, Clock(p), c);
          ReasonsAppend(o.decisions, Some(CheckStep(cfg, o.store, c).1));
        case Finish(t, at) =>
          FinishRefines(cfg, o.store, b, Clock(p), t, at);
          ReasonsAppend(o.decisions, None);
      }
    }
  }

  /** Whether the tenant or one of its users holds a live slot for the id at the given time. */
  predicate Holds(cfg: Config, s: Store, scope: Scope, id: string, now: nat) {
    id in Live(s.Active(scope), now - cfg.SlotTtl())
  }

  /** Concurrency accounting: the live slots are exactly the requests admitted, not finished and young enough. */
  lemma SlotsAreOpenRequests(cfg: Config, es: seq<Event>, scope: Scope, now: nat, id: string)
    requires Timely(es) && Sound(cfg, es) && Clock(es) <= now
    ensures var finished := Reference(cfg, es).book.finished;
            Holds(cfg, Run(cfg, es).store, scope, id, now) <==>
            exists a :: a in Run(cfg, es).log && a.ticket.id == id && a.ticket.In(scope) &&
                        a.ticket !in finished && a.at > now - cfg.SlotTtl()
  {
    RefinesReference(cfg, es);
    HoldsOpenRequests(cfg, Run(cfg, es).store, Reference(cfg, es).book, Clock(es), scope, now, id);
  }

  lemma HoldsOpenRequests(cfg: Config, s: Store, b: Book, clock: int, scope: Scope, now: nat, id: string)
    requires SlotsMatch(cfg, s, b, clock) && UniqueIds(b.log) && clock <= now
    ensures Holds(cfg, s, scope, id, now) <==>
            exists a :: a in b.log && a.ticket.id == id && a.ticket.In(scope) &&
                        a.ticket !in b.finished && a.at > now - cfg.SlotTtl()
  {
    SlotsLater(cfg, s, b, clock, now, scope);
    SlotsExact(b.log, b.finished, scope, now - cfg.SlotTtl(), id);
  }

  /** The tenant's live slots are the union of its users' live slots. */
  lemma {:induction false} TenantSlotsAreUserSlots(cfg: Config, es: seq<Event>, tenant: string, now: nat, id: string)
    requires Timely(es) && Sound(cfg, es) && Clock(es) <= now
    ensures Holds(cfg, Run(cfg, es).store, Tenant(tenant), id, now) <==>
            exists user :: Holds(cfg, Run(cfg, es).store, User(tenant, user), id, now)
  {
    var o, finished := Run(cfg, es), Reference(cfg, es).book.finished;
    SlotsAreOpenRequests(cfg, es, Tenant(tenant), now, id);
    if Holds(cfg, o.store, Tenant(tenant), id, now) {
      var a :| a in o.log && a.ticket.id == id && a.ticket.In(Tenant(tenant)) &&
               a.ticket !in finished && a.at > now - cfg.SlotTtl();
      SlotsAreOpenRequests(cfg, es, User(tenant, a.ticket.user), now, id);
      assert a.ticket.In(User(tenant, a.ticket.user));
      assert Holds(cfg, o.store, User(tenant, a.ticket.user), id, now);
    }
    if user :| Holds(cfg, o.store, User(tenant, user), id, now) {
      SlotsAreOpenRequests(cfg, es, User(tenant, user), now, id);
      var a :| a in o.log && a.ticket.id == id && a.ticket.In(User(tenant, user)) &&
               a.ticket !in finished && a.at > now - cfg.SlotTtl();
      assert a.ticket.In(Tenant(tenant));
    }
  }

  // ------------------------------------------------------------ invisible denials

  /** Two stores that differ only in what the next check would expire. */
  ghost predicate SameLive(cfg: Config, s1: Store, s2: Store, clock: int) {
    forall scope: Scope ::
      DropExpired(s1.Records(scope), clock - cfg.Window()) == DropExpired(s2.Records(scope), clock - cfg.Window()) &&
      Live(s1.Active(scope), clock - cfg.SlotTtl()) == Live(s2.Active(scope), clock - cfg.SlotTtl())
  }

  lemma SameLater(cfg: Config, s1: Store, s2: Store, clock: int, now: int)
    requires SameLive(cfg, s1, s2, clock) && clock <= now
    ensures SameLive(cfg, s1, s2, now)
  {
    forall scope: Scope
      ensures DropExpired(s1.Records(scope), now - cfg.Window()) == DropExpired(s2.Records(scope), now - cfg.Window()) &&
              Live(s1.Active(scope), now - cfg.SlotTtl()) == Live(s2.Active(scope), now - cfg.SlotTtl())
    {
      DropTwice(s1.Records(scope), clock - cfg.Window(), now - cfg.Window());
      DropTwice(s2.Records(scope), clock - cfg.Window(), now - cfg.Window());
      LiveTwice(s1.Active(scope), clock - cfg.SlotTtl(), now - cfg.SlotTtl());
      LiveTwice(s2.Active(scope), clock - cfg.SlotTtl(), now - cfg.SlotTtl());
    }
  }

  /** A decision reads only the live part of the caller's own containers. */
  lemma DecisionReadsLive(cfg: Config, s1: Store, s2: Store, c: Call)
    requires forall scope: Scope :: c.ticket.In(scope) ==>
               DropExpired(s1.Records(scope), c.now - cfg.Window()) == DropExpired(s2.Records(scope), c.now - cfg.Window()) &&
               Live(s1.Active(scope), c.now - cfg.SlotTtl()) == Live(s2.Active(scope), c.now - cfg.SlotTtl())
    ensures CheckStep(cfg, s1, c).1 == CheckStep(cfg, s2, c).1
  {
    RefreshEffect(cfg, s1, c, c.UserScope());
    RefreshEffect(cfg, s1, c, c.TenantScope());
    RefreshEffect(cfg, s2, c, c.UserScope());
    RefreshEffect(cfg, s2, c, c.TenantScope());
  }

  lemma CheckKeepsSame(cfg: Config, s1: Store, s2: Store, clock: int, c: Call)
    requires SameLive(cfg, s1, s2, clock) && clock <= c.now
    ensures CheckStep(cfg, s1, c).1 == CheckStep(cfg, s2, c).1
    ensures SameLive(cfg, CheckStep(cfg, s1, c).0, CheckStep(cfg, s2, c).0, c.now)
  {
    SameLater(cfg, s1, s2, clock, c.now);
    DecisionReadsLive(cfg, s1, s2, c);
    forall scope: Scope
      ensures var t1, t2 := CheckStep(cfg, s1, c).0, CheckStep(cfg, s2, c).0;
              DropExpired(t1.Records(scope), c.now - cfg.Window()) == DropExpired(t2.Records(scope), c.now - cfg.Window()) &&
              Live(t1.Active(scope), c.now - cfg.SlotTtl()) == Live(t2.Active(scope), c.now - cfg.SlotTtl())
    {
      CheckEffect(cfg, s1, c, scope);
      CheckEffect(cfg, s2, c, scope);
    }
  }

  /** What a finish does to a scope of two stores that agree on it. */
  lemma FinishKeepsSameScope(cfg: Config, s1: Store, s2: Store, t: Ticket, now: int, scope: Scope)
    requires DropExpired(s1.Records(scope), now - cfg.Window()) == DropExpired(s2.Records(scope), now - cfg.Window())
    requires Live(s1.Active(scope), now - cfg.SlotTtl()) == Live(s2.Active(scope), now - cfg.SlotTtl())
    ensures var t1, t2 := FinishStep(s1, t), FinishStep(s2, t);
            DropExpired(t1.Records(scope), now - cfg.Window()) == DropExpired(t2.Records(scope), now - cfg.Window()) &&
            Live(t1.Active(scope), now - cfg.SlotTtl()) == Live(t2.Active(scope), now - cfg.SlotTtl())
  {
    FinishEffect(s1, t, scope);
    FinishEffect(s2, t, scope);
    LiveRemove(s1.Active(scope), if t.In(scope) then {t.id} else {}, now - cfg.SlotTtl());
    LiveRemove(s2.Active(scope), if t.In(scope) then {t.id} else {}, now - cfg.SlotTtl());
  }

  lemma {:induction false} FinishKeepsSame(cfg: Config, s1: Store, s2: Store, clock: int, t: Ticket, now: int)
    requires SameLive(cfg, s1, s2, clock) && clock <= now
    ensures SameLive(cfg, FinishStep(s1, t), FinishStep(s2, t), now)
  {
    SameLater(cfg, s1, s2, clock, now);
    forall scope: Scope
      ensures var t1, t2 := FinishStep(s1, t), FinishStep(s2, t);
              DropExpired(t1.Records(scope), now - cfg.Window()) == DropExpired(t2.Records(scope), now - cfg.Window()) &&
              Live(t1.Active(scope), now - cfg.SlotTtl()) == Live(t2.Active(scope), now - cfg.SlotTtl())
    {
      FinishKeepsSameScope(cfg, s1, s2, t, now, scope);
    }
  }

  /** What a denied check leaves of a scope is what was live in it. */
  lemma DeniedLeavesLive(cfg: Config, s: Store, c: Call, scope: Scope)
    requires !CheckStep(cfg, s, c).1.allowed
    ensures var t := CheckStep(cfg, s, c).0;
            DropExpired(t.Records(scope), c.now - cfg.Window()) == DropExpired(s.Records(scope), c.now - cfg.Window()) &&
            Live(t.Active(scope), c.now - cfg.SlotTtl()) == Live(s.Active(scope), c.now - cfg.SlotTtl())
  {
    CheckEffect(cfg, s, c, scope);
    DropTwice(s.Records(scope), c.now - cfg.Window(), c.now - cfg.Window());
    LiveTwice(s.Active(scope), c.now - cfg.SlotTtl(), c.now - cfg.SlotTtl());
  }

  /** A denied check only expires: the store it leaves is live-equal to the one it found. */
  lemma DeniedChangesNothingLive(cfg: Config, s1: Store, s2: Store, clock: int, c: Call)
    requires SameLive(cfg, s1, s2, clock) && clock <= c.now && !CheckStep(cfg, s1, c).1.allowed
    ensures SameLive(cfg, CheckStep(cfg, s1, c).0, s2, c.now)
  {
    SameLater(cfg, s1, s2, clock, c.now);
    forall scope: Scope
      ensures var t1 := CheckStep(cfg, s1, c).0;
              DropExpired(t1.Records(scope), c.now - cfg.Window()) == DropExpired(s2.Records(scope), c.now - cfg.Window()) &&
              Live(t1.Active(scope), c.now - cfg.SlotTtl()) == Live(s2.Active(scope), c.now - cfg.SlotTtl())
    {
      DeniedLeavesLive(cfg, s1, c, scope);
    }
  }

  /** An event that both runs have gets the same answer in both. */
  lemma KeptStep(cfg: Config, o: Outcome, o': Outcome, clock: int, e: Event)
    requires SameLive(cfg, o.store, o'.store, clock) && clock <= e.Time()
    ensures SameLive(cfg, Step(cfg, o, e).store, Step(cfg, o', e).store, e.Time())
    ensures exists d :: Step(cfg, o, e).decisions == o.decisions + [d] && Step(cfg, o', e).decisions == o'.decisions + [d]
  {
    match e {
      case Check(c) => CheckKeepsSame(cfg, o.store, o'.store, clock, c);
      case Finish(t, at) => FinishKeepsSame(cfg, o.store, o'.store, clock, t, at);
    }
  }

  /** Every event left out of `keep` is a check that the run denied. */
  ghost predicate DropsOnlyDenied(cfg: Config, es: seq<Event>, keep: seq<bool>)
    requires |keep| == |es|
  {
    forall i :: 0 <= i < |es| && !keep[i] ==>
      Run(cfg, es).decisions[i].Some? && !Run(cfg, es).decisions[i].value.allowed
  }

  /**
    Denied checks are invisible: deleting any denied calls from a run leaves the flag, the reason
    and the retry time of every other call as they were.
   */
  lemma {:induction false} DeniedChecksInvisible(cfg: Config, es: seq<Event>, keep: seq<bool>)
    requires |keep| == |es| && Timely(es) && DropsOnlyDenied(cfg, es, keep)
    ensures Run(cfg, Pick(es, keep)).decisions == Pick(Run(cfg, es).decisions, keep)
    ensures SameLive(cfg, Run(cfg, es).store, Run(cfg, Pick(es, keep)).store, Clock(es))
  {
    if es != [] {
      var n := |es| - 1;
      var p, e := es[..n], es[n];
      var o := Run(cfg, p);
      assert Run(cfg, es).decisions[..n] == o.decisions;
      DeniedChecksInvisible(cfg, p, keep[..n]);
      var thin := Pick(p, keep[..n]);
      var o' := Run(cfg, thin);
      assert Clock(p) <= e.Time();
      if keep[n] {
        assert (thin + [e])[..|thin|] == thin;
        KeptStep(cfg, o, o', Clock(p), e);
      } else {
        assert Run(cfg, es).decisions[n].Some?;
        DeniedChangesNothingLive(cfg, o.store, o'.store, Clock(p), e.call);
      }
    }
  }

  // ------------------------------------------------------------ tenant isolation

  /** Two stores that agree on everything one tenant owns. */
  ghost predicate Agree(s1: Store, s2: Store, tenant: string) {
    forall scope: Scope :: scope.tenant == tenant ==>
      s1.Records(scope) == s2.Records(scope) && s1.Active(scope) == s2.Active(scope)
  }

  lemma StepKeepsAgreement(cfg: Config, o1: Outcome, o2: Outcome, e: Event, tenant: string)
    requires Agree(o1.store, o2.store, tenant)
    ensures e.TenantId() == tenant ==> Agree(Step(cfg, o1, e).store, Step(cfg, o2, e).store, tenant)
    ensures e.TenantId() != tenant ==> Agree(Step(cfg, o1, e).store, o2.store, tenant)
    ensures e.Check? && e.TenantId() == tenant ==> CheckStep(cfg, o1.store, e.call).1 == CheckStep(cfg, o2.store, e.call).1
  {
    var s1, s2 := o1.store, o2.store;
    match e {
      case Check(c) =>
        if c.ticket.tenant == tenant { DecisionReadsLive(cfg, s1, s2, c); }
        forall scope: Scope | scope.tenant == tenant
          ensures CheckStep(cfg, s1, c).0.Records(scope) ==
                  (if c.ticket.tenant == tenant then CheckStep(cfg, s2, c).0.Records(scope) else s2.Records(scope))
          ensures CheckStep(cfg, s1, c).0.Active(scope) ==
                  (if c.ticket.tenant == tenant then CheckStep(cfg, s2, c).0.Active(scope) else s2.Active(scope))
        {
          CheckEffect(cfg, s1, c, scope);
          CheckEffect(cfg, s2, c, scope);
        }
      case Finish(t, at) =>
        forall scope: Scope | scope.tenant == tenant
          ensures FinishStep(s1, t).Records(scope) == FinishStep(s2, t).Records(scope) == s2.Records(scope)
          ensures FinishStep(s1, t).Active(scope) ==
                  (if t.tenant == tenant then FinishStep(s2, t).Active(scope) else s2.Active(scope))
        {
          FinishEffect(s1, t, scope);
          FinishEffect(s2, t, scope);
        }
    }
  }

  function OfTenant(es: seq<Event>, tenant: string): seq<bool> {
    seq(|es|, i requires 0 <= i < |es| => es[i].TenantId() == tenant)
  }

  /** Tenant non-interference: a tenant's decisions are those of a run with every other tenant's calls removed. */
  lemma {:induction false} OtherTenantsInvisible(cfg: Config, es: seq<Event>, tenant: string)
    ensures var keep := OfTenant(es, tenant);
            Run(cfg, Pick(es, keep)).decisions == Pick(Run(cfg, es).decisions, keep) &&
            Agree(Run(cfg, es).store, Run(cfg, Pick(es, keep)).store, tenant)
  {
    if es != [] {
      var n := |es| - 1;
      var p, e, keep := es[..n], es[n], OfTenant(es, tenant);
      OtherTenantsInvisible(cfg, p, tenant);
      assert keep[..n] == OfTenant(p, tenant);
      var thin := Pick(p, keep[..n]);
      assert Run(cfg, es).decisions[..n] == Run(cfg, p).decisions;
      StepKeepsAgreement(cfg, Run(cfg, p), Run(cfg, thin), e, tenant);
      if keep[n] {
        assert (thin + [e])[..|thin|] == thin;
      }
    }
  }

  // ------------------------------------------------------------ retry time

  /** The oldest record a refused caller is told to wait for is the oldest of the full window. */
  lemma RetryFromOldest(cfg: Config, s: Store, h: seq<Admission>, clock: nat, c: Call, scope: Scope)
    requires RecordsMatch(cfg, s, h, clock) && Ordered(h, clock) && clock <= c.now && c.ticket.In(scope)
    requires Window(h, {}, scope, c.now - cfg.Window()) != []
    ensures var left := cfg.Window() - (c.now - Window(h, {}, scope, c.now - cfg.Window())[0].at);
            RetryAfter(cfg, Refresh(cfg, s, c).Records(scope), c.now) == (if left < 1000 then 1 else left / 1000)
  {
    RefreshEffect(cfg, s, c, scope);
    RecordsLater(cfg, s, h, clock, c.now, scope);
    AsRecordsAt(Window(h, {}, scope, c.now - cfg.Window()));
  }

  /** The reason a full request window of the scope is refused with. */
  function FullReason(scope: Scope): Reason {
    if scope.User? then UserRequests else TenantRequests
  }

  lemma RefusedIsFull(cfg: Config, s: Store, h: seq<Admission>, clock: nat, c: Call, scope: Scope, limit: pos)
    requires RecordsMatch(cfg, s, h, clock) && Ordered(h, clock) && clock <= c.now
    requires c.ticket.In(scope) && c.limits.requests == Some(limit)
    requires CheckStep(cfg, s, c).1.reason == FullReason(scope)
    ensures |Window(h, {}, scope, c.now - cfg.Window())| >= limit
    ensures CheckStep(cfg, s, c).1.retryAfter == Some(RetryAfter(cfg, Refresh(cfg, s, c).Records(scope), c.now))
  {
    LoadFromHistory(cfg, s, h, clock, c);
    assert scope == c.UserScope() || scope == c.TenantScope();
  }

  lemma RoundedDown(left: nat)
    requires left >= 1
    ensures left <= 1000 * (if left < 1000 then 1 else left / 1000) <==> left <= 1000 || left % 1000 == 0
  {
  }

  /** A retry time long enough exactly when at most a second, or a whole number of seconds, was left. */
  ghost predicate RoundedRetry(cfg: Config, h: seq<Admission>, t: Ticket, scope: Scope, limit: pos, now: nat, retry: nat) {
    var full := Window(h, {}, scope, now - cfg.Window());
    full != [] &&
    var left := cfg.Window() - (now - full[0].at);
    RequestsPass(cfg, h, t, limit, now + 1000 * retry) <==> left <= 1000 || left % 1000 == 0
  }

  lemma RetryFromHistory(cfg: Config, h: seq<Admission>, t: Ticket, scope: Scope, l: Limits, now: nat)
    requires Ordered(h, now) && Earned(cfg, h, t.tenant, l) && l.requests.Some? && t.In(scope)
    requires |Window(h, {}, scope, now - cfg.Window())| >= l.requests.value
    ensures var left := cfg.Window() - (now - Window(h, {}, scope, now - cfg.Window())[0].at);
            RoundedRetry(cfg, h, t, scope, l.requests.value, now, if left < 1000 then 1 else left / 1000)
  {
    var full := Window(h, {}, scope, now - cfg.Window());
    var left := cfg.Window() - (now - full[0].at);
    BoundAtEveryInstant(cfg, h, l, Tenant(t.tenant), now);
    WindowIsBetween(h, Tenant(t.tenant), now - cfg.Window(), now);
    WindowMember(h, {}, scope, now - cfg.Window(), full[0]);
    WaitExactly(cfg, h, t, scope, l.requests.value, now, 1000 * (if left < 1000 then 1 else left / 1000));
    RoundedDown(left);
  }

  lemma {:induction false} RetryFromState(cfg: Config, s: Store, h: seq<Admission>, clock: nat, l: Limits, c: Call, scope: Scope)
    requires RecordsMatch(cfg, s, h, clock) && Ordered(h, clock) && clock <= c.now
    requires Earned(cfg, h, c.ticket.tenant, l) && c.limits == l && l.requests.Some? && c.ticket.In(scope)
    requires CheckStep(cfg, s, c).1.reason == FullReason(scope)
    ensures CheckStep(cfg, s, c).1.retryAfter.Some?
    ensures RoundedRetry(cfg, h, c.ticket, scope, l.requests.value, c.now, CheckStep(cfg, s, c).1.retryAfter.value)
  {
    RetryValue(cfg, s, h, clock, c, scope, l.requests.value);
    assert Ordered(h, c.now) by { StillOrdered(h, clock, c.AsAdmission()); }
    RetryFromHistory(cfg, h, c.ticket, scope, l, c.now);
  }

  /** The retry time of a refusal for a full request window, read off the history. */
  lemma RetryValue(cfg: Config, s: Store, h: seq<Admission>, clock: nat, c: Call, scope: Scope, limit: pos)
    requires RecordsMatch(cfg, s, h, clock) && Ordered(h, clock) && clock <= c.now
    requires c.ticket.In(scope) && c.limits.requests == Some(limit) && CheckStep(cfg, s, c).1.reason == FullReason(scope)
    ensures |Window(h, {}, scope, c.now - cfg.Window())| >= limit
    ensures var left := cfg.Window() - (c.now - Window(h, {}, scope, c.now - cfg.Window())[0].at);
            CheckStep(cfg, s, c).1.retryAfter == Some(if left < 1000 then 1 else left / 1000)
  {
    RefusedIsFull(cfg, s, h, clock, c, scope, limit);
    RetryFromOldest(cfg, s, h, clock, c, scope);
  }

  /** The in-memory retry time rounds down, so it can be too short: exactly when it is, and when not. */
  lemma {:induction false} RetryLongEnough(cfg: Config, es: seq<Event>, o: Outcome, l: Limits, c: Call, scope: Scope)
    requires o == Run(cfg, es)
    requires Timely(es) && FixedLimits(es, c.ticket.tenant, l) && Clock(es) <= c.now
    requires c.limits == l && l.requests.Some? && c.ticket.In(scope)
    requires CheckStep(cfg, o.store, c).1.reason == FullReason(scope)
    ensures CheckStep(cfg, o.store, c).1.retryAfter.Some?
    ensures RoundedRetry(cfg, o.log, c.ticket, scope, l.requests.value, c.now, CheckStep(cfg, o.store, c).1.retryAfter.value)
  {
    DequesAreHistory(cfg, es);
    RunEarned(cfg, es, c.ticket.tenant, l);
    RetryFromState(cfg, o.store, o.log, Clock(es), l, c, scope);
  }

  /** The time until the oldest admission of the scope leaves the window, rounded down to seconds but at least one; all of it if there is none. */
  ghost predicate TimeRoundedDown(cfg: Config, log: seq<Admission>, scope: Scope, now: nat, retry: Option<nat>) {
    var w := Window(log, {}, scope, now - 1000 * cfg.windowSeconds);
    if w == [] then retry == Some(cfg.windowSeconds)
    else
      var left := w[0].at + 1000 * cfg.windowSeconds - now;
      retry == Some(if left < 1000 then 1 else left / 1000)
  }

  lemma RetryOfScope(cfg: Config, s: Store, h: seq<Admission>, clock: nat, c: Call, scope: Scope)
    requires RecordsMatch(cfg, s, h, clock) && Ordered(h, clock) && clock <= c.now && c.ticket.In(scope)
    ensures TimeRoundedDown(cfg, h, scope, c.now, Some(RetryAfter(cfg, Refresh(cfg, s, c).Records(scope), c.now)))
  {
    if Window(h, {}, scope, c.now - cfg.Window()) != [] {
      RetryFromOldest(cfg, s, h, clock, c, scope);
    } else {
      RefreshEffect(cfg, s, c, scope);
      RecordsLater(cfg, s, h, clock, c.now, scope);
    }
  }

  /** Which answer goes with which reason. */
  ghost predicate AnsweredFromLog(cfg: Config, log: seq<Admission>, c: Call, d: Decision) {
    match d.reason
    case Admitted => d == Decision(true, 200, Admitted, None)
    case UserConcurrency => d == Decision(false, 429, UserConcurrency, Some(1))
    case TenantConcurrency => d == Decision(false, 429, TenantConcurrency, Some(1))
    case UserRequests => !d.allowed && d.status == 429 && TimeRoundedDown(cfg, log, User(c.ticket.tenant, c.ticket.user), c.now, d.retryAfter)
    case UserInputTokens => !d.allowed && d.status == 429 && TimeRoundedDown(cfg, log, User(c.ticket.tenant, c.ticket.user), c.now, d.retryAfter)
    case TenantRequests => !d.allowed && d.status == 429 && TimeRoundedDown(cfg, log, Tenant(c.ticket.tenant), c.now, d.retryAfter)
    case TenantInputTokens => !d.allowed && d.status == 429 && TimeRoundedDown(cfg, log, Tenant(c.ticket.tenant), c.now, d.retryAfter)
    case BackendUnavailable => false
  }

  lemma {:induction false} StoreAnswers(cfg: Config, s: Store, h: seq<Admission>, clock: nat, c: Call)
    requires RecordsMatch(cfg, s, h, clock) && Ordered(h, clock) && clock <= c.now
    ensures AnsweredFromLog(cfg, h, c, CheckStep(cfg, s, c).1)
  {
    RetryOfScope(cfg, s, h, clock, c, c.UserScope());
    RetryOfScope(cfg, s, h, clock, c, c.TenantScope());
  }

  lemma {:induction false} StoreExplains(cfg: Config, s: Store, h: seq<Admission>, clock: nat, c: Call, cutoff: int)
    requires RecordsMatch(cfg, s, h, clock) && Ordered(h, clock) && clock <= c.now && cutoff == c.now - cfg.Window()
    ensures ExplainedByLog(cfg, h, c, CheckStep(cfg, s, c).1.reason)
  {
    LoadFromHistory(cfg, s, h, clock, c);
    JudgedByWindows(c.limits, LoadOf(Refresh(cfg, s, c), c), c.Tokens(), Window(h, {}, c.UserScope(), cutoff),
                    Window(h, {}, c.TenantScope(), cutoff));
  }

  /**
    Every answer of a run, told by the admitted history. Which request or token limit refuses it, if none of concurrency
    does, is read off the windows of its user and tenant. An admission is 200; a refusal is 429 and after a request or
    token refusal of the user (or tenant) names the time until the oldest admission of that user's (or tenant's)
    window leaves it, rounded down but at least a second, and after a concurrency refusal one second.
   */
  lemma {:induction false} AnswersAreTold(cfg: Config, es: seq<Event>, c: Call)
    requires Timely(es) && Clock(es) <= c.now
    ensures AnsweredFromLog(cfg, Run(cfg, es).log, c, CheckStep(cfg, Run(cfg, es).store, c).1)
    ensures ExplainedByLog(cfg, Run(cfg, es).log, c, CheckStep(cfg, Run(cfg, es).store, c).1.reason)
  {
    DequesAreHistory(cfg, es);
    StoreAnswers(cfg, Run(cfg, es).store, Run(cfg, es).log, Clock(es), c);
    StoreExplains(cfg, Run(cfg, es).store, Run(cfg, es).log, Clock(es), c, c.now - cfg.Window());
  }

  const ONE_REQUEST := Limits(Some(1), None, None)

  /** With a limit of one, a record that is still in the window refuses the user's next request. */
  lemma RefusedWhileYoung(cfg: Config, s: Store, c: Call, first: UsageRecord)
    requires c.limits == ONE_REQUEST && s.Records(c.UserScope()) == [first] && c.now - cfg.Window() < first.at
    ensures CheckStep(cfg, s, c).1 == Deny(UserRequests, RetryAfter(cfg, [first], c.now))
    ensures CheckStep(cfg, s, c).0.Records(c.UserScope()) == [first]
  {
    RefreshEffect(cfg, s, c, c.UserScope());
    assert DropExpired([first], c.now - cfg.Window()) == [first];
  }

  lemma FirstIsRecorded(cfg: Config, c: Call)
    requires c.limits == ONE_REQUEST
    ensures CheckStep(cfg, EMPTY_STORE, c).1 == Allow()
    ensures CheckStep(cfg, EMPTY_STORE, c).0.Records(c.UserScope()) == [UsageRecord(c.now, c.Tokens())]
  {
    RefreshEffect(cfg, EMPTY_STORE, c, c.UserScope());
    RefreshEffect(cfg, EMPTY_STORE, c, c.TenantScope());
    CheckEffect(cfg, EMPTY_STORE, c, c.UserScope());
  }

  lemma RunAppend(cfg: Config, es: seq<Event>, e: Event)
    ensures Run(cfg, es + [e]) == Step(cfg, Run(cfg, es), e)
  {
    assert (es + [e])[..|es|] == es;
  }

  lemma ThreeChecks(cfg: Config, c1: Call, c2: Call, c3: Call)
    ensures var s1 := CheckStep(cfg, EMPTY_STORE, c1).0;
            var s2 := CheckStep(cfg, s1, c2).0;
            Run(cfg, [] + [Check(c1)] + [Check(c2)] + [Check(c3)]).decisions ==
            [Some(CheckStep(cfg, EMPTY_STORE, c1).1), Some(CheckStep(cfg, s1, c2).1), Some(CheckStep(cfg, s2, c3).1)]
  {
    RunAppend(cfg, [], Check(c1));
    RunAppend(cfg, [] + [Check(c1)], Check(c2));
    RunAppend(cfg, [] + [Check(c1)] + [Check(c2)], Check(c3));
  }

  lemma RetryNumbers(cfg: Config, first: UsageRecord)
    requires cfg.windowSeconds >= 2
    ensures RetryAfter(cfg, [first], first.at + 500) == cfg.windowSeconds - 1
    ensures RetryAfter(cfg, [first], first.at + 500 + 1000 * (cfg.windowSeconds - 1)) == 1
  {
  }

  /** The three answers, of the same user at the three times. */
  lemma WaitedStates(cfg: Config, c1: Call, c2: Call, c3: Call, s1: Store, s2: Store)
    requires c1.limits == c2.limits == c3.limits == ONE_REQUEST && cfg.windowSeconds >= 2
    requires c1.UserScope() == c2.UserScope() == c3.UserScope()
    requires c2.now == c1.now + 500 && c3.now == c2.now + 1000 * (cfg.windowSeconds - 1)
    requires s1 == CheckStep(cfg, EMPTY_STORE, c1).0 && s2 == CheckStep(cfg, s1, c2).0
    ensures CheckStep(cfg, EMPTY_STORE, c1).1 == Allow()
    ensures CheckStep(cfg, s1, c2).1 == Deny(UserRequests, cfg.windowSeconds - 1)
    ensures CheckStep(cfg, s2, c3).1 == Deny(UserRequests, 1)
  {
    var first := UsageRecord(c1.now, c1.Tokens());
    FirstIsRecorded(cfg, c1);
    RetryNumbers(cfg, first);
    RefusedWhileYoung(cfg, s1, c2, first);
    RefusedWhileYoung(cfg, s2, c3, first);
  }

  /**
    A caller who waits as told can be refused again: with one request allowed per window, one is admitted, the next
    comes half a second later and is told to wait a whole number of seconds, and after exactly that wait the
    caller is still refused.
   */
  lemma {:induction false} WaitedAndRefused(cfg: Config, c1: Call, c2: Call, c3: Call)
    requires c1.limits == c2.limits == c3.limits == ONE_REQUEST && cfg.windowSeconds >= 2
    requires c1.UserScope() == c2.UserScope() == c3.UserScope()
    requires c2.now == c1.now + 500 && c3.now == c2.now + 1000 * (cfg.windowSeconds - 1)
    ensures Run(cfg, [] + [Check(c1)] + [Check(c2)] + [Check(c3)]).decisions ==
            [Some(Allow()), Some(Deny(UserRequests, cfg.windowSeconds - 1)), Some(Deny(UserRequests, 1))]
  {
    var s1 := CheckStep(cfg, EMPTY_STORE, c1).0;
    ThreeChecks(cfg, c1, c2, c3);
    WaitedStates(cfg, c1, c2, c3, s1, CheckStep(cfg, s1, c2).0);
  }
}
