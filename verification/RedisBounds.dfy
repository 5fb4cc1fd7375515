/** The limits over whole Redis runs. */
module RedisBounds {
  import opened Options
  import opened QuotaLog
  import opened RedisKeys
  import opened RedisQuota
  import opened RedisRefinement
  import opened RedisReuse
  import MemoryRuns
  import OpenRequests

  /** What the scripts admit is what the reference admits. */
  lemma {:induction false} AdmittedIsReference(cfg: Config, prefix: string, es: seq<Event>)
    requires Timely(es) && Sound(cfg, es) && Plain(es)
    ensures AdmittedLog(cfg, prefix, es) == Reference(cfg, es).book.log
  {
    if es != [] {
      var n := |es| - 1;
      var p := es[..n];
      AdmittedIsReference(cfg, prefix, p);
      RefinesReference(cfg, prefix, es);
      var d := Run(cfg, prefix, es).decisions[n];
      assert MemoryRuns.Reasons(Run(cfg, prefix, es).decisions)[n] == Reference(cfg, es).verdicts[n];
    }
  }

  /**
    Sliding-window bound: over any Redis run with fresh ids, in every interval (t - window, t], a tenant and
    each of its users had at most the allowed number of requests and input tokens admitted.
   */
  lemma {:induction false} WindowBound(cfg: Config, prefix: string, es: seq<Event>, l: Limits, scope: Scope, t: int)
    requires Timely(es) && Sound(cfg, es) && Plain(es) && FixedLimits(es, scope.tenant, l)
    ensures var burst := Between(AdmittedLog(cfg, prefix, es), scope, t - 1000 * cfg.windowSeconds, t);
            (l.requests.Some? ==> |burst| <= l.requests.value) &&
            (l.inputTokens.Some? ==> TokenSum(burst) <= l.inputTokens.value)
  {
    AdmittedIsReference(cfg, prefix, es);
    MemoryRuns.RefinesReference(cfg, es);
    MemoryRuns.WindowBound(cfg, es, l, scope, t);
  }

  // ---------------------------------------------------------------- concurrency

  lemma LiveSize(z: ZSet, cutoff: int)
    ensures |Live(z, cutoff)| <= |z|
  {
    SubsetSize(Live(z, cutoff).Keys, z.Keys);
  }

  /** What a check leaves in a slot set: no more than before, or one more than what was live and below the limit. */
  lemma SlotSetBounded(cfg: Config, z: ZSet, role: Option<Kind>, a: Admission, allowed: bool, limit: nat)
    requires |z| <= limit && (role.Some? ==> role.value == Slots)
    requires role.Some? && allowed ==> |PurgedSet(cfg, z, role, a.at)| < limit
    ensures |SetAfter(cfg, z, role, a, allowed)| <= limit
  {
    if role.Some? {
      var live := PurgedSet(cfg, z, role, a.at);
      LiveSize(z, a.at - cfg.Span(Slots));
      assert live[Name(Slots, a) := a.at].Keys == live.Keys + {Name(Slots, a)};
    }
  }

  /** An admitted call found its two slot sets below the limit. */
  lemma AdmittedHadRoom(cfg: Config, ks: Keys, db: Db, c: Call, key: string)
    requires ks.Separate() && ks.Role(key) == Some(Slots) && CheckStep(cfg, ks, db, c).1.allowed && c.limits.concurrent.Some?
    ensures |PurgedSet(cfg, db.Members(key), ks.Role(key), c.now)| < c.limits.concurrent.value
  {
    PurgeEffect(cfg, ks, db, c.now, key);
    assert key == ks.userSlots || key == ks.tenantSlots;
  }

  lemma CheckKeepsSlotBound(cfg: Config, prefix: string, ks: Keys, db: Db, c: Call, scope: Scope, limit: nat)
    requires Serves(ks, prefix, c.ticket) && |Set(prefix, db, Slots, scope)| <= limit
    requires Touches(c.ticket, scope) ==> c.limits.concurrent.Some? && c.limits.concurrent.value == limit
    ensures |Set(prefix, CheckStep(cfg, ks, db, c).0, Slots, scope)| <= limit
  {
    var key := Key(prefix, Slots, scope);
    CheckEffect(cfg, ks, db, c, key);
    if ks.Role(key).Some? && CheckStep(cfg, ks, db, c).1.allowed {
      AdmittedHadRoom(cfg, ks, db, c, key);
    }
    SlotSetBounded(cfg, db.Members(key), ks.Role(key), c.AsAdmission(), CheckStep(cfg, ks, db, c).1.allowed, limit);
  }

  lemma FinishKeepsSlotBound(cfg: Config, prefix: string, ks: Keys, db: Db, t: Ticket, now: nat, scope: Scope, limit: nat)
    requires Serves(ks, prefix, t) && |Set(prefix, db, Slots, scope)| <= limit
    ensures |Set(prefix, FinishStep(cfg, ks, db, t.id, now), Slots, scope)| <= limit
  {
    FinishEffect(cfg, ks, db, t.id, now, Key(prefix, Slots, scope));
    var z := Set(prefix, db, Slots, scope);
    SubsetSize((z - {t.id}).Keys, z.Keys);
  }

  /** Every check that reads or writes the scope's sets carries these limits. */
  ghost predicate TouchingLimits(es: seq<Event>, scope: Scope, l: Limits) {
    forall i :: 0 <= i < |es| && es[i].Check? && Touches(es[i].call.ticket, scope) ==> es[i].call.limits == l
  }

  /** Over any Redis run, with any ids, no user and no tenant ever has more slots than the limit. */
  lemma {:induction false} ConcurrencyBound(cfg: Config, prefix: string, es: seq<Event>, l: Limits, scope: Scope)
    requires TouchingLimits(es, scope, l) && l.concurrent.Some?
    ensures |Set(prefix, Run(cfg, prefix, es).db, Slots, scope)| <= l.concurrent.value
  {
    if es != [] {
      var p, e := es[..|es| - 1], es[|es| - 1];
      ConcurrencyBound(cfg, prefix, p, l, scope);
      var db := Run(cfg, prefix, p).db;
      match e {
        case Check(c) =>
          KeysServe(prefix, c.ticket);
          CheckKeepsSlotBound(cfg, prefix, KeysOf(prefix, c.ticket), db, c, scope, l.concurrent.value);
        case Finish(t, at) =>
          KeysServe(prefix, t);
          FinishKeepsSlotBound(cfg, prefix, KeysOf(prefix, t), db, t, at, scope, l.concurrent.value);
      }
    }
  }

  /** With colon-free tenant ids the scope's sets are touched by its own tenant alone. */
  lemma OwnLimits(es: seq<Event>, scope: Scope, l: Limits)
    requires RedisReuse.AllColonFree(es) && ColonFree(scope.tenant) && FixedLimits(es, scope.tenant, l)
    ensures TouchingLimits(es, scope, l)
  {
    forall i | 0 <= i < |es| && es[i].Check? && Touches(es[i].call.ticket, scope) ensures es[i].call.limits == l {
      assert ColonFree(es[i].TenantId());
      TouchesOwn(es[i].call.ticket, scope);
    }
  }

  /** With fresh ids, at no time are more requests in progress, admitted by the scripts and not finished, than the limit allows. */
  lemma {:induction false} InProgressBound(cfg: Config, prefix: string, es: seq<Event>, l: Limits, scope: Scope, now: nat)
    requires Timely(es) && Sound(cfg, es) && Plain(es) && FixedLimits(es, scope.tenant, l) && l.concurrent.Some? && Clock(es) <= now
    ensures |OpenRequests.Unfinished(cfg, AdmittedLog(cfg, prefix, es), Reference(cfg, es).book.finished, scope, now)| <= l.concurrent.value
  {
    AdmittedIsReference(cfg, prefix, es);
    MemoryRuns.RefinesReference(cfg, es);
    OpenRequests.InProgressBound(cfg, es, l, scope, now);
  }
}
