/** Redis dropping expired keys: no decision depends on it as long as heartbeats beat the key lifetime. */
module RedisEvictions {
  import opened Options
  import opened QuotaLog
  import opened RedisKeys
  import opened RedisQuota
  import opened RedisRefinement
  import opened RedisLifetimes

  /** The first store differs from the second only in lacking members as old as a key's lifetime. */
  ghost predicate Shadowed(cfg: Config, prefix: string, db1: Db, db2: Db, clock: int) {
    forall kind: Kind, scope: Scope ::
      SetBehind(Set(prefix, db1, kind, scope), Set(prefix, db2, kind, scope), clock - KeyTtl(cfg))
  }

  lemma ShadowedIsBehind(cfg: Config, prefix: string, db1: Db, db2: Db, clock: int)
    requires Shadowed(cfg, prefix, db1, db2, clock)
    ensures Behind(cfg, prefix, db1, db2, clock)
  {
    forall kind: Kind, scope: Scope
      ensures SetBehind(Set(prefix, db1, kind, scope), Set(prefix, db2, kind, scope), clock - cfg.Span(kind))
    {
      SetBehindLater(Set(prefix, db1, kind, scope), Set(prefix, db2, kind, scope), clock - KeyTtl(cfg), clock - cfg.Span(kind));
    }
  }

  lemma ShadowedLater(cfg: Config, prefix: string, db1: Db, db2: Db, clock: int, now: int)
    requires Shadowed(cfg, prefix, db1, db2, clock) && clock <= now
    ensures Shadowed(cfg, prefix, db1, db2, now)
  {
    forall kind: Kind, scope: Scope
      ensures SetBehind(Set(prefix, db1, kind, scope), Set(prefix, db2, kind, scope), now - KeyTtl(cfg))
    {
      SetBehindLater(Set(prefix, db1, kind, scope), Set(prefix, db2, kind, scope), clock - KeyTtl(cfg), now - KeyTtl(cfg));
    }
  }

  /** A check makes the sets it serves equal, because it purges more than keys outlive. */
  lemma AfterKeepsShadow(cfg: Config, z1: ZSet, z2: ZSet, role: Option<Kind>, kind: Kind, a: Admission, allowed: bool)
    requires SetBehind(z1, z2, a.at - KeyTtl(cfg)) && (role.Some? ==> role.value == kind)
    ensures SetBehind(SetAfter(cfg, z1, role, a, allowed), SetAfter(cfg, z2, role, a, allowed), a.at - KeyTtl(cfg))
  {
    SetBehindLater(z1, z2, a.at - KeyTtl(cfg), a.at - cfg.Span(kind));
  }

  lemma StepKeepsShadow(cfg: Config, prefix: string, ks: Keys, t: Ticket, db1: Db, db2: Db, after1: Db, after2: Db,
                        a: Admission, allowed: bool)
    requires Shadowed(cfg, prefix, db1, db2, a.at) && Serves(ks, prefix, t)
    requires forall k :: after1.Members(k) == SetAfter(cfg, db1.Members(k), ks.Role(k), a, allowed)
    requires forall k :: after2.Members(k) == SetAfter(cfg, db2.Members(k), ks.Role(k), a, allowed)
    ensures Shadowed(cfg, prefix, after1, after2, a.at)
  {
    forall kind: Kind, scope: Scope
      ensures SetBehind(Set(prefix, after1, kind, scope), Set(prefix, after2, kind, scope), a.at - KeyTtl(cfg))
    {
      var k := Key(prefix, kind, scope);
      assert SetBehind(Set(prefix, db1, kind, scope), Set(prefix, db2, kind, scope), a.at - KeyTtl(cfg));
      AfterKeepsShadow(cfg, db1.Members(k), db2.Members(k), ks.Role(k), kind, a, allowed);
    }
  }

  lemma CheckKeepsShadow(cfg: Config, prefix: string, db1: Db, db2: Db, clock: int, c: Call)
    requires Shadowed(cfg, prefix, db1, db2, clock) && clock <= c.now
    ensures var ks := KeysOf(prefix, c.ticket);
            CheckStep(cfg, ks, db1, c).1 == CheckStep(cfg, ks, db2, c).1 &&
            Shadowed(cfg, prefix, CheckStep(cfg, ks, db1, c).0, CheckStep(cfg, ks, db2, c).0, c.now)
  {
    var ks := KeysOf(prefix, c.ticket);
    KeysServe(prefix, c.ticket);
    ShadowedLater(cfg, prefix, db1, db2, clock, c.now);
    ShadowedIsBehind(cfg, prefix, db1, db2, c.now);
    SameReply(cfg, prefix, ks, db1, db2, c);
    ChecksEffect(cfg, ks, db1, db2, c);
    StepKeepsShadow(cfg, prefix, ks, c.ticket, db1, db2, CheckStep(cfg, ks, db1, c).0, CheckStep(cfg, ks, db2, c).0,
                    c.AsAdmission(), CheckStep(cfg, ks, db1, c).1.allowed);
  }

  lemma ChecksEffect(cfg: Config, ks: Keys, db1: Db, db2: Db, c: Call)
    requires ks.Separate() && CheckStep(cfg, ks, db1, c).1 == CheckStep(cfg, ks, db2, c).1
    ensures var allowed := CheckStep(cfg, ks, db1, c).1.allowed;
            (forall k :: CheckStep(cfg, ks, db1, c).0.Members(k) == SetAfter(cfg, db1.Members(k), ks.Role(k), c.AsAdmission(), allowed)) &&
            (forall k :: CheckStep(cfg, ks, db2, c).0.Members(k) == SetAfter(cfg, db2.Members(k), ks.Role(k), c.AsAdmission(), allowed))
  {
    forall k
      ensures CheckStep(cfg, ks, db1, c).0.Members(k) ==
              SetAfter(cfg, db1.Members(k), ks.Role(k), c.AsAdmission(), CheckStep(cfg, ks, db1, c).1.allowed)
      ensures CheckStep(cfg, ks, db2, c).0.Members(k) ==
              SetAfter(cfg, db2.Members(k), ks.Role(k), c.AsAdmission(), CheckStep(cfg, ks, db2, c).1.allowed)
    {
      CheckEffect(cfg, ks, db1, c, k);
      CheckEffect(cfg, ks, db2, c, k);
    }
  }

  lemma ServedFinishKeepsShadow(cfg: Config, prefix: string, ks: Keys, db1: Db, db2: Db, t: Ticket, now: nat)
    requires Shadowed(cfg, prefix, db1, db2, now) && Serves(ks, prefix, t)
    ensures Shadowed(cfg, prefix, FinishStep(cfg, ks, db1, t.id, now), FinishStep(cfg, ks, db2, t.id, now), now)
  {
    forall kind: Kind, scope: Scope
      ensures SetBehind(Set(prefix, FinishStep(cfg, ks, db1, t.id, now), kind, scope),
                        Set(prefix, FinishStep(cfg, ks, db2, t.id, now), kind, scope), now - KeyTtl(cfg))
    {
      assert SetBehind(Set(prefix, db1, kind, scope), Set(prefix, db2, kind, scope), now - KeyTtl(cfg));
      FinishKeepsOne(cfg, ks, db1, db2, t.id, now, Key(prefix, kind, scope), now - KeyTtl(cfg));
    }
  }

  lemma {:induction false} FinishKeepsShadow(cfg: Config, prefix: string, db1: Db, db2: Db, clock: int, t: Ticket, now: nat)
    requires Shadowed(cfg, prefix, db1, db2, clock) && clock <= now
    ensures var ks := KeysOf(prefix, t);
            Shadowed(cfg, prefix, FinishStep(cfg, ks, db1, t.id, now), FinishStep(cfg, ks, db2, t.id, now), now)
  {
    KeysServe(prefix, t);
    ShadowedLater(cfg, prefix, db1, db2, clock, now);
    ServedFinishKeepsShadow(cfg, prefix, KeysOf(prefix, t), db1, db2, t, now);
  }

  /** A heartbeat beats the key lifetime when the slot it renews, if still stored, is younger than that. */
  ghost predicate BeatsKeyLifetime(cfg: Config, prefix: string, db: Db, t: Ticket, now: nat) {
    forall scope: Scope :: Touches(t, scope) && t.id in Set(prefix, db, Slots, scope) ==>
      now - KeyTtl(cfg) < Set(prefix, db, Slots, scope)[t.id]
  }

  lemma ServedHeartbeatKeepsShadow(cfg: Config, prefix: string, ks: Keys, db1: Db, db2: Db, t: Ticket, now: nat)
    requires Shadowed(cfg, prefix, db1, db2, now) && Serves(ks, prefix, t) && BeatsKeyLifetime(cfg, prefix, db2, t, now)
    ensures Shadowed(cfg, prefix, HeartbeatStep(cfg, ks, db1, t.id, now), HeartbeatStep(cfg, ks, db2, t.id, now), now)
  {
    forall kind: Kind, scope: Scope
      ensures SetBehind(Set(prefix, HeartbeatStep(cfg, ks, db1, t.id, now), kind, scope),
                        Set(prefix, HeartbeatStep(cfg, ks, db2, t.id, now), kind, scope), now - KeyTtl(cfg))
    {
      assert SetBehind(Set(prefix, db1, kind, scope), Set(prefix, db2, kind, scope), now - KeyTtl(cfg));
      HeartbeatKeepsOne(cfg, ks, db1, db2, t.id, now, Key(prefix, kind, scope), now - KeyTtl(cfg));
    }
  }

  lemma {:induction false} HeartbeatKeepsShadow(cfg: Config, prefix: string, db1: Db, db2: Db, clock: int, t: Ticket, now: nat)
    requires Shadowed(cfg, prefix, db1, db2, clock) && clock <= now && BeatsKeyLifetime(cfg, prefix, db2, t, now)
    ensures var ks := KeysOf(prefix, t);
            Shadowed(cfg, prefix, HeartbeatStep(cfg, ks, db1, t.id, now), HeartbeatStep(cfg, ks, db2, t.id, now), now)
  {
    KeysServe(prefix, t);
    ShadowedLater(cfg, prefix, db1, db2, clock, now);
    ServedHeartbeatKeepsShadow(cfg, prefix, KeysOf(prefix, t), db1, db2, t, now);
  }

  /** A key that may be dropped holds nothing younger than its lifetime. */
  lemma EvictedWasOld(cfg: Config, db: Db, clock: nat, key: string, now: nat, k: string)
    requires Bounded(cfg, db, clock) && clock <= now
    ensures Live(db.Evict(key, now).Members(k), now - KeyTtl(cfg)) == Live(db.Members(k), now - KeyTtl(cfg))
  {
  }

  lemma EvictKeepsShadow(cfg: Config, prefix: string, db1: Db, db2: Db, clock: nat, key: string, now: nat)
    requires Shadowed(cfg, prefix, db1, db2, clock) && Bounded(cfg, db1, clock) && clock <= now
    ensures Shadowed(cfg, prefix, db1.Evict(key, now), db2, now)
  {
    ShadowedLater(cfg, prefix, db1, db2, clock, now);
    forall kind: Kind, scope: Scope
      ensures SetBehind(Set(prefix, db1.Evict(key, now), kind, scope), Set(prefix, db2, kind, scope), now - KeyTtl(cfg))
    {
      assert SetBehind(Set(prefix, db1, kind, scope), Set(prefix, db2, kind, scope), now - KeyTtl(cfg));
      EvictedWasOld(cfg, db1, clock, key, now, Key(prefix, kind, scope));
    }
  }

  /** Every heartbeat of a run beats the key lifetime. */
  ghost predicate BeatsBeforeExpiry(cfg: Config, prefix: string, es: seq<RedisEvent>) {
    es == [] ||
    var p, e := es[..|es| - 1], es[|es| - 1];
    BeatsBeforeExpiry(cfg, prefix, p) &&
    (e.Heartbeat? ==> BeatsKeyLifetime(cfg, prefix, RunAny(cfg, prefix, p).db, e.ticket, e.at))
  }

  function NotEvictions(es: seq<RedisEvent>): (keep: seq<bool>)
    ensures |keep| == |es| && forall i :: 0 <= i < |es| ==> keep[i] == !es[i].Evict?
  {
    seq(|es|, i requires 0 <= i < |es| => !es[i].Evict?)
  }

  /**
    Key expiry is unobservable: whichever expired keys Redis dropped and whenever, every decision is that of the
    run in which it dropped none, across any mix of checks, finishes and heartbeats in which no heartbeat comes
    for a slot as old as a key's lifetime. At exactly that age it no longer holds.
   */
  lemma {:induction false} EvictionsInvisible(cfg: Config, prefix: string, es: seq<RedisEvent>)
    requires InTime(es) && BeatsBeforeExpiry(cfg, prefix, Pick(es, NotEvictions(es)))
    ensures RunAny(cfg, prefix, Pick(es, NotEvictions(es))).decisions == Pick(RunAny(cfg, prefix, es).decisions, NotEvictions(es))
    ensures Shadowed(cfg, prefix, RunAny(cfg, prefix, es).db, RunAny(cfg, prefix, Pick(es, NotEvictions(es))).db, Now(es))
  {
    if es != [] {
      var n := |es| - 1;
      var p, e := es[..n], es[n];
      assert NotEvictions(es)[..n] == NotEvictions(p);
      var thin := Pick(p, NotEvictions(p));
      assert RunAny(cfg, prefix, es).decisions[..n] == RunAny(cfg, prefix, p).decisions;
      if !e.Evict? {
        assert (thin + [e])[..|thin|] == thin;
      }
      EvictionsInvisible(cfg, prefix, p);
      EveryKeyExpires(cfg, prefix, p);
      assert Now(p) <= e.Time();
      var db1, db2 := RunAny(cfg, prefix, p).db, RunAny(cfg, prefix, thin).db;
      match e {
        case Gate(Check(c)) => CheckKeepsShadow(cfg, prefix, db1, db2, Now(p), c);
        case Gate(Finish(t, at)) => FinishKeepsShadow(cfg, prefix, db1, db2, Now(p), t, at);
        case Heartbeat(t, at) => HeartbeatKeepsShadow(cfg, prefix, db1, db2, Now(p), t, at);
        case Evict(key, at) => EvictKeepsShadow(cfg, prefix, db1, db2, Now(p), key, at);
      }
    }
  }
}
