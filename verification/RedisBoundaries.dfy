/** Runs on which the Redis enforcer leaves the reference: where each condition of the refinement is needed. */
module RedisBoundaries {
  import opened Options
  import opened QuotaLog
  import opened RedisKeys
  import opened RedisQuota
  import opened RedisRefinement
  import opened RedisLifetimes

  const UNLIMITED := Limits(None, None, None)

  /** With no limits every call is admitted. */
  lemma UnlimitedAdmits(cfg: Config, ks: Keys, db: Db, c: Call)
    requires c.limits == UNLIMITED
    ensures CheckStep(cfg, ks, db, c).1 == Allow()
  {
  }

  lemma FirstAdmission(cfg: Config, ks: Keys, c: Call, k: string)
    requires c.limits == UNLIMITED && ks.Separate()
    ensures CheckStep(cfg, ks, EMPTY_DB, c).0.Members(k) == InsertedSet(map[], ks.Role(k), c.AsAdmission())
  {
    UnlimitedAdmits(cfg, ks, EMPTY_DB, c);
    CheckEffect(cfg, ks, EMPTY_DB, c, k);
    assert PurgedSet(cfg, map[], ks.Role(k), c.now) == map[];
  }

  // ------------------------------------------------------------ reused request ids

  /** Every call of the run presents the same ticket, with a request limit of two or more and no other. */
  ghost predicate SameTicketRun(es: seq<Event>, t: Ticket) {
    forall i :: 0 <= i < |es| ==>
      es[i].Check? && es[i].call.ticket == t &&
      es[i].call.limits.requests.Some? && es[i].call.limits.requests.value >= 2 &&
      es[i].call.limits.inputTokens.None? && es[i].call.limits.concurrent.None?
  }

  ghost predicate OnlyMember(db: Db, ks: Keys, id: string) {
    db.Members(ks.userRequests).Keys <= {id} && db.Members(ks.tenantRequests).Keys <= {id}
  }

  lemma AtMostOneKey(z: ZSet, id: string)
    requires z.Keys <= {id}
    ensures |z| <= 1
  {
    if z != map[] {
      assert z.Keys == {id};
      assert |z| == |z.Keys|;
    }
  }

  lemma SameTicketAdmitted(cfg: Config, ks: Keys, db: Db, c: Call)
    requires ks.Separate() && OnlyMember(db, ks, c.ticket.id)
    requires c.limits.requests.Some? && c.limits.requests.value >= 2 && c.limits.inputTokens.None? && c.limits.concurrent.None?
    ensures CheckStep(cfg, ks, db, c).1.allowed && OnlyMember(CheckStep(cfg, ks, db, c).0, ks, c.ticket.id)
  {
    var clean := Purge(cfg, ks, db, c.now);
    PurgeEffect(cfg, ks, db, c.now, ks.userRequests);
    PurgeEffect(cfg, ks, db, c.now, ks.tenantRequests);
    AtMostOneKey(clean.Members(ks.userRequests), c.ticket.id);
    AtMostOneKey(clean.Members(ks.tenantRequests), c.ticket.id);
    CheckEffect(cfg, ks, db, c, ks.userRequests);
    CheckEffect(cfg, ks, db, c, ks.tenantRequests);
  }

  /** Sorted sets collapse a reused id: however often it comes back, a request limit above one never refuses it. */
  lemma {:induction false} ReusedIdNeverRefused(cfg: Config, prefix: string, es: seq<Event>, t: Ticket)
    requires SameTicketRun(es, t)
    ensures forall d :: d in Run(cfg, prefix, es).decisions ==> d.Some? && d.value.allowed
    ensures OnlyMember(Run(cfg, prefix, es).db, KeysOf(prefix, t), t.id)
  {
    if es != [] {
      var p, e := es[..|es| - 1], es[|es| - 1];
      ReusedIdNeverRefused(cfg, prefix, p, t);
      KeysAreSeparate(prefix, t);
      SameTicketAdmitted(cfg, KeysOf(prefix, t), Run(cfg, prefix, p).db, e.call);
    }
  }

  // ------------------------------------------------------------ aliased tenants

  lemma FirstIsAdmitted(cfg: Config, ks: Keys, c: Call)
    requires ks.Separate() && c.limits == Limits(Some(1), None, None)
    ensures CheckStep(cfg, ks, EMPTY_DB, c).1.allowed
  {
    PurgeEffect(cfg, ks, EMPTY_DB, c.now, ks.userRequests);
    PurgeEffect(cfg, ks, EMPTY_DB, c.now, ks.tenantRequests);
    assert PurgedSet(cfg, map[], Some(Requests), c.now) == map[];
  }

  lemma FullSetRefuses(cfg: Config, ks: Keys, db: Db, c: Call, m: string)
    requires ks.Separate() && c.limits == Limits(Some(1), None, None)
    requires m in db.Members(ks.userRequests) && db.Members(ks.userRequests)[m] == c.now
    ensures CheckStep(cfg, ks, db, c).1.reason == UserRequests
  {
    PurgeEffect(cfg, ks, db, c.now, ks.userRequests);
    assert m in Purge(cfg, ks, db, c.now).Members(ks.userRequests);
  }

  lemma SharedSet(cfg: Config, prefix: string, c1: Call, c2: Call)
    requires Alias(c1.UserScope(), c2.UserScope()) && c1.limits == UNLIMITED
    ensures CheckStep(cfg, KeysOf(prefix, c1.ticket), EMPTY_DB, c1).0.Members(KeysOf(prefix, c2.ticket).userRequests) ==
            map[c1.ticket.id := c1.now]
  {
    var key := Key(prefix, Requests, c2.UserScope());
    KeysAreSeparate(prefix, c1.ticket);
    RoleOfKey(prefix, c1.ticket, Requests, c2.UserScope());
    FirstAdmission(cfg, KeysOf(prefix, c1.ticket), c1, key);
  }

  lemma RunAppend(cfg: Config, prefix: string, p: seq<Event>, e: Event)
    ensures Run(cfg, prefix, p + [e]) == Step(cfg, prefix, Run(cfg, prefix, p), e)
  {
    assert (p + [e])[..|p|] == p;
  }

  /**
    When the names of two users of different tenants read the same, one tenant's admission is counted
    against the other: a first request that would be admitted on its own is refused.
   */
  lemma {:induction false} AliasedUsersShareQuota(cfg: Config, prefix: string, c1: Call, c2: Call)
    requires Alias(c1.UserScope(), c2.UserScope()) && c1.ticket.tenant != c2.ticket.tenant
    requires c1.limits == UNLIMITED && c2.limits == Limits(Some(1), None, None) && c1.now == c2.now
    ensures Run(cfg, prefix, [] + [Check(c2)]).decisions[0].value.allowed
    ensures Run(cfg, prefix, [] + [Check(c1)] + [Check(c2)]).decisions[1].value.reason == UserRequests
  {
    RunAppend(cfg, prefix, [], Check(c2));
    RunAppend(cfg, prefix, [], Check(c1));
    RunAppend(cfg, prefix, [] + [Check(c1)], Check(c2));
    KeysAreSeparate(prefix, c2.ticket);
    FirstIsAdmitted(cfg, KeysOf(prefix, c2.ticket), c2);
    SharedSet(cfg, prefix, c1, c2);
    FullSetRefuses(cfg, KeysOf(prefix, c2.ticket), CheckStep(cfg, KeysOf(prefix, c1.ticket), EMPTY_DB, c1).0, c2, c1.ticket.id);
  }

  // ------------------------------------------------------------ late heartbeats

  /** After its only admission, both slot keys of a ticket hold its id and expire one key lifetime later. */
  lemma AfterFirst(cfg: Config, ks: Keys, c: Call, k: string)
    requires c.limits == UNLIMITED && ks.Separate() && ks.Role(k) == Some(Slots)
    ensures var db := CheckStep(cfg, ks, EMPTY_DB, c).0;
            db.Members(k) == map[c.ticket.id := c.now] && Bounded(cfg, db, c.now) &&
            k in db.sets && k in db.deadlines && db.deadlines[k] <= c.now + KeyTtl(cfg)
  {
    FirstAdmission(cfg, ks, c, k);
    CheckKeepsBounded(cfg, ks, EMPTY_DB, c.now, c);
  }

  lemma RevivedRefuses(cfg: Config, ks: Keys, db: Db, id: string, now: nat, c: Call)
    requires ks.Separate() && id in db.Members(ks.userSlots)
    requires c.limits == Limits(None, None, Some(1)) && c.now == now
    ensures CheckStep(cfg, ks, HeartbeatStep(cfg, ks, db, id, now), c).1.reason == UserConcurrency
  {
    var beat := HeartbeatStep(cfg, ks, db, id, now);
    HeartbeatEffect(cfg, ks, db, id, now, ks.userSlots);
    PurgeEffect(cfg, ks, beat, now, ks.userSlots);
    assert id in Purge(cfg, ks, beat, now).Members(ks.userSlots);
  }

  lemma EmptySlotsAdmit(cfg: Config, ks: Keys, db: Db, id: string, now: nat, c: Call)
    requires ks.Separate() && db.Members(ks.userSlots) == map[] && db.Members(ks.tenantSlots) == map[]
    requires c.limits == Limits(None, None, Some(1)) && c.now == now
    ensures CheckStep(cfg, ks, HeartbeatStep(cfg, ks, db, id, now), c).1.allowed
  {
    var beat := HeartbeatStep(cfg, ks, db, id, now);
    HeartbeatEffect(cfg, ks, db, id, now, ks.userSlots);
    HeartbeatEffect(cfg, ks, db, id, now, ks.tenantSlots);
    PurgeEffect(cfg, ks, beat, now, ks.userSlots);
    PurgeEffect(cfg, ks, beat, now, ks.tenantSlots);
    assert Purge(cfg, ks, beat, now).Members(ks.userSlots) == map[];
    assert Purge(cfg, ks, beat, now).Members(ks.tenantSlots) == map[];
  }

  lemma BothGone(db: Db, ks: Keys, now: nat)
    requires ks.userSlots in db.deadlines && db.deadlines[ks.userSlots] <= now
    requires ks.tenantSlots in db.deadlines && db.deadlines[ks.tenantSlots] <= now
    ensures var gone := db.Evict(ks.userSlots, now).Evict(ks.tenantSlots, now);
            gone.Members(ks.userSlots) == map[] && gone.Members(ks.tenantSlots) == map[]
  {
  }

  lemma RunAnyAppend(cfg: Config, prefix: string, p: seq<RedisEvent>, e: RedisEvent)
    ensures RunAny(cfg, prefix, p + [e]) == StepAny(cfg, prefix, RunAny(cfg, prefix, p), e)
  {
    assert (p + [e])[..|p|] == p;
  }

  /** The run in which the keys are still stored when the heartbeat comes. */
  lemma {:induction false} StoredRun(cfg: Config, prefix: string, first: Call, last: Call)
    requires first.limits == UNLIMITED && last.limits == Limits(None, None, Some(1))
    requires last.ticket.tenant == first.ticket.tenant && last.ticket.user == first.ticket.user
    requires last.now == first.now + KeyTtl(cfg)
    ensures var es := [] + [Gate(Check(first))] + [Heartbeat(first.ticket, last.now)] + [Gate(Check(last))];
            RunAny(cfg, prefix, es).decisions[2].Some? && RunAny(cfg, prefix, es).decisions[2].value.reason == UserConcurrency
  {
    var start, ks, beat := [] + [Gate(Check(first))], KeysOf(prefix, first.ticket), Heartbeat(first.ticket, last.now);
    KeysAreSeparate(prefix, first.ticket);
    RunAnyAppend(cfg, prefix, [], Gate(Check(first)));
    RunAnyAppend(cfg, prefix, start, beat);
    RunAnyAppend(cfg, prefix, start + [beat], Gate(Check(last)));
    AfterFirst(cfg, ks, first, ks.userSlots);
    RevivedRefuses(cfg, ks, RunAny(cfg, prefix, start).db, first.ticket.id, last.now, last);
  }

  /** The run in which Redis has dropped them. */
  lemma {:induction false} EvictedRun(cfg: Config, prefix: string, first: Call, last: Call)
    requires first.limits == UNLIMITED && last.limits == Limits(None, None, Some(1))
    requires last.ticket.tenant == first.ticket.tenant && last.ticket.user == first.ticket.user
    requires last.now == first.now + KeyTtl(cfg)
    ensures var ks := KeysOf(prefix, first.ticket);
            var es := [] + [Gate(Check(first))] + [Evict(ks.userSlots, last.now)] + [Evict(ks.tenantSlots, last.now)] +
                      [Heartbeat(first.ticket, last.now)] + [Gate(Check(last))];
            RunAny(cfg, prefix, es).decisions[4].Some? && RunAny(cfg, prefix, es).decisions[4].value.allowed
  {
    var start, ks := [] + [Gate(Check(first))], KeysOf(prefix, first.ticket);
    var one := start + [Evict(ks.userSlots, last.now)];
    var evicted, beat := one + [Evict(ks.tenantSlots, last.now)], Heartbeat(first.ticket, last.now);
    KeysAreSeparate(prefix, first.ticket);
    RunAnyAppend(cfg, prefix, [], Gate(Check(first)));
    RunAnyAppend(cfg, prefix, start, Evict(ks.userSlots, last.now));
    RunAnyAppend(cfg, prefix, one, Evict(ks.tenantSlots, last.now));
    RunAnyAppend(cfg, prefix, evicted, beat);
    RunAnyAppend(cfg, prefix, evicted + [beat], Gate(Check(last)));
    var db := RunAny(cfg, prefix, start).db;
    AfterFirst(cfg, ks, first, ks.userSlots);
    AfterFirst(cfg, ks, first, ks.tenantSlots);
    BothGone(db, ks, last.now);
    EmptySlotsAdmit(cfg, ks, RunAny(cfg, prefix, evicted).db, first.ticket.id, last.now, last);
  }

  /**
    Key expiry is observable to a late heartbeat.  A slot is admitted, its keys live out, a heartbeat
    for it arrives, and one more request of the same user asks for the only slot: with the keys still
    stored the heartbeat revives the stale slot and the request is refused; with the keys expired it
    is admitted.  Redis hides a key from every command once its deadline has strictly passed by its own
    clock, while the scripts go by the gateway's; so at the deadline the first run is that of two clocks
    in step, and the second that of a Redis clock a moment ahead.
   */
  lemma {:induction false} LateHeartbeatChangesDecision(cfg: Config, prefix: string, first: Call, last: Call)
    requires first.limits == UNLIMITED && last.limits == Limits(None, None, Some(1))
    requires last.ticket.tenant == first.ticket.tenant && last.ticket.user == first.ticket.user
    requires last.now == first.now + KeyTtl(cfg)
    ensures var start, ks := [] + [Gate(Check(first))], KeysOf(prefix, first.ticket);
            var evicted := start + [Evict(ks.userSlots, last.now)] + [Evict(ks.tenantSlots, last.now)];
            var beat := Heartbeat(first.ticket, last.now);
            RunAny(cfg, prefix, start + [beat] + [Gate(Check(last))]).decisions[2].value.reason == UserConcurrency &&
            RunAny(cfg, prefix, evicted + [beat] + [Gate(Check(last))]).decisions[4].value.allowed
  {
    StoredRun(cfg, prefix, first, last);
    EvictedRun(cfg, prefix, first, last);
  }
}
