/** Other tenants: exactly which of their calls a tenant's Redis decisions can depend on. */
module RedisTenants {
  import opened Options
  import opened QuotaLog
  import opened RedisKeys
  import opened RedisQuota
  import opened RedisRefinement
  import opened RedisLifetimes
  import opened RedisBoundaries
  import MemoryRuns

  /** The name of a foreign user begins like the names of the tenant's own users. */
  predicate Mistakable(t: Ticket, tenant: string) {
    t.tenant != tenant && tenant + ":" <= t.tenant + ":" + t.user
  }

  /** A foreign ticket shares a key with the tenant exactly if it is mistakable. */
  lemma MistakableExactly(t: Ticket, tenant: string)
    requires t.tenant != tenant
    ensures Mistakable(t, tenant) <==> exists scope: Scope :: scope.tenant == tenant && Touches(t, scope)
  {
    var name := t.tenant + ":" + t.user;
    if Mistakable(t, tenant) {
      var scope := User(tenant, name[|tenant| + 1..]);
      assert tenant + ":" + name[|tenant| + 1..] == name;
      assert Touches(t, scope);
    }
    if scope: Scope :| scope.tenant == tenant && Touches(t, scope) {
      assert Alias(scope, User(t.tenant, t.user));
      assert tenant + ":" + scope.user == name;
    }
  }

  /** No foreign call of the run is mistakable for one of the tenant's. */
  ghost predicate Apart(es: seq<Event>, tenant: string) {
    forall i :: 0 <= i < |es| ==> !Mistakable(TicketOf(es[i]), tenant)
  }

  function TicketOf(e: Event): Ticket {
    match e
    case Check(c) => c.ticket
    case Finish(t, _) => t
  }

  /** Two stores that agree on everything one tenant owns. */
  ghost predicate Agree(prefix: string, db1: Db, db2: Db, tenant: string) {
    forall kind: Kind, scope: Scope :: scope.tenant == tenant ==> Set(prefix, db1, kind, scope) == Set(prefix, db2, kind, scope)
  }

  lemma OwnCheckAgrees(cfg: Config, prefix: string, db1: Db, db2: Db, c: Call)
    requires Agree(prefix, db1, db2, c.ticket.tenant)
    ensures var ks := KeysOf(prefix, c.ticket);
            CheckStep(cfg, ks, db1, c).1 == CheckStep(cfg, ks, db2, c).1 &&
            Agree(prefix, CheckStep(cfg, ks, db1, c).0, CheckStep(cfg, ks, db2, c).0, c.ticket.tenant)
  {
    var ks := KeysOf(prefix, c.ticket);
    KeysServe(prefix, c.ticket);
    forall k | ks.Role(k).Some? ensures db1.Members(k) == db2.Members(k) {
      var kind := ks.Role(k).value;
      var scope := if k == Key(prefix, kind, c.UserScope()) then c.UserScope() else c.TenantScope();
      assert Set(prefix, db1, kind, scope) == Set(prefix, db2, kind, scope);
    }
    DecisionReadsLive(cfg, ks, db1, db2, c);
    forall kind: Kind, scope: Scope | scope.tenant == c.ticket.tenant
      ensures Set(prefix, CheckStep(cfg, ks, db1, c).0, kind, scope) == Set(prefix, CheckStep(cfg, ks, db2, c).0, kind, scope)
    {
      assert Set(prefix, db1, kind, scope) == Set(prefix, db2, kind, scope);
      CheckSetAgrees(cfg, ks, db1, db2, c, Key(prefix, kind, scope));
    }
  }

  lemma CheckSetAgrees(cfg: Config, ks: Keys, db1: Db, db2: Db, c: Call, k: string)
    requires ks.Separate() && db1.Members(k) == db2.Members(k)
    requires CheckStep(cfg, ks, db1, c).1 == CheckStep(cfg, ks, db2, c).1
    ensures CheckStep(cfg, ks, db1, c).0.Members(k) == CheckStep(cfg, ks, db2, c).0.Members(k)
  {
    CheckEffect(cfg, ks, db1, c, k);
    CheckEffect(cfg, ks, db2, c, k);
  }

  lemma UntouchedScope(prefix: string, ks: Keys, t: Ticket, tenant: string, kind: Kind, scope: Scope)
    requires Serves(ks, prefix, t) && t.tenant != tenant && !Mistakable(t, tenant) && scope.tenant == tenant
    ensures ks.Role(Key(prefix, kind, scope)).None?
  {
    MistakableExactly(t, tenant);
  }

  lemma ForeignCheckAgrees(cfg: Config, prefix: string, db1: Db, db2: Db, c: Call, tenant: string)
    requires Agree(prefix, db1, db2, tenant) && c.ticket.tenant != tenant && !Mistakable(c.ticket, tenant)
    ensures Agree(prefix, CheckStep(cfg, KeysOf(prefix, c.ticket), db1, c).0, db2, tenant)
  {
    var ks := KeysOf(prefix, c.ticket);
    KeysServe(prefix, c.ticket);
    forall kind: Kind, scope: Scope | scope.tenant == tenant
      ensures Set(prefix, CheckStep(cfg, ks, db1, c).0, kind, scope) == Set(prefix, db2, kind, scope)
    {
      assert Set(prefix, db1, kind, scope) == Set(prefix, db2, kind, scope);
      UntouchedScope(prefix, ks, c.ticket, tenant, kind, scope);
      CheckEffect(cfg, ks, db1, c, Key(prefix, kind, scope));
    }
  }

  lemma FinishAgrees(cfg: Config, prefix: string, db1: Db, db2: Db, t: Ticket, now: nat, tenant: string)
    requires Agree(prefix, db1, db2, tenant) && !Mistakable(t, tenant)
    ensures var ks := KeysOf(prefix, t);
            Agree(prefix, FinishStep(cfg, ks, db1, t.id, now),
                  if t.tenant == tenant then FinishStep(cfg, ks, db2, t.id, now) else db2, tenant)
  {
    var ks := KeysOf(prefix, t);
    KeysServe(prefix, t);
    var after2 := if t.tenant == tenant then FinishStep(cfg, ks, db2, t.id, now) else db2;
    forall kind: Kind, scope: Scope | scope.tenant == tenant
      ensures Set(prefix, FinishStep(cfg, ks, db1, t.id, now), kind, scope) == Set(prefix, after2, kind, scope)
    {
      assert Set(prefix, db1, kind, scope) == Set(prefix, db2, kind, scope);
      FinishEffect(cfg, ks, db1, t.id, now, Key(prefix, kind, scope));
      FinishEffect(cfg, ks, db2, t.id, now, Key(prefix, kind, scope));
      if t.tenant != tenant { UntouchedScope(prefix, ks, t, tenant, kind, scope); }
    }
  }

  /**
    Tenant non-interference: as long as no foreign call is mistakable for one of the tenant's, the tenant's
    decisions are those of the run with every other tenant's calls removed.
   */
  lemma {:induction false} OtherTenantsInvisible(cfg: Config, prefix: string, es: seq<Event>, tenant: string)
    requires Apart(es, tenant)
    ensures var keep := MemoryRuns.OfTenant(es, tenant);
            Run(cfg, prefix, Pick(es, keep)).decisions == Pick(Run(cfg, prefix, es).decisions, keep) &&
            Agree(prefix, Run(cfg, prefix, es).db, Run(cfg, prefix, Pick(es, keep)).db, tenant)
  {
    if es != [] {
      var n := |es| - 1;
      var p, e, keep := es[..n], es[n], MemoryRuns.OfTenant(es, tenant);
      OtherTenantsInvisible(cfg, prefix, p, tenant);
      assert keep[..n] == MemoryRuns.OfTenant(p, tenant);
      var thin := Pick(p, keep[..n]);
      assert Run(cfg, prefix, es).decisions[..n] == Run(cfg, prefix, p).decisions;
      var db1, db2 := Run(cfg, prefix, p).db, Run(cfg, prefix, thin).db;
      assert !Mistakable(TicketOf(e), tenant);
      match e {
        case Check(c) =>
          if keep[n] { OwnCheckAgrees(cfg, prefix, db1, db2, c); }
          else { ForeignCheckAgrees(cfg, prefix, db1, db2, c, tenant); }
        case Finish(t, at) => FinishAgrees(cfg, prefix, db1, db2, t, at, tenant);
      }
      if keep[n] {
        assert (thin + [e])[..|thin|] == thin;
      }
    }
  }

  /** With colon-free tenant ids nobody is mistakable. */
  lemma {:induction false} ColonFreeTenantsInvisible(cfg: Config, prefix: string, es: seq<Event>, tenant: string)
    requires ColonFree(tenant) && forall i :: 0 <= i < |es| ==> ColonFree(es[i].TenantId())
    ensures var keep := MemoryRuns.OfTenant(es, tenant);
            Run(cfg, prefix, Pick(es, keep)).decisions == Pick(Run(cfg, prefix, es).decisions, keep)
  {
    forall i | 0 <= i < |es| ensures !Mistakable(TicketOf(es[i]), tenant) {
      var t := TicketOf(es[i]);
      assert ColonFree(es[i].TenantId());
      if t.tenant != tenant {
        MistakableExactly(t, tenant);
        if scope: Scope :| scope.tenant == tenant && Touches(t, scope) {
          TouchesOwn(t, scope);
          assert false;
        }
      }
    }
    OtherTenantsInvisible(cfg, prefix, es, tenant);
  }

  /** The converse: every mistakable ticket has a call that changes a decision of the tenant's. */
  lemma {:induction false} MistakableInterferes(cfg: Config, prefix: string, t: Ticket, tenant: string, now: nat) returns (c1: Call, c2: Call)
    requires Mistakable(t, tenant)
    ensures c1.ticket == t && c2.ticket.tenant == tenant
    ensures Run(cfg, prefix, [] + [Check(c2)]).decisions[0].value.allowed
    ensures !Run(cfg, prefix, [] + [Check(c1)] + [Check(c2)]).decisions[1].value.allowed
  {
    var name := t.tenant + ":" + t.user;
    var user := name[|tenant| + 1..];
    assert tenant + ":" + user == name;
    c1 := Call(t, None, UNLIMITED, now);
    c2 := Call(Ticket(tenant, user, t.id), None, Limits(Some(1), None, None), now);
    AliasedUsersShareQuota(cfg, prefix, c1, c2);
  }
}
