/** Request ids that come back: what the Redis request sets count on runs that reuse ids. */
module RedisReuse {
  import opened Options
  import opened QuotaLog
  import opened KeyedWindows
  import opened RedisKeys
  import opened RedisQuota
  import opened RedisRefinement
  import TokenCodec

  /** The admissions of a run, in order, whatever ids they carry. */
  ghost function AdmittedLog(cfg: Config, prefix: string, es: seq<Event>): seq<Admission> {
    if es == [] then []
    else
      var n := |es| - 1;
      var d := Run(cfg, prefix, es).decisions[n];
      if es[n].Check? && d.Some? && d.value.allowed then AdmittedLog(cfg, prefix, es[..n]) + [es[n].call.AsAdmission()]
      else AdmittedLog(cfg, prefix, es[..n])
  }

  ghost predicate AllColonFree(es: seq<Event>) {
    forall i :: 0 <= i < |es| ==> ColonFree(es[i].TenantId())
  }

  /** The admissions of a scope in the window that ends now. */
  function Recent(cfg: Config, log: seq<Admission>, scope: Scope, now: int): seq<Admission> {
    Window(log, {}, scope, now - cfg.Window())
  }

  /** Up to members the next check would purge, every request and token set is the window of the admissions. */
  ghost predicate WindowSets(cfg: Config, prefix: string, db: Db, log: seq<Admission>, clock: int) {
    forall kind: Kind, scope: Scope | !kind.Slots? && ColonFree(scope.tenant) ::
      Live(Set(prefix, db, kind, scope), clock - cfg.Window()) == Index(kind, Recent(cfg, log, scope, clock))
  }

  // ---------------------------------------------------------------- every step keeps them

  lemma {:induction false} KeyedLater(cfg: Config, h: seq<Admission>, kind: Kind, scope: Scope, clock: int, now: int)
    requires Ordered(h, clock) && clock <= now
    ensures Live(Index(kind, Recent(cfg, h, scope, clock)), now - cfg.Window()) == Index(kind, Recent(cfg, h, scope, now))
  {
    var c1, c2 := clock - cfg.Window(), now - cfg.Window();
    var w1, w2 := Window(h, {}, scope, c1), Window(h, {}, scope, c2);
    assert Recent(cfg, h, scope, clock) == w1 && Recent(cfg, h, scope, now) == w2;
    assert Live(Index(kind, w1), c2) == Index(kind, w2) by {
      OrderedIndexLive(kind, h, {}, scope, c1, c2, clock);
    }
  }

  lemma {:induction false} WindowSetsLater(cfg: Config, prefix: string, db: Db, log: seq<Admission>, clock: int, now: int)
    requires WindowSets(cfg, prefix, db, log, clock) && Ordered(log, clock) && clock <= now
    ensures WindowSets(cfg, prefix, db, log, now)
  {
    forall kind: Kind, scope: Scope | !kind.Slots? && ColonFree(scope.tenant)
      ensures Live(Set(prefix, db, kind, scope), now - cfg.Window()) == Index(kind, Recent(cfg, log, scope, now))
    {
      KeyedLater(cfg, log, kind, scope, clock, now);
      LiveAgain(Set(prefix, db, kind, scope), Index(kind, Recent(cfg, log, scope, clock)), Index(kind, Recent(cfg, log, scope, now)),
                clock - cfg.Window(), now - cfg.Window());
    }
  }

  lemma RecentAppend(cfg: Config, log: seq<Admission>, a: Admission, scope: Scope)
    ensures Recent(cfg, log + [a], scope, a.at) ==
            if a.ticket.In(scope) then Recent(cfg, log, scope, a.at) + [a] else Recent(cfg, log, scope, a.at)
  {
    WindowAppend(log, a, {}, scope, a.at - cfg.Window());
  }

  lemma {:induction false} CheckKeepsKeyed(cfg: Config, z: ZSet, role: Option<Kind>, allowed: bool, log: seq<Admission>, a: Admission,
                                           kind: Kind, scope: Scope)
    requires Live(z, a.at - cfg.Window()) == Index(kind, Recent(cfg, log, scope, a.at)) && !kind.Slots?
    requires role == if a.ticket.In(scope) then Some(kind) else None
    ensures Live(SetAfter(cfg, z, role, a, allowed), a.at - cfg.Window()) ==
            Index(kind, Recent(cfg, if allowed then log + [a] else log, scope, a.at))
  {
    RecentAppend(cfg, log, a, scope);
    var w := Recent(cfg, log, scope, a.at);
    if a.ticket.In(scope) {
      assert Live(SetAfter(cfg, z, role, a, allowed), a.at - cfg.Window()) ==
             if allowed then Index(kind, w)[Name(kind, a) := a.at] else Index(kind, w) by {
        OwnSetAfter(cfg, z, kind, a, allowed);
      }
      IndexAppend(kind, w, a);
    }
  }

  lemma OrderedAppend(log: seq<Admission>, clock: int, a: Admission)
    requires Ordered(log, clock) && clock <= a.at
    ensures Ordered(log + [a], a.at) && Ordered(log, a.at)
  {
  }

  lemma {:induction false} AfterKeepsWindowSets(cfg: Config, prefix: string, db: Db, db': Db, log: seq<Admission>, a: Admission, allowed: bool)
    requires WindowSets(cfg, prefix, db, log, a.at) && SetsAfter(cfg, prefix, db, db', a, allowed)
    ensures WindowSets(cfg, prefix, db', if allowed then log + [a] else log, a.at)
  {
    forall kind: Kind, scope: Scope | !kind.Slots? && ColonFree(scope.tenant)
      ensures Live(Set(prefix, db', kind, scope), a.at - cfg.Window()) ==
              Index(kind, Recent(cfg, if allowed then log + [a] else log, scope, a.at))
    {
      CheckKeepsKeyed(cfg, Set(prefix, db, kind, scope), if a.ticket.In(scope) then Some(kind) else None, allowed, log, a, kind, scope);
    }
  }

  lemma CheckKeepsWindowSets(cfg: Config, prefix: string, ks: Keys, db: Db, log: seq<Admission>, c: Call)
    requires WindowSets(cfg, prefix, db, log, c.now) && ColonFree(c.ticket.tenant) && Serves(ks, prefix, c.ticket)
    ensures var (db', d) := CheckStep(cfg, ks, db, c);
            WindowSets(cfg, prefix, db', if d.allowed then log + [c.AsAdmission()] else log, c.now)
  {
    CheckSetsAfter(cfg, prefix, ks, db, c);
    AfterKeepsWindowSets(cfg, prefix, db, CheckStep(cfg, ks, db, c).0, log, c.AsAdmission(), CheckStep(cfg, ks, db, c).1.allowed);
  }

  lemma FinishKeepsOther(cfg: Config, prefix: string, ks: Keys, db: Db, t: Ticket, now: nat)
    requires Serves(ks, prefix, t)
    ensures forall kind: Kind, scope: Scope | !kind.Slots? ::
              Set(prefix, FinishStep(cfg, ks, db, t.id, now), kind, scope) == Set(prefix, db, kind, scope)
  {
    forall kind: Kind, scope: Scope | !kind.Slots?
      ensures Set(prefix, FinishStep(cfg, ks, db, t.id, now), kind, scope) == Set(prefix, db, kind, scope)
    {
      FinishEffect(cfg, ks, db, t.id, now, Key(prefix, kind, scope));
    }
  }

  lemma SameWindowSets(cfg: Config, prefix: string, db: Db, db': Db, log: seq<Admission>, now: nat)
    requires WindowSets(cfg, prefix, db, log, now)
    requires forall kind: Kind, scope: Scope | !kind.Slots? :: Set(prefix, db', kind, scope) == Set(prefix, db, kind, scope)
    ensures WindowSets(cfg, prefix, db', log, now)
  {
  }

  /** On every run, reused ids or not, the request and token sets are the admissions of the window, keyed by member. */
  lemma {:induction false} SetsAreWindows(cfg: Config, prefix: string, es: seq<Event>)
    requires Timely(es) && AllColonFree(es)
    ensures WindowSets(cfg, prefix, Run(cfg, prefix, es).db, AdmittedLog(cfg, prefix, es), Clock(es))
    ensures Ordered(AdmittedLog(cfg, prefix, es), Clock(es))
  {
    if es != [] {
      var p, e := es[..|es| - 1], es[|es| - 1];
      SetsAreWindows(cfg, prefix, p);
      assert Clock(p) <= e.Time();
      var db, log := Run(cfg, prefix, p).db, AdmittedLog(cfg, prefix, p);
      WindowSetsLater(cfg, prefix, db, log, Clock(p), e.Time());
      match e {
        case Check(c) =>
          KeysServe(prefix, c.ticket);
          CheckKeepsWindowSets(cfg, prefix, KeysOf(prefix, c.ticket), db, log, c);
          OrderedAppend(log, Clock(p), c.AsAdmission());
        case Finish(t, at) =>
          KeysServe(prefix, t);
          FinishKeepsOther(cfg, prefix, KeysOf(prefix, t), db, t, at);
          SameWindowSets(cfg, prefix, db, FinishStep(cfg, KeysOf(prefix, t), db, t.id, at), log, at);
      }
    }
  }

  // ---------------------------------------------------------------- counting distinct ids

  lemma {:induction false} PurgedWindowSet(cfg: Config, prefix: string, ks: Keys, db: Db, log: seq<Admission>, c: Call, kind: Kind, scope: Scope)
    requires WindowSets(cfg, prefix, db, log, c.now) && ColonFree(c.ticket.tenant) && c.ticket.In(scope) && !kind.Slots?
    requires Serves(ks, prefix, c.ticket)
    ensures Set(prefix, Purge(cfg, ks, db, c.now), kind, scope) == Index(kind, Recent(cfg, log, scope, c.now))
  {
    PurgedOwn(cfg, prefix, ks, db, c.ticket, c.now, kind, scope);
  }

  /** The two request counts of a check, in terms of the windows. */
  ghost predicate CountsIds(x: Load, wu: seq<Admission>, wt: seq<Admission>) {
    x.userRequests == |RequestIds(wu)| && (x.userRequests == |wu| <==> NoRepeats(wu)) &&
    x.tenantRequests == |RequestIds(wt)| && (x.tenantRequests == |wt| <==> NoRepeats(wt)) &&
    x.userRequests <= x.tenantRequests
  }

  lemma WindowCountsIds(cfg: Config, h: seq<Admission>, c: Call, x: Load)
    requires x.userRequests == |Index(Requests, Recent(cfg, h, c.UserScope(), c.now))|
    requires x.tenantRequests == |Index(Requests, Recent(cfg, h, c.TenantScope(), c.now))|
    ensures CountsIds(x, Recent(cfg, h, c.UserScope(), c.now), Recent(cfg, h, c.TenantScope(), c.now))
  {
    var wu, wt := Recent(cfg, h, c.UserScope(), c.now), Recent(cfg, h, c.TenantScope(), c.now);
    IndexCountsIds(Requests, wu);
    IndexCountsIds(Requests, wt);
    UserIdsAreTenantIds(h, c.ticket, c.now - cfg.Window());
    SubsetSize(RequestIds(wu), RequestIds(wt));
  }

  lemma LoadReadsSets(cfg: Config, ks: Keys, clean: Db, now: nat, zu: ZSet, zt: ZSet)
    requires clean.Members(ks.userRequests) == zu && clean.Members(ks.tenantRequests) == zt
    ensures LoadOf(cfg, ks, clean, now).userRequests == |zu| && LoadOf(cfg, ks, clean, now).tenantRequests == |zt|
  {
  }

  lemma LoadCountsIds(cfg: Config, prefix: string, db: Db, log: seq<Admission>, c: Call)
    requires WindowSets(cfg, prefix, db, log, c.now) && ColonFree(c.ticket.tenant)
    ensures var ks := KeysOf(prefix, c.ticket);
            CountsIds(LoadOf(cfg, ks, Purge(cfg, ks, db, c.now), c.now),
                      Recent(cfg, log, c.UserScope(), c.now), Recent(cfg, log, c.TenantScope(), c.now))
  {
    var ks := KeysOf(prefix, c.ticket);
    KeysServe(prefix, c.ticket);
    PurgedWindowSet(cfg, prefix, ks, db, log, c, Requests, c.UserScope());
    PurgedWindowSet(cfg, prefix, ks, db, log, c, Requests, c.TenantScope());
    LoadReadsSets(cfg, ks, Purge(cfg, ks, db, c.now), c.now, Index(Requests, Recent(cfg, log, c.UserScope(), c.now)),
                  Index(Requests, Recent(cfg, log, c.TenantScope(), c.now)));
    WindowCountsIds(cfg, log, c, LoadOf(cfg, ks, Purge(cfg, ks, db, c.now), c.now));
  }

  lemma RefusedByCount(l: Limits, x: Load, tokens: nat)
    requires x.userRequests <= x.tenantRequests
    requires !Judge(l, x, tokens).UserConcurrency? && !Judge(l, x, tokens).TenantConcurrency?
    ensures Judge(l, x, tokens).UserRequests? || Judge(l, x, tokens).TenantRequests? <==>
            l.requests.Some? && x.tenantRequests >= l.requests.value
  {
  }

  /**
    What the script counts on any run: the distinct ids of the window. That is the number of admissions exactly if
    no id repeats in the window; and where concurrency does not decide, a call is refused for its request count
    exactly when the tenant's window already holds as many distinct ids as the limit allows.
   */
  lemma {:induction false} ScriptCountsDistinctIds(cfg: Config, prefix: string, es: seq<Event>, c: Call)
    requires Timely(es) && AllColonFree(es) && Clock(es) <= c.now && ColonFree(c.ticket.tenant)
    ensures var ks, log := KeysOf(prefix, c.ticket), AdmittedLog(cfg, prefix, es);
            CountsIds(LoadOf(cfg, ks, Purge(cfg, ks, Run(cfg, prefix, es).db, c.now), c.now),
                      Recent(cfg, log, c.UserScope(), c.now), Recent(cfg, log, c.TenantScope(), c.now))
    ensures var reason := CheckStep(cfg, KeysOf(prefix, c.ticket), Run(cfg, prefix, es).db, c).1.reason;
            var wt := Recent(cfg, AdmittedLog(cfg, prefix, es), c.TenantScope(), c.now);
            !reason.UserConcurrency? && !reason.TenantConcurrency? ==>
              (reason.UserRequests? || reason.TenantRequests? <==>
               c.limits.requests.Some? && |RequestIds(wt)| >= c.limits.requests.value)
  {
    var ks, log, db := KeysOf(prefix, c.ticket), AdmittedLog(cfg, prefix, es), Run(cfg, prefix, es).db;
    var x := LoadOf(cfg, ks, Purge(cfg, ks, db, c.now), c.now);
    SetsAreWindows(cfg, prefix, es);
    WindowSetsLater(cfg, prefix, db, log, Clock(es), c.now);
    LoadCountsIds(cfg, prefix, db, log, c);
    var reason := Judge(c.limits, x, c.Tokens());
    if !reason.UserConcurrency? && !reason.TenantConcurrency? {
      RefusedByCount(c.limits, x, c.Tokens());
    }
  }

  // ---------------------------------------------------------------- summing distinct members

  /** No entry's tokens are lost: a number other than 0 is printed plainly and comes once per id. */
  predicate TokensTold(w: seq<Admission>) {
    forall i :: 0 <= i < |w| && w[i].tokens != 0 ==> TellsTokens(w[..i], w[i])
  }

  predicate TellsTokens(before: seq<Admission>, a: Admission) {
    a.tokens < TokenCodec.LUA_PLAIN_LIMIT &&
    forall j :: 0 <= j < |before| ==> before[j].ticket.id != a.ticket.id || before[j].tokens != a.tokens
  }

  lemma TokensToldAppend(w: seq<Admission>, a: Admission)
    ensures TokensTold(w + [a]) <==> TokensTold(w) && (a.tokens == 0 || TellsTokens(w, a))
  {
    var all := w + [a];
    assert all[..|w|] == w && all[|w|] == a;
    forall i | 0 <= i < |w| ensures all[..i] == w[..i] && all[i] == w[i] {
    }
  }

  /** Only the members are summed, not their scores. */
  lemma {:induction false} SumIgnoresScores(z1: ZSet, z2: ZSet)
    requires z1.Keys == z2.Keys
    ensures SumMembers(z1) == SumMembers(z2)
    decreases |z1|
  {
    if z1 == map[] {
      assert z2 == map[];
    } else {
      var m := Any(z1);
      assert m in z2.Keys;
      RemoveSmaller(z1, m);
      assert (z1 - {m}).Keys == (z2 - {m}).Keys;
      SumIgnoresScores(z1 - {m}, z2 - {m});
      SumAnyOrder(z2, m);
    }
  }

  /** The sum after one more entry: nothing is added if its member is already there. */
  lemma SumAfterInsert(z: ZSet, m: string, at: nat)
    ensures SumMembers(z[m := at]) == SumMembers(z) + (if m in z then 0 else TokenCodec.Counted(m))
  {
    if m in z {
      assert z[m := at].Keys == z.Keys;
      SumIgnoresScores(z[m := at], z);
    } else {
      SumAnyOrder(z[m := at], m);
      assert z[m := at] - {m} == z;
    }
  }

  /** What the newest entry adds to the parsed sum: its tokens or nothing. */
  lemma AddsExactly(w: seq<Admission>, a: Admission)
    ensures var m := Name(InputTokens, a);
            var adds := if m in Index(InputTokens, w) then 0 else TokenCodec.Counted(m);
            adds <= a.tokens && (adds == a.tokens <==> a.tokens == 0 || TellsTokens(w, a))
  {
    var m := Name(InputTokens, a);
    TokenCodec.ParseEncoded(a.ticket.id, a.tokens);
    if m in Index(InputTokens, w) {
      var b := IndexFrom(InputTokens, w, m);
      var j :| 0 <= j < |w| && w[j] == b;
      TokenCodec.EncodeKeepsId(a.ticket.id, a.tokens, b.ticket.id, b.tokens);
    } else {
      forall j | 0 <= j < |w| ensures w[j].ticket.id != a.ticket.id || w[j].tokens != a.tokens {
        IndexHas(InputTokens, w, j);
      }
    }
  }

  /** The parsed sum of a keyed window never exceeds the recorded tokens, and equals them exactly if none are lost. */
  lemma {:induction false} KeyedTokens(w: seq<Admission>)
    ensures SumMembers(Index(InputTokens, w)) <= TokenSum(w)
    ensures SumMembers(Index(InputTokens, w)) == TokenSum(w) <==> TokensTold(w)
  {
    if w != [] {
      var p, a := w[..|w| - 1], w[|w| - 1];
      assert w == p + [a];
      KeyedTokens(p);
      IndexAppend(InputTokens, p, a);
      SumAfterInsert(Index(InputTokens, p), Name(InputTokens, a), a.at);
      AddsExactly(p, a);
      TokensToldAppend(p, a);
    }
  }

  lemma InputOfRecent(cfg: Config, log: seq<Admission>, clock: int, scope: Scope, now: nat)
    requires Ordered(log, clock) && clock <= now
    ensures var w := Recent(cfg, log, scope, now);
            InputSum(Index(InputTokens, w), cfg, now) <= TokenSum(w) &&
            (InputSum(Index(InputTokens, w), cfg, now) == TokenSum(w) <==> TokensTold(w))
  {
    var z := Index(InputTokens, Recent(cfg, log, scope, now));
    forall m | m in z ensures now - cfg.Window() < z[m] <= now {
      IndexScores(InputTokens, log, {}, scope, now - cfg.Window(), clock, m);
    }
    InputSumOfAll(z, cfg, now);
    KeyedTokens(Recent(cfg, log, scope, now));
  }

  /**
    The tokens the script adds up on any run, with any ids and any estimates: never more than were admitted in the
    window, and exactly those if and only if no entry's tokens are lost there, to a repetition of id and number or
    to Lua's scientific notation.
   */
  lemma {:induction false} ScriptCountsTokens(cfg: Config, prefix: string, es: seq<Event>, c: Call)
    requires Timely(es) && AllColonFree(es) && Clock(es) <= c.now && ColonFree(c.ticket.tenant)
    ensures var ks, log := KeysOf(prefix, c.ticket), AdmittedLog(cfg, prefix, es);
            var x := LoadOf(cfg, ks, Purge(cfg, ks, Run(cfg, prefix, es).db, c.now), c.now);
            var wu, wt := Recent(cfg, log, c.UserScope(), c.now), Recent(cfg, log, c.TenantScope(), c.now);
            x.userTokens <= TokenSum(wu) && (x.userTokens == TokenSum(wu) <==> TokensTold(wu)) &&
            x.tenantTokens <= TokenSum(wt) && (x.tenantTokens == TokenSum(wt) <==> TokensTold(wt))
  {
    var ks, log, db := KeysOf(prefix, c.ticket), AdmittedLog(cfg, prefix, es), Run(cfg, prefix, es).db;
    SetsAreWindows(cfg, prefix, es);
    WindowSetsLater(cfg, prefix, db, log, Clock(es), c.now);
    KeysServe(prefix, c.ticket);
    PurgedWindowSet(cfg, prefix, ks, db, log, c, InputTokens, c.UserScope());
    PurgedWindowSet(cfg, prefix, ks, db, log, c, InputTokens, c.TenantScope());
    InputOfRecent(cfg, log, Clock(es), c.UserScope(), c.now);
    InputOfRecent(cfg, log, Clock(es), c.TenantScope(), c.now);
  }
}
