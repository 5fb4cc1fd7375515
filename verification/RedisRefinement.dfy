/** The Redis enforcer against the filtered history, and against the in-memory enforcer. */
module RedisRefinement {
  import opened Options
  import opened QuotaLog
  import opened RedisKeys
  import opened RedisQuota
  import TokenCodec
  import MemoryRuns

  function Set(prefix: string, db: Db, kind: Kind, scope: Scope): ZSet {
    db.Members(Key(prefix, kind, scope))
  }

  /** Up to members the next check would purge, every set is the filtered history. */
  ghost predicate SetsMatch(cfg: Config, prefix: string, db: Db, b: Book, clock: int) {
    forall kind: Kind, scope: Scope | ColonFree(scope.tenant) ::
      Live(Set(prefix, db, kind, scope), clock - cfg.Span(kind)) == Index(kind, b.View(cfg, kind, scope, clock))
  }

  ghost predicate PlainLog(h: seq<Admission>) {
    forall i :: 0 <= i < |h| ==> h[i].tokens < TokenCodec.LUA_PLAIN_LIMIT
  }

  ghost predicate Matches(cfg: Config, prefix: string, db: Db, b: Book, clock: int) {
    SetsMatch(cfg, prefix, db, b, clock) && Ordered(b.log, clock) && UniqueIds(b.log) && PlainLog(b.log)
  }

  /** A set that holds a window holds the later window too. */
  lemma {:induction false} WindowLater(z: ZSet, kind: Kind, h: seq<Admission>, out: set<Ticket>, scope: Scope, c1: int, c2: int)
    requires UniqueIds(h) && c1 <= c2 && Live(z, c1) == Index(kind, Window(h, out, scope, c1))
    ensures Live(z, c2) == Index(kind, Window(h, out, scope, c2))
  {
    IndexLive(kind, h, out, scope, c1, c2);
    LiveAgain(z, Index(kind, Window(h, out, scope, c1)), Index(kind, Window(h, out, scope, c2)), c1, c2);
  }

  /** A view of the book is a window. */
  lemma ViewIs(cfg: Config, b: Book, kind: Kind, scope: Scope, now: int, cutoff: int)
    requires cutoff == now - cfg.Span(kind)
    ensures b.View(cfg, kind, scope, now) == Window(b.log, b.Out(kind), scope, cutoff)
  {
  }

  lemma {:induction false} SetLater(z: ZSet, kind: Kind, h: seq<Admission>, out: set<Ticket>, scope: Scope, c1: int, c2: int,
                                    w1: seq<Admission>, w2: seq<Admission>)
    requires UniqueIds(h) && c1 <= c2 && w1 == Window(h, out, scope, c1) && w2 == Window(h, out, scope, c2)
    ensures Live(z, c1) == Index(kind, w1) ==> Live(z, c2) == Index(kind, w2)
  {
    if Live(z, c1) == Index(kind, w1) {
      WindowLater(z, kind, h, out, scope, c1, c2);
    }
  }

  lemma {:induction false} SetsLater(cfg: Config, prefix: string, db: Db, b: Book, clock: int, now: int, kind: Kind, scope: Scope)
    requires SetsMatch(cfg, prefix, db, b, clock) && UniqueIds(b.log) && clock <= now && ColonFree(scope.tenant)
    ensures Live(Set(prefix, db, kind, scope), now - cfg.Span(kind)) == Index(kind, b.View(cfg, kind, scope, now))
  {
    var c1, c2, w1, w2 := clock - cfg.Span(kind), now - cfg.Span(kind), b.View(cfg, kind, scope, clock), b.View(cfg, kind, scope, now);
    ViewIs(cfg, b, kind, scope, clock, c1);
    ViewIs(cfg, b, kind, scope, now, c2);
    SetLater(Set(prefix, db, kind, scope), kind, b.log, b.Out(kind), scope, c1, c2, w1, w2);
  }

  lemma TouchesOwn(t: Ticket, scope: Scope)
    requires ColonFree(t.tenant) && ColonFree(scope.tenant)
    ensures Touches(t, scope) <==> t.In(scope)
  {
    ColonFreeScopesNeverAlias(scope, User(t.tenant, t.user));
    ColonFreeScopesNeverAlias(scope, Tenant(t.tenant));
  }

  // ------------------------------------------------------------ sums and ranks

  /** The parsed members add up to the recorded tokens. */
  lemma {:induction false} SumIsTokens(h: seq<Admission>, scope: Scope, cutoff: int)
    requires UniqueIds(h) && PlainLog(h)
    ensures SumMembers(Index(InputTokens, Window(h, {}, scope, cutoff))) == TokenSum(Window(h, {}, scope, cutoff))
  {
    if h != [] {
      var p, a := h[..|h| - 1], h[|h| - 1];
      UniquePrefix(h);
      SumIsTokens(p, scope, cutoff);
      if Kept(a, {}, scope, cutoff) {
        var w := Window(p, {}, scope, cutoff);
        var z, m := Index(InputTokens, w), Name(InputTokens, a);
        FreshName(InputTokens, p, {}, scope, cutoff, a);
        IndexAppend(InputTokens, w, a);
        SumAnyOrder(z[m := a.at], m);
        assert z[m := a.at] - {m} == z;
        TokenCodec.CountedExactlyWhenPlain(a.ticket.id, a.tokens);
        assert (w + [a])[..|w|] == w;
      }
    }
  }

  lemma IndexScores(kind: Kind, h: seq<Admission>, out: set<Ticket>, scope: Scope, cutoff: int, clock: int, m: string)
    requires Ordered(h, clock) && m in Index(kind, Window(h, out, scope, cutoff))
    ensures cutoff < Index(kind, Window(h, out, scope, cutoff))[m] <= clock
  {
    var w := Window(h, out, scope, cutoff);
    IndexScore(kind, w, m);
    var a :| a in w && Index(kind, w)[m] == a.at;
    WindowMember(h, out, scope, cutoff, a);
  }

  lemma {:induction false} IndexScore(kind: Kind, w: seq<Admission>, m: string)
    requires m in Index(kind, w)
    ensures exists a :: a in w && Index(kind, w)[m] == a.at
  {
    var p, last := w[..|w| - 1], w[|w| - 1];
    assert w == p + [last];
    if m == Name(kind, last) {
      assert last in w;
    } else {
      IndexScore(kind, p, m);
      var a :| a in p && Index(kind, p)[m] == a.at;
      assert a in w;
    }
  }

  lemma OldestOfOne(m: string, score: nat)
    ensures var z: ZSet := map[m := score]; z != map[] && OldestScore(z) == score
  {
    var z: ZSet := map[m := score];
    assert m in z;
    var first :| first in z && z[first] == OldestScore(z);
  }

  /** The first member in rank order carries the timestamp of the window's oldest admission. */
  lemma {:induction false} OldestIsFirst(kind: Kind, h: seq<Admission>, scope: Scope, cutoff: int, clock: int)
    requires UniqueIds(h) && Ordered(h, clock) && Window(h, {}, scope, cutoff) != []
    ensures Index(kind, Window(h, {}, scope, cutoff)) != map[]
    ensures OldestScore(Index(kind, Window(h, {}, scope, cutoff))) == Window(h, {}, scope, cutoff)[0].at
  {
    var p, a := h[..|h| - 1], h[|h| - 1];
    var w := Window(p, {}, scope, cutoff);
    UniquePrefix(h);
    if w == [] {
      assert Window(h, {}, scope, cutoff) == [] + [a];
      IndexAppend(kind, [], a);
      OldestOfOne(Name(kind, a), a.at);
    } else {
      OldestIsFirst(kind, p, scope, cutoff, clock);
      if Kept(a, {}, scope, cutoff) {
        WindowMember(p, {}, scope, cutoff, w[0]);
        FreshName(kind, p, {}, scope, cutoff, a);
        IndexAppend(kind, w, a);
        LastIsYoungest(h, w[0], clock);
        OldestAfterInsert(Index(kind, w), Name(kind, a), a.at);
      }
    }
  }

  lemma LastIsYoungest(h: seq<Admission>, a: Admission, clock: int)
    requires Ordered(h, clock) && h != [] && a in h[..|h| - 1]
    ensures a.at <= h[|h| - 1].at
  {
  }

  lemma OldestAfterInsert(z: ZSet, m: string, score: nat)
    requires z != map[] && m !in z && OldestScore(z) <= score
    ensures OldestScore(z[m := score]) == OldestScore(z)
  {
    var first :| first in z && z[first] == OldestScore(z);
    assert z[m := score][first] == OldestScore(z);
  }

  // ------------------------------------------------------------ one step

  /** A purge cuts each of the caller's sets back to what is live. */
  lemma PurgedOwn(cfg: Config, prefix: string, ks: Keys, db: Db, t: Ticket, now: nat, kind: Kind, scope: Scope)
    requires ColonFree(t.tenant) && t.In(scope) && Serves(ks, prefix, t)
    ensures Set(prefix, Purge(cfg, ks, db, now), kind, scope) == Live(Set(prefix, db, kind, scope), now - cfg.Span(kind))
  {
    TouchesOwn(t, scope);
    PurgeEffect(cfg, ks, db, now, Key(prefix, kind, scope));
  }

  lemma PurgedIs(cfg: Config, prefix: string, ks: Keys, db: Db, b: Book, clock: int, t: Ticket, now: nat, kind: Kind, scope: Scope)
    requires Matches(cfg, prefix, db, b, clock) && clock <= now && ColonFree(t.tenant) && t.In(scope)
    requires Serves(ks, prefix, t)
    ensures Set(prefix, Purge(cfg, ks, db, now), kind, scope) == Index(kind, b.View(cfg, kind, scope, now))
  {
    PurgedOwn(cfg, prefix, ks, db, t, now, kind, scope);
    SetsLater(cfg, prefix, db, b, clock, now, kind, scope);
  }

  /** The purged sets of a call hold the caller's and the tenant's windows. */
  ghost predicate HoldsViews(cfg: Config, ks: Keys, clean: Db, b: Book, c: Call) {
    clean.Members(ks.userRequests) == Index(Requests, b.View(cfg, Requests, c.UserScope(), c.now)) &&
    clean.Members(ks.tenantRequests) == Index(Requests, b.View(cfg, Requests, c.TenantScope(), c.now)) &&
    clean.Members(ks.userInput) == Index(InputTokens, b.View(cfg, InputTokens, c.UserScope(), c.now)) &&
    clean.Members(ks.tenantInput) == Index(InputTokens, b.View(cfg, InputTokens, c.TenantScope(), c.now)) &&
    clean.Members(ks.userSlots) == Index(Slots, b.View(cfg, Slots, c.UserScope(), c.now)) &&
    clean.Members(ks.tenantSlots) == Index(Slots, b.View(cfg, Slots, c.TenantScope(), c.now))
  }

  lemma PurgedHoldsViews(cfg: Config, prefix: string, db: Db, b: Book, clock: int, c: Call)
    requires Matches(cfg, prefix, db, b, clock) && clock <= c.now && ColonFree(c.ticket.tenant)
    ensures var ks := KeysOf(prefix, c.ticket); HoldsViews(cfg, ks, Purge(cfg, ks, db, c.now), b, c)
  {
    var ks := KeysOf(prefix, c.ticket);
    KeysServe(prefix, c.ticket);
    PurgedIs(cfg, prefix, ks, db, b, clock, c.ticket, c.now, Requests, c.UserScope());
    PurgedIs(cfg, prefix, ks, db, b, clock, c.ticket, c.now, Requests, c.TenantScope());
    PurgedIs(cfg, prefix, ks, db, b, clock, c.ticket, c.now, InputTokens, c.UserScope());
    PurgedIs(cfg, prefix, ks, db, b, clock, c.ticket, c.now, InputTokens, c.TenantScope());
    PurgedIs(cfg, prefix, ks, db, b, clock, c.ticket, c.now, Slots, c.UserScope());
    PurgedIs(cfg, prefix, ks, db, b, clock, c.ticket, c.now, Slots, c.TenantScope());
  }

  lemma InputSumOfAll(z: ZSet, cfg: Config, now: nat)
    requires forall m :: m in z ==> now - cfg.Window() < z[m] <= now
    ensures InputSum(z, cfg, now) == SumMembers(z)
  {
    assert InRange(z, now - cfg.Window() + 1, now) == z;
  }

  lemma InputOfWindow(cfg: Config, h: seq<Admission>, clock: int, scope: Scope, now: nat)
    requires Ordered(h, clock) && UniqueIds(h) && PlainLog(h) && clock <= now
    ensures InputSum(Index(InputTokens, Window(h, {}, scope, now - cfg.Window())), cfg, now) ==
            TokenSum(Window(h, {}, scope, now - cfg.Window()))
  {
    var z := Index(InputTokens, Window(h, {}, scope, now - cfg.Window()));
    forall m | m in z ensures now - cfg.Window() < z[m] <= now {
      IndexScores(InputTokens, h, {}, scope, now - cfg.Window(), clock, m);
    }
    InputSumOfAll(z, cfg, now);
    SumIsTokens(h, scope, now - cfg.Window());
  }

  lemma InputOfView(cfg: Config, b: Book, clock: int, scope: Scope, now: nat)
    requires Ordered(b.log, clock) && UniqueIds(b.log) && PlainLog(b.log) && clock <= now
    ensures InputSum(Index(InputTokens, b.View(cfg, InputTokens, scope, now)), cfg, now) ==
            TokenSum(b.View(cfg, InputTokens, scope, now))
  {
    InputOfWindow(cfg, b.log, clock, scope, now);
  }

  lemma SizeOfView(cfg: Config, b: Book, kind: Kind, scope: Scope, now: nat)
    requires UniqueIds(b.log)
    ensures |Index(kind, b.View(cfg, kind, scope, now))| == |b.View(cfg, kind, scope, now)|
  {
    IndexSize(kind, b.log, b.Out(kind), scope, now - cfg.Span(kind));
  }

  lemma LoadFromViews(cfg: Config, ks: Keys, clean: Db, b: Book, clock: int, c: Call)
    requires HoldsViews(cfg, ks, clean, b, c)
    requires Ordered(b.log, clock) && UniqueIds(b.log) && PlainLog(b.log) && clock <= c.now
    ensures LoadOf(cfg, ks, clean, c.now) == b.LoadOf(cfg, c)
  {
    SizeOfView(cfg, b, Requests, c.UserScope(), c.now);
    SizeOfView(cfg, b, Requests, c.TenantScope(), c.now);
    SizeOfView(cfg, b, Slots, c.UserScope(), c.now);
    SizeOfView(cfg, b, Slots, c.TenantScope(), c.now);
    InputOfView(cfg, b, clock, c.UserScope(), c.now);
    InputOfView(cfg, b, clock, c.TenantScope(), c.now);
  }

  lemma ViewAdmit(cfg: Config, b: Book, c: Call, kind: Kind, scope: Scope)
    requires FreshTicket(b.log, c.ticket)
    ensures b.Admit(c.AsAdmission()).View(cfg, kind, scope, c.now) ==
            if c.ticket.In(scope) then b.View(cfg, kind, scope, c.now) + [c.AsAdmission()] else b.View(cfg, kind, scope, c.now)
  {
    var b' := b.Admit(c.AsAdmission());
    WindowSameOut(b.log, b.Out(kind), b'.Out(kind), scope, c.now - cfg.Span(kind));
    WindowAppend(b.log, c.AsAdmission(), b'.Out(kind), scope, c.now - cfg.Span(kind));
  }

  /** A set that holds the window before a check holds the window after it. */
  lemma {:induction false} CheckKeepsSet(cfg: Config, z: ZSet, role: Option<Kind>, allowed: bool, b: Book, c: Call, kind: Kind,
                                         scope: Scope, cutoff: int)
    requires cutoff == c.now - cfg.Span(kind) && Live(z, cutoff) == Index(kind, b.View(cfg, kind, scope, c.now))
    requires FreshTicket(b.log, c.ticket) && role == if c.ticket.In(scope) then Some(kind) else None
    ensures Live(SetAfter(cfg, z, role, c.AsAdmission(), allowed), cutoff) ==
            Index(kind, (if allowed then b.Admit(c.AsAdmission()) else b).View(cfg, kind, scope, c.now))
  {
    var w, after := b.View(cfg, kind, scope, c.now), SetAfter(cfg, z, role, c.AsAdmission(), allowed);
    var book := if allowed then b.Admit(c.AsAdmission()) else b;
    assert book.View(cfg, kind, scope, c.now) == if allowed && c.ticket.In(scope) then w + [c.AsAdmission()] else w by {
      ViewAdmit(cfg, b, c, kind, scope);
    }
    if c.ticket.In(scope) {
      assert after == if allowed then Live(z, cutoff)[Name(kind, c.AsAdmission()) := c.AsAdmission().at] else Live(z, cutoff) by {
        ServedSetAfter(cfg, z, kind, c.AsAdmission(), allowed);
      }
      ServedSet(z, kind, w, c.AsAdmission(), allowed, cutoff, after);
    }
  }

  lemma ServedSetAfter(cfg: Config, z: ZSet, kind: Kind, a: Admission, allowed: bool)
    ensures var live := Live(z, a.at - cfg.Span(kind));
            SetAfter(cfg, z, Some(kind), a, allowed) == if allowed then live[Name(kind, a) := a.at] else live
  {
  }

  /** The same for a set the check serves, by the window it held. */
  lemma ServedSet(z: ZSet, kind: Kind, w: seq<Admission>, a: Admission, allowed: bool, cutoff: int, after: ZSet)
    requires Live(z, cutoff) == Index(kind, w) && cutoff < a.at
    requires after == if allowed then Live(z, cutoff)[Name(kind, a) := a.at] else Live(z, cutoff)
    ensures Live(after, cutoff) == Index(kind, if allowed then w + [a] else w)
  {
    LiveTwice(z, cutoff, cutoff);
    LiveInsert(Live(z, cutoff), Name(kind, a), a.at, cutoff);
    IndexAppend(kind, w, a);
  }

  /** What a check leaves in a set it serves, up to stale members. */
  lemma OwnSetAfter(cfg: Config, z: ZSet, kind: Kind, a: Admission, allowed: bool)
    ensures var live := Live(z, a.at - cfg.Span(kind));
            Live(SetAfter(cfg, z, Some(kind), a, allowed), a.at - cfg.Span(kind)) ==
            if allowed then live[Name(kind, a) := a.at] else live
  {
    var cutoff := a.at - cfg.Span(kind);
    LiveTwice(z, cutoff, cutoff);
    LiveInsert(Live(z, cutoff), Name(kind, a), a.at, cutoff);
  }

  /** A token estimate that Lua prints in plain digits, or that the tenant's own limit refuses anyway. */
  predicate PlainCall(c: Call) {
    c.Tokens() < TokenCodec.LUA_PLAIN_LIMIT ||
    (c.limits.inputTokens.Some? && c.limits.inputTokens.value < TokenCodec.LUA_PLAIN_LIMIT)
  }

  /** What a check leaves of every colon-free scope's set: its own are purged and extended, the others stay. */
  ghost predicate SetsAfter(cfg: Config, prefix: string, db: Db, db': Db, a: Admission, allowed: bool) {
    forall kind: Kind, scope: Scope | ColonFree(scope.tenant) ::
      Set(prefix, db', kind, scope) ==
      SetAfter(cfg, Set(prefix, db, kind, scope), if a.ticket.In(scope) then Some(kind) else None, a, allowed)
  }

  lemma CheckSetsAfter(cfg: Config, prefix: string, ks: Keys, db: Db, c: Call)
    requires ColonFree(c.ticket.tenant) && Serves(ks, prefix, c.ticket)
    ensures SetsAfter(cfg, prefix, db, CheckStep(cfg, ks, db, c).0, c.AsAdmission(), CheckStep(cfg, ks, db, c).1.allowed)
  {
    forall kind: Kind, scope: Scope | ColonFree(scope.tenant)
      ensures Set(prefix, CheckStep(cfg, ks, db, c).0, kind, scope) ==
              SetAfter(cfg, Set(prefix, db, kind, scope), if c.ticket.In(scope) then Some(kind) else None, c.AsAdmission(),
                       CheckStep(cfg, ks, db, c).1.allowed)
    {
      TouchesOwn(c.ticket, scope);
      CheckEffect(cfg, ks, db, c, Key(prefix, kind, scope));
    }
  }

  lemma SetsLaterAll(cfg: Config, prefix: string, db: Db, b: Book, clock: int, now: int)
    requires SetsMatch(cfg, prefix, db, b, clock) && UniqueIds(b.log) && clock <= now
    ensures SetsMatch(cfg, prefix, db, b, now)
  {
    forall kind: Kind, scope: Scope | ColonFree(scope.tenant)
      ensures Live(Set(prefix, db, kind, scope), now - cfg.Span(kind)) == Index(kind, b.View(cfg, kind, scope, now))
    {
      SetsLater(cfg, prefix, db, b, clock, now, kind, scope);
    }
  }

  lemma AfterMatches(cfg: Config, prefix: string, db: Db, db': Db, b: Book, c: Call, allowed: bool)
    requires SetsMatch(cfg, prefix, db, b, c.now) && SetsAfter(cfg, prefix, db, db', c.AsAdmission(), allowed)
    requires FreshTicket(b.log, c.ticket)
    ensures SetsMatch(cfg, prefix, db', if allowed then b.Admit(c.AsAdmission()) else b, c.now)
  {
    var b' := if allowed then b.Admit(c.AsAdmission()) else b;
    forall kind: Kind, scope: Scope | ColonFree(scope.tenant)
      ensures Live(Set(prefix, db', kind, scope), c.now - cfg.Span(kind)) == Index(kind, b'.View(cfg, kind, scope, c.now))
    {
      assert Live(Set(prefix, db, kind, scope), c.now - cfg.Span(kind)) == Index(kind, b.View(cfg, kind, scope, c.now));
      CheckKeepsSet(cfg, Set(prefix, db, kind, scope), if c.ticket.In(scope) then Some(kind) else None, allowed, b, c, kind, scope,
                    c.now - cfg.Span(kind));
    }
  }

  lemma CheckKeepsSets(cfg: Config, prefix: string, ks: Keys, db: Db, b: Book, clock: int, c: Call)
    requires SetsMatch(cfg, prefix, db, b, clock) && UniqueIds(b.log) && clock <= c.now && FreshTicket(b.log, c.ticket)
    requires ColonFree(c.ticket.tenant) && Serves(ks, prefix, c.ticket)
    ensures var (db', d) := CheckStep(cfg, ks, db, c);
            SetsMatch(cfg, prefix, db', if d.allowed then b.Admit(c.AsAdmission()) else b, c.now)
  {
    SetsLaterAll(cfg, prefix, db, b, clock, c.now);
    CheckSetsAfter(cfg, prefix, ks, db, c);
    AfterMatches(cfg, prefix, db, CheckStep(cfg, ks, db, c).0, b, c, CheckStep(cfg, ks, db, c).1.allowed);
  }

  lemma CheckVerdict(cfg: Config, prefix: string, db: Db, b: Book, clock: int, c: Call)
    requires Matches(cfg, prefix, db, b, clock) && clock <= c.now && ColonFree(c.ticket.tenant)
    ensures CheckStep(cfg, KeysOf(prefix, c.ticket), db, c).1.reason == b.Verdict(cfg, c)
  {
    var ks := KeysOf(prefix, c.ticket);
    PurgedHoldsViews(cfg, prefix, db, b, clock, c);
    LoadFromViews(cfg, ks, Purge(cfg, ks, db, c.now), b, clock, c);
  }

  lemma BookStaysPlain(cfg: Config, b: Book, clock: int, c: Call)
    requires Ordered(b.log, clock) && UniqueIds(b.log) && PlainLog(b.log) && clock <= c.now
    requires FreshTicket(b.log, c.ticket) && PlainCall(c)
    ensures var log := b.Next(cfg, Check(c)).log; Ordered(log, c.now) && UniqueIds(log) && PlainLog(log)
  {
  }

  lemma CheckRefines(cfg: Config, prefix: string, db: Db, b: Book, clock: int, c: Call)
    requires Matches(cfg, prefix, db, b, clock) && clock <= c.now && FreshTicket(b.log, c.ticket)
    requires ColonFree(c.ticket.tenant) && PlainCall(c)
    ensures CheckStep(cfg, KeysOf(prefix, c.ticket), db, c).1.reason == b.Verdict(cfg, c)
    ensures Matches(cfg, prefix, CheckStep(cfg, KeysOf(prefix, c.ticket), db, c).0, b.Next(cfg, Check(c)), c.now)
  {
    KeysServe(prefix, c.ticket);
    CheckVerdict(cfg, prefix, db, b, clock, c);
    BookStaysPlain(cfg, b, clock, c);
    CheckKeepsSets(cfg, prefix, KeysOf(prefix, c.ticket), db, b, clock, c);
  }

  lemma FinishKeepsSet(cfg: Config, z: ZSet, b: Book, t: Ticket, now: nat, kind: Kind, scope: Scope)
    requires Live(z, now - cfg.Span(kind)) == Index(kind, b.View(cfg, kind, scope, now))
    requires UniqueIds(b.log) && OwnTicket(b.log, t)
    ensures var after := if kind.Slots? && t.In(scope) then z - {t.id} else z;
            Live(after, now - cfg.Span(kind)) == Index(kind, Book(b.log, b.finished + {t}).View(cfg, kind, scope, now))
  {
    if kind.Slots? {
      IndexFinish(b.log, b.finished, t, scope, now - cfg.Span(kind));
      assert Live(z - {t.id}, now - cfg.Span(kind)) == Live(z, now - cfg.Span(kind)) - {t.id};
      assert Live(z, now - cfg.Span(kind)) - {} == Live(z, now - cfg.Span(kind));
    }
  }

  lemma FinishRefines(cfg: Config, prefix: string, ks: Keys, db: Db, b: Book, clock: int, t: Ticket, now: nat)
    requires Matches(cfg, prefix, db, b, clock) && clock <= now && OwnTicket(b.log, t)
    requires ColonFree(t.tenant) && Serves(ks, prefix, t)
    ensures Matches(cfg, prefix, FinishStep(cfg, ks, db, t.id, now), b.Next(cfg, Finish(t, now)), now)
  {
    var db', b' := FinishStep(cfg, ks, db, t.id, now), b.Next(cfg, Finish(t, now));
    forall kind: Kind, scope: Scope | ColonFree(scope.tenant)
      ensures Live(Set(prefix, db', kind, scope), now - cfg.Span(kind)) == Index(kind, b'.View(cfg, kind, scope, now))
    {
      TouchesOwn(t, scope);
      FinishEffect(cfg, ks, db, t.id, now, Key(prefix, kind, scope));
      SetsLater(cfg, prefix, db, b, clock, now, kind, scope);
      FinishKeepsSet(cfg, Set(prefix, db, kind, scope), b, t, now, kind, scope);
    }
  }

  // ------------------------------------------------------------ whole runs

  datatype Outcome = Outcome(db: Db, decisions: seq<Option<Decision>>)

  ghost function Step(cfg: Config, prefix: string, o: Outcome, e: Event): Outcome {
    match e
    case Check(c) =>
      var (db, d) := CheckStep(cfg, KeysOf(prefix, c.ticket), o.db, c);
      Outcome(db, o.decisions + [Some(d)])
    case Finish(t, at) => Outcome(FinishStep(cfg, KeysOf(prefix, t), o.db, t.id, at), o.decisions + [None])
  }

  ghost function Run(cfg: Config, prefix: string, es: seq<Event>): (o: Outcome)
    ensures |o.decisions| == |es|
  {
    if es == [] then Outcome(EMPTY_DB, []) else Step(cfg, prefix, Run(cfg, prefix, es[..|es| - 1]), es[|es| - 1])
  }

  /** What the Redis names and number texts can tell apart. */
  ghost predicate Plain(es: seq<Event>) {
    forall i :: 0 <= i < |es| ==> ColonFree(es[i].TenantId()) && (es[i].Check? ==> PlainCall(es[i].call))
  }

  /** The scripts give the reference verdict at every check, and their sets are the filtered history. */
  lemma {:induction false} RefinesReference(cfg: Config, prefix: string, es: seq<Event>)
    requires Timely(es) && Sound(cfg, es) && Plain(es)
    ensures MemoryRuns.Reasons(Run(cfg, prefix, es).decisions) == Reference(cfg, es).verdicts
    ensures Matches(cfg, prefix, Run(cfg, prefix, es).db, Reference(cfg, es).book, Clock(es))
  {
    if es != [] {
      var p, e := es[..|es| - 1], es[|es| - 1];
      RefinesReference(cfg, prefix, p);
      assert Clock(p) <= e.Time();
      var o, b := Run(cfg, prefix, p), Reference(cfg, p).book;
      match e {
        case Check(c) =>
          CheckRefines(cfg, prefix, o.db, b, Clock(p), c);
          MemoryRuns.ReasonsAppend(o.decisions, Some(CheckStep(cfg, KeysOf(prefix, c.ticket), o.db, c).1));
        case Finish(t, at) =>
          KeysServe(prefix, t);
          FinishRefines(cfg, prefix, KeysOf(prefix, t), o.db, b, Clock(p), t, at);
          MemoryRuns.ReasonsAppend(o.decisions, None);
      }
    } else {
      EmptyMatches(cfg, prefix);
    }
  }

  lemma EmptyMatches(cfg: Config, prefix: string)
    ensures Matches(cfg, prefix, EMPTY_DB, EMPTY_BOOK, 0)
  {
  }

  /**
    Redis refines in-memory: on every run of checks and finishes with a shared clock, fresh ids and
    plain names and numbers, the two enforcers give the same flag and the same reason at every call.
   */
  lemma {:induction false} RedisAgreesWithMemory(cfg: Config, prefix: string, es: seq<Event>)
    requires Timely(es) && Sound(cfg, es) && Plain(es)
    ensures MemoryRuns.Reasons(Run(cfg, prefix, es).decisions) == MemoryRuns.Reasons(MemoryRuns.Run(cfg, es).decisions)
    ensures Matches(cfg, prefix, Run(cfg, prefix, es).db, Reference(cfg, es).book, Clock(es))
    ensures MemoryRuns.Matches(cfg, MemoryRuns.Run(cfg, es).store, Reference(cfg, es).book, Clock(es))
  {
    RefinesReference(cfg, prefix, es);
    MemoryRuns.RefinesReference(cfg, es);
  }

  // ------------------------------------------------------------ retry time

  lemma RoundedUp(left: nat, wait: nat)
    requires 1 <= left
    ensures left <= 1000 * wait <==> CeilSeconds(left) <= wait
  {
  }

  lemma RefusedKeyIs(cfg: Config, ks: Keys, db: Db, c: Call, scope: Scope)
    requires c.ticket.In(scope)
    requires CheckStep(cfg, ks, db, c).1.reason == MemoryRuns.FullReason(scope)
    ensures var key := if scope.User? then ks.userRequests else ks.tenantRequests;
            CheckStep(cfg, ks, db, c).1.retryAfter ==
            Some(ScriptRetry(Purge(cfg, ks, db, c.now).Members(key), c.now, cfg.Window()))
  {
  }

  /** The script's retry time for a full request window, read off the history. */
  lemma RetryFromOldest(cfg: Config, b: Book, clock: int, now: nat, scope: Scope)
    requires Ordered(b.log, clock) && UniqueIds(b.log) && clock <= now && b.View(cfg, Requests, scope, now) != []
    ensures var left := cfg.Window() - (now - b.View(cfg, Requests, scope, now)[0].at);
            1 <= left <= cfg.Window() &&
            ScriptRetry(Index(Requests, b.View(cfg, Requests, scope, now)), now, cfg.Window()) == CeilSeconds(left)
  {
    var w := b.View(cfg, Requests, scope, now);
    OldestIsFirst(Requests, b.log, scope, now - cfg.Window(), clock);
    WindowMember(b.log, {}, scope, now - cfg.Window(), w[0]);
  }

  lemma VerdictIsFull(cfg: Config, b: Book, c: Call, scope: Scope, limit: pos)
    requires c.ticket.In(scope) && c.limits.requests == Some(limit)
    requires b.Verdict(cfg, c) == MemoryRuns.FullReason(scope)
    ensures |b.View(cfg, Requests, scope, c.now)| >= limit
  {
    assert scope == c.UserScope() || scope == c.TenantScope();
  }

  /** What a request-count refusal of the script says about the purged set and the history. */
  lemma RefusedIsFull(cfg: Config, prefix: string, db: Db, b: Book, clock: int, c: Call, scope: Scope, limit: pos)
    requires Matches(cfg, prefix, db, b, clock) && clock <= c.now && ColonFree(c.ticket.tenant)
    requires c.limits.requests == Some(limit) && c.ticket.In(scope)
    requires CheckStep(cfg, KeysOf(prefix, c.ticket), db, c).1.reason == MemoryRuns.FullReason(scope)
    ensures |b.View(cfg, Requests, scope, c.now)| >= limit
    ensures CheckStep(cfg, KeysOf(prefix, c.ticket), db, c).1.retryAfter ==
            Some(ScriptRetry(Index(Requests, b.View(cfg, Requests, scope, c.now)), c.now, cfg.Window()))
  {
    CheckVerdict(cfg, prefix, db, b, clock, c);
    VerdictIsFull(cfg, b, c, scope, limit);
    PurgedHoldsViews(cfg, prefix, db, b, clock, c);
    RefusedKeyIs(cfg, KeysOf(prefix, c.ticket), db, c, scope);
    assert scope == c.UserScope() || scope == c.TenantScope();
  }

  lemma {:induction false} RetryFromState(cfg: Config, prefix: string, db: Db, b: Book, clock: int, l: Limits, c: Call, scope: Scope)
    requires Matches(cfg, prefix, db, b, clock) && clock <= c.now && ColonFree(c.ticket.tenant)
    requires Earned(cfg, b.log, c.ticket.tenant, l) && c.limits == l && l.requests.Some? && c.ticket.In(scope)
    requires CheckStep(cfg, KeysOf(prefix, c.ticket), db, c).1.reason == MemoryRuns.FullReason(scope)
    ensures CheckStep(cfg, KeysOf(prefix, c.ticket), db, c).1.retryAfter.Some?
    ensures ExactRetry(cfg, b.log, c.ticket, l.requests.value, c.now,
                       CheckStep(cfg, KeysOf(prefix, c.ticket), db, c).1.retryAfter.value)
  {
    RefusedIsFull(cfg, prefix, db, b, clock, c, scope, l.requests.value);
    ViewRetry(cfg, b, clock, c.ticket, scope, l, c.now, b.View(cfg, Requests, scope, c.now));
  }

  /** The retry time read from a set that holds a full request window is exact. */
  lemma {:induction false} ViewRetry(cfg: Config, b: Book, clock: int, t: Ticket, scope: Scope, l: Limits, now: nat, w: seq<Admission>)
    requires Ordered(b.log, clock) && UniqueIds(b.log) && clock <= now && Earned(cfg, b.log, t.tenant, l)
    requires l.requests.Some? && t.In(scope) && w == b.View(cfg, Requests, scope, now) && |w| >= l.requests.value
    ensures ExactRetry(cfg, b.log, t, l.requests.value, now, ScriptRetry(Index(Requests, w), now, cfg.Window()))
  {
    RetryFromOldest(cfg, b, clock, now, scope);
    RetryExactlyFromHistory(cfg, b, clock, t, scope, l, now);
    RetryInWindow(cfg, cfg.Window() - (now - w[0].at));
  }

  lemma RetryInWindow(cfg: Config, left: int)
    requires 1 <= left <= cfg.Window()
    ensures 1 <= CeilSeconds(left) <= cfg.windowSeconds
  {
  }

  /**
    The retry time lies between one second and the window, and with no other admission both request
    checks pass after a whole number of seconds exactly when at least that many were waited.
   */
  ghost predicate ExactRetry(cfg: Config, h: seq<Admission>, t: Ticket, limit: pos, now: nat, retry: nat) {
    1 <= retry <= cfg.windowSeconds &&
    forall wait: nat :: RequestsPass(cfg, h, t, limit, now + 1000 * wait) <==> retry <= wait
  }

  lemma RetryExactlyFromHistory(cfg: Config, b: Book, clock: int, t: Ticket, scope: Scope, l: Limits, now: nat)
    requires Ordered(b.log, clock) && clock <= now && Earned(cfg, b.log, t.tenant, l) && l.requests.Some? && t.In(scope)
    requires |b.View(cfg, Requests, scope, now)| >= l.requests.value
    ensures var left := cfg.Window() - (now - b.View(cfg, Requests, scope, now)[0].at);
            1 <= left &&
            forall wait: nat :: RequestsPass(cfg, b.log, t, l.requests.value, now + 1000 * wait) <==> CeilSeconds(left) <= wait
  {
    var full := Window(b.log, {}, scope, now - cfg.Window());
    var left := cfg.Window() - (now - full[0].at);
    BoundAtEveryInstant(cfg, b.log, l, Tenant(t.tenant), now);
    WindowIsBetween(b.log, Tenant(t.tenant), now - cfg.Window(), now);
    WindowMember(b.log, {}, scope, now - cfg.Window(), full[0]);
    forall wait: nat
      ensures RequestsPass(cfg, b.log, t, l.requests.value, now + 1000 * wait) <==> CeilSeconds(left) <= wait
    {
      WaitExactly(cfg, b.log, t, scope, l.requests.value, now, 1000 * wait);
      RoundedUp(left, wait);
    }
  }

  lemma VerdictByRequests(cfg: Config, b: Book, c: Call, limit: pos)
    requires c.limits.requests == Some(limit)
    ensures var v := b.Verdict(cfg, c);
            (v.UserRequests? || v.TenantRequests? ==> !RequestsPass(cfg, b.log, c.ticket, limit, c.now)) &&
            (!v.UserConcurrency? && !v.TenantConcurrency? && !RequestsPass(cfg, b.log, c.ticket, limit, c.now) ==>
               v.UserRequests? || v.TenantRequests?)
  {
  }

  /**
    The script's own later answers to the same call: from the retry time on it never refuses for the request
    count, and before, where concurrency does not decide, it always does.
   */
  ghost predicate AnswersExactly(cfg: Config, prefix: string, db: Db, c: Call, retry: nat) {
    forall wait: nat ::
      var reason := CheckStep(cfg, KeysOf(prefix, c.ticket), db, c.(now := c.now + 1000 * wait)).1.reason;
      (reason.UserRequests? || reason.TenantRequests? ==> wait < retry) &&
      (wait < retry && !reason.UserConcurrency? && !reason.TenantConcurrency? ==> reason.UserRequests? || reason.TenantRequests?)
  }

  /** The answer to the same call after a wait. */
  lemma {:induction false} AnsweredAt(cfg: Config, prefix: string, db: Db, b: Book, clock: int, later: Call, limit: pos, due: bool)
    requires Matches(cfg, prefix, db, b, clock) && clock <= later.now && ColonFree(later.ticket.tenant) && later.limits.requests == Some(limit)
    requires RequestsPass(cfg, b.log, later.ticket, limit, later.now) <==> due
    ensures var reason := CheckStep(cfg, KeysOf(prefix, later.ticket), db, later).1.reason;
            (reason.UserRequests? || reason.TenantRequests? ==> !due) &&
            (!due && !reason.UserConcurrency? && !reason.TenantConcurrency? ==> reason.UserRequests? || reason.TenantRequests?)
  {
    CheckVerdict(cfg, prefix, db, b, clock, later);
    VerdictByRequests(cfg, b, later, limit);
  }

  lemma AnsweredLater(cfg: Config, prefix: string, db: Db, b: Book, clock: int, c: Call, limit: pos, retry: nat)
    requires Matches(cfg, prefix, db, b, clock) && clock <= c.now && ColonFree(c.ticket.tenant)
    requires c.limits.requests == Some(limit) && ExactRetry(cfg, b.log, c.ticket, limit, c.now, retry)
    ensures AnswersExactly(cfg, prefix, db, c, retry)
  {
    forall wait: nat
      ensures var reason := CheckStep(cfg, KeysOf(prefix, c.ticket), db, c.(now := c.now + 1000 * wait)).1.reason;
              (reason.UserRequests? || reason.TenantRequests? ==> wait < retry) &&
              (wait < retry && !reason.UserConcurrency? && !reason.TenantConcurrency? ==> reason.UserRequests? || reason.TenantRequests?)
    {
      var later := c.(now := c.now + 1000 * wait);
      assert RequestsPass(cfg, b.log, c.ticket, limit, c.now + 1000 * wait) <==> retry <= wait;
      AnsweredAt(cfg, prefix, db, b, clock, later, limit, retry <= wait);
    }
  }

  /** The script's retry time after a refusal for a full request window is exact, for the windows and for its own answers. */
  lemma {:induction false} RetryIsExact(cfg: Config, prefix: string, es: seq<Event>, o: Outcome, l: Limits, c: Call, scope: Scope)
    requires Timely(es) && Sound(cfg, es) && Plain(es) && o == Run(cfg, prefix, es)
    requires FixedLimits(es, c.ticket.tenant, l) && Clock(es) <= c.now && ColonFree(c.ticket.tenant)
    requires c.limits == l && l.requests.Some? && c.ticket.In(scope)
    requires CheckStep(cfg, KeysOf(prefix, c.ticket), o.db, c).1.reason == MemoryRuns.FullReason(scope)
    ensures CheckStep(cfg, KeysOf(prefix, c.ticket), o.db, c).1.retryAfter.Some?
    ensures ExactRetry(cfg, Reference(cfg, es).book.log, c.ticket, l.requests.value, c.now,
                       CheckStep(cfg, KeysOf(prefix, c.ticket), o.db, c).1.retryAfter.value)
    ensures AnswersExactly(cfg, prefix, o.db, c, CheckStep(cfg, KeysOf(prefix, c.ticket), o.db, c).1.retryAfter.value)
  {
    RefinesReference(cfg, prefix, es);
    MemoryRuns.RefinesReference(cfg, es);
    MemoryRuns.RunEarned(cfg, es, c.ticket.tenant, l);
    RetryFromState(cfg, prefix, o.db, Reference(cfg, es).book, Clock(es), l, c, scope);
    AnsweredLater(cfg, prefix, o.db, Reference(cfg, es).book, Clock(es), c, l.requests.value,
                  CheckStep(cfg, KeysOf(prefix, c.ticket), o.db, c).1.retryAfter.value);
  }
}
