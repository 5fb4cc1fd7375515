/**
  The reference both quota enforcers are measured against: the whole history of
  admitted requests, filtered to a window and counted or summed.  Time is in
  integer milliseconds.
 */
module QuotaLog {
  import opened Options
  import TokenCodec

  datatype Limits = Limits(requests: Option<pos>, inputTokens: Option<pos>, concurrent: Option<pos>)

  datatype Config = Config(windowSeconds: pos, slotSeconds: pos) {
    function Window(): nat { 1000 * windowSeconds }

    function SlotTtl(): nat { 1000 * slotSeconds }

    /** How long an entry of a given kind counts. */
    function Span(kind: Kind): nat {
      if kind.Slots? then SlotTtl() else Window()
    }
  }

  /** What the two sorted sets and the active map of a scope hold. */
  datatype Kind = Requests | InputTokens | Slots

  datatype Scope = User(tenant: string, user: string) | Tenant(tenant: string)

  /** The `x-request-id` header or a fresh uuid: never empty. */
  type RequestId = s: string | s != "" witness "r"

  datatype Ticket = Ticket(tenant: string, user: string, id: RequestId) {
    predicate In(scope: Scope) {
      match scope
      case User(t, u) => tenant == t && user == u
      case Tenant(t) => tenant == t
    }
  }

  datatype Call = Call(ticket: Ticket, estimate: Option<int>, limits: Limits, now: nat) {
    function Tokens(): nat {
      var e := estimate.GetOr(0);
      if e < 0 then 0 else e
    }

    function UserScope(): Scope { User(ticket.tenant, ticket.user) }

    function TenantScope(): Scope { Tenant(ticket.tenant) }

    function AsAdmission(): Admission { Admission(ticket, now, Tokens()) }
  }

  datatype Admission = Admission(ticket: Ticket, at: nat, tokens: nat)

  datatype Reason =
    | UserConcurrency | TenantConcurrency
    | UserRequests | TenantRequests
    | UserInputTokens | TenantInputTokens
    | BackendUnavailable
    | Admitted

  datatype Decision = Decision(allowed: bool, status: nat, reason: Reason, retryAfter: Option<nat>)

  function Allow(): Decision { Decision(true, 200, Admitted, None) }

  function Deny(reason: Reason, retryAfter: nat): Decision { Decision(false, 429, reason, Some(retryAfter)) }

  /** A step of the gateway on either enforcer; a finish carries the shared clock. */
  datatype Event = Check(call: Call) | Finish(ticket: Ticket, at: nat) {
    function Time(): nat {
      match this
      case Check(c) => c.now
      case Finish(_, at) => at
    }

    function TenantId(): string {
      match this
      case Check(c) => c.ticket.tenant
      case Finish(t, _) => t.tenant
    }
  }

  /** The six numbers a decision is taken on. */
  datatype Load = Load(userSlots: nat, tenantSlots: nat, userRequests: nat, tenantRequests: nat,
                       userTokens: nat, tenantTokens: nat)

  /** The first limit the load violates, in the order the enforcers check them. */
  function Judge(l: Limits, x: Load, tokens: nat): Reason {
    if l.concurrent.Some? && x.userSlots >= l.concurrent.value then UserConcurrency
    else if l.concurrent.Some? && x.tenantSlots >= l.concurrent.value then TenantConcurrency
    else if l.requests.Some? && x.userRequests + 1 > l.requests.value then UserRequests
    else if l.requests.Some? && x.tenantRequests + 1 > l.requests.value then TenantRequests
    else if l.inputTokens.Some? && x.userTokens + tokens > l.inputTokens.value then UserInputTokens
    else if l.inputTokens.Some? && x.tenantTokens + tokens > l.inputTokens.value then TenantInputTokens
    else Admitted
  }

  /** The history as a filter: admissions of a scope, after the cutoff, whose ticket is not in `out`. */
  function Window(h: seq<Admission>, out: set<Ticket>, scope: Scope, cutoff: int): seq<Admission> {
    if h == [] then []
    else
      var w, a := Window(h[..|h| - 1], out, scope, cutoff), h[|h| - 1];
      if Kept(a, out, scope, cutoff) then w + [a] else w
  }

  predicate Kept(a: Admission, out: set<Ticket>, scope: Scope, cutoff: int) {
    a.ticket.In(scope) && a.at > cutoff && a.ticket !in out
  }

  function TokenSum(w: seq<Admission>): nat {
    if w == [] then 0 else TokenSum(w[..|w| - 1]) + w[|w| - 1].tokens
  }

  /** The member under which an admission is stored in a keyed container of the given kind. */
  function Name(kind: Kind, a: Admission): string {
    if kind.InputTokens? then TokenCodec.Encode(a.ticket.id, a.tokens) else a.ticket.id
  }

  /** A window as a keyed container: member to timestamp, later entries overwriting earlier ones. */
  function Index(kind: Kind, w: seq<Admission>): map<string, nat> {
    if w == [] then map[]
    else Index(kind, w[..|w| - 1])[Name(kind, w[|w| - 1]) := w[|w| - 1].at]
  }

  /** The entries of a keyed container that are younger than the cutoff. */
  function Live(m: map<string, nat>, cutoff: int): map<string, nat> {
    map id | id in m && m[id] > cutoff :: m[id]
  }

  /** The history together with the finished tickets. */
  datatype Book = Book(log: seq<Admission>, finished: set<Ticket>) {
    function Out(kind: Kind): set<Ticket> {
      if kind.Slots? then finished else {}
    }

    function View(cfg: Config, kind: Kind, scope: Scope, now: int): seq<Admission> {
      Window(log, Out(kind), scope, now - cfg.Span(kind))
    }

    function LoadOf(cfg: Config, c: Call): Load {
      Load(|View(cfg, Slots, c.UserScope(), c.now)|, |View(cfg, Slots, c.TenantScope(), c.now)|,
           |View(cfg, Requests, c.UserScope(), c.now)|, |View(cfg, Requests, c.TenantScope(), c.now)|,
           TokenSum(View(cfg, InputTokens, c.UserScope(), c.now)), TokenSum(View(cfg, InputTokens, c.TenantScope(), c.now)))
    }

    /** The reference answer to a check. */
    function Verdict(cfg: Config, c: Call): Reason {
      Judge(c.limits, LoadOf(cfg, c), c.Tokens())
    }

    /** An admission opens its ticket; a ticket that was never finished stays out of the set. */
    function Admit(a: Admission): Book {
      Book(log + [a], finished - {a.ticket})
    }

    function Next(cfg: Config, e: Event): Book {
      match e
      case Check(c) => if Verdict(cfg, c).Admitted? then Admit(c.AsAdmission()) else this
      case Finish(t, _) => Book(log, finished + {t})
    }
  }

  ghost predicate Reached(limit: Option<pos>, n: nat) {
    limit.Some? && n >= limit.value
  }

  ghost predicate Exceeded(limit: Option<pos>, n: nat) {
    limit.Some? && n > limit.value
  }

  /**
    Why a request of so many tokens is admitted or refused, given the windows of its user and tenant: the requests come
    before the tokens and the user before the tenant. Concurrency comes before all of them.
   */
  ghost predicate Explains(l: Limits, users: seq<Admission>, tenants: seq<Admission>, tokens: nat, reason: Reason) {
    var userFull, tenantFull := Reached(l.requests, |users|), Reached(l.requests, |tenants|);
    var userOver, tenantOver := Exceeded(l.inputTokens, TokenSum(users) + tokens), Exceeded(l.inputTokens, TokenSum(tenants) + tokens);
    match reason
    case UserConcurrency => l.concurrent.Some?
    case TenantConcurrency => l.concurrent.Some?
    case UserRequests => userFull
    case TenantRequests => tenantFull && !userFull
    case UserInputTokens => userOver && !userFull && !tenantFull
    case TenantInputTokens => tenantOver && !userFull && !tenantFull && !userOver
    case Admitted => !userFull && !tenantFull && !userOver && !tenantOver
    case BackendUnavailable => false
  }

  ghost predicate ExplainedByLog(cfg: Config, log: seq<Admission>, c: Call, reason: Reason) {
    var cutoff := c.now - 1000 * cfg.windowSeconds;
    Explains(c.limits, Window(log, {}, User(c.ticket.tenant, c.ticket.user), cutoff), Window(log, {}, Tenant(c.ticket.tenant), cutoff),
             c.Tokens(), reason)
  }

  lemma JudgedByWindows(l: Limits, x: Load, tokens: nat, users: seq<Admission>, tenants: seq<Admission>)
    requires x.userRequests == |users| && x.tenantRequests == |tenants|
    requires x.userTokens == TokenSum(users) && x.tenantTokens == TokenSum(tenants)
    ensures Explains(l, users, tenants, tokens, Judge(l, x, tokens))
  {
  }

  const EMPTY_BOOK := Book([], {})

  /** Timestamps never decrease along the log and never pass the clock. */
  ghost predicate Ordered(h: seq<Admission>, clock: int) {
    (forall i :: 0 <= i < |h| ==> h[i].at <= clock) &&
    (forall i, j :: 0 <= i <= j < |h| ==> h[i].at <= h[j].at)
  }

  /** No tenant ever admitted the same request id twice. */
  ghost predicate UniqueIds(h: seq<Admission>) {
    forall i, j :: 0 <= i < j < |h| && h[i].ticket.tenant == h[j].ticket.tenant ==> h[i].ticket.id != h[j].ticket.id
  }

  /** The ticket's id was not admitted before for its tenant. */
  ghost predicate FreshTicket(h: seq<Admission>, t: Ticket) {
    forall i :: 0 <= i < |h| && h[i].ticket.tenant == t.tenant ==> h[i].ticket.id != t.id
  }

  /** The ticket names the user who was admitted under its id. */
  ghost predicate OwnTicket(h: seq<Admission>, t: Ticket) {
    forall i :: 0 <= i < |h| && h[i].ticket.tenant == t.tenant && h[i].ticket.id == t.id ==> h[i].ticket.user == t.user
  }

  // ---------------------------------------------------------------- windows

  lemma WindowAppend(h: seq<Admission>, a: Admission, out: set<Ticket>, scope: Scope, cutoff: int)
    ensures Window(h + [a], out, scope, cutoff) ==
            if Kept(a, out, scope, cutoff) then Window(h, out, scope, cutoff) + [a] else Window(h, out, scope, cutoff)
  {
    assert (h + [a])[..|h|] == h;
  }

  lemma {:induction false} WindowMember(h: seq<Admission>, out: set<Ticket>, scope: Scope, cutoff: int, a: Admission)
    ensures a in Window(h, out, scope, cutoff) <==> a in h && Kept(a, out, scope, cutoff)
  {
    if h != [] {
      WindowMember(h[..|h| - 1], out, scope, cutoff, a);
      assert h == h[..|h| - 1] + [h[|h| - 1]];
    }
  }

  /** A narrower filter keeps no more requests and no more tokens. */
  lemma {:induction false} WindowNarrower(h: seq<Admission>, out1: set<Ticket>, s1: Scope, c1: int,
                                          out2: set<Ticket>, s2: Scope, c2: int)
    requires forall a :: a in h && Kept(a, out1, s1, c1) ==> Kept(a, out2, s2, c2)
    ensures |Window(h, out1, s1, c1)| <= |Window(h, out2, s2, c2)|
    ensures TokenSum(Window(h, out1, s1, c1)) <= TokenSum(Window(h, out2, s2, c2))
  {
    if h != [] {
      var p := h[..|h| - 1];
      forall a | a in p && Kept(a, out1, s1, c1) ensures Kept(a, out2, s2, c2) {
        assert a in h;
      }
      WindowNarrower(p, out1, s1, c1, out2, s2, c2);
      assert h[|h| - 1] in h;
    }
  }

  /** The window depends only on which of the log's tickets are out. */
  lemma {:induction false} WindowSameOut(h: seq<Admission>, out1: set<Ticket>, out2: set<Ticket>, scope: Scope, cutoff: int)
    requires forall a :: a in h && a.ticket.In(scope) ==> (a.ticket in out1 <==> a.ticket in out2)
    ensures Window(h, out1, scope, cutoff) == Window(h, out2, scope, cutoff)
  {
    if h != [] {
      var p := h[..|h| - 1];
      assert forall a :: a in p ==> a in h;
      WindowSameOut(p, out1, out2, scope, cutoff);
      assert h[|h| - 1] in h;
    }
  }

  // ---------------------------------------------------------------- indexes

  lemma {:induction false} IndexFrom(kind: Kind, w: seq<Admission>, m: string) returns (a: Admission)
    requires m in Index(kind, w)
    ensures a in w && Name(kind, a) == m
  {
    a := w[|w| - 1];
    if Name(kind, a) != m {
      a := IndexFrom(kind, w[..|w| - 1], m);
    }
  }

  /** Within one tenant, two admissions with the same member have the same request id. */
  lemma NameKeepsId(kind: Kind, a: Admission, b: Admission)
    ensures Name(kind, a) == Name(kind, b) ==> a.ticket.id == b.ticket.id
  {
    TokenCodec.EncodeKeepsId(a.ticket.id, a.tokens, b.ticket.id, b.tokens);
  }

  lemma FreshName(kind: Kind, h: seq<Admission>, out: set<Ticket>, scope: Scope, cutoff: int, a: Admission)
    requires FreshTicket(h, a.ticket) && a.ticket.tenant == scope.tenant
    ensures Name(kind, a) !in Index(kind, Window(h, out, scope, cutoff))
  {
    if Name(kind, a) in Index(kind, Window(h, out, scope, cutoff)) {
      var b := IndexFrom(kind, Window(h, out, scope, cutoff), Name(kind, a));
      WindowMember(h, out, scope, cutoff, b);
      NameKeepsId(kind, b, a);
      assert false;
    }
  }

  lemma UniquePrefix(h: seq<Admission>)
    requires UniqueIds(h) && h != []
    ensures UniqueIds(h[..|h| - 1]) && FreshTicket(h[..|h| - 1], h[|h| - 1].ticket)
  {
  }

  /** With unique ids a window loses nothing when it is stored by member. */
  lemma {:induction false} IndexSize(kind: Kind, h: seq<Admission>, out: set<Ticket>, scope: Scope, cutoff: int)
    requires UniqueIds(h)
    ensures |Index(kind, Window(h, out, scope, cutoff))| == |Window(h, out, scope, cutoff)|
  {
    if h != [] {
      var p, a := h[..|h| - 1], h[|h| - 1];
      UniquePrefix(h);
      IndexSize(kind, p, out, scope, cutoff);
      if Kept(a, out, scope, cutoff) {
        FreshName(kind, p, out, scope, cutoff, a);
        var w := Window(p, out, scope, cutoff);
        assert (w + [a])[..|w|] == w;
        InsertSize(Index(kind, w), Name(kind, a), a.at);
      }
    }
  }

  lemma InsertSize(m: map<string, nat>, k: string, v: nat)
    requires k !in m
    ensures |m[k := v]| == |m| + 1
  {
    assert m[k := v].Keys == m.Keys + {k};
  }

  lemma IndexAppend(kind: Kind, w: seq<Admission>, a: Admission)
    ensures Index(kind, w + [a]) == Index(kind, w)[Name(kind, a) := a.at]
  {
    assert (w + [a])[..|w|] == w;
  }

  lemma LiveTwice(m: map<string, nat>, c1: int, c2: int)
    requires c1 <= c2
    ensures Live(Live(m, c1), c2) == Live(m, c2)
  {
  }

  /** Purging again what was purged to a known result. */
  lemma LiveAgain(m: map<string, nat>, m1: map<string, nat>, m2: map<string, nat>, c1: int, c2: int)
    requires Live(m, c1) == m1 && Live(m1, c2) == m2 && c1 <= c2
    ensures Live(m, c2) == m2
  {
    LiveTwice(m, c1, c2);
  }

  lemma LiveInsert(m: map<string, nat>, k: string, v: nat, cutoff: int)
    ensures v > cutoff ==> Live(m[k := v], cutoff) == Live(m, cutoff)[k := v]
    ensures v <= cutoff && k !in m ==> Live(m[k := v], cutoff) == Live(m, cutoff)
  {
  }

  /** Purging the stored window by a later cutoff gives the stored later window. */
  lemma {:induction false} IndexLive(kind: Kind, h: seq<Admission>, out: set<Ticket>, scope: Scope, c1: int, c2: int)
    requires UniqueIds(h) && c1 <= c2
    ensures Live(Index(kind, Window(h, out, scope, c1)), c2) == Index(kind, Window(h, out, scope, c2))
  {
    if h != [] {
      var p, a := h[..|h| - 1], h[|h| - 1];
      UniquePrefix(h);
      IndexLive(kind, p, out, scope, c1, c2);
      if Kept(a, out, scope, c1) {
        FreshName(kind, p, out, scope, c1, a);
        IndexAppend(kind, Window(p, out, scope, c1), a);
        IndexAppend(kind, Window(p, out, scope, c2), a);
        LiveInsert(Index(kind, Window(p, out, scope, c1)), Name(kind, a), a.at, c2);
      }
    }
  }

  lemma InsertRemove(m: map<string, nat>, k: string, v: nat, gone: set<string>)
    ensures m[k := v] - gone == if k in gone then m - gone else (m - gone)[k := v]
  {
  }

  /** Finishing a ticket removes exactly its id from the slots of its own user and tenant. */
  lemma {:induction false} IndexFinish(h: seq<Admission>, out: set<Ticket>, t: Ticket, scope: Scope, cutoff: int)
    requires UniqueIds(h) && OwnTicket(h, t)
    ensures Index(Slots, Window(h, out + {t}, scope, cutoff)) ==
            Index(Slots, Window(h, out, scope, cutoff)) - (if t.In(scope) then {t.id} else {})
  {
    if h != [] {
      var p, a := h[..|h| - 1], h[|h| - 1];
      UniquePrefix(h);
      IndexFinish(p, out, t, scope, cutoff);
      SameIdSameTicket(h, t, |h| - 1);
      if Kept(a, out, scope, cutoff) {
        FinishOneMore(Window(p, out, scope, cutoff), Window(p, out + {t}, scope, cutoff), a, t, scope);
      }
    }
  }

  lemma FinishOneMore(w: seq<Admission>, w2: seq<Admission>, a: Admission, t: Ticket, scope: Scope)
    requires Index(Slots, w2) == Index(Slots, w) - (if t.In(scope) then {t.id} else {})
    requires a.ticket.In(scope)
    requires a.ticket.tenant == t.tenant && a.ticket.id == t.id ==> a.ticket == t
    ensures Index(Slots, if a.ticket == t then w2 else w2 + [a]) ==
            Index(Slots, w + [a]) - (if t.In(scope) then {t.id} else {})
  {
    IndexAppend(Slots, w, a);
    IndexAppend(Slots, w2, a);
    InsertRemove(Index(Slots, w), a.ticket.id, a.at, if t.In(scope) then {t.id} else {});
  }

  lemma SameIdSameTicket(h: seq<Admission>, t: Ticket, i: nat)
    requires OwnTicket(h, t) && i < |h|
    ensures h[i].ticket.tenant == t.tenant && h[i].ticket.id == t.id ==> h[i].ticket == t
  {
  }

  /** A slot is held exactly by the admitted, unfinished requests younger than the cutoff. */
  lemma SlotsExact(h: seq<Admission>, finished: set<Ticket>, scope: Scope, cutoff: int, id: string)
    ensures id in Index(Slots, Window(h, finished, scope, cutoff)) <==>
            exists a :: a in h && a.ticket.id == id && a.ticket.In(scope) && a.ticket !in finished && a.at > cutoff
  {
  }

  // ----------------------------------------------------- the window at every instant

  /** Admissions of a scope with a timestamp in the half-open interval (lo, hi]. */
  function Between(h: seq<Admission>, scope: Scope, lo: int, hi: int): seq<Admission> {
    if h == [] then []
    else
      var w, a := Between(h[..|h| - 1], scope, lo, hi), h[|h| - 1];
      if a.ticket.In(scope) && lo < a.at <= hi then w + [a] else w
  }

  /** When `a` was admitted after `h`, its limits left room for it in the scope. */
  predicate HadRoom(cfg: Config, h: seq<Admission>, a: Admission, l: Limits, scope: Scope) {
    var w := Window(h, {}, scope, a.at - cfg.Window());
    (l.requests.Some? ==> |w| + 1 <= l.requests.value) &&
    (l.inputTokens.Some? ==> TokenSum(w) + a.tokens <= l.inputTokens.value)
  }

  /** Every admission of the tenant had room for its user and for the tenant. */
  predicate Earned(cfg: Config, h: seq<Admission>, tenant: string, l: Limits) {
    h == [] ||
    var p, a := h[..|h| - 1], h[|h| - 1];
    Earned(cfg, p, tenant, l) &&
    (a.ticket.tenant == tenant ==>
       HadRoom(cfg, p, a, l, Tenant(tenant)) && HadRoom(cfg, p, a, l, User(tenant, a.ticket.user)))
  }

  lemma {:induction false} BetweenInWindow(h: seq<Admission>, scope: Scope, lo: int, hi: int, cutoff: int)
    requires cutoff <= lo
    ensures |Between(h, scope, lo, hi)| <= |Window(h, {}, scope, cutoff)|
    ensures TokenSum(Between(h, scope, lo, hi)) <= TokenSum(Window(h, {}, scope, cutoff))
  {
    if h != [] {
      BetweenInWindow(h[..|h| - 1], scope, lo, hi, cutoff);
    }
  }

  /** No window of the configured length, wherever it lies, holds more than the limits. */
  lemma {:induction false} BoundAtEveryInstant(cfg: Config, h: seq<Admission>, l: Limits, scope: Scope, t: int)
    requires Earned(cfg, h, scope.tenant, l)
    ensures l.requests.Some? ==> |Between(h, scope, t - cfg.Window(), t)| <= l.requests.value
    ensures l.inputTokens.Some? ==> TokenSum(Between(h, scope, t - cfg.Window(), t)) <= l.inputTokens.value
  {
    if h != [] {
      var p, a := h[..|h| - 1], h[|h| - 1];
      BoundAtEveryInstant(cfg, p, l, scope, t);
      if a.ticket.In(scope) && t - cfg.Window() < a.at <= t {
        BetweenInWindow(p, scope, t - cfg.Window(), t, a.at - cfg.Window());
        assert HadRoom(cfg, p, a, l, scope);
      }
    }
  }

  /** Once nothing lies in the future, the current window is the interval that ends now. */
  lemma {:induction false} WindowIsBetween(h: seq<Admission>, scope: Scope, cutoff: int, now: int)
    requires forall i :: 0 <= i < |h| ==> h[i].at <= now
    ensures Window(h, {}, scope, cutoff) == Between(h, scope, cutoff, now)
  {
    if h != [] {
      WindowIsBetween(h[..|h| - 1], scope, cutoff, now);
    }
  }

  // ----------------------------------------------------- how long a full window stays full

  /** Both request-count checks of a caller pass at the given time. */
  predicate RequestsPass(cfg: Config, h: seq<Admission>, t: Ticket, limit: pos, now: int) {
    |Window(h, {}, User(t.tenant, t.user), now - cfg.Window())| < limit &&
    |Window(h, {}, Tenant(t.tenant), now - cfg.Window())| < limit
  }

  /** A window keeps everything until its oldest entry expires, and then loses at least that. */
  lemma {:induction false} OldestDecides(h: seq<Admission>, scope: Scope, c1: int, c2: int, clock: int)
    requires Ordered(h, clock) && c1 <= c2 && Window(h, {}, scope, c1) != []
    ensures var w1, w2 := Window(h, {}, scope, c1), Window(h, {}, scope, c2);
            if c2 < w1[0].at then w2 == w1 else |w2| < |w1|
  {
    var p, a := h[..|h| - 1], h[|h| - 1];
    var w1 := Window(p, {}, scope, c1);
    if w1 != [] {
      OldestDecides(p, scope, c1, c2, clock);
      WindowMember(p, {}, scope, c1, w1[0]);
      assert w1[0] in p;
    } else {
      WindowNarrower(p, {}, scope, c2, {}, scope, c1);
    }
  }

  lemma {:induction false} SameSizeSameWindow(h: seq<Admission>, t: Ticket, cutoff: int)
    ensures var u, w := Window(h, {}, User(t.tenant, t.user), cutoff), Window(h, {}, Tenant(t.tenant), cutoff);
            |u| <= |w| && (|u| == |w| ==> u == w)
  {
    if h != [] {
      SameSizeSameWindow(h[..|h| - 1], t, cutoff);
    }
  }

  /**
    A caller refused for a full request window passes both request checks after waiting
    exactly until the oldest entry of that window expires, and at no earlier time.
    A full user window is the whole tenant window, because both share one limit.
   */
  lemma WaitExactly(cfg: Config, h: seq<Admission>, t: Ticket, scope: Scope, limit: pos, now: nat, wait: nat)
    requires Ordered(h, now) && t.In(scope)
    requires |Window(h, {}, Tenant(t.tenant), now - cfg.Window())| <= limit
    requires limit <= |Window(h, {}, scope, now - cfg.Window())|
    ensures RequestsPass(cfg, h, t, limit, now + wait) <==>
            cfg.Window() - (now - Window(h, {}, scope, now - cfg.Window())[0].at) <= wait
  {
    var c1, c2 := now - cfg.Window(), now + wait - cfg.Window();
    SameSizeSameWindow(h, t, c1);
    SameSizeSameWindow(h, t, c2);
    OldestDecides(h, Tenant(t.tenant), c1, c2, now);
    assert Window(h, {}, scope, c1) == Window(h, {}, Tenant(t.tenant), c1);
  }

  // ----------------------------------------------------- users and their tenant

  predicate NoDuplicates(users: seq<string>) {
    forall i, j :: 0 <= i < j < |users| ==> users[i] != users[j]
  }

  /** The per-user windows of a tenant, taken together. */
  function UserWindows(h: seq<Admission>, out: set<Ticket>, tenant: string, users: seq<string>, cutoff: int): multiset<Admission> {
    if users == [] then multiset{}
    else multiset(Window(h, out, User(tenant, users[0]), cutoff)) + UserWindows(h, out, tenant, users[1..], cutoff)
  }

  function UserTokens(h: seq<Admission>, out: set<Ticket>, tenant: string, users: seq<string>, cutoff: int): nat {
    if users == [] then 0
    else TokenSum(Window(h, out, User(tenant, users[0]), cutoff)) + UserTokens(h, out, tenant, users[1..], cutoff)
  }

  predicate Hit(a: Admission, out: set<Ticket>, tenant: string, users: seq<string>, cutoff: int) {
    a.ticket.user in users && Kept(a, out, Tenant(tenant), cutoff)
  }

  lemma {:induction false} UserWindowsAppend(h: seq<Admission>, a: Admission, out: set<Ticket>, tenant: string,
                                             users: seq<string>, cutoff: int)
    requires NoDuplicates(users)
    ensures UserWindows(h + [a], out, tenant, users, cutoff) ==
            UserWindows(h, out, tenant, users, cutoff) + (if Hit(a, out, tenant, users, cutoff) then multiset{a} else multiset{})
    ensures UserTokens(h + [a], out, tenant, users, cutoff) ==
            UserTokens(h, out, tenant, users, cutoff) + (if Hit(a, out, tenant, users, cutoff) then a.tokens else 0)
  {
    if users != [] {
      UserWindowsAppend(h, a, out, tenant, users[1..], cutoff);
      OneScopeAppend(h, a, out, User(tenant, users[0]), cutoff);
      HitSplits(a, out, tenant, users, cutoff);
    }
  }

  lemma HitSplits(a: Admission, out: set<Ticket>, tenant: string, users: seq<string>, cutoff: int)
    requires NoDuplicates(users) && users != []
    ensures Hit(a, out, tenant, users, cutoff) <==>
            Kept(a, out, User(tenant, users[0]), cutoff) || Hit(a, out, tenant, users[1..], cutoff)
    ensures !(Kept(a, out, User(tenant, users[0]), cutoff) && Hit(a, out, tenant, users[1..], cutoff))
  {
    assert users == [users[0]] + users[1..];
  }

  lemma OneScopeAppend(h: seq<Admission>, a: Admission, out: set<Ticket>, scope: Scope, cutoff: int)
    ensures multiset(Window(h + [a], out, scope, cutoff)) ==
            multiset(Window(h, out, scope, cutoff)) + (if Kept(a, out, scope, cutoff) then multiset{a} else multiset{})
    ensures TokenSum(Window(h + [a], out, scope, cutoff)) ==
            TokenSum(Window(h, out, scope, cutoff)) + (if Kept(a, out, scope, cutoff) then a.tokens else 0)
  {
    WindowAppend(h, a, out, scope, cutoff);
    var w := Window(h, out, scope, cutoff);
    assert (w + [a])[..|w|] == w;
  }

  lemma {:induction false} NoUserWindows(out: set<Ticket>, tenant: string, users: seq<string>, cutoff: int)
    ensures UserWindows([], out, tenant, users, cutoff) == multiset{}
    ensures UserTokens([], out, tenant, users, cutoff) == 0
  {
    if users != [] {
      NoUserWindows(out, tenant, users[1..], cutoff);
    }
  }

  /** A tenant's window is the disjoint union of its users' windows, so counts and tokens agree. */
  lemma {:induction false} Conservation(h: seq<Admission>, out: set<Ticket>, tenant: string, users: seq<string>, cutoff: int)
    requires NoDuplicates(users)
    requires forall a :: a in h && a.ticket.tenant == tenant ==> a.ticket.user in users
    ensures multiset(Window(h, out, Tenant(tenant), cutoff)) == UserWindows(h, out, tenant, users, cutoff)
    ensures |Window(h, out, Tenant(tenant), cutoff)| == |UserWindows(h, out, tenant, users, cutoff)|
    ensures TokenSum(Window(h, out, Tenant(tenant), cutoff)) == UserTokens(h, out, tenant, users, cutoff)
  {
    if h == [] {
      NoUserWindows(out, tenant, users, cutoff);
    } else {
      var p, a := h[..|h| - 1], h[|h| - 1];
      assert h == p + [a] && a in h;
      assert forall b :: b in p ==> b in h;
      Conservation(p, out, tenant, users, cutoff);
      UserWindowsAppend(p, a, out, tenant, users, cutoff);
      OneScopeAppend(p, a, out, Tenant(tenant), cutoff);
    }
  }

  /** A check passes exactly when the tenant-level checks pass; the user-level ones only name the reason. */
  lemma TenantDecides(cfg: Config, b: Book, c: Call)
    ensures var l, x := c.limits, b.LoadOf(cfg, c);
            b.Verdict(cfg, c).Admitted? <==>
            (l.concurrent.Some? ==> x.tenantSlots < l.concurrent.value) &&
            (l.requests.Some? ==> x.tenantRequests < l.requests.value) &&
            (l.inputTokens.Some? ==> x.tenantTokens + c.Tokens() <= l.inputTokens.value)
  {
    var w, s := c.now - cfg.Window(), c.now - cfg.SlotTtl();
    WindowNarrower(b.log, {}, c.UserScope(), w, {}, c.TenantScope(), w);
    WindowNarrower(b.log, b.finished, c.UserScope(), s, b.finished, c.TenantScope(), s);
  }

  // ---------------------------------------------------------------- runs

  function Clock(es: seq<Event>): nat {
    if es == [] then 0 else es[|es| - 1].Time()
  }

  /** The shared clock never goes backwards. */
  ghost predicate Timely(es: seq<Event>) {
    forall i, j :: 0 <= i <= j < |es| ==> es[i].Time() <= es[j].Time()
  }

  /** Every check of the tenant carries the same limits. */
  ghost predicate FixedLimits(es: seq<Event>, tenant: string, l: Limits) {
    forall i :: 0 <= i < |es| && es[i].Check? && es[i].call.ticket.tenant == tenant ==> es[i].call.limits == l
  }

  /** The reference book after a run, with one verdict for every check and none for a finish. */
  datatype Judged = Judged(book: Book, verdicts: seq<Option<Reason>>)

  function Reference(cfg: Config, es: seq<Event>): Judged {
    if es == [] then Judged(EMPTY_BOOK, [])
    else
      var j, e := Reference(cfg, es[..|es| - 1]), es[|es| - 1];
      Judged(j.book.Next(cfg, e), j.verdicts + [if e.Check? then Some(j.book.Verdict(cfg, e.call)) else None])
  }

  /** An admitted id is not reused within its tenant, and a finish names the user it was admitted for. */
  ghost predicate Sound(cfg: Config, es: seq<Event>) {
    es == [] ||
    var log, e := Reference(cfg, es[..|es| - 1]).book.log, es[|es| - 1];
    Sound(cfg, es[..|es| - 1]) &&
    match e
    case Check(c) => FreshTicket(log, c.ticket)
    case Finish(t, _) => OwnTicket(log, t)
  }

  /** The elements whose flag is set. */
  function Pick<T>(xs: seq<T>, keep: seq<bool>): seq<T>
    requires |xs| == |keep|
  {
    if xs == [] then []
    else
      var n := |xs| - 1;
      if keep[n] then Pick(xs[..n], keep[..n]) + [xs[n]] else Pick(xs[..n], keep[..n])
  }
}
