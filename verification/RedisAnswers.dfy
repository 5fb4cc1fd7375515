/** What the scripts answer, told by the admitted history alone. */
module RedisAnswers {
  import opened Options
  import opened QuotaLog
  import opened RedisKeys
  import opened RedisQuota
  import opened RedisRefinement

  /** The least whole number of seconds after which the oldest entry of the window has left it; all of it if there is none. */
  ghost predicate UntilExpiry(cfg: Config, w: seq<Admission>, now: nat, retry: Option<nat>) {
    retry.Some? &&
    if w == [] then retry.value == cfg.windowSeconds
    else
      var left := w[0].at + 1000 * cfg.windowSeconds - now;
      1 <= retry.value && 1000 * (retry.value - 1) < left <= 1000 * retry.value
  }

  ghost predicate TimeRoundedUp(cfg: Config, log: seq<Admission>, scope: Scope, now: nat, retry: Option<nat>) {
    UntilExpiry(cfg, Window(log, {}, scope, now - 1000 * cfg.windowSeconds), now, retry)
  }

  /** Which answer goes with which reason. */
  ghost predicate AnsweredFromLog(cfg: Config, log: seq<Admission>, c: Call, d: Decision) {
    match d.reason
    case Admitted => d == Decision(true, 200, Admitted, None)
    case UserConcurrency => d == Decision(false, 429, UserConcurrency, Some(cfg.slotSeconds))
    case TenantConcurrency => d == Decision(false, 429, TenantConcurrency, Some(cfg.slotSeconds))
    case UserRequests => !d.allowed && d.status == 429 && TimeRoundedUp(cfg, log, User(c.ticket.tenant, c.ticket.user), c.now, d.retryAfter)
    case UserInputTokens => !d.allowed && d.status == 429 && TimeRoundedUp(cfg, log, User(c.ticket.tenant, c.ticket.user), c.now, d.retryAfter)
    case TenantRequests => !d.allowed && d.status == 429 && TimeRoundedUp(cfg, log, Tenant(c.ticket.tenant), c.now, d.retryAfter)
    case TenantInputTokens => !d.allowed && d.status == 429 && TimeRoundedUp(cfg, log, Tenant(c.ticket.tenant), c.now, d.retryAfter)
    case BackendUnavailable => false
  }

  lemma Ceiling(ms: nat)
    ensures 1000 * (CeilSeconds(ms) - 1) < ms <= 1000 * CeilSeconds(ms)
    ensures ms >= 1 ==> CeilSeconds(ms) >= 1
  {
  }

  /** The retry time read from a set whose least score is that of the window's first entry. */
  lemma {:induction false} RetryOfWindow(cfg: Config, w: seq<Admission>, z: ZSet, now: nat)
    requires (w == [] <==> z == map[]) && (w != [] ==> OldestScore(z) == w[0].at && now - cfg.Window() < w[0].at)
    ensures UntilExpiry(cfg, w, now, Some(ScriptRetry(z, now, cfg.Window())))
  {
    WholeWindow(cfg);
    if w != [] {
      Ceiling(w[0].at + cfg.Window() - now);
    }
  }

  /** The set of a view has the score of the view's first entry as its least. */
  lemma {:induction false} ViewFirst(cfg: Config, b: Book, clock: int, kind: Kind, scope: Scope, now: nat, w: seq<Admission>, cutoff: int)
    requires Ordered(b.log, clock) && UniqueIds(b.log) && clock <= now && !kind.Slots?
    requires w == b.View(cfg, kind, scope, now) && cutoff == now - cfg.Window()
    ensures w == Window(b.log, {}, scope, cutoff) && (w == [] <==> Index(kind, w) == map[])
    ensures w != [] ==> OldestScore(Index(kind, w)) == w[0].at && cutoff < w[0].at
  {
    if w != [] {
      OldestIsFirst(kind, b.log, scope, cutoff, clock);
      WindowMember(b.log, {}, scope, cutoff, w[0]);
    }
  }

  lemma {:induction false} ViewTold(cfg: Config, b: Book, clock: int, kind: Kind, scope: Scope, now: nat, z: ZSet)
    requires Ordered(b.log, clock) && UniqueIds(b.log) && clock <= now && !kind.Slots?
    requires z == Index(kind, b.View(cfg, kind, scope, now))
    ensures TimeRoundedUp(cfg, b.log, scope, now, Some(ScriptRetry(z, now, cfg.Window())))
  {
    var w := b.View(cfg, kind, scope, now);
    ViewFirst(cfg, b, clock, kind, scope, now, w, now - cfg.Window());
    RetryOfWindow(cfg, w, z, now);
  }

  lemma WholeWindow(cfg: Config)
    ensures CeilSeconds(cfg.Window()) == cfg.windowSeconds && CeilSeconds(cfg.SlotTtl()) == cfg.slotSeconds
  {
  }

  /** The set a window refusal reads holds the window it is about. */
  lemma {:induction false} SetTold(cfg: Config, ks: Keys, clean: Db, b: Book, clock: int, c: Call, reason: Reason)
    requires HoldsViews(cfg, ks, clean, b, c) && Ordered(b.log, clock) && UniqueIds(b.log) && clock <= c.now
    requires reason.UserRequests? || reason.TenantRequests? || reason.UserInputTokens? || reason.TenantInputTokens?
    ensures TimeRoundedUp(cfg, b.log, if reason.UserRequests? || reason.UserInputTokens? then c.UserScope() else c.TenantScope(), c.now,
                          Some(ScriptRetry(clean.Members(RefusedKey(ks, reason)), c.now, cfg.Window())))
  {
    var z := clean.Members(RefusedKey(ks, reason));
    match reason
    case UserRequests => ViewTold(cfg, b, clock, Requests, c.UserScope(), c.now, z);
    case TenantRequests => ViewTold(cfg, b, clock, Requests, c.TenantScope(), c.now, z);
    case UserInputTokens => ViewTold(cfg, b, clock, InputTokens, c.UserScope(), c.now, z);
    case TenantInputTokens => ViewTold(cfg, b, clock, InputTokens, c.TenantScope(), c.now, z);
  }

  /** The answer to a check, by the purged sets and its reason. */
  lemma {:induction false} AnswerTold(cfg: Config, ks: Keys, clean: Db, b: Book, clock: int, c: Call, reason: Reason)
    requires HoldsViews(cfg, ks, clean, b, c) && Ordered(b.log, clock) && UniqueIds(b.log) && clock <= c.now
    requires !reason.BackendUnavailable?
    ensures AnsweredFromLog(cfg, b.log, c, Answer(cfg, ks, clean, c.now, reason))
  {
    WholeWindow(cfg);
    if !reason.Admitted? && !reason.UserConcurrency? && !reason.TenantConcurrency? {
      SetTold(cfg, ks, clean, b, clock, c, reason);
    }
  }

  lemma NeverUnavailable(l: Limits, x: Load, tokens: nat)
    ensures !Judge(l, x, tokens).BackendUnavailable?
  {
  }

  lemma {:induction false} BookExplains(cfg: Config, b: Book, c: Call)
    ensures ExplainedByLog(cfg, b.log, c, b.Verdict(cfg, c))
  {
    JudgedByWindows(c.limits, b.LoadOf(cfg, c), c.Tokens(), b.View(cfg, Requests, c.UserScope(), c.now),
                    b.View(cfg, Requests, c.TenantScope(), c.now));
  }

  /**
    Every answer over Redis with fresh ids, told by the admitted history. Which request or token limit refuses it, if
    none of concurrency does, is read off the windows of its user and tenant. An admission is 200; a refusal is 429 and
    after a request or token refusal of the user (or tenant) names the least whole number of seconds after which the
    oldest admission of that user's (or tenant's) window has left it, and after a concurrency refusal the slot's lifetime.
   */
  lemma {:induction false} AnswersAreTold(cfg: Config, prefix: string, es: seq<Event>, c: Call)
    requires Timely(es) && Sound(cfg, es) && Plain(es) && Clock(es) <= c.now && ColonFree(c.ticket.tenant)
    ensures AnsweredFromLog(cfg, Reference(cfg, es).book.log, c, CheckStep(cfg, KeysOf(prefix, c.ticket), Run(cfg, prefix, es).db, c).1)
    ensures ExplainedByLog(cfg, Reference(cfg, es).book.log, c, CheckStep(cfg, KeysOf(prefix, c.ticket), Run(cfg, prefix, es).db, c).1.reason)
  {
    var ks, db, b := KeysOf(prefix, c.ticket), Run(cfg, prefix, es).db, Reference(cfg, es).book;
    RefinesReference(cfg, prefix, es);
    PurgedHoldsViews(cfg, prefix, db, b, Clock(es), c);
    var clean := Purge(cfg, ks, db, c.now);
    NeverUnavailable(c.limits, LoadOf(cfg, ks, clean, c.now), c.Tokens());
    BookExplains(cfg, b, c);
    CheckVerdict(cfg, prefix, db, b, Clock(es), c);
    AnswerTold(cfg, ks, clean, b, Clock(es), c, Judge(c.limits, LoadOf(cfg, ks, clean, c.now), c.Tokens()));
  }
}
