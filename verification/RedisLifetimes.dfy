/** Key lifetimes, denied checks and heartbeats: what a Redis decision does not depend on. */
module RedisLifetimes {
  import opened Options
  import opened QuotaLog
  import opened RedisKeys
  import opened RedisQuota
  import opened RedisRefinement

  /** Everything that can happen to the sets: gateway calls, heartbeats, and Redis dropping an expired key. */
  datatype RedisEvent = Gate(e: Event) | Heartbeat(ticket: Ticket, at: nat) | Evict(key: string, at: nat) {
    function Time(): nat {
      match this
      case Gate(e) => e.Time()
      case Heartbeat(_, at) => at
      case Evict(_, at) => at
    }
  }

  ghost function StepAny(cfg: Config, prefix: string, o: Outcome, e: RedisEvent): Outcome {
    match e
    case Gate(g) => Step(cfg, prefix, o, g)
    case Heartbeat(t, at) => Outcome(HeartbeatStep(cfg, KeysOf(prefix, t), o.db, t.id, at), o.decisions + [None])
    case Evict(key, at) => Outcome(o.db.Evict(key, at), o.decisions + [None])
  }

  ghost function RunAny(cfg: Config, prefix: string, es: seq<RedisEvent>): (o: Outcome)
    ensures |o.decisions| == |es|
  {
    if es == [] then Outcome(EMPTY_DB, []) else StepAny(cfg, prefix, RunAny(cfg, prefix, es[..|es| - 1]), es[|es| - 1])
  }

  function Now(es: seq<RedisEvent>): nat {
    if es == [] then 0 else es[|es| - 1].Time()
  }

  ghost predicate InTime(es: seq<RedisEvent>) {
    forall i, j :: 0 <= i <= j < |es| ==> es[i].Time() <= es[j].Time()
  }

  // ------------------------------------------------------------ lifetimes

  /** Every stored set has a lifetime that outlasts its youngest member by the full key lifetime. */
  ghost predicate Bounded(cfg: Config, db: Db, clock: int) {
    forall k :: k in db.sets ==>
      db.sets[k] != map[] && k in db.deadlines && db.deadlines[k] <= clock + KeyTtl(cfg) &&
      forall m :: m in db.sets[k] ==> db.sets[k][m] + KeyTtl(cfg) <= db.deadlines[k] && db.sets[k][m] <= clock
  }

  /** While a script runs, only the keys it is about to renew may lack such a lifetime. */
  ghost predicate BoundedExcept(cfg: Config, db: Db, now: int, pending: set<string>) {
    forall k :: k in db.sets ==>
      db.sets[k] != map[] && (forall m :: m in db.sets[k] ==> db.sets[k][m] <= now) &&
      (k !in pending ==>
         k in db.deadlines && db.deadlines[k] <= now + KeyTtl(cfg) &&
         forall m :: m in db.sets[k] ==> db.sets[k][m] + KeyTtl(cfg) <= db.deadlines[k])
  }

  lemma {:induction false} RemoveEachBounded(cfg: Config, db: Db, keys: seq<string>, hi: int, now: nat, pending: set<string>)
    requires BoundedExcept(cfg, db, now, pending)
    ensures BoundedExcept(cfg, RemoveEach(db, keys, hi), now, pending)
    decreases |keys|
  {
    if keys != [] {
      RemoveEachBounded(cfg, db.ZRemRangeByScore(keys[0], hi), keys[1..], hi, now, pending);
    }
  }

  lemma {:induction false} RemoveMemberEachBounded(cfg: Config, db: Db, keys: seq<string>, m: string, now: nat, pending: set<string>)
    requires BoundedExcept(cfg, db, now, pending)
    ensures BoundedExcept(cfg, RemoveMemberEach(db, keys, m), now, pending)
    decreases |keys|
  {
    if keys != [] {
      RemoveMemberEachBounded(cfg, db.ZRem(keys[0], m), keys[1..], m, now, pending);
    }
  }

  lemma {:induction false} AddEachBounded(cfg: Config, db: Db, keys: seq<string>, m: string, now: nat, pending: set<string>)
    requires BoundedExcept(cfg, db, now, pending) && forall k :: k in keys ==> k in pending
    ensures BoundedExcept(cfg, AddEach(db, keys, m, now), now, pending)
    decreases |keys|
  {
    if keys != [] {
      AddEachBounded(cfg, db.ZAdd(keys[0], m, now), keys[1..], m, now, pending);
    }
  }

  lemma {:induction false} AddExistingEachBounded(cfg: Config, db: Db, keys: seq<string>, m: string, now: nat, pending: set<string>)
    requires BoundedExcept(cfg, db, now, pending) && forall k :: k in keys ==> k in pending
    ensures BoundedExcept(cfg, AddExistingEach(db, keys, m, now), now, pending)
    decreases |keys|
  {
    if keys != [] {
      AddExistingEachBounded(cfg, db.ZAddExisting(keys[0], m, now), keys[1..], m, now, pending);
    }
  }

  lemma {:induction false} ExpireEachBounded(cfg: Config, db: Db, keys: seq<string>, now: nat, pending: set<string>)
    requires BoundedExcept(cfg, db, now, pending)
    ensures BoundedExcept(cfg, ExpireEach(db, keys, now + KeyTtl(cfg)), now, pending - (set k | k in keys))
    decreases |keys|
  {
    if keys == [] {
      assert pending - (set k | k in keys) == pending;
    } else {
      ExpireEachBounded(cfg, db.Expire(keys[0], now + KeyTtl(cfg)), keys[1..], now, pending - {keys[0]});
      assert pending - {keys[0]} - (set k | k in keys[1..]) == pending - (set k | k in keys);
    }
  }

  lemma BoundedLater(cfg: Config, db: Db, clock: nat, now: nat)
    requires Bounded(cfg, db, clock) && clock <= now
    ensures BoundedExcept(cfg, db, now, {}) && Bounded(cfg, db, now)
  {
  }

  lemma BoundedWiden(cfg: Config, db: Db, now: nat, pending: set<string>)
    requires BoundedExcept(cfg, db, now, {})
    ensures BoundedExcept(cfg, db, now, pending)
  {
  }

  lemma BoundedAgain(cfg: Config, db: Db, now: nat)
    requires BoundedExcept(cfg, db, now, {})
    ensures Bounded(cfg, db, now)
  {
  }

  lemma PurgeBounded(cfg: Config, ks: Keys, db: Db, now: nat)
    requires BoundedExcept(cfg, db, now, {})
    ensures BoundedExcept(cfg, Purge(cfg, ks, db, now), now, {})
  {
    var quota := [ks.userRequests, ks.userInput, ks.tenantRequests, ks.tenantInput];
    RemoveEachBounded(cfg, db, quota, now - cfg.Window(), now, {});
    RemoveEachBounded(cfg, RemoveEach(db, quota, now - cfg.Window()), ks.Slots(), now - cfg.SlotTtl(), now, {});
  }

  lemma CommitBounded(cfg: Config, ks: Keys, clean: Db, a: Admission, allowed: bool)
    requires BoundedExcept(cfg, clean, a.at, {})
    ensures Bounded(cfg, Commit(cfg, ks, clean, a, allowed), a.at)
  {
    InsertBounded(cfg, ks, clean, a);
    BoundedAgain(cfg, clean, a.at);
    BoundedAgain(cfg, Renew(ks, Insert(ks, clean, a), a.at + KeyTtl(cfg)), a.at);
  }

  lemma CheckKeepsBounded(cfg: Config, ks: Keys, db: Db, clock: nat, c: Call)
    requires Bounded(cfg, db, clock) && clock <= c.now
    ensures Bounded(cfg, CheckStep(cfg, ks, db, c).0, c.now)
  {
    var clean := Purge(cfg, ks, db, c.now);
    BoundedLater(cfg, db, clock, c.now);
    PurgeBounded(cfg, ks, db, c.now);
    CommitBounded(cfg, ks, clean, c.AsAdmission(), Reply(cfg, ks, clean, c).allowed);
  }

  lemma InsertBounded(cfg: Config, ks: Keys, clean: Db, a: Admission)
    requires BoundedExcept(cfg, clean, a.at, {})
    ensures BoundedExcept(cfg, Renew(ks, Insert(ks, clean, a), a.at + KeyTtl(cfg)), a.at, {})
  {
    var all := [ks.userRequests, ks.userInput, ks.tenantRequests, ks.tenantInput, ks.userSlots, ks.tenantSlots];
    var pending := set k | k in all;
    BoundedWiden(cfg, clean, a.at, pending);
    var d1 := AddEach(clean, ks.Requests(), Name(Requests, a), a.at);
    var d2 := AddEach(d1, ks.Inputs(), Name(InputTokens, a), a.at);
    AddEachBounded(cfg, clean, ks.Requests(), Name(Requests, a), a.at, pending);
    AddEachBounded(cfg, d1, ks.Inputs(), Name(InputTokens, a), a.at, pending);
    AddEachBounded(cfg, d2, ks.Slots(), Name(Slots, a), a.at, pending);
    ExpireEachBounded(cfg, Insert(ks, clean, a), all, a.at, pending);
    assert pending - pending == {};
  }

  lemma FinishKeepsBounded(cfg: Config, ks: Keys, db: Db, clock: nat, id: string, now: nat)
    requires Bounded(cfg, db, clock) && clock <= now
    ensures Bounded(cfg, FinishStep(cfg, ks, db, id, now), now)
  {
    BoundedLater(cfg, db, clock, now);
    RemoveMemberEachBounded(cfg, db, ks.Slots(), id, now, {});
    ExpireEachBounded(cfg, RemoveMemberEach(db, ks.Slots(), id), ks.Slots(), now, {});
    assert {} - (set k | k in ks.Slots()) == {};
    BoundedAgain(cfg, FinishStep(cfg, ks, db, id, now), now);
  }

  lemma HeartbeatKeepsBounded(cfg: Config, ks: Keys, db: Db, clock: nat, id: string, now: nat)
    requires Bounded(cfg, db, clock) && clock <= now
    ensures Bounded(cfg, HeartbeatStep(cfg, ks, db, id, now), now)
  {
    var pending := set k | k in ks.Slots();
    BoundedLater(cfg, db, clock, now);
    BoundedWiden(cfg, db, now, pending);
    AddExistingEachBounded(cfg, db, ks.Slots(), id, now, pending);
    ExpireEachBounded(cfg, AddExistingEach(db, ks.Slots(), id, now), ks.Slots(), now, pending);
    assert pending - pending == {};
    BoundedAgain(cfg, HeartbeatStep(cfg, ks, db, id, now), now);
  }

  lemma {:induction false} ExpireEachSets(db: Db, keys: seq<string>, deadline: nat, k: string)
    ensures k in keys && k in db.sets ==> Lookup(ExpireEach(db, keys, deadline).deadlines, k, 0) == deadline
    ensures k !in keys ==> Lookup(ExpireEach(db, keys, deadline).deadlines, k, 0) == Lookup(db.deadlines, k, 0)
    decreases |keys|
  {
    if keys != [] {
      ExpireEachSets(db.Expire(keys[0], deadline), keys[1..], deadline, k);
    }
  }

  /** The key, if it is stored, expires then. */
  ghost predicate Expires(db: Db, k: string, deadline: nat) {
    k in db.sets ==> Lookup(db.deadlines, k, 0) == deadline
  }

  lemma {:induction false} AllExpire(db: Db, keys: seq<string>, deadline: nat, k: string)
    requires k in keys
    ensures Expires(ExpireEach(db, keys, deadline), k, deadline)
  {
    ExpireEachKeepsSets(db, keys, deadline);
    ExpireEachSets(db, keys, deadline, k);
  }

  /** One of the six keys of a call. */
  ghost predicate OneOf(ks: Keys, k: string) {
    k == ks.userRequests || k == ks.userInput || k == ks.tenantRequests || k == ks.tenantInput || k == ks.userSlots || k == ks.tenantSlots
  }

  lemma {:induction false} CommitRenews(cfg: Config, ks: Keys, clean: Db, a: Admission, k: string, ttl: nat)
    requires ks.Separate() && OneOf(ks, k) && ttl == KeyTtl(cfg)
    ensures var after := Commit(cfg, ks, clean, a, true); k in after.sets && Expires(after, k, a.at + ttl)
  {
    AdmissionRenews(cfg, ks, clean, a, a.at + ttl, k);
  }

  /** An admission leaves all six sets of its user and tenant stored with the full key lifetime ahead. */
  lemma {:induction false} AdmissionsRenew(cfg: Config, ks: Keys, db: Db, c: Call, k: string)
    requires ks.Separate() && OneOf(ks, k) && CheckStep(cfg, ks, db, c).1.allowed
    ensures var after := CheckStep(cfg, ks, db, c).0;
            var ttl := 1000 * ((if cfg.windowSeconds < cfg.slotSeconds then cfg.slotSeconds else cfg.windowSeconds) + 60);
            k in after.sets && Expires(after, k, c.now + ttl)
  {
    CommitRenews(cfg, ks, Purge(cfg, ks, db, c.now), c.AsAdmission(), k, KeyTtl(cfg));
  }

  /** A finish and a heartbeat leave both slot sets, if there is anything in them, with the full key lifetime ahead. */
  lemma {:induction false} SlotCallsRenew(cfg: Config, ks: Keys, db: Db, id: string, now: nat, k: string)
    requires k in [ks.userSlots, ks.tenantSlots]
    ensures var ttl := 1000 * ((if cfg.windowSeconds < cfg.slotSeconds then cfg.slotSeconds else cfg.windowSeconds) + 60);
            Expires(FinishStep(cfg, ks, db, id, now), k, now + ttl) && Expires(HeartbeatStep(cfg, ks, db, id, now), k, now + ttl)
  {
    AllExpire(RemoveMemberEach(db, ks.Slots(), id), ks.Slots(), now + KeyTtl(cfg), k);
    AllExpire(AddExistingEach(db, ks.Slots(), id, now), ks.Slots(), now + KeyTtl(cfg), k);
  }

  lemma {:induction false} AdmissionRenews(cfg: Config, ks: Keys, clean: Db, a: Admission, deadline: nat, k: string)
    requires ks.Separate() && OneOf(ks, k)
    ensures var after := Renew(ks, Insert(ks, clean, a), deadline); k in after.sets && Lookup(after.deadlines, k, 0) == deadline
  {
    var inserted, all := Insert(ks, clean, a), [ks.userRequests, ks.userInput, ks.tenantRequests, ks.tenantInput, ks.userSlots, ks.tenantSlots];
    InsertEffect(ks, clean, a, k);
    assert inserted.Members(k) != map[] by {
      assert ks.Role(k).Some? && Name(ks.Role(k).value, a) in inserted.Members(k);
    }
    ExpireEachKeepsSets(inserted, all, deadline);
    ExpireEachSets(inserted, all, deadline, k);
  }

  /**
    No leaked keys: after any run, whatever it mixes, every key in Redis holds at least one member
    and expires within the key lifetime of the last call.
   */
  lemma {:induction false} EveryKeyExpires(cfg: Config, prefix: string, es: seq<RedisEvent>)
    requires InTime(es)
    ensures Bounded(cfg, RunAny(cfg, prefix, es).db, Now(es))
    ensures var db := RunAny(cfg, prefix, es).db;
            var ttl := 1000 * ((if cfg.windowSeconds < cfg.slotSeconds then cfg.slotSeconds else cfg.windowSeconds) + 60);
            forall k :: k in db.sets ==> db.sets[k] != map[] && k in db.deadlines && db.deadlines[k] <= Now(es) + ttl &&
                                         forall m :: m in db.sets[k] ==> db.sets[k][m] + ttl <= db.deadlines[k]
  {
    if es != [] {
      var p, e := es[..|es| - 1], es[|es| - 1];
      EveryKeyExpires(cfg, prefix, p);
      var db := RunAny(cfg, prefix, p).db;
      assert Now(p) <= e.Time();
      match e {
        case Gate(Check(c)) => CheckKeepsBounded(cfg, KeysOf(prefix, c.ticket), db, Now(p), c);
        case Gate(Finish(t, at)) => FinishKeepsBounded(cfg, KeysOf(prefix, t), db, Now(p), t.id, at);
        case Heartbeat(t, at) => HeartbeatKeepsBounded(cfg, KeysOf(prefix, t), db, Now(p), t.id, at);
        case Evict(key, at) => BoundedLater(cfg, db, Now(p), at);
      }
    }
  }

  /** By the time Redis may drop a key, the next check would purge all its members. */
  lemma EvictedWasStale(cfg: Config, db: Db, clock: nat, key: string, now: nat, kind: Kind, k: string)
    requires Bounded(cfg, db, clock) && clock <= now
    ensures Live(db.Evict(key, now).Members(k), now - cfg.Span(kind)) == Live(db.Members(k), now - cfg.Span(kind))
  {
  }

  // ------------------------------------------------------------ what a decision reads

  /** A reply depends only on the live members of the caller's six sets. */
  lemma DecisionReadsLive(cfg: Config, ks: Keys, db1: Db, db2: Db, c: Call)
    requires ks.Separate()
    requires forall k :: ks.Role(k).Some? ==>
               PurgedSet(cfg, db1.Members(k), ks.Role(k), c.now) == PurgedSet(cfg, db2.Members(k), ks.Role(k), c.now)
    ensures CheckStep(cfg, ks, db1, c).1 == CheckStep(cfg, ks, db2, c).1
  {
    var p1, p2 := Purge(cfg, ks, db1, c.now), Purge(cfg, ks, db2, c.now);
    forall k | ks.Role(k).Some? ensures p1.Members(k) == p2.Members(k) {
      PurgeEffect(cfg, ks, db1, c.now, k);
      PurgeEffect(cfg, ks, db2, c.now, k);
    }
    ReplyReadsSix(cfg, ks, p1, p2, c);
  }

  lemma ReplyReadsSix(cfg: Config, ks: Keys, p1: Db, p2: Db, c: Call)
    requires ks.Separate() && forall k :: ks.Role(k).Some? ==> p1.Members(k) == p2.Members(k)
    ensures Reply(cfg, ks, p1, c) == Reply(cfg, ks, p2, c)
  {
    SixKeys(ks);
    LoadReadsSix(cfg, ks, p1, p2, c.now);
    AnswerReadsSix(cfg, ks, p1, p2, c.now, Judge(c.limits, LoadOf(cfg, ks, p1, c.now), c.Tokens()));
  }

  lemma SixKeys(ks: Keys)
    requires ks.Separate()
    ensures ks.Role(ks.userRequests).Some? && ks.Role(ks.tenantRequests).Some? && ks.Role(ks.userInput).Some?
    ensures ks.Role(ks.tenantInput).Some? && ks.Role(ks.userSlots).Some? && ks.Role(ks.tenantSlots).Some?
  {
  }

  lemma LoadReadsSix(cfg: Config, ks: Keys, p1: Db, p2: Db, now: nat)
    requires p1.Members(ks.userSlots) == p2.Members(ks.userSlots) && p1.Members(ks.tenantSlots) == p2.Members(ks.tenantSlots)
    requires p1.Members(ks.userRequests) == p2.Members(ks.userRequests) && p1.Members(ks.tenantRequests) == p2.Members(ks.tenantRequests)
    requires p1.Members(ks.userInput) == p2.Members(ks.userInput) && p1.Members(ks.tenantInput) == p2.Members(ks.tenantInput)
    ensures LoadOf(cfg, ks, p1, now) == LoadOf(cfg, ks, p2, now)
  {
  }

  lemma AnswerReadsSix(cfg: Config, ks: Keys, p1: Db, p2: Db, now: nat, reason: Reason)
    requires p1.Members(RefusedKey(ks, reason)) == p2.Members(RefusedKey(ks, reason))
    ensures Answer(cfg, ks, p1, now, reason) == Answer(cfg, ks, p2, now, reason)
  {
  }

  // ------------------------------------------------------------ quiet events

  ghost predicate SubSet(z1: ZSet, z2: ZSet) {
    forall m :: m in z1 ==> m in z2 && z1[m] == z2[m]
  }

  /** How one set of the busier run relates to the same set of the quieter run. */
  ghost predicate SetBehind(z1: ZSet, z2: ZSet, cutoff: int) {
    Live(z1, cutoff) == Live(z2, cutoff) && SubSet(z1, z2)
  }

  /** The first store differs from the second only in having dropped stale members earlier. */
  ghost predicate Behind(cfg: Config, prefix: string, db1: Db, db2: Db, clock: int) {
    forall kind: Kind, scope: Scope ::
      SetBehind(Set(prefix, db1, kind, scope), Set(prefix, db2, kind, scope), clock - cfg.Span(kind))
  }

  lemma SetBehindLater(z1: ZSet, z2: ZSet, c1: int, c2: int)
    requires SetBehind(z1, z2, c1) && c1 <= c2
    ensures SetBehind(z1, z2, c2)
  {
    LiveTwice(z1, c1, c2);
    LiveTwice(z2, c1, c2);
  }

  lemma PurgeKeepsBehind(cfg: Config, z1: ZSet, z2: ZSet, role: Option<Kind>, kind: Kind, now: nat)
    requires SetBehind(z1, z2, now - cfg.Span(kind)) && (role.Some? ==> role.value == kind)
    ensures SetBehind(PurgedSet(cfg, z1, role, now), PurgedSet(cfg, z2, role, now), now - cfg.Span(kind))
    ensures SetBehind(PurgedSet(cfg, z1, role, now), z2, now - cfg.Span(kind))
  {
    LiveTwice(z1, now - cfg.Span(kind), now - cfg.Span(kind));
    LiveTwice(z2, now - cfg.Span(kind), now - cfg.Span(kind));
  }

  lemma AfterKeepsBehind(cfg: Config, z1: ZSet, z2: ZSet, role: Option<Kind>, kind: Kind, a: Admission, allowed: bool)
    requires SetBehind(z1, z2, a.at - cfg.Span(kind)) && (role.Some? ==> role.value == kind)
    ensures SetBehind(SetAfter(cfg, z1, role, a, allowed), SetAfter(cfg, z2, role, a, allowed), a.at - cfg.Span(kind))
    ensures !allowed ==> SetBehind(SetAfter(cfg, z1, role, a, allowed), z2, a.at - cfg.Span(kind))
  {
    PurgeKeepsBehind(cfg, z1, z2, role, kind, a.at);
    InsertKeepsBehind(PurgedSet(cfg, z1, role, a.at), PurgedSet(cfg, z2, role, a.at), role, a, a.at - cfg.Span(kind));
  }

  lemma InsertKeepsBehind(z1: ZSet, z2: ZSet, role: Option<Kind>, a: Admission, cutoff: int)
    requires SetBehind(z1, z2, cutoff) && cutoff < a.at
    ensures SetBehind(InsertedSet(z1, role, a), InsertedSet(z2, role, a), cutoff)
  {
    if role.Some? {
      LiveInsert(z1, Name(role.value, a), a.at, cutoff);
      LiveInsert(z2, Name(role.value, a), a.at, cutoff);
    }
  }

  /** Behind stores give the caller the same reply. */
  lemma SameReply(cfg: Config, prefix: string, ks: Keys, db1: Db, db2: Db, c: Call)
    requires Behind(cfg, prefix, db1, db2, c.now) && ks == KeysOf(prefix, c.ticket)
    ensures CheckStep(cfg, ks, db1, c).1 == CheckStep(cfg, ks, db2, c).1
  {
    KeysAreSeparate(prefix, c.ticket);
    forall k | ks.Role(k).Some?
      ensures PurgedSet(cfg, db1.Members(k), ks.Role(k), c.now) == PurgedSet(cfg, db2.Members(k), ks.Role(k), c.now)
    {
      var kind := ks.Role(k).value;
      var scope := if k == Key(prefix, kind, c.UserScope()) then c.UserScope() else c.TenantScope();
      assert k == Key(prefix, kind, scope);
      assert SetBehind(Set(prefix, db1, kind, scope), Set(prefix, db2, kind, scope), c.now - cfg.Span(kind));
    }
    DecisionReadsLive(cfg, ks, db1, db2, c);
  }

  lemma BehindLater(cfg: Config, prefix: string, db1: Db, db2: Db, clock: int, now: int)
    requires Behind(cfg, prefix, db1, db2, clock) && clock <= now
    ensures Behind(cfg, prefix, db1, db2, now)
  {
    forall kind: Kind, scope: Scope
      ensures SetBehind(Set(prefix, db1, kind, scope), Set(prefix, db2, kind, scope), now - cfg.Span(kind))
    {
      SetBehindLater(Set(prefix, db1, kind, scope), Set(prefix, db2, kind, scope), clock - cfg.Span(kind), now - cfg.Span(kind));
    }
  }

  lemma SetsAreBehind(cfg: Config, prefix: string, db1: Db, db2: Db, clock: int, kind: Kind, scope: Scope)
    requires Behind(cfg, prefix, db1, db2, clock)
    ensures var k := Key(prefix, kind, scope); SetBehind(db1.Members(k), db2.Members(k), clock - cfg.Span(kind))
  {
    assert SetBehind(Set(prefix, db1, kind, scope), Set(prefix, db2, kind, scope), clock - cfg.Span(kind));
  }

  /** Two stores and the ones a script leaves, related set by set. */
  ghost predicate StepsAlike(cfg: Config, ks: Keys, db1: Db, db2: Db, after1: Db, after2: Db, a: Admission, allowed: bool) {
    forall k :: after1.Members(k) == SetAfter(cfg, db1.Members(k), ks.Role(k), a, allowed) &&
                (after2.Members(k) == SetAfter(cfg, db2.Members(k), ks.Role(k), a, allowed) ||
                 (!allowed && after2.Members(k) == db2.Members(k)))
  }

  lemma {:induction false} StepKeepsBehind(cfg: Config, prefix: string, ks: Keys, t: Ticket, db1: Db, db2: Db, after1: Db, after2: Db,
                        a: Admission, allowed: bool)
    requires Behind(cfg, prefix, db1, db2, a.at) && Serves(ks, prefix, t)
    requires StepsAlike(cfg, ks, db1, db2, after1, after2, a, allowed)
    ensures Behind(cfg, prefix, after1, after2, a.at)
  {
    forall kind: Kind, scope: Scope
      ensures SetBehind(Set(prefix, after1, kind, scope), Set(prefix, after2, kind, scope), a.at - cfg.Span(kind))
    {
      var k := Key(prefix, kind, scope);
      SetsAreBehind(cfg, prefix, db1, db2, a.at, kind, scope);
      AfterKeepsBehind(cfg, db1.Members(k), db2.Members(k), ks.Role(k), kind, a, allowed);
    }
  }

  lemma CheckKeepsBehind(cfg: Config, prefix: string, db1: Db, db2: Db, clock: int, c: Call)
    requires Behind(cfg, prefix, db1, db2, clock) && clock <= c.now
    ensures var ks := KeysOf(prefix, c.ticket);
            CheckStep(cfg, ks, db1, c).1 == CheckStep(cfg, ks, db2, c).1 &&
            Behind(cfg, prefix, CheckStep(cfg, ks, db1, c).0, CheckStep(cfg, ks, db2, c).0, c.now)
  {
    var ks := KeysOf(prefix, c.ticket);
    KeysServe(prefix, c.ticket);
    BehindLater(cfg, prefix, db1, db2, clock, c.now);
    SameReply(cfg, prefix, ks, db1, db2, c);
    ChecksAlike(cfg, ks, db1, db2, c);
    StepKeepsBehind(cfg, prefix, ks, c.ticket, db1, db2, CheckStep(cfg, ks, db1, c).0, CheckStep(cfg, ks, db2, c).0,
                    c.AsAdmission(), CheckStep(cfg, ks, db1, c).1.allowed);
  }

  lemma ChecksAlike(cfg: Config, ks: Keys, db1: Db, db2: Db, c: Call)
    requires ks.Separate()
    ensures CheckStep(cfg, ks, db1, c).1 == CheckStep(cfg, ks, db2, c).1 ==>
              StepsAlike(cfg, ks, db1, db2, CheckStep(cfg, ks, db1, c).0, CheckStep(cfg, ks, db2, c).0, c.AsAdmission(),
                         CheckStep(cfg, ks, db1, c).1.allowed)
    ensures !CheckStep(cfg, ks, db1, c).1.allowed ==>
              StepsAlike(cfg, ks, db1, db2, CheckStep(cfg, ks, db1, c).0, db2, c.AsAdmission(), false)
  {
    forall k
      ensures CheckStep(cfg, ks, db1, c).0.Members(k) ==
              SetAfter(cfg, db1.Members(k), ks.Role(k), c.AsAdmission(), CheckStep(cfg, ks, db1, c).1.allowed)
      ensures CheckStep(cfg, ks, db2, c).0.Members(k) ==
              SetAfter(cfg, db2.Members(k), ks.Role(k), c.AsAdmission(), CheckStep(cfg, ks, db2, c).1.allowed)
    {
      CheckEffect(cfg, ks, db1, c, k);
      CheckEffect(cfg, ks, db2, c, k);
    }
  }

  lemma DeniedKeepsBehind(cfg: Config, prefix: string, db1: Db, db2: Db, clock: int, c: Call)
    requires Behind(cfg, prefix, db1, db2, clock) && clock <= c.now
    requires !CheckStep(cfg, KeysOf(prefix, c.ticket), db1, c).1.allowed
    ensures Behind(cfg, prefix, CheckStep(cfg, KeysOf(prefix, c.ticket), db1, c).0, db2, c.now)
  {
    var ks := KeysOf(prefix, c.ticket);
    KeysServe(prefix, c.ticket);
    BehindLater(cfg, prefix, db1, db2, clock, c.now);
    ChecksAlike(cfg, ks, db1, db2, c);
    StepKeepsBehind(cfg, prefix, ks, c.ticket, db1, db2, CheckStep(cfg, ks, db1, c).0, db2, c.AsAdmission(), false);
  }

  lemma RemoveKeepsBehind(z1: ZSet, z2: ZSet, id: string, cutoff: int)
    requires SetBehind(z1, z2, cutoff)
    ensures SetBehind(z1 - {id}, z2 - {id}, cutoff)
  {
    assert Live(z1 - {id}, cutoff) == Live(z1, cutoff) - {id};
    assert Live(z2 - {id}, cutoff) == Live(z2, cutoff) - {id};
  }

  /** What a finish does to two related sets under one key. */
  lemma FinishKeepsOne(cfg: Config, ks: Keys, db1: Db, db2: Db, id: string, now: nat, k: string, cutoff: int)
    requires ks.Separate() && SetBehind(db1.Members(k), db2.Members(k), cutoff)
    ensures SetBehind(FinishStep(cfg, ks, db1, id, now).Members(k), FinishStep(cfg, ks, db2, id, now).Members(k), cutoff)
  {
    FinishEffect(cfg, ks, db1, id, now, k);
    FinishEffect(cfg, ks, db2, id, now, k);
    RemoveKeepsBehind(db1.Members(k), db2.Members(k), id, cutoff);
  }

  /** What a heartbeat does to two related sets under one key. */
  lemma HeartbeatKeepsOne(cfg: Config, ks: Keys, db1: Db, db2: Db, id: string, now: nat, k: string, cutoff: int)
    requires ks.Separate() && SetBehind(db1.Members(k), db2.Members(k), cutoff) && cutoff < now
    requires ks.Role(k) == Some(Slots) && id in db2.Members(k) ==> cutoff < db2.Members(k)[id]
    ensures SetBehind(HeartbeatStep(cfg, ks, db1, id, now).Members(k), HeartbeatStep(cfg, ks, db2, id, now).Members(k), cutoff)
  {
    HeartbeatEffect(cfg, ks, db1, id, now, k);
    HeartbeatEffect(cfg, ks, db2, id, now, k);
    if ks.Role(k) == Some(Slots) {
      BeatKeepsBehind(db1.Members(k), db2.Members(k), id, now, cutoff);
    }
  }

  lemma ServedFinishKeepsBehind(cfg: Config, prefix: string, ks: Keys, db1: Db, db2: Db, t: Ticket, now: nat)
    requires Behind(cfg, prefix, db1, db2, now) && Serves(ks, prefix, t)
    ensures Behind(cfg, prefix, FinishStep(cfg, ks, db1, t.id, now), FinishStep(cfg, ks, db2, t.id, now), now)
  {
    forall kind: Kind, scope: Scope
      ensures SetBehind(Set(prefix, FinishStep(cfg, ks, db1, t.id, now), kind, scope),
                        Set(prefix, FinishStep(cfg, ks, db2, t.id, now), kind, scope), now - cfg.Span(kind))
    {
      assert SetBehind(Set(prefix, db1, kind, scope), Set(prefix, db2, kind, scope), now - cfg.Span(kind));
      FinishKeepsOne(cfg, ks, db1, db2, t.id, now, Key(prefix, kind, scope), now - cfg.Span(kind));
    }
  }

  lemma {:induction false} FinishKeepsBehind(cfg: Config, prefix: string, db1: Db, db2: Db, clock: int, t: Ticket, now: nat)
    requires Behind(cfg, prefix, db1, db2, clock) && clock <= now
    ensures var ks := KeysOf(prefix, t);
            Behind(cfg, prefix, FinishStep(cfg, ks, db1, t.id, now), FinishStep(cfg, ks, db2, t.id, now), now)
  {
    KeysServe(prefix, t);
    BehindLater(cfg, prefix, db1, db2, clock, now);
    ServedFinishKeepsBehind(cfg, prefix, KeysOf(prefix, t), db1, db2, t, now);
  }

  /** A heartbeat comes in time when the slot it renews, if still stored, has not gone stale. */
  ghost predicate BeatsInTime(cfg: Config, prefix: string, db: Db, t: Ticket, now: nat) {
    forall scope: Scope :: Touches(t, scope) && t.id in Set(prefix, db, Slots, scope) ==>
      now - cfg.SlotTtl() < Set(prefix, db, Slots, scope)[t.id]
  }

  lemma BeatKeepsBehind(z1: ZSet, z2: ZSet, id: string, now: nat, cutoff: int)
    requires SetBehind(z1, z2, cutoff) && cutoff < now && (id in z2 ==> cutoff < z2[id])
    ensures SetBehind(Beat(z1, id, now), Beat(z2, id, now), cutoff)
  {
    if id in z2 {
      assert id in Live(z2, cutoff) && id in Live(z1, cutoff);
      LiveInsert(z1, id, now, cutoff);
      LiveInsert(z2, id, now, cutoff);
    }
  }

  lemma HeartbeatKeepsSet(cfg: Config, prefix: string, ks: Keys, db1: Db, db2: Db, t: Ticket, now: nat, kind: Kind, scope: Scope, cutoff: int)
    requires SetBehind(Set(prefix, db1, kind, scope), Set(prefix, db2, kind, scope), cutoff) && cutoff == now - cfg.Span(kind)
    requires Serves(ks, prefix, t) && BeatsInTime(cfg, prefix, db2, t, now)
    ensures SetBehind(Set(prefix, HeartbeatStep(cfg, ks, db1, t.id, now), kind, scope),
                      Set(prefix, HeartbeatStep(cfg, ks, db2, t.id, now), kind, scope), cutoff)
  {
    HeartbeatKeepsOne(cfg, ks, db1, db2, t.id, now, Key(prefix, kind, scope), cutoff);
  }

  lemma ServedHeartbeatKeepsBehind(cfg: Config, prefix: string, ks: Keys, db1: Db, db2: Db, t: Ticket, now: nat)
    requires Behind(cfg, prefix, db1, db2, now) && Serves(ks, prefix, t) && BeatsInTime(cfg, prefix, db2, t, now)
    ensures Behind(cfg, prefix, HeartbeatStep(cfg, ks, db1, t.id, now), HeartbeatStep(cfg, ks, db2, t.id, now), now)
  {
    forall kind: Kind, scope: Scope
      ensures SetBehind(Set(prefix, HeartbeatStep(cfg, ks, db1, t.id, now), kind, scope),
                        Set(prefix, HeartbeatStep(cfg, ks, db2, t.id, now), kind, scope), now - cfg.Span(kind))
    {
      assert SetBehind(Set(prefix, db1, kind, scope), Set(prefix, db2, kind, scope), now - cfg.Span(kind));
      HeartbeatKeepsSet(cfg, prefix, ks, db1, db2, t, now, kind, scope, now - cfg.Span(kind));
    }
  }

  lemma {:induction false} HeartbeatKeepsBehind(cfg: Config, prefix: string, db1: Db, db2: Db, clock: int, t: Ticket, now: nat)
    requires Behind(cfg, prefix, db1, db2, clock) && clock <= now && BeatsInTime(cfg, prefix, db2, t, now)
    ensures var ks := KeysOf(prefix, t);
            Behind(cfg, prefix, HeartbeatStep(cfg, ks, db1, t.id, now), HeartbeatStep(cfg, ks, db2, t.id, now), now)
  {
    KeysServe(prefix, t);
    BehindLater(cfg, prefix, db1, db2, clock, now);
    ServedHeartbeatKeepsBehind(cfg, prefix, KeysOf(prefix, t), db1, db2, t, now);
  }

  lemma EvictKeepsBehind(cfg: Config, prefix: string, db1: Db, db2: Db, clock: nat, key: string, now: nat)
    requires Behind(cfg, prefix, db1, db2, clock) && Bounded(cfg, db1, clock) && clock <= now
    ensures Behind(cfg, prefix, db1.Evict(key, now), db2, now)
  {
    BehindLater(cfg, prefix, db1, db2, clock, now);
    forall kind: Kind, scope: Scope
      ensures SetBehind(Set(prefix, db1.Evict(key, now), kind, scope), Set(prefix, db2, kind, scope), now - cfg.Span(kind))
    {
      EvictedWasStale(cfg, db1, clock, key, now, kind, Key(prefix, kind, scope));
    }
  }

  /** Every heartbeat of a run comes in time. */
  ghost predicate BeatsTimely(cfg: Config, prefix: string, es: seq<RedisEvent>) {
    es == [] ||
    var p, e := es[..|es| - 1], es[|es| - 1];
    BeatsTimely(cfg, prefix, p) &&
    (e.Heartbeat? ==> BeatsInTime(cfg, prefix, RunAny(cfg, prefix, p).db, e.ticket, e.at))
  }

  /** What is left out: every expiry of a key, and besides that only checks the run denied. */
  ghost predicate DropsQuiet(cfg: Config, prefix: string, es: seq<RedisEvent>, keep: seq<bool>)
    requires |keep| == |es|
  {
    forall i :: 0 <= i < |es| ==>
      if keep[i] then !es[i].Evict?
      else es[i].Evict? || (RunAny(cfg, prefix, es).decisions[i].Some? && !RunAny(cfg, prefix, es).decisions[i].value.allowed)
  }

  lemma QuietPrefix(cfg: Config, prefix: string, es: seq<RedisEvent>, keep: seq<bool>)
    requires |keep| == |es| && es != [] && InTime(es) && DropsQuiet(cfg, prefix, es, keep)
    ensures var n := |es| - 1;
            InTime(es[..n]) && DropsQuiet(cfg, prefix, es[..n], keep[..n]) && Now(es[..n]) <= es[n].Time() &&
            RunAny(cfg, prefix, es).decisions[..n] == RunAny(cfg, prefix, es[..n]).decisions
  {
    var n := |es| - 1;
    assert RunAny(cfg, prefix, es).decisions[..n] == RunAny(cfg, prefix, es[..n]).decisions;
  }

  /** An event that both runs take. */
  lemma KeptStepBehind(cfg: Config, prefix: string, o1: Outcome, o2: Outcome, clock: int, e: RedisEvent)
    requires Behind(cfg, prefix, o1.db, o2.db, clock) && clock <= e.Time() && !e.Evict?
    requires e.Heartbeat? ==> BeatsInTime(cfg, prefix, o2.db, e.ticket, e.at)
    ensures var n1, n2 := StepAny(cfg, prefix, o1, e), StepAny(cfg, prefix, o2, e);
            n1.decisions[|o1.decisions|..] == n2.decisions[|o2.decisions|..] && Behind(cfg, prefix, n1.db, n2.db, e.Time())
  {
    match e {
      case Gate(Check(c)) => CheckKeepsBehind(cfg, prefix, o1.db, o2.db, clock, c);
      case Gate(Finish(t, at)) => FinishKeepsBehind(cfg, prefix, o1.db, o2.db, clock, t, at);
      case Heartbeat(t, at) => HeartbeatKeepsBehind(cfg, prefix, o1.db, o2.db, clock, t, at);
    }
  }

  /**
    Key expiry and denied checks are unobservable: leaving out every key that Redis dropped and any
    denied checks changes no other decision, across any mix of checks, finishes and heartbeats that
    come in time.  Neither fresh ids nor colon-free tenants are needed.
   */
  lemma {:induction false} QuietEventsInvisible(cfg: Config, prefix: string, es: seq<RedisEvent>, keep: seq<bool>)
    requires |keep| == |es| && InTime(es) && DropsQuiet(cfg, prefix, es, keep)
    requires BeatsTimely(cfg, prefix, Pick(es, keep))
    ensures RunAny(cfg, prefix, Pick(es, keep)).decisions == Pick(RunAny(cfg, prefix, es).decisions, keep)
    ensures Behind(cfg, prefix, RunAny(cfg, prefix, es).db, RunAny(cfg, prefix, Pick(es, keep)).db, Now(es))
  {
    if es != [] {
      var n := |es| - 1;
      var p, e, thin := es[..n], es[n], Pick(es[..n], keep[..n]);
      QuietPrefix(cfg, prefix, es, keep);
      if keep[n] {
        assert (thin + [e])[..|thin|] == thin;
      }
      QuietEventsInvisible(cfg, prefix, p, keep[..n]);
      EveryKeyExpires(cfg, prefix, p);
      var o1, o2 := RunAny(cfg, prefix, p), RunAny(cfg, prefix, thin);
      if keep[n] {
        KeptStepBehind(cfg, prefix, o1, o2, Now(p), e);
        assert RunAny(cfg, prefix, es).decisions[n..] == StepAny(cfg, prefix, o2, e).decisions[|thin|..];
      } else if e.Evict? {
        EvictKeepsBehind(cfg, prefix, o1.db, o2.db, Now(p), e.key, e.at);
      } else {
        assert RunAny(cfg, prefix, es).decisions[n].Some?;
        DeniedKeepsBehind(cfg, prefix, o1.db, o2.db, Now(p), e.e.call);
      }
    } else {
      EmptyBehind(cfg, prefix);
    }
  }

  lemma EmptyBehind(cfg: Config, prefix: string)
    ensures Behind(cfg, prefix, EMPTY_DB, EMPTY_DB, 0)
  {
  }

  // ------------------------------------------------------------ a late heartbeat

  /**
    A heartbeat that arrives after the key's lifetime tells an expired key from a stored one exactly
    when the stored key still holds its id: it then brings the stale slot back to life.
   */
  lemma LateHeartbeatObservable(cfg: Config, ks: Keys, db: Db, clock: nat, id: string, now: nat, k: string)
    requires Bounded(cfg, db, clock) && clock <= now && ks.Separate() && ks.Role(k) == Some(Slots)
    requires k in db.deadlines && db.deadlines[k] <= now && k in db.sets
    ensures (Live(HeartbeatStep(cfg, ks, db.Evict(k, now), id, now).Members(k), now - cfg.SlotTtl()) ==
             Live(HeartbeatStep(cfg, ks, db, id, now).Members(k), now - cfg.SlotTtl())) <==> id !in db.Members(k)
  {
    var gone := db.Evict(k, now);
    HeartbeatEffect(cfg, ks, db, id, now, k);
    HeartbeatEffect(cfg, ks, gone, id, now, k);
    EvictedWasStale(cfg, db, clock, k, now, Slots, k);
    assert gone.Members(k) == map[];
    if id in db.Members(k) {
      assert id in Live(db.Members(k)[id := now], now - cfg.SlotTtl());
    }
  }
}
