/** The in-process enforcer: deques of timestamped records and maps of active request ids. */
module MemoryQuota {
  import opened Options
  import opened QuotaLog

  datatype UsageRecord = UsageRecord(at: nat, inputTokens: nat)

  type UserKey = (string, string)

  /** The enforcer's four dictionaries; an absent key reads as an empty container. */
  datatype Store = Store(userRecords: map<UserKey, seq<UsageRecord>>, tenantRecords: map<string, seq<UsageRecord>>,
                         activeUser: map<UserKey, map<string, nat>>, activeTenant: map<string, map<string, nat>>)
  {
    function Records(scope: Scope): seq<UsageRecord> {
      match scope
      case User(t, u) => Lookup(userRecords, (t, u), [])
      case Tenant(t) => Lookup(tenantRecords, t, [])
    }

    function Active(scope: Scope): map<string, nat> {
      match scope
      case User(t, u) => Lookup(activeUser, (t, u), map[])
      case Tenant(t) => Lookup(activeTenant, t, map[])
    }
  }

  const EMPTY_STORE := Store(map[], map[], map[], map[])

  function DropExpired(rs: seq<UsageRecord>, cutoff: int): seq<UsageRecord> {
    if rs != [] && rs[0].at <= cutoff then DropExpired(rs[1..], cutoff) else rs
  }

  function SumTokens(rs: seq<UsageRecord>): nat {
    if rs == [] then 0 else SumTokens(rs[..|rs| - 1]) + rs[|rs| - 1].inputTokens
  }

  /** Whole seconds until the oldest record leaves the window, rounded down but at least one. */
  function RetryAfter(cfg: Config, rs: seq<UsageRecord>, now: nat): nat {
    if rs == [] then cfg.windowSeconds
    else
      var left := cfg.Window() - (now - rs[0].at);
      if left < 1000 then 1 else left / 1000
  }

  /** Expire the caller's records and stale slots, as every check does first. */
  function Refresh(cfg: Config, s: Store, c: Call): Store {
    var key := (c.ticket.tenant, c.ticket.user);
    Store(s.userRecords[key := DropExpired(s.Records(c.UserScope()), c.now - cfg.Window())],
          s.tenantRecords[c.ticket.tenant := DropExpired(s.Records(c.TenantScope()), c.now - cfg.Window())],
          s.activeUser[key := Live(s.Active(c.UserScope()), c.now - cfg.SlotTtl())],
          s.activeTenant[c.ticket.tenant := Live(s.Active(c.TenantScope()), c.now - cfg.SlotTtl())])
  }

  function LoadOf(s: Store, c: Call): Load {
    Load(|s.Active(c.UserScope())|, |s.Active(c.TenantScope())|,
         |s.Records(c.UserScope())|, |s.Records(c.TenantScope())|,
         SumTokens(s.Records(c.UserScope())), SumTokens(s.Records(c.TenantScope())))
  }

  function Answer(cfg: Config, s: Store, c: Call, reason: Reason): (d: Decision)
    ensures d.reason == reason && (d.allowed <==> reason.Admitted?)
  {
    if reason.Admitted? then Allow()
    else if reason.UserConcurrency? || reason.TenantConcurrency? then Deny(reason, 1)
    else
      var scope := if reason.UserRequests? || reason.UserInputTokens? then c.UserScope() else c.TenantScope();
      Deny(reason, RetryAfter(cfg, s.Records(scope), c.now))
  }

  /** Append the record to both deques and open both slots. */
  function Record(s: Store, c: Call): Store {
    var key := (c.ticket.tenant, c.ticket.user);
    var r := UsageRecord(c.now, c.Tokens());
    Store(s.userRecords[key := s.Records(c.UserScope()) + [r]],
          s.tenantRecords[c.ticket.tenant := s.Records(c.TenantScope()) + [r]],
          s.activeUser[key := s.Active(c.UserScope())[c.ticket.id := c.now]],
          s.activeTenant[c.ticket.tenant := s.Active(c.TenantScope())[c.ticket.id := c.now]])
  }

  function CheckStep(cfg: Config, s: Store, c: Call): (Store, Decision) {
    var clean := Refresh(cfg, s, c);
    var reason := Judge(c.limits, LoadOf(clean, c), c.Tokens());
    (if reason.Admitted? then Record(clean, c) else clean, Answer(cfg, clean, c, reason))
  }

  function FinishStep(s: Store, t: Ticket): Store {
    var key := (t.tenant, t.user);
    s.(activeUser := s.activeUser[key := s.Active(User(t.tenant, t.user)) - {t.id}],
       activeTenant := s.activeTenant[t.tenant := s.Active(Tenant(t.tenant)) - {t.id}])
  }

  // ------------------------------------------------- the deques against the history

  function AsRecords(w: seq<Admission>): seq<UsageRecord> {
    if w == [] then [] else AsRecords(w[..|w| - 1]) + [UsageRecord(w[|w| - 1].at, w[|w| - 1].tokens)]
  }

  lemma AsRecordsAppend(w: seq<Admission>, a: Admission)
    ensures AsRecords(w + [a]) == AsRecords(w) + [UsageRecord(a.at, a.tokens)]
  {
    assert (w + [a])[..|w|] == w;
  }

  lemma {:induction false} AsRecordsAt(w: seq<Admission>)
    ensures |AsRecords(w)| == |w|
    ensures forall i :: 0 <= i < |w| ==> AsRecords(w)[i] == UsageRecord(w[i].at, w[i].tokens)
  {
    if w != [] {
      AsRecordsAt(w[..|w| - 1]);
    }
  }

  lemma {:induction false} AsRecordsSum(w: seq<Admission>)
    ensures SumTokens(AsRecords(w)) == TokenSum(w)
  {
    if w != [] {
      var p := AsRecords(w[..|w| - 1]);
      AsRecordsSum(w[..|w| - 1]);
      assert AsRecords(w)[..|p|] == p;
    }
  }

  lemma {:induction false} DropTwice(rs: seq<UsageRecord>, c1: int, c2: int)
    requires c1 <= c2
    ensures DropExpired(DropExpired(rs, c1), c2) == DropExpired(rs, c2)
  {
    if rs != [] && rs[0].at <= c1 {
      DropTwice(rs[1..], c1, c2);
    }
  }

  /** A record younger than the cutoff survives whatever is dropped before it. */
  lemma {:induction false} DropAppend(rs: seq<UsageRecord>, r: UsageRecord, cutoff: int)
    requires cutoff < r.at
    ensures DropExpired(rs + [r], cutoff) == DropExpired(rs, cutoff) + [r]
  {
    if rs != [] && rs[0].at <= cutoff {
      DropAppend(rs[1..], r, cutoff);
      assert (rs + [r])[1..] == rs[1..] + [r];
    }
  }

  lemma {:induction false} DropAll(rs: seq<UsageRecord>, cutoff: int)
    requires forall i :: 0 <= i < |rs| ==> rs[i].at <= cutoff
    ensures DropExpired(rs, cutoff) == []
  {
    if rs != [] {
      DropAll(rs[1..], cutoff);
    }
  }

  /** Once the last admission has expired, so has every record. */
  lemma NothingLeft(h: seq<Admission>, scope: Scope, c1: int, c2: int, clock: int)
    requires Ordered(h, clock) && h != [] && h[|h| - 1].at <= c2
    ensures DropExpired(AsRecords(Window(h, {}, scope, c1)), c2) == []
  {
    var w := Window(h, {}, scope, c1);
    AsRecordsAt(w);
    forall i | 0 <= i < |w| ensures w[i].at <= c2 {
      WindowMember(h, {}, scope, c1, w[i]);
    }
    DropAll(AsRecords(w), c2);
  }

  /** On an ordered history, popping expired records from the front is filtering by the window. */
  lemma {:induction false} PopIsFilter(h: seq<Admission>, scope: Scope, c1: int, c2: int, clock: int)
    requires Ordered(h, clock) && c1 <= c2
    ensures DropExpired(AsRecords(Window(h, {}, scope, c1)), c2) == AsRecords(Window(h, {}, scope, c2))
  {
    if h != [] {
      var p, a := h[..|h| - 1], h[|h| - 1];
      PopIsFilter(p, scope, c1, c2, clock);
      var w1, w2 := Window(p, {}, scope, c1), Window(p, {}, scope, c2);
      if Kept(a, {}, scope, c1) {
        AsRecordsAppend(w1, a);
        AsRecordsAppend(w2, a);
        if c2 < a.at {
          DropAppend(AsRecords(w1), UsageRecord(a.at, a.tokens), c2);
        } else {
          NothingYounger(p, scope, c1, c2);
          NothingLeft(h, scope, c1, c2, clock);
        }
      }
    }
  }

  lemma {:induction false} NothingYounger(h: seq<Admission>, scope: Scope, c1: int, c2: int)
    requires forall i :: 0 <= i < |h| ==> h[i].at <= c2
    ensures Window(h, {}, scope, c2) == []
  {
    if h != [] {
      NothingYounger(h[..|h| - 1], scope, c1, c2);
    }
  }

  /** Up to records the next check would pop, the deques are the history filtered to the window. */
  ghost predicate RecordsMatch(cfg: Config, s: Store, h: seq<Admission>, clock: int) {
    forall scope: Scope ::
      DropExpired(s.Records(scope), clock - cfg.Window()) == AsRecords(Window(h, {}, scope, clock - cfg.Window()))
  }

  lemma RecordsLater(cfg: Config, s: Store, h: seq<Admission>, clock: int, now: int, scope: Scope)
    requires RecordsMatch(cfg, s, h, clock) && Ordered(h, clock) && clock <= now
    ensures DropExpired(s.Records(scope), now - cfg.Window()) == AsRecords(Window(h, {}, scope, now - cfg.Window()))
  {
    DropTwice(s.Records(scope), clock - cfg.Window(), now - cfg.Window());
    PopIsFilter(h, scope, clock - cfg.Window(), now - cfg.Window(), clock);
  }

  /** The counts and sums a check reads are those of the filtered history. */
  lemma LoadFromHistory(cfg: Config, s: Store, h: seq<Admission>, clock: int, c: Call)
    requires RecordsMatch(cfg, s, h, clock) && Ordered(h, clock) && clock <= c.now
    ensures var x := LoadOf(Refresh(cfg, s, c), c);
            var wu, wt := Window(h, {}, c.UserScope(), c.now - cfg.Window()), Window(h, {}, c.TenantScope(), c.now - cfg.Window());
            x.userRequests == |wu| && x.tenantRequests == |wt| &&
            x.userTokens == TokenSum(wu) && x.tenantTokens == TokenSum(wt)
  {
    DequeFromHistory(cfg, s, h, clock, c, c.UserScope());
    DequeFromHistory(cfg, s, h, clock, c, c.TenantScope());
  }

  lemma DequeFromHistory(cfg: Config, s: Store, h: seq<Admission>, clock: int, c: Call, scope: Scope)
    requires RecordsMatch(cfg, s, h, clock) && Ordered(h, clock) && clock <= c.now && c.ticket.In(scope)
    ensures var deque, w := Refresh(cfg, s, c).Records(scope), Window(h, {}, scope, c.now - cfg.Window());
            |deque| == |w| && SumTokens(deque) == TokenSum(w)
  {
    var w := Window(h, {}, scope, c.now - cfg.Window());
    RefreshEffect(cfg, s, c, scope);
    RecordsLater(cfg, s, h, clock, c.now, scope);
    AsRecordsAt(w);
    AsRecordsSum(w);
  }

  lemma RefreshEffect(cfg: Config, s: Store, c: Call, scope: Scope)
    ensures var s' := Refresh(cfg, s, c);
            s'.Records(scope) == (if c.ticket.In(scope) then DropExpired(s.Records(scope), c.now - cfg.Window()) else s.Records(scope)) &&
            s'.Active(scope) == (if c.ticket.In(scope) then Live(s.Active(scope), c.now - cfg.SlotTtl()) else s.Active(scope))
  {
  }

  lemma RecordEffect(s: Store, c: Call, scope: Scope)
    ensures var s' := Record(s, c);
            s'.Records(scope) == (if c.ticket.In(scope) then s.Records(scope) + [UsageRecord(c.now, c.Tokens())] else s.Records(scope)) &&
            s'.Active(scope) == (if c.ticket.In(scope) then s.Active(scope)[c.ticket.id := c.now] else s.Active(scope))
  {
  }

  /** What one check does to the containers of every scope. */
  lemma CheckEffect(cfg: Config, s: Store, c: Call, scope: Scope)
    ensures var (s', d) := CheckStep(cfg, s, c);
            var records := DropExpired(s.Records(scope), c.now - cfg.Window());
            var active := Live(s.Active(scope), c.now - cfg.SlotTtl());
            s'.Records(scope) == (if !c.ticket.In(scope) then s.Records(scope)
                                  else if d.allowed then records + [UsageRecord(c.now, c.Tokens())] else records) &&
            s'.Active(scope) == (if !c.ticket.In(scope) then s.Active(scope)
                                 else if d.allowed then active[c.ticket.id := c.now] else active)
  {
    RefreshEffect(cfg, s, c, scope);
    RecordEffect(Refresh(cfg, s, c), c, scope);
  }

  lemma CheckKeepsRecords(cfg: Config, s: Store, h: seq<Admission>, clock: int, c: Call)
    requires RecordsMatch(cfg, s, h, clock) && Ordered(h, clock) && clock <= c.now
    ensures var (s', d) := CheckStep(cfg, s, c);
            var h' := if d.allowed then h + [c.AsAdmission()] else h;
            RecordsMatch(cfg, s', h', c.now) && Ordered(h', c.now)
  {
    var sd := CheckStep(cfg, s, c);
    forall scope: Scope
      ensures sd.0.Records(scope) == (if !c.ticket.In(scope) then s.Records(scope)
                                      else if sd.1.allowed then DropExpired(s.Records(scope), c.now - cfg.Window()) + [UsageRecord(c.now, c.Tokens())]
                                      else DropExpired(s.Records(scope), c.now - cfg.Window()))
    {
      CheckEffect(cfg, s, c, scope);
    }
    RecordsMatchAfter(cfg, s, sd.0, sd.1.allowed, h, clock, c);
    StillOrdered(h, clock, c.AsAdmission());
  }

  lemma StillOrdered(h: seq<Admission>, clock: int, a: Admission)
    requires Ordered(h, clock) && clock <= a.at
    ensures Ordered(h, a.at) && Ordered(h + [a], a.at)
  {
  }

  lemma RecordsMatchAfter(cfg: Config, s: Store, s': Store, allowed: bool, h: seq<Admission>, clock: int, c: Call)
    requires RecordsMatch(cfg, s, h, clock) && Ordered(h, clock) && clock <= c.now
    requires forall scope: Scope ::
               s'.Records(scope) == (if !c.ticket.In(scope) then s.Records(scope)
                                     else if allowed then DropExpired(s.Records(scope), c.now - cfg.Window()) + [UsageRecord(c.now, c.Tokens())]
                                     else DropExpired(s.Records(scope), c.now - cfg.Window()))
    ensures RecordsMatch(cfg, s', if allowed then h + [c.AsAdmission()] else h, c.now)
  {
    var h' := if allowed then h + [c.AsAdmission()] else h;
    forall scope: Scope
      ensures DropExpired(s'.Records(scope), c.now - cfg.Window()) == AsRecords(Window(h', {}, scope, c.now - cfg.Window()))
    {
      ScopeKeepsRecords(cfg, s, s'.Records(scope), allowed, h, clock, c, scope);
    }
  }

  lemma ScopeKeepsRecords(cfg: Config, s: Store, after: seq<UsageRecord>, allowed: bool, h: seq<Admission>, clock: int,
                          c: Call, scope: Scope)
    requires RecordsMatch(cfg, s, h, clock) && Ordered(h, clock) && clock <= c.now
    requires after == (if !c.ticket.In(scope) then s.Records(scope)
                       else if allowed then DropExpired(s.Records(scope), c.now - cfg.Window()) + [UsageRecord(c.now, c.Tokens())]
                       else DropExpired(s.Records(scope), c.now - cfg.Window()))
    ensures var h' := if allowed then h + [c.AsAdmission()] else h;
            DropExpired(after, c.now - cfg.Window()) == AsRecords(Window(h', {}, scope, c.now - cfg.Window()))
  {
    var cutoff := c.now - cfg.Window();
    RecordsLater(cfg, s, h, clock, c.now, scope);
    DropTwice(s.Records(scope), cutoff, cutoff);
    if allowed {
      WindowAppend(h, c.AsAdmission(), {}, scope, cutoff);
      if c.ticket.In(scope) {
        MatchExtends(DropExpired(s.Records(scope), cutoff), h, c.AsAdmission(), scope, cutoff);
      }
    }
  }

  lemma MatchExtends(rs: seq<UsageRecord>, h: seq<Admission>, a: Admission, scope: Scope, cutoff: int)
    requires rs == AsRecords(Window(h, {}, scope, cutoff)) && DropExpired(rs, cutoff) == rs
    requires Kept(a, {}, scope, cutoff)
    ensures DropExpired(rs + [UsageRecord(a.at, a.tokens)], cutoff) == AsRecords(Window(h + [a], {}, scope, cutoff))
  {
    WindowAppend(h, a, {}, scope, cutoff);
    AsRecordsAppend(Window(h, {}, scope, cutoff), a);
    DropAppend(rs, UsageRecord(a.at, a.tokens), cutoff);
  }

  lemma FinishKeepsRecords(cfg: Config, s: Store, h: seq<Admission>, clock: int, t: Ticket, now: int)
    requires RecordsMatch(cfg, s, h, clock) && Ordered(h, clock) && clock <= now
    ensures RecordsMatch(cfg, FinishStep(s, t), h, now) && Ordered(h, now)
  {
    forall scope: Scope ensures DropExpired(FinishStep(s, t).Records(scope), now - cfg.Window()) ==
                                AsRecords(Window(h, {}, scope, now - cfg.Window())) {
      RecordsLater(cfg, s, h, clock, now, scope);
    }
  }

  /** An in-memory admission had room in the history for its user and for its tenant. */
  lemma AdmissionEarned(cfg: Config, s: Store, h: seq<Admission>, clock: int, c: Call)
    requires RecordsMatch(cfg, s, h, clock) && Ordered(h, clock) && clock <= c.now
    requires CheckStep(cfg, s, c).1.allowed
    ensures HadRoom(cfg, h, c.AsAdmission(), c.limits, c.TenantScope())
    ensures HadRoom(cfg, h, c.AsAdmission(), c.limits, c.UserScope())
  {
    LoadFromHistory(cfg, s, h, clock, c);
  }

  // ---------------------------------------------- the active maps against the history

  /** Up to stale slots, the active maps are the admitted, unfinished requests. */
  ghost predicate SlotsMatch(cfg: Config, s: Store, b: Book, clock: int) {
    forall scope: Scope ::
      Live(s.Active(scope), clock - cfg.SlotTtl()) == Index(Slots, Window(b.log, b.finished, scope, clock - cfg.SlotTtl()))
  }

  lemma SlotsLater(cfg: Config, s: Store, b: Book, clock: int, now: int, scope: Scope)
    requires SlotsMatch(cfg, s, b, clock) && UniqueIds(b.log) && clock <= now
    ensures Live(s.Active(scope), now - cfg.SlotTtl()) == Index(Slots, Window(b.log, b.finished, scope, now - cfg.SlotTtl()))
  {
    LiveTwice(s.Active(scope), clock - cfg.SlotTtl(), now - cfg.SlotTtl());
    IndexLive(Slots, b.log, b.finished, scope, clock - cfg.SlotTtl(), now - cfg.SlotTtl());
  }

  lemma ScopeKeepsSlots(cfg: Config, s: Store, after: map<string, nat>, allowed: bool, b: Book, clock: int, c: Call, scope: Scope)
    requires SlotsMatch(cfg, s, b, clock) && UniqueIds(b.log) && clock <= c.now && (allowed ==> FreshTicket(b.log, c.ticket))
    requires after == (if !c.ticket.In(scope) then s.Active(scope)
                       else if allowed then Live(s.Active(scope), c.now - cfg.SlotTtl())[c.ticket.id := c.now]
                       else Live(s.Active(scope), c.now - cfg.SlotTtl()))
    ensures var b' := if allowed then b.Admit(c.AsAdmission()) else b;
            Live(after, c.now - cfg.SlotTtl()) == Index(Slots, Window(b'.log, b'.finished, scope, c.now - cfg.SlotTtl()))
  {
    var cutoff, a := c.now - cfg.SlotTtl(), c.AsAdmission();
    SlotsLater(cfg, s, b, clock, c.now, scope);
    LiveTwice(s.Active(scope), cutoff, cutoff);
    if allowed {
      WindowSameOut(b.log, b.finished, b.finished - {c.ticket}, scope, cutoff);
      WindowAppend(b.log, a, b.finished - {c.ticket}, scope, cutoff);
      if c.ticket.In(scope) {
        IndexAppend(Slots, Window(b.log, b.finished, scope, cutoff), a);
        LiveInsert(Live(s.Active(scope), cutoff), c.ticket.id, c.now, cutoff);
      }
    }
  }

  lemma CheckKeepsSlots(cfg: Config, s: Store, b: Book, clock: int, c: Call)
    requires SlotsMatch(cfg, s, b, clock) && UniqueIds(b.log) && clock <= c.now
    requires CheckStep(cfg, s, c).1.allowed ==> FreshTicket(b.log, c.ticket)
    ensures var (s', d) := CheckStep(cfg, s, c);
            SlotsMatch(cfg, s', if d.allowed then b.Admit(c.AsAdmission()) else b, c.now)
  {
    var sd := CheckStep(cfg, s, c);
    var b' := if sd.1.allowed then b.Admit(c.AsAdmission()) else b;
    forall scope: Scope
      ensures Live(sd.0.Active(scope), c.now - cfg.SlotTtl()) ==
              Index(Slots, Window(b'.log, b'.finished, scope, c.now - cfg.SlotTtl()))
    {
      CheckEffect(cfg, s, c, scope);
      ScopeKeepsSlots(cfg, s, sd.0.Active(scope), sd.1.allowed, b, clock, c, scope);
    }
  }

  lemma FinishEffect(s: Store, t: Ticket, scope: Scope)
    ensures FinishStep(s, t).Records(scope) == s.Records(scope)
    ensures FinishStep(s, t).Active(scope) == s.Active(scope) - (if t.In(scope) then {t.id} else {})
  {
  }

  lemma FinishKeepsSlots(cfg: Config, s: Store, b: Book, clock: int, t: Ticket, now: int)
    requires SlotsMatch(cfg, s, b, clock) && UniqueIds(b.log) && clock <= now && OwnTicket(b.log, t)
    ensures SlotsMatch(cfg, FinishStep(s, t), Book(b.log, b.finished + {t}), now)
  {
    var cutoff := now - cfg.SlotTtl();
    forall scope: Scope
      ensures Live(FinishStep(s, t).Active(scope), cutoff) == Index(Slots, Window(b.log, b.finished + {t}, scope, cutoff))
    {
      FinishEffect(s, t, scope);
      SlotsLater(cfg, s, b, clock, now, scope);
      IndexFinish(b.log, b.finished, t, scope, cutoff);
      LiveRemove(s.Active(scope), if t.In(scope) then {t.id} else {}, cutoff);
    }
  }

  lemma LiveRemove(m: map<string, nat>, gone: set<string>, cutoff: int)
    ensures Live(m - gone, cutoff) == Live(m, cutoff) - gone
  {
  }

  // ---------------------------------------------------------------- the class

  class InMemoryQuotaEnforcer {
    const cfg: Config
    var userRecords: map<UserKey, seq<UsageRecord>>
    var tenantRecords: map<string, seq<UsageRecord>>
    var activeUser: map<UserKey, map<string, nat>>
    var activeTenant: map<string, map<string, nat>>

    /** Every request admitted so far, and the time of the last call. */
    ghost var log: seq<Admission>
    ghost var clock: nat

    ghost function Contents(): Store
      reads this
    {
      Store(userRecords, tenantRecords, activeUser, activeTenant)
    }

    ghost predicate Valid()
      reads this
    {
      RecordsMatch(cfg, Contents(), log, clock) && Ordered(log, clock)
    }

    constructor (cfg: Config)
      ensures Valid() && this.cfg == cfg && Contents() == EMPTY_STORE && log == [] && clock == 0
    {
      this.cfg := cfg;
      userRecords, tenantRecords, activeUser, activeTenant := map[], map[], map[], map[];
      log, clock := [], 0;
    }

    /** Pops expired records from the front of a deque. */
    method Expire(records: seq<UsageRecord>, now: nat) returns (left: seq<UsageRecord>)
      ensures left == DropExpired(records, now - cfg.Window())
    {
      var cutoff := now - cfg.Window();
      left := records;
      while left != [] && left[0].at <= cutoff
        invariant DropExpired(left, cutoff) == DropExpired(records, cutoff)
        decreases |left|
      {
        left := left[1..];
      }
    }

    /** Collects the stale ids of an active map, then pops them one by one. */
    method ExpireSlots(active: map<string, nat>, now: nat) returns (left: map<string, nat>)
      ensures left == Live(active, now - cfg.SlotTtl())
    {
      var cutoff := now - cfg.SlotTtl();
      var stale := set id | id in active && active[id] <= cutoff;
      left := active;
      while stale != {}
        invariant stale <= active.Keys
        invariant left.Keys <= active.Keys
        invariant forall id :: id in left ==> left[id] == active[id]
        invariant forall id :: id in active ==> (id in left <==> active[id] > cutoff || id in stale)
        decreases stale
      {
        var id :| id in stale;
        left := left - {id};
        stale := stale - {id};
      }
    }

    /** Expires the two deques a check reads. */
    method ExpireRecords(c: Call)
      modifies this`userRecords, this`tenantRecords
      ensures userRecords == Refresh(cfg, old(Contents()), c).userRecords
      ensures tenantRecords == Refresh(cfg, old(Contents()), c).tenantRecords
    {
      var key, tenant := (c.ticket.tenant, c.ticket.user), c.ticket.tenant;
      var userDeque := Expire(Lookup(userRecords, key, []), c.now);
      var tenantDeque := Expire(Lookup(tenantRecords, tenant, []), c.now);
      userRecords, tenantRecords := userRecords[key := userDeque], tenantRecords[tenant := tenantDeque];
    }

    /** Drops the stale slots of the two maps a check reads. */
    method ExpireActive(c: Call)
      modifies this`activeUser, this`activeTenant
      ensures var key := (c.ticket.tenant, c.ticket.user);
              activeUser == old(activeUser)[key := Live(Lookup(old(activeUser), key, map[]), c.now - cfg.SlotTtl())]
      ensures var tenant := c.ticket.tenant;
              activeTenant == old(activeTenant)[tenant := Live(Lookup(old(activeTenant), tenant, map[]), c.now - cfg.SlotTtl())]
    {
      var key, tenant := (c.ticket.tenant, c.ticket.user), c.ticket.tenant;
      var userSlots := ExpireSlots(Lookup(activeUser, key, map[]), c.now);
      var tenantSlots := ExpireSlots(Lookup(activeTenant, tenant, map[]), c.now);
      activeUser, activeTenant := activeUser[key := userSlots], activeTenant[tenant := tenantSlots];
    }

    /** The four expiries every check starts with. */
    method ExpireAll(c: Call)
      modifies this`userRecords, this`tenantRecords, this`activeUser, this`activeTenant
      ensures Contents() == Refresh(cfg, old(Contents()), c)
    {
      ExpireRecords(c);
      ExpireActive(c);
    }

    /** The chain of limit checks; `None` means that every one passed. */
    method FirstViolation(c: Call) returns (d: Option<Decision>)
      ensures var reason := Judge(c.limits, LoadOf(Contents(), c), c.Tokens());
              d == if reason.Admitted? then None else Some(Answer(cfg, Contents(), c, reason))
    {
      var key, tenant, limits := (c.ticket.tenant, c.ticket.user), c.ticket.tenant, c.limits;
      var userDeque, tenantDeque := Lookup(userRecords, key, []), Lookup(tenantRecords, tenant, []);
      if limits.concurrent.Some? && |Lookup(activeUser, key, map[])| >= limits.concurrent.value {
        return Some(Deny(UserConcurrency, 1));
      }
      if limits.concurrent.Some? && |Lookup(activeTenant, tenant, map[])| >= limits.concurrent.value {
        return Some(Deny(TenantConcurrency, 1));
      }
      if limits.requests.Some? && |userDeque| + 1 > limits.requests.value {
        return Some(Deny(UserRequests, RetryAfter(cfg, userDeque, c.now)));
      }
      if limits.requests.Some? && |tenantDeque| + 1 > limits.requests.value {
        return Some(Deny(TenantRequests, RetryAfter(cfg, tenantDeque, c.now)));
      }
      if limits.inputTokens.Some? && SumTokens(userDeque) + c.Tokens() > limits.inputTokens.value {
        return Some(Deny(UserInputTokens, RetryAfter(cfg, userDeque, c.now)));
      }
      if limits.inputTokens.Some? && SumTokens(tenantDeque) + c.Tokens() > limits.inputTokens.value {
        return Some(Deny(TenantInputTokens, RetryAfter(cfg, tenantDeque, c.now)));
      }
      return None;
    }

    /** Appends the usage record to both deques and opens both slots. */
    method Append(c: Call)
      modifies this`userRecords, this`tenantRecords, this`activeUser, this`activeTenant
      ensures Contents() == Record(old(Contents()), c)
    {
      var key, tenant, record := (c.ticket.tenant, c.ticket.user), c.ticket.tenant, UsageRecord(c.now, c.Tokens());
      userRecords := userRecords[key := Lookup(userRecords, key, []) + [record]];
      tenantRecords := tenantRecords[tenant := Lookup(tenantRecords, tenant, []) + [record]];
      var userSlots: map<string, nat> := Lookup(activeUser, key, map[]);
      var tenantSlots: map<string, nat> := Lookup(activeTenant, tenant, map[]);
      activeUser := activeUser[key := userSlots[c.ticket.id := c.now]];
      activeTenant := activeTenant[tenant := tenantSlots[c.ticket.id := c.now]];
    }

    method CheckAndRecord(c: Call) returns (d: Decision)
      requires Valid() && clock <= c.now
      modifies this
      ensures Valid() && clock == c.now
      ensures Contents() == CheckStep(cfg, old(Contents()), c).0
      ensures d == CheckStep(cfg, old(Contents()), c).1
      ensures log == if d.allowed then old(log) + [c.AsAdmission()] else old(log)
    {
      ghost var step := CheckStep(cfg, Contents(), c);
      CheckKeepsRecords(cfg, Contents(), log, clock, c);
      ExpireAll(c);
      clock := c.now;
      var denied := FirstViolation(c);
      if denied.Some? {
        d := denied.value;
      } else {
        Append(c);
        log := log + [c.AsAdmission()];
        d := Allow();
      }
      assert (Contents(), d) == step;
    }

    method FinishRequest(t: Ticket)
      requires Valid()
      modifies this
      ensures Valid() && clock == old(clock) && log == old(log)
      ensures Contents() == FinishStep(old(Contents()), t)
    {
      var key := (t.tenant, t.user);
      FinishKeepsRecords(cfg, Contents(), log, clock, t, clock);
      activeUser := activeUser[key := Lookup(activeUser, key, map[]) - {t.id}];
      activeTenant := activeTenant[t.tenant := Lookup(activeTenant, t.tenant, map[]) - {t.id}];
    }
  }
}
