/** The Redis enforcer: three Lua scripts over sorted sets with key lifetimes. */
module RedisQuota {
  import opened Options
  import opened QuotaLog
  import TokenCodec
  import opened RedisKeys

  type ZSet = map<string, nat>

  /** Redis never stores an empty set; a key may carry the time at which it expires. */
  datatype Db = Db(sets: map<string, ZSet>, deadlines: map<string, nat>) {
    function Members(key: string): ZSet {
      Lookup(sets, key, map[])
    }

    function Put(key: string, z: ZSet): Db {
      if z == map[] then Db(sets - {key}, deadlines - {key}) else Db(sets[key := z], deadlines)
    }

    /** ZREMRANGEBYSCORE key 0 hi, on the non-negative scores the scripts write. */
    function ZRemRangeByScore(key: string, hi: int): Db {
      Put(key, Live(Members(key), hi))
    }

    function ZAdd(key: string, member: string, score: nat): Db {
      Put(key, Members(key)[member := score])
    }

    /** ZADD with the XX option: only updates a member that is already there. */
    function ZAddExisting(key: string, member: string, score: nat): Db {
      if member in Members(key) then ZAdd(key, member, score) else this
    }

    function ZRem(key: string, member: string): Db {
      Put(key, Members(key) - {member})
    }

    /** EXPIRE, which does nothing to a key that does not exist. */
    function Expire(key: string, deadline: nat): Db {
      if key in sets then this.(deadlines := deadlines[key := deadline]) else this
    }

    /**
      Redis drops a key once its lifetime has passed. It judges that by its own clock, and the scripts go by the
      gateway's, so by the latter a key at or past its deadline may be gone or still there.
     */
    function Evict(key: string, now: nat): Db {
      if key in deadlines && deadlines[key] <= now then Put(key, map[]) else this
    }
  }

  const EMPTY_DB := Db(map[], map[])

  function KeyTtl(cfg: Config): nat {
    1000 * ((if cfg.windowSeconds < cfg.slotSeconds then cfg.slotSeconds else cfg.windowSeconds) + 60)
  }

  function CeilSeconds(ms: nat): nat {
    (ms + 999) / 1000
  }

  /** Some member of a non-empty set. */
  ghost function Any(z: ZSet): (m: string)
    requires z != map[]
    ensures m in z
  {
    var m :| m in z; m
  }

  /** The members' token counts added up in some order. */
  ghost function SumMembers(z: ZSet): nat
    decreases |z|
  {
    if z == map[] then 0
    else
      RemoveSmaller(z, Any(z));
      TokenCodec.Counted(Any(z)) + SumMembers(z - {Any(z)})
  }

  /** The order does not matter. */
  lemma {:induction false} SumAnyOrder(z: ZSet, m: string)
    requires m in z
    ensures SumMembers(z) == TokenCodec.Counted(m) + SumMembers(z - {m})
    decreases |z|
  {
    var first := Any(z);
    RemoveSmaller(z, first);
    RemoveSmaller(z, m);
    if m != first {
      SumAnyOrder(z - {first}, m);
      SumAnyOrder(z - {m}, first);
      assert z - {first} - {m} == z - {m} - {first};
    }
  }

  lemma RemoveSmaller(z: ZSet, m: string)
    requires m in z
    ensures |z - {m}| == |z| - 1
    ensures forall k :: k in z ==> k == m || k in z - {m}
  {
    assert (z - {m}).Keys == z.Keys - {m};
  }

  /** The score of the first member in rank order. */
  ghost function OldestScore(z: ZSet): (r: nat)
    requires z != map[]
    ensures exists m :: m in z && z[m] == r
    ensures forall m :: m in z ==> r <= z[m]
    decreases |z|
  {
    var m := Any(z);
    RemoveSmaller(z, m);
    if z - {m} == map[] then z[m]
    else
      var rest := OldestScore(z - {m});
      if rest < z[m] then rest else z[m]
  }

  /** The script's retry time in whole seconds, rounded up. */
  ghost function ScriptRetry(z: ZSet, now: nat, windowMs: nat): nat {
    if z == map[] then CeilSeconds(windowMs)
    else
      var left := windowMs as int - (now - OldestScore(z));
      CeilSeconds(if left < 1 then 1 else left)
  }

  /** Members with a score in [lo, hi], as ZRANGEBYSCORE lists them. */
  function InRange(z: ZSet, lo: int, hi: int): ZSet {
    map m | m in z && lo <= z[m] <= hi :: z[m]
  }

  /** KEYS[1] to KEYS[6] of the check script. */
  datatype Keys = Keys(userRequests: string, userInput: string, tenantRequests: string, tenantInput: string,
                       userSlots: string, tenantSlots: string)
  {
    /** The kind of set the script takes a key for. */
    function Role(key: string): Option<Kind> {
      if key == userRequests || key == tenantRequests then Some(Kind.Requests)
      else if key == userInput || key == tenantInput then Some(InputTokens)
      else if key == userSlots || key == tenantSlots then Some(Kind.Slots)
      else None
    }

    function Requests(): seq<string> { [userRequests, tenantRequests] }

    function Inputs(): seq<string> { [userInput, tenantInput] }

    function Slots(): seq<string> { [userSlots, tenantSlots] }

    lemma SlotRole(key: string)
      requires Separate()
      ensures Role(key) == Some(Kind.Slots) <==> key in Slots()
    {
    }

    /** No key serves two kinds. */
    predicate Separate() {
      Role(userInput) == Role(tenantInput) == Some(InputTokens) && Role(userSlots) == Role(tenantSlots) == Some(Kind.Slots)
    }
  }

  function KeysOf(prefix: string, t: Ticket): Keys {
    var user, tenant := User(t.tenant, t.user), Tenant(t.tenant);
    Keys(Key(prefix, Requests, user), Key(prefix, InputTokens, user), Key(prefix, Requests, tenant),
         Key(prefix, InputTokens, tenant), Key(prefix, Slots, user), Key(prefix, Slots, tenant))
  }

  function RemoveEach(db: Db, keys: seq<string>, hi: int): Db
    decreases |keys|
  {
    if keys == [] then db else RemoveEach(db.ZRemRangeByScore(keys[0], hi), keys[1..], hi)
  }

  function AddEach(db: Db, keys: seq<string>, member: string, score: nat): Db
    decreases |keys|
  {
    if keys == [] then db else AddEach(db.ZAdd(keys[0], member, score), keys[1..], member, score)
  }

  function AddExistingEach(db: Db, keys: seq<string>, member: string, score: nat): Db
    decreases |keys|
  {
    if keys == [] then db else AddExistingEach(db.ZAddExisting(keys[0], member, score), keys[1..], member, score)
  }

  function RemoveMemberEach(db: Db, keys: seq<string>, member: string): Db
    decreases |keys|
  {
    if keys == [] then db else RemoveMemberEach(db.ZRem(keys[0], member), keys[1..], member)
  }

  function ExpireEach(db: Db, keys: seq<string>, deadline: nat): Db
    decreases |keys|
  {
    if keys == [] then db else ExpireEach(db.Expire(keys[0], deadline), keys[1..], deadline)
  }

  function Purge(cfg: Config, ks: Keys, db: Db, now: nat): Db {
    var quota := [ks.userRequests, ks.userInput, ks.tenantRequests, ks.tenantInput];
    RemoveEach(RemoveEach(db, quota, now - cfg.Window()), ks.Slots(), now - cfg.SlotTtl())
  }

  function Insert(ks: Keys, db: Db, a: Admission): Db {
    var d1 := AddEach(db, ks.Requests(), Name(Requests, a), a.at);
    var d2 := AddEach(d1, ks.Inputs(), Name(InputTokens, a), a.at);
    AddEach(d2, ks.Slots(), Name(Slots, a), a.at)
  }

  function Renew(ks: Keys, db: Db, deadline: nat): Db {
    ExpireEach(db, [ks.userRequests, ks.userInput, ks.tenantRequests, ks.tenantInput, ks.userSlots, ks.tenantSlots], deadline)
  }

  ghost function InputSum(z: ZSet, cfg: Config, now: nat): nat {
    SumMembers(InRange(z, now - cfg.Window() + 1, now))
  }

  ghost function LoadOf(cfg: Config, ks: Keys, db: Db, now: nat): Load {
    Load(|db.Members(ks.userSlots)|, |db.Members(ks.tenantSlots)|,
         |db.Members(ks.userRequests)|, |db.Members(ks.tenantRequests)|,
         InputSum(db.Members(ks.userInput), cfg, now), InputSum(db.Members(ks.tenantInput), cfg, now))
  }

  /** The set a window refusal reads its retry time from. */
  function RefusedKey(ks: Keys, reason: Reason): string {
    match reason
    case UserRequests => ks.userRequests
    case TenantRequests => ks.tenantRequests
    case UserInputTokens => ks.userInput
    case _ => ks.tenantInput
  }

  ghost function Answer(cfg: Config, ks: Keys, db: Db, now: nat, reason: Reason): (d: Decision)
    ensures d.reason == reason && (d.allowed <==> reason.Admitted?)
  {
    if reason.Admitted? then Allow()
    else if reason.UserConcurrency? || reason.TenantConcurrency? then Deny(reason, CeilSeconds(cfg.SlotTtl()))
    else Deny(reason, ScriptRetry(db.Members(RefusedKey(ks, reason)), now, cfg.Window()))
  }

  function Commit(cfg: Config, ks: Keys, clean: Db, a: Admission, allowed: bool): Db {
    if allowed then Renew(ks, Insert(ks, clean, a), a.at + KeyTtl(cfg)) else clean
  }

  /** The script's reply, given the purged sets. */
  ghost function Reply(cfg: Config, ks: Keys, clean: Db, c: Call): Decision {
    Answer(cfg, ks, clean, c.now, Judge(c.limits, LoadOf(cfg, ks, clean, c.now), c.Tokens()))
  }

  ghost function CheckStep(cfg: Config, ks: Keys, db: Db, c: Call): (Db, Decision) {
    var clean := Purge(cfg, ks, db, c.now);
    var d := Reply(cfg, ks, clean, c);
    (Commit(cfg, ks, clean, c.AsAdmission(), d.allowed), d)
  }

  function FinishStep(cfg: Config, ks: Keys, db: Db, id: string, now: nat): Db {
    ExpireEach(RemoveMemberEach(db, ks.Slots(), id), ks.Slots(), now + KeyTtl(cfg))
  }

  function HeartbeatStep(cfg: Config, ks: Keys, db: Db, id: string, now: nat): Db {
    ExpireEach(AddExistingEach(db, ks.Slots(), id, now), ks.Slots(), now + KeyTtl(cfg))
  }

  // ---------------------------------------------------------------- effects key by key

  lemma {:induction false} RemoveEachEffect(db: Db, keys: seq<string>, hi: int, k: string)
    ensures RemoveEach(db, keys, hi).Members(k) == if k in keys then Live(db.Members(k), hi) else db.Members(k)
    decreases |keys|
  {
    if keys != [] {
      RemoveEachEffect(db.ZRemRangeByScore(keys[0], hi), keys[1..], hi, k);
      LiveTwice(db.Members(k), hi, hi);
    }
  }

  lemma {:induction false} AddEachEffect(db: Db, keys: seq<string>, m: string, score: nat, k: string)
    ensures AddEach(db, keys, m, score).Members(k) == if k in keys then db.Members(k)[m := score] else db.Members(k)
    decreases |keys|
  {
    if keys != [] {
      AddEachEffect(db.ZAdd(keys[0], m, score), keys[1..], m, score, k);
    }
  }

  function Beat(z: ZSet, id: string, now: nat): ZSet {
    if id in z then z[id := now] else z
  }

  lemma {:induction false} AddExistingEachEffect(db: Db, keys: seq<string>, m: string, score: nat, k: string)
    ensures AddExistingEach(db, keys, m, score).Members(k) == if k in keys then Beat(db.Members(k), m, score) else db.Members(k)
    decreases |keys|
  {
    if keys != [] {
      AddExistingEachEffect(db.ZAddExisting(keys[0], m, score), keys[1..], m, score, k);
    }
  }

  lemma {:induction false} RemoveMemberEachEffect(db: Db, keys: seq<string>, m: string, k: string)
    ensures RemoveMemberEach(db, keys, m).Members(k) == if k in keys then db.Members(k) - {m} else db.Members(k)
    decreases |keys|
  {
    if keys != [] {
      RemoveMemberEachEffect(db.ZRem(keys[0], m), keys[1..], m, k);
    }
  }

  lemma {:induction false} ExpireEachKeepsSets(db: Db, keys: seq<string>, deadline: nat)
    ensures ExpireEach(db, keys, deadline).sets == db.sets
    decreases |keys|
  {
    if keys != [] {
      ExpireEachKeepsSets(db.Expire(keys[0], deadline), keys[1..], deadline);
    }
  }

  function PurgedSet(cfg: Config, z: ZSet, role: Option<Kind>, now: nat): ZSet {
    if role.Some? then Live(z, now - cfg.Span(role.value)) else z
  }

  lemma PurgeEffect(cfg: Config, ks: Keys, db: Db, now: nat, k: string)
    requires ks.Separate()
    ensures Purge(cfg, ks, db, now).Members(k) == PurgedSet(cfg, db.Members(k), ks.Role(k), now)
  {
    var quota := [ks.userRequests, ks.userInput, ks.tenantRequests, ks.tenantInput];
    RemoveEachEffect(db, quota, now - cfg.Window(), k);
    RemoveEachEffect(RemoveEach(db, quota, now - cfg.Window()), ks.Slots(), now - cfg.SlotTtl(), k);
  }

  function InsertedSet(z: ZSet, role: Option<Kind>, a: Admission): ZSet {
    if role.Some? then z[Name(role.value, a) := a.at] else z
  }

  lemma InsertEffect(ks: Keys, db: Db, a: Admission, k: string)
    requires ks.Separate()
    ensures Insert(ks, db, a).Members(k) == InsertedSet(db.Members(k), ks.Role(k), a)
  {
    var d1 := AddEach(db, ks.Requests(), Name(Requests, a), a.at);
    var d2 := AddEach(d1, ks.Inputs(), Name(InputTokens, a), a.at);
    AddEachEffect(db, ks.Requests(), Name(Requests, a), a.at, k);
    AddEachEffect(d1, ks.Inputs(), Name(InputTokens, a), a.at, k);
    AddEachEffect(d2, ks.Slots(), Name(Slots, a), a.at, k);
  }

  lemma RenewKeepsSets(ks: Keys, db: Db, deadline: nat)
    ensures Renew(ks, db, deadline).sets == db.sets
  {
    ExpireEachKeepsSets(db, [ks.userRequests, ks.userInput, ks.tenantRequests, ks.tenantInput, ks.userSlots, ks.tenantSlots], deadline);
  }

  /** The set a check leaves under a key with the given role. */
  function SetAfter(cfg: Config, z: ZSet, role: Option<Kind>, a: Admission, allowed: bool): ZSet {
    var live := PurgedSet(cfg, z, role, a.at);
    if allowed then InsertedSet(live, role, a) else live
  }

  /** What a check does to every key, by its answer. */
  lemma CommitEffect(cfg: Config, ks: Keys, db: Db, a: Admission, allowed: bool, k: string)
    requires ks.Separate()
    ensures Commit(cfg, ks, Purge(cfg, ks, db, a.at), a, allowed).Members(k) == SetAfter(cfg, db.Members(k), ks.Role(k), a, allowed)
  {
    var clean := Purge(cfg, ks, db, a.at);
    PurgeEffect(cfg, ks, db, a.at, k);
    if allowed {
      InsertEffect(ks, clean, a, k);
      RenewKeepsSets(ks, Insert(ks, clean, a), a.at + KeyTtl(cfg));
    }
  }

  /** Whether the names of a ticket's sets are those of the scope's sets. */
  predicate Touches(t: Ticket, scope: Scope) {
    Alias(scope, User(t.tenant, t.user)) || Alias(scope, Tenant(t.tenant))
  }

  /** Which of the six keys of a ticket a scope's key is. */
  lemma RoleOfKey(prefix: string, t: Ticket, kind: Kind, scope: Scope)
    ensures KeysOf(prefix, t).Role(Key(prefix, kind, scope)) == if Touches(t, scope) then Some(kind) else None
  {
    KeysCollideExactly(prefix, kind, scope, Requests, User(t.tenant, t.user));
    KeysCollideExactly(prefix, kind, scope, InputTokens, User(t.tenant, t.user));
    KeysCollideExactly(prefix, kind, scope, Slots, User(t.tenant, t.user));
    KeysCollideExactly(prefix, kind, scope, Requests, Tenant(t.tenant));
    KeysCollideExactly(prefix, kind, scope, InputTokens, Tenant(t.tenant));
    KeysCollideExactly(prefix, kind, scope, Slots, Tenant(t.tenant));
  }

  lemma KeysAreSeparate(prefix: string, t: Ticket)
    ensures KeysOf(prefix, t).Separate()
  {
    RoleOfKey(prefix, t, InputTokens, User(t.tenant, t.user));
    RoleOfKey(prefix, t, InputTokens, Tenant(t.tenant));
    RoleOfKey(prefix, t, Slots, User(t.tenant, t.user));
    RoleOfKey(prefix, t, Slots, Tenant(t.tenant));
  }

  /** The keys play the roles of the names the wrapper builds for the ticket. */
  ghost predicate Serves(ks: Keys, prefix: string, t: Ticket) {
    ks.Separate() &&
    forall kind, scope :: ks.Role(Key(prefix, kind, scope)) == if Touches(t, scope) then Some(kind) else None
  }

  lemma KeysServe(prefix: string, t: Ticket)
    ensures Serves(KeysOf(prefix, t), prefix, t)
  {
    KeysAreSeparate(prefix, t);
    forall kind, scope
      ensures KeysOf(prefix, t).Role(Key(prefix, kind, scope)) == if Touches(t, scope) then Some(kind) else None
    {
      RoleOfKey(prefix, t, kind, scope);
    }
  }

  lemma CheckEffect(cfg: Config, ks: Keys, db: Db, c: Call, k: string)
    requires ks.Separate()
    ensures CheckStep(cfg, ks, db, c).0.Members(k) ==
            SetAfter(cfg, db.Members(k), ks.Role(k), c.AsAdmission(), CheckStep(cfg, ks, db, c).1.allowed)
  {
    CommitEffect(cfg, ks, db, c.AsAdmission(), Reply(cfg, ks, Purge(cfg, ks, db, c.now), c).allowed, k);
  }

  lemma FinishEffect(cfg: Config, ks: Keys, db: Db, id: string, now: nat, k: string)
    requires ks.Separate()
    ensures FinishStep(cfg, ks, db, id, now).Members(k) ==
            if ks.Role(k) == Some(Slots) then db.Members(k) - {id} else db.Members(k)
  {
    RemoveMemberEachEffect(db, ks.Slots(), id, k);
    ExpireEachKeepsSets(RemoveMemberEach(db, ks.Slots(), id), ks.Slots(), now + KeyTtl(cfg));
    ks.SlotRole(k);
  }

  lemma HeartbeatEffect(cfg: Config, ks: Keys, db: Db, id: string, now: nat, k: string)
    requires ks.Separate()
    ensures HeartbeatStep(cfg, ks, db, id, now).Members(k) ==
            if ks.Role(k) == Some(Slots) then Beat(db.Members(k), id, now) else db.Members(k)
  {
    AddExistingEachEffect(db, ks.Slots(), id, now, k);
    ExpireEachKeepsSets(AddExistingEach(db, ks.Slots(), id, now), ks.Slots(), now + KeyTtl(cfg));
    ks.SlotRole(k);
  }
}
