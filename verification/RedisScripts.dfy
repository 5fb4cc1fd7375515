/** The Lua scripts and their Python wrapper, run step by step on a mutable Redis. */
module RedisScripts {
  import opened Options
  import opened QuotaLog
  import opened RedisKeys
  import opened RedisQuota
  import opened RedisLifetimes
  import TokenCodec

  /** Whether the call reached Redis and its reply came back. */
  datatype Backend = Up | Down | ReplyLost

  const BACKEND_DOWN := Decision(false, 503, BackendUnavailable, Some(1))

  /** `_limit_arg`: an absent limit is passed as -1. */
  function LimitArg(limit: Option<pos>): int {
    if limit.Some? then limit.value else -1
  }

  class RedisQuotaEnforcer {
    const cfg: Config
    const prefix: string
    var sets: map<string, ZSet>
    var deadlines: map<string, nat>

    /** The time of the last call. */
    ghost var clock: nat

    ghost function Contents(): Db
      reads this
    {
      Db(sets, deadlines)
    }

    ghost predicate Valid()
      reads this
    {
      Bounded(cfg, Contents(), clock)
    }

    constructor (cfg: Config, prefix: string)
      ensures Valid() && this.cfg == cfg && this.prefix == prefix && Contents() == EMPTY_DB && clock == 0
    {
      this.cfg, this.prefix := cfg, prefix;
      sets, deadlines, clock := map[], map[], 0;
    }

    // -------------------------------------------------------------- commands

    method Store(key: string, z: ZSet)
      modifies this`sets, this`deadlines
      ensures Contents() == old(Contents()).Put(key, z)
    {
      if z == map[] {
        sets, deadlines := sets - {key}, deadlines - {key};
      } else {
        sets := sets[key := z];
      }
    }

    method ZRemRangeByScore(key: string, hi: int)
      modifies this`sets, this`deadlines
      ensures Contents() == old(Contents()).ZRemRangeByScore(key, hi)
    {
      Store(key, Live(Lookup(sets, key, map[]), hi));
    }

    method ZAdd(key: string, member: string, score: nat)
      modifies this`sets, this`deadlines
      ensures Contents() == old(Contents()).ZAdd(key, member, score)
    {
      var z: ZSet := Lookup(sets, key, map[]);
      Store(key, z[member := score]);
    }

    method ZAddExisting(key: string, member: string, score: nat)
      modifies this`sets, this`deadlines
      ensures Contents() == old(Contents()).ZAddExisting(key, member, score)
    {
      if member in Lookup(sets, key, map[]) {
        ZAdd(key, member, score);
      }
    }

    method ZRem(key: string, member: string)
      modifies this`sets, this`deadlines
      ensures Contents() == old(Contents()).ZRem(key, member)
    {
      Store(key, Lookup(sets, key, map[]) - {member});
    }

    method Expire(key: string, deadline: nat)
      modifies this`deadlines
      ensures Contents() == old(Contents()).Expire(key, deadline)
    {
      if key in sets {
        deadlines := deadlines[key := deadline];
      }
    }

    /** The score of the first member in rank order, if there is one. */
    method ZRangeFirst(key: string) returns (score: Option<nat>)
      ensures var z := Contents().Members(key);
              score == if z == map[] then None else Some(OldestScore(z))
    {
      var z: ZSet := Lookup(sets, key, map[]);
      var rest := z.Keys;
      score := None;
      while rest != {}
        invariant rest <= z.Keys
        invariant score.None? <==> rest == z.Keys
        invariant score.Some? ==> exists m :: m in z && z[m] == score.value
        invariant score.Some? ==> forall m :: m in z && m !in rest ==> score.value <= z[m]
        decreases rest
      {
        var m :| m in rest;
        if score.None? || z[m] < score.value {
          score := Some(z[m]);
        }
        rest := rest - {m};
      }
    }

    // -------------------------------------------------------------- check and record

    /** The six ZREMRANGEBYSCORE calls. */
    method PurgeAll(ks: Keys, now: nat)
      modifies this`sets, this`deadlines
      ensures Contents() == Purge(cfg, ks, old(Contents()), now)
    {
      var cutoff, stale := now - cfg.Window(), now - cfg.SlotTtl();
      ghost var db := Contents();
      ZRemRangeByScore(ks.userRequests, cutoff);
      ZRemRangeByScore(ks.userInput, cutoff);
      ZRemRangeByScore(ks.tenantRequests, cutoff);
      ZRemRangeByScore(ks.tenantInput, cutoff);
      RemoveFour(db, ks.userRequests, ks.userInput, ks.tenantRequests, ks.tenantInput, cutoff);
      ghost var mid := Contents();
      ZRemRangeByScore(ks.userSlots, stale);
      ZRemRangeByScore(ks.tenantSlots, stale);
      RemoveTwo(mid, ks.userSlots, ks.tenantSlots, stale);
    }

    /** `zset_sum_tokens`: adds up the counts of the members with a score in the window. */
    method SumTokens(key: string, now: nat) returns (total: nat)
      ensures total == InputSum(Contents().Members(key), cfg, now)
    {
      var members := InRange(Lookup(sets, key, map[]), now - cfg.Window() + 1, now);
      total := 0;
      var rest := members;
      while rest != map[]
        invariant total + SumMembers(rest) == SumMembers(members)
        decreases |rest|
      {
        var m :| m in rest;
        SumAnyOrder(rest, m);
        RemoveSmaller(rest, m);
        total := total + TokenCodec.Counted(m);
        rest := rest - {m};
      }
    }

    /** `retry_after_for`. */
    method RetryAfterFor(key: string, now: nat) returns (seconds: nat)
      ensures seconds == ScriptRetry(Contents().Members(key), now, cfg.Window())
    {
      var oldest := ZRangeFirst(key);
      if oldest.Some? {
        var left := cfg.Window() - (now - oldest.value);
        if left < 1 { left := 1; }
        return CeilSeconds(left);
      }
      return CeilSeconds(cfg.Window());
    }

    /** The chain of limit checks; `None` means that every one passed. */
    method FirstViolation(ks: Keys, c: Call) returns (d: Option<Decision>)
      ensures var reason := Judge(c.limits, LoadOf(cfg, ks, Contents(), c.now), c.Tokens());
              d == if reason.Admitted? then None else Some(Answer(cfg, ks, Contents(), c.now, reason))
    {
      var requestLimit, slotLimit := LimitArg(c.limits.requests), LimitArg(c.limits.concurrent);
      var userInput := SumTokens(ks.userInput, c.now);
      var tenantInput := SumTokens(ks.tenantInput, c.now);
      ghost var x := LoadOf(cfg, ks, Contents(), c.now);
      if slotLimit >= 0 && |Lookup(sets, ks.userSlots, map[])| >= slotLimit {
        return Some(Deny(UserConcurrency, CeilSeconds(cfg.SlotTtl())));
      }
      if slotLimit >= 0 && |Lookup(sets, ks.tenantSlots, map[])| >= slotLimit {
        return Some(Deny(TenantConcurrency, CeilSeconds(cfg.SlotTtl())));
      }
      if requestLimit >= 0 && |Lookup(sets, ks.userRequests, map[])| + 1 > requestLimit {
        var retry := RetryAfterFor(ks.userRequests, c.now);
        return Some(Deny(UserRequests, retry));
      }
      if requestLimit >= 0 && |Lookup(sets, ks.tenantRequests, map[])| + 1 > requestLimit {
        var retry := RetryAfterFor(ks.tenantRequests, c.now);
        return Some(Deny(TenantRequests, retry));
      }
      d := TokenViolation(ks, c, userInput, tenantInput);
    }

    /** The end of the chain: the two token limits. */
    method TokenViolation(ks: Keys, c: Call, userInput: nat, tenantInput: nat) returns (d: Option<Decision>)
      ensures var l := c.limits.inputTokens;
              d == if l.Some? && userInput + c.Tokens() > l.value then Some(Answer(cfg, ks, Contents(), c.now, UserInputTokens))
                   else if l.Some? && tenantInput + c.Tokens() > l.value then Some(Answer(cfg, ks, Contents(), c.now, TenantInputTokens))
                   else None
    {
      var inputLimit := LimitArg(c.limits.inputTokens);
      if inputLimit >= 0 && userInput + c.Tokens() > inputLimit {
        var retry := RetryAfterFor(ks.userInput, c.now);
        return Some(Deny(UserInputTokens, retry));
      }
      if inputLimit >= 0 && tenantInput + c.Tokens() > inputLimit {
        var retry := RetryAfterFor(ks.tenantInput, c.now);
        return Some(Deny(TenantInputTokens, retry));
      }
      return None;
    }

    /** The six ZADD calls and the six EXPIRE calls of an admission. */
    method Admit(ks: Keys, a: Admission)
      modifies this`sets, this`deadlines
      ensures Contents() == Renew(ks, Insert(ks, old(Contents()), a), a.at + KeyTtl(cfg))
    {
      var member, inputMember := a.ticket.id, TokenCodec.Encode(a.ticket.id, a.tokens);
      ghost var db := Contents();
      ZAdd(ks.userRequests, member, a.at);
      ZAdd(ks.tenantRequests, member, a.at);
      AddTwo(db, ks.userRequests, ks.tenantRequests, member, a.at);
      ghost var d1 := Contents();
      ZAdd(ks.userInput, inputMember, a.at);
      ZAdd(ks.tenantInput, inputMember, a.at);
      AddTwo(d1, ks.userInput, ks.tenantInput, inputMember, a.at);
      ghost var d2 := Contents();
      ZAdd(ks.userSlots, member, a.at);
      ZAdd(ks.tenantSlots, member, a.at);
      AddTwo(d2, ks.userSlots, ks.tenantSlots, member, a.at);
      assert Contents() == Insert(ks, db, a);
      RenewAll(ks, a.at + KeyTtl(cfg));
    }

    method RenewAll(ks: Keys, deadline: nat)
      modifies this`deadlines
      ensures Contents() == Renew(ks, old(Contents()), deadline)
    {
      ghost var db := Contents();
      Expire(ks.userRequests, deadline);
      Expire(ks.userInput, deadline);
      Expire(ks.tenantRequests, deadline);
      Expire(ks.tenantInput, deadline);
      Expire(ks.userSlots, deadline);
      Expire(ks.tenantSlots, deadline);
      ExpireSix(db, ks.userRequests, ks.userInput, ks.tenantRequests, ks.tenantInput, ks.userSlots, ks.tenantSlots, deadline);
    }

    /** The script from the purge on. */
    method Decide(ks: Keys, c: Call) returns (d: Decision)
      modifies this`sets, this`deadlines
      ensures d == Reply(cfg, ks, old(Contents()), c)
      ensures Contents() == Commit(cfg, ks, old(Contents()), c.AsAdmission(), d.allowed)
    {
      var denied := FirstViolation(ks, c);
      if denied.Some? {
        return denied.value;
      }
      Admit(ks, c.AsAdmission());
      return Allow();
    }

    method CheckScript(ks: Keys, c: Call) returns (d: Decision)
      modifies this`sets, this`deadlines
      ensures (Contents(), d) == CheckStep(cfg, ks, old(Contents()), c)
    {
      PurgeAll(ks, c.now);
      d := Decide(ks, c);
    }

    /** The wrapper fails closed when Redis cannot be reached or its reply is lost. */
    method CheckAndRecord(c: Call, backend: Backend) returns (d: Decision)
      requires Valid() && clock <= c.now
      modifies this
      ensures Valid() && clock == c.now
      ensures var step := CheckStep(cfg, KeysOf(prefix, c.ticket), old(Contents()), c);
              Contents() == (if backend.Down? then old(Contents()) else step.0) &&
              d == (if backend.Up? then step.1 else Decision(false, 503, BackendUnavailable, Some(1)))
    {
      BoundedLater(cfg, Contents(), clock, c.now);
      CheckKeepsBounded(cfg, KeysOf(prefix, c.ticket), Contents(), clock, c);
      clock := c.now;
      if backend.Down? {
        return BACKEND_DOWN;
      }
      d := CheckScript(KeysOf(prefix, c.ticket), c);
      if backend.ReplyLost? {
        d := BACKEND_DOWN;
      }
    }

    // -------------------------------------------------------------- finish and heartbeat

    /** The two ZREM calls and the two EXPIRE calls. */
    method FinishScript(ks: Keys, id: string, now: nat)
      modifies this`sets, this`deadlines
      ensures Contents() == FinishStep(cfg, ks, old(Contents()), id, now)
    {
      ghost var db := Contents();
      ZRem(ks.userSlots, id);
      ZRem(ks.tenantSlots, id);
      RemoveMemberTwo(db, ks.userSlots, ks.tenantSlots, id);
      RenewSlots(ks, now + KeyTtl(cfg));
    }

    method RenewSlots(ks: Keys, deadline: nat)
      modifies this`deadlines
      ensures Contents() == ExpireEach(old(Contents()), ks.Slots(), deadline)
    {
      ghost var db := Contents();
      Expire(ks.userSlots, deadline);
      Expire(ks.tenantSlots, deadline);
      ExpireTwo(db, ks.userSlots, ks.tenantSlots, deadline);
    }

    /** The two ZADD XX calls and the two EXPIRE calls. */
    method HeartbeatScript(ks: Keys, id: string, now: nat)
      modifies this`sets, this`deadlines
      ensures Contents() == HeartbeatStep(cfg, ks, old(Contents()), id, now)
    {
      ghost var db := Contents();
      ZAddExisting(ks.userSlots, id, now);
      ZAddExisting(ks.tenantSlots, id, now);
      AddExistingTwo(db, ks.userSlots, ks.tenantSlots, id, now);
      RenewSlots(ks, now + KeyTtl(cfg));
    }

    method FinishRequest(t: Ticket, now: nat, backend: Backend)
      requires Valid() && clock <= now
      modifies this
      ensures Valid() && clock == now
      ensures Contents() == if backend.Down? then old(Contents())
                            else FinishStep(cfg, KeysOf(prefix, t), old(Contents()), t.id, now)
    {
      BoundedLater(cfg, Contents(), clock, now);
      FinishKeepsBounded(cfg, KeysOf(prefix, t), Contents(), clock, t.id, now);
      clock := now;
      if !backend.Down? {
        FinishScript(KeysOf(prefix, t), t.id, now);
      }
    }

    method HeartbeatRequest(t: Ticket, now: nat, backend: Backend)
      requires Valid() && clock <= now
      modifies this
      ensures Valid() && clock == now
      ensures Contents() == if backend.Down? then old(Contents())
                            else HeartbeatStep(cfg, KeysOf(prefix, t), old(Contents()), t.id, now)
    {
      BoundedLater(cfg, Contents(), clock, now);
      HeartbeatKeepsBounded(cfg, KeysOf(prefix, t), Contents(), clock, t.id, now);
      clock := now;
      if !backend.Down? {
        HeartbeatScript(KeysOf(prefix, t), t.id, now);
      }
    }
  }

  // ---------------------------------------------------------------- straight-line scripts as folds

  lemma RemoveTwo(db: Db, a: string, b: string, hi: int)
    ensures RemoveEach(db, [a, b], hi) == db.ZRemRangeByScore(a, hi).ZRemRangeByScore(b, hi)
  {
    assert [a, b][1..] == [b] && [b][1..] == [];
    assert RemoveEach(db.ZRemRangeByScore(a, hi), [b], hi) == db.ZRemRangeByScore(a, hi).ZRemRangeByScore(b, hi);
  }

  lemma RemoveFour(db: Db, a: string, b: string, c: string, d: string, hi: int)
    ensures RemoveEach(db, [a, b, c, d], hi) ==
            db.ZRemRangeByScore(a, hi).ZRemRangeByScore(b, hi).ZRemRangeByScore(c, hi).ZRemRangeByScore(d, hi)
  {
    var d1 := db.ZRemRangeByScore(a, hi);
    assert [a, b, c, d][1..] == [b, c, d] && [b, c, d][1..] == [c, d];
    assert RemoveEach(d1, [b, c, d], hi) == RemoveEach(d1.ZRemRangeByScore(b, hi), [c, d], hi);
    RemoveTwo(d1.ZRemRangeByScore(b, hi), c, d, hi);
  }

  lemma AddTwo(db: Db, a: string, b: string, m: string, score: nat)
    ensures AddEach(db, [a, b], m, score) == db.ZAdd(a, m, score).ZAdd(b, m, score)
  {
    assert [a, b][1..] == [b] && [b][1..] == [];
    assert AddEach(db.ZAdd(a, m, score), [b], m, score) == db.ZAdd(a, m, score).ZAdd(b, m, score);
  }

  lemma AddExistingTwo(db: Db, a: string, b: string, m: string, score: nat)
    ensures AddExistingEach(db, [a, b], m, score) == db.ZAddExisting(a, m, score).ZAddExisting(b, m, score)
  {
    assert [a, b][1..] == [b] && [b][1..] == [];
    assert AddExistingEach(db.ZAddExisting(a, m, score), [b], m, score) ==
           db.ZAddExisting(a, m, score).ZAddExisting(b, m, score);
  }

  lemma RemoveMemberTwo(db: Db, a: string, b: string, m: string)
    ensures RemoveMemberEach(db, [a, b], m) == db.ZRem(a, m).ZRem(b, m)
  {
    assert [a, b][1..] == [b] && [b][1..] == [];
    assert RemoveMemberEach(db.ZRem(a, m), [b], m) == db.ZRem(a, m).ZRem(b, m);
  }

  lemma ExpireTwo(db: Db, a: string, b: string, deadline: nat)
    ensures ExpireEach(db, [a, b], deadline) == db.Expire(a, deadline).Expire(b, deadline)
  {
    assert [a, b][1..] == [b] && [b][1..] == [];
    assert ExpireEach(db.Expire(a, deadline), [b], deadline) == db.Expire(a, deadline).Expire(b, deadline);
  }

  lemma ExpireFour(db: Db, a: string, b: string, c: string, d: string, deadline: nat)
    ensures ExpireEach(db, [a, b, c, d], deadline) ==
            db.Expire(a, deadline).Expire(b, deadline).Expire(c, deadline).Expire(d, deadline)
  {
    var d1 := db.Expire(a, deadline);
    assert [a, b, c, d][1..] == [b, c, d] && [b, c, d][1..] == [c, d];
    assert ExpireEach(d1, [b, c, d], deadline) == ExpireEach(d1.Expire(b, deadline), [c, d], deadline);
    ExpireTwo(d1.Expire(b, deadline), c, d, deadline);
  }

  lemma ExpireSix(db: Db, a: string, b: string, c: string, d: string, e: string, f: string, deadline: nat)
    ensures ExpireEach(db, [a, b, c, d, e, f], deadline) ==
            db.Expire(a, deadline).Expire(b, deadline).Expire(c, deadline).Expire(d, deadline).Expire(e, deadline).Expire(f, deadline)
  {
    var d1 := db.Expire(a, deadline);
    assert [a, b, c, d, e, f][1..] == [b, c, d, e, f] && [b, c, d, e, f][1..] == [c, d, e, f];
    assert ExpireEach(d1, [b, c, d, e, f], deadline) == ExpireEach(d1.Expire(b, deadline), [c, d, e, f], deadline);
    ExpireFour(d1.Expire(b, deadline), c, d, e, f, deadline);
  }
}
