/** Slots of the Redis enforcer when Redis may be down or a reply may be lost: exactly which stay taken. */
module RedisSlots {
  import opened Options
  import opened QuotaLog
  import opened RedisKeys
  import opened RedisQuota
  import opened RedisRefinement
  import opened RedisScripts

  /** A call of the wrapper, and what became of it on the way to Redis and back. */
  datatype Attempt = Ask(call: Call, backend: Backend) | Return(ticket: Ticket, at: nat, backend: Backend)

  /** What the wrapper does to Redis, and what it answers. */
  datatype Service = Service(db: Db, answers: seq<Option<Decision>>)

  ghost function Serve(cfg: Config, prefix: string, calls: seq<Attempt>): (s: Service)
    ensures |s.answers| == |calls|
  {
    if calls == [] then Service(EMPTY_DB, [])
    else
      var s := Serve(cfg, prefix, calls[..|calls| - 1]);
      match calls[|calls| - 1]
      case Ask(c, backend) =>
        var step := CheckStep(cfg, KeysOf(prefix, c.ticket), s.db, c);
        Service(if backend.Down? then s.db else step.0, s.answers + [Some(if backend.Up? then step.1 else BACKEND_DOWN)])
      case Return(t, at, backend) =>
        Service(if backend.Down? then s.db else FinishStep(cfg, KeysOf(prefix, t), s.db, t.id, at), s.answers + [None])
  }

  /** The calls that reached Redis. */
  function Reached(calls: seq<Attempt>): seq<Event> {
    if calls == [] then []
    else
      var p, a := Reached(calls[..|calls| - 1]), calls[|calls| - 1];
      if a.backend.Down? then p else p + [if a.Ask? then Check(a.call) else Finish(a.ticket, a.at)]
  }

  /** Redis sees the calls that reached it and nothing else. */
  lemma {:induction false} ServedIsReached(cfg: Config, prefix: string, calls: seq<Attempt>)
    ensures Serve(cfg, prefix, calls).db == Run(cfg, prefix, Reached(calls)).db
  {
    if calls != [] {
      var p := calls[..|calls| - 1];
      ServedIsReached(cfg, prefix, p);
      var es := Reached(calls);
      if !calls[|calls| - 1].backend.Down? {
        assert es[..|es| - 1] == Reached(p);
      }
    }
  }

  /** A call admitted by the script whose ticket has not been given back since by a call that reached Redis. */
  ghost predicate Open(cfg: Config, calls: seq<Attempt>, a: Admission) {
    var b := Reference(cfg, Reached(calls)).book;
    a in b.log && a.ticket !in b.finished
  }

  /**
    Slots over a faulty backend: with fresh ids and colon-free tenants, a live slot belongs exactly to a request
    that the script admitted less than a lifetime ago and whose return, if any, never reached Redis.
   */
  lemma {:induction false} SlotsStayTakenExactly(cfg: Config, prefix: string, calls: seq<Attempt>, scope: Scope, now: nat, id: string)
    requires Timely(Reached(calls)) && Sound(cfg, Reached(calls)) && Plain(Reached(calls)) && Clock(Reached(calls)) <= now
    requires ColonFree(scope.tenant)
    ensures id in Live(Set(prefix, Serve(cfg, prefix, calls).db, Slots, scope), now - cfg.SlotTtl()) <==>
            exists a :: Open(cfg, calls, a) && a.ticket.id == id && a.ticket.In(scope) && a.at > now - cfg.SlotTtl()
  {
    var es := Reached(calls);
    var b := Reference(cfg, es).book;
    ServedIsReached(cfg, prefix, calls);
    RefinesReference(cfg, prefix, es);
    SlotsOfBook(cfg, prefix, Run(cfg, prefix, es).db, b, Clock(es), scope, now, id);
    if a :| Open(cfg, calls, a) && a.ticket.id == id && a.ticket.In(scope) && a.at > now - cfg.SlotTtl() {
      assert a in b.log && a.ticket !in b.finished;
    }
    if a :| a in b.log && a.ticket.id == id && a.ticket.In(scope) && a.ticket !in b.finished && a.at > now - cfg.SlotTtl() {
      assert Open(cfg, calls, a);
    }
  }

  lemma {:induction false} SlotsOfBook(cfg: Config, prefix: string, db: Db, b: Book, clock: int, scope: Scope, now: nat, id: string)
    requires Matches(cfg, prefix, db, b, clock) && clock <= now && ColonFree(scope.tenant)
    ensures id in Live(Set(prefix, db, Slots, scope), now - cfg.SlotTtl()) <==>
            exists a :: a in b.log && a.ticket.id == id && a.ticket.In(scope) && a.ticket !in b.finished && a.at > now - cfg.SlotTtl()
  {
    SetsLater(cfg, prefix, db, b, clock, now, Slots, scope);
    SlotsExact(b.log, b.finished, scope, now - cfg.SlotTtl(), id);
  }

  /** Later attempts none of which returns the ticket to Redis. */
  ghost predicate LeaveAlone(later: seq<Attempt>, t: Ticket) {
    forall i :: 0 <= i < |later| && later[i].Return? && !later[i].backend.Down? ==> later[i].ticket != t
  }

  lemma {:induction false} StaysOpen(cfg: Config, calls: seq<Attempt>, later: seq<Attempt>, a: Admission)
    requires Open(cfg, calls, a) && LeaveAlone(later, a.ticket)
    ensures Open(cfg, calls + later, a)
  {
    if later == [] {
      assert calls + later == calls;
    } else {
      var p, last := later[..|later| - 1], later[|later| - 1];
      assert (calls + later)[..|calls + later| - 1] == calls + p;
      StaysOpen(cfg, calls, p, a);
      if !last.backend.Down? {
        var es := Reached(calls + later);
        assert es[..|es| - 1] == Reached(calls + p);
      }
    }
  }

  /**
    A lost reply: the caller is told 503, so the handler never returns the slot, but the script had admitted
    the call. The slot stays open through any later attempts that do not return it, those of a Redis that is
    down included.
   */
  lemma {:induction false} LostReplyKeepsSlot(cfg: Config, prefix: string, calls: seq<Attempt>, c: Call, later: seq<Attempt>)
    requires Timely(Reached(calls) + [Check(c)]) && Sound(cfg, Reached(calls) + [Check(c)]) && Plain(Reached(calls) + [Check(c)])
    requires CheckStep(cfg, KeysOf(prefix, c.ticket), Serve(cfg, prefix, calls).db, c).1.allowed && LeaveAlone(later, c.ticket)
    ensures var asked := calls + [Ask(c, ReplyLost)];
            Serve(cfg, prefix, asked).answers[|calls|] == Some(Decision(false, 503, BackendUnavailable, Some(1))) && Open(cfg, asked + later, c.AsAdmission())
  {
    var asked, es := calls + [Ask(c, ReplyLost)], Reached(calls);
    assert asked[..|asked| - 1] == calls;
    assert Reached(asked) == es + [Check(c)];
    ServedIsReached(cfg, prefix, calls);
    AllowedIsAdmitted(cfg, prefix, es, c);
    assert Open(cfg, asked, c.AsAdmission());
    StaysOpen(cfg, asked, later, c.AsAdmission());
  }

  /** A check the script allows is one the reference admits. */
  lemma {:induction false} AllowedIsAdmitted(cfg: Config, prefix: string, es: seq<Event>, c: Call)
    requires Timely(es + [Check(c)]) && Sound(cfg, es + [Check(c)]) && Plain(es + [Check(c)])
    requires CheckStep(cfg, KeysOf(prefix, c.ticket), Run(cfg, prefix, es).db, c).1.allowed
    ensures Reference(cfg, es + [Check(c)]).book == Reference(cfg, es).book.Admit(c.AsAdmission())
  {
    var b := Reference(cfg, es).book;
    assert (es + [Check(c)])[..|es|] == es && (es + [Check(c)])[|es|] == Check(c);
    PrefixKeeps(es, Check(c));
    RefinesReference(cfg, prefix, es);
    CheckVerdict(cfg, prefix, Run(cfg, prefix, es).db, b, Clock(es), c);
    assert b.Verdict(cfg, c).Admitted?;
  }

  lemma PrefixKeeps(es: seq<Event>, e: Event)
    requires Timely(es + [e]) && Plain(es + [e])
    ensures Timely(es) && Plain(es) && Clock(es) <= e.Time() && ColonFree(e.TenantId())
  {
    var all := es + [e];
    assert all[|es|] == e && forall i :: 0 <= i < |es| ==> all[i] == es[i];
  }
}
