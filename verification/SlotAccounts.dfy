/** Who holds the concurrency slots: requests still in the gateway, or requests that left without giving theirs back. */
module SlotAccounts {
  import opened Options
  import opened QuotaLog
  import opened MemoryQuota
  import opened MemoryRuns

  function Tickets(log: seq<Admission>): seq<Ticket> {
    seq(|log|, i requires 0 <= i < |log| => log[i].ticket)
  }

  /** Every admission is in progress, was released, or left the gateway without being released. */
  datatype Accounts = Accounts(held: multiset<Ticket>, leaked: multiset<Ticket>, released: multiset<Ticket>) {
    function All(): multiset<Ticket> { held + leaked + released }

    function Done(): set<Ticket> { set t | t in released }

    function Take(t: Ticket): Accounts { this.(held := held + multiset{t}) }

    function Release(t: Ticket): Accounts { this.(held := held - multiset{t}, released := released + multiset{t}) }

    function Leak(t: Ticket): Accounts { this.(held := held - multiset{t}, leaked := leaked + multiset{t}) }
  }

  const NO_ACCOUNTS := Accounts(multiset{}, multiset{}, multiset{})

  /** Admissions are conserved and, if no id was reused, the enforcer's slots are the unreleased ones. */
  ghost predicate Balanced(cfg: Config, s: Store, log: seq<Admission>, clock: int, a: Accounts) {
    multiset(Tickets(log)) == a.All() &&
    (UniqueIds(log) ==> SlotsMatch(cfg, s, Book(log, a.Done()), clock))
  }

  lemma DeniedKeepsBalance(cfg: Config, s: Store, log: seq<Admission>, clock: int, a: Accounts, c: Call)
    requires Balanced(cfg, s, log, clock, a) && clock <= c.now && !CheckStep(cfg, s, c).1.allowed
    ensures Balanced(cfg, CheckStep(cfg, s, c).0, log, c.now, a)
  {
    if UniqueIds(log) {
      CheckKeepsSlots(cfg, s, Book(log, a.Done()), clock, c);
    }
  }

  lemma AdmittedKeepsBalance(cfg: Config, s: Store, log: seq<Admission>, clock: int, a: Accounts, c: Call)
    requires Balanced(cfg, s, log, clock, a) && clock <= c.now && CheckStep(cfg, s, c).1.allowed
    ensures Balanced(cfg, CheckStep(cfg, s, c).0, log + [c.AsAdmission()], c.now, a.Take(c.ticket))
  {
    var t, after := c.ticket, log + [c.AsAdmission()];
    OneTicketMore(log, c.AsAdmission(), a);
    if UniqueIds(after) {
      UniquePrefix(after);
      assert after[..|log|] == log;
      NewTicket(log, c.AsAdmission());
      assert t !in multiset(Tickets(log));
      CheckKeepsSlots(cfg, s, Book(log, a.Done()), clock, c);
      assert a.Done() - {t} == a.Done();
    }
  }

  lemma OneTicketMore(log: seq<Admission>, x: Admission, a: Accounts)
    requires multiset(Tickets(log)) == a.All()
    ensures multiset(Tickets(log + [x])) == a.Take(x.ticket).All()
  {
    assert Tickets(log + [x]) == Tickets(log) + [x.ticket];
  }

  lemma NewTicket(log: seq<Admission>, a: Admission)
    requires UniqueIds(log + [a])
    ensures FreshTicket(log, a.ticket) && a.ticket !in Tickets(log)
  {
    var after := log + [a];
    forall i | 0 <= i < |log| && log[i].ticket.tenant == a.ticket.tenant ensures log[i].ticket.id != a.ticket.id {
      assert after[i] == log[i] && after[|log|] == a;
    }
  }

  lemma ReleaseKeepsBalance(cfg: Config, s: Store, log: seq<Admission>, clock: int, a: Accounts, t: Ticket)
    requires Balanced(cfg, s, log, clock, a) && t in a.held
    ensures Balanced(cfg, FinishStep(s, t), log, clock, a.Release(t))
  {
    assert a.Release(t).All() == a.All();
    if UniqueIds(log) {
      assert t in multiset(Tickets(log));
      var i :| 0 <= i < |log| && Tickets(log)[i] == t;
      FinishKeepsSlots(cfg, s, Book(log, a.Done()), clock, t, clock);
      assert a.Release(t).Done() == a.Done() + {t};
    }
  }

  lemma LeakKeepsBalance(cfg: Config, s: Store, log: seq<Admission>, clock: int, a: Accounts, t: Ticket)
    requires Balanced(cfg, s, log, clock, a) && t in a.held
    ensures Balanced(cfg, s, log, clock, a.Leak(t))
  {
    assert a.Leak(t).All() == a.All();
  }

  lemma {:induction false} AdmittedOnce(log: seq<Admission>, t: Ticket)
    requires UniqueIds(log)
    ensures multiset(Tickets(log))[t] <= 1
  {
    if log != [] {
      var p, last := log[..|log| - 1], log[|log| - 1];
      assert log == p + [last] && Tickets(log) == Tickets(p) + [last.ticket];
      UniquePrefix(log);
      AdmittedOnce(p, t);
      if t == last.ticket {
        NewTicket(p, last);
        assert t !in multiset(Tickets(p));
      }
    }
  }

  /**
    If no id was reused, a live slot belongs to a request that is still in the gateway or that left it without
    giving the slot back, admitted less than the slot's lifetime ago; and every such request has one.
   */
  lemma SlotsAreHeldOrLeaked(cfg: Config, s: Store, log: seq<Admission>, clock: int, a: Accounts, scope: Scope, now: nat, id: string)
    requires Balanced(cfg, s, log, clock, a) && UniqueIds(log) && clock <= now
    ensures Holds(cfg, s, scope, id, now) <==>
            exists x :: x in log && x.ticket.id == id && x.ticket.In(scope) && x.ticket in a.held + a.leaked && x.at > now - cfg.SlotTtl()
  {
    HoldsOpenRequests(cfg, s, Book(log, a.Done()), clock, scope, now, id);
    forall x | x in log ensures x.ticket !in a.Done() <==> x.ticket in a.held + a.leaked {
      AdmittedOnce(log, x.ticket);
      var i :| 0 <= i < |log| && log[i] == x;
      assert Tickets(log)[i] == x.ticket && x.ticket in multiset(Tickets(log));
    }
  }

  /** With nothing in progress and nothing leaked, no slot is taken. */
  lemma IdleGatewayHoldsNothing(cfg: Config, s: Store, log: seq<Admission>, clock: int, a: Accounts, scope: Scope, now: nat, id: string)
    requires Balanced(cfg, s, log, clock, a) && UniqueIds(log) && clock <= now
    requires a.held == multiset{} && a.leaked == multiset{}
    ensures !Holds(cfg, s, scope, id, now)
  {
    SlotsAreHeldOrLeaked(cfg, s, log, clock, a, scope, now, id);
  }
}
