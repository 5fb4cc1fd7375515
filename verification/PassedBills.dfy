/** The responses a gateway passed through against the entries its ledger accepted. */
module PassedBills {
  import opened Options
  import opened LedgerBatch
  import opened BillingLedger
  import Log = QuotaLog

  /** A plain response that was passed through, and whether it was entered in the ledger for that. */
  datatype Pass = Pass(ticket: Log.Ticket, billed: bool)

  /** Who an entry is charged to, and for which request. */
  datatype Stamp = Stamp(id: string, tenant: string)

  function Stamps(es: seq<Entry>): seq<Stamp> {
    if es == [] then [] else Stamps(es[..|es| - 1]) + [Stamp(es[|es| - 1].id, es[|es| - 1].tenant)]
  }

  /** The billed responses in order. */
  function Bills(ps: seq<Pass>): seq<Stamp> {
    if ps == [] then []
    else
      var bills, p := Bills(ps[..|ps| - 1]), ps[|ps| - 1];
      if p.billed then bills + [Stamp(p.ticket.id, p.ticket.tenant)] else bills
  }

  /** The response has an entry with its id that is older than it. */
  ghost predicate BilledBefore(ps: seq<Pass>, earlier: seq<Entry>, id: string) {
    (exists e: Entry :: e in earlier && e.id == id) || (exists p: Pass :: p in ps && p.billed && p.ticket.id == id)
  }

  /** Entry for entry, the ledger holds the billed responses; and each other response repeats the id of an older entry. */
  ghost predicate Ledgered(ps: seq<Pass>, earlier: seq<Entry>, accepted: seq<Entry>) {
    Stamps(accepted) == Stamps(earlier) + Bills(ps) &&
    forall k :: 0 <= k < |ps| && !ps[k].billed ==> BilledBefore(ps[..k], earlier, ps[k].ticket.id)
  }

  ghost predicate AllBalanced(es: seq<Entry>) {
    forall i :: 0 <= i < |es| ==> es[i].usage.Balanced()
  }

  // ---------------------------------------------------------------- bills and stamps

  lemma StampsAppend(es: seq<Entry>, e: Entry)
    ensures Stamps(es + [e]) == Stamps(es) + [Stamp(e.id, e.tenant)]
  {
    assert (es + [e])[..|es|] == es;
  }

  lemma BillsAppend(ps: seq<Pass>, p: Pass)
    ensures Bills(ps + [p]) == if p.billed then Bills(ps) + [Stamp(p.ticket.id, p.ticket.tenant)] else Bills(ps)
  {
    assert (ps + [p])[..|ps|] == ps;
  }

  lemma {:induction false} StampOf(es: seq<Entry>, i: nat)
    requires i < |es|
    ensures |Stamps(es)| == |es| && Stamps(es)[i] == Stamp(es[i].id, es[i].tenant)
  {
    if i < |es| - 1 {
      StampOf(es[..|es| - 1], i);
    } else if i > 0 {
      StampOf(es[..|es| - 1], i - 1);
    }
  }

  lemma {:induction false} BillOf(ps: seq<Pass>, st: Stamp)
    ensures st in Bills(ps) <==> exists p: Pass :: p in ps && p.billed && Stamp(p.ticket.id, p.ticket.tenant) == st
  {
    if ps != [] {
      BillOf(ps[..|ps| - 1], st);
      assert ps == ps[..|ps| - 1] + [ps[|ps| - 1]];
    }
  }

  /** The older passes stay as they were. */
  lemma StillBefore(ps: seq<Pass>, p: Pass, earlier: seq<Entry>)
    requires forall k :: 0 <= k < |ps| && !ps[k].billed ==> BilledBefore(ps[..k], earlier, ps[k].ticket.id)
    requires !p.billed ==> BilledBefore(ps, earlier, p.ticket.id)
    ensures var all := ps + [p];
            forall k :: 0 <= k < |all| && !all[k].billed ==> BilledBefore(all[..k], earlier, all[k].ticket.id)
  {
    var all := ps + [p];
    forall k | 0 <= k < |all| && !all[k].billed ensures BilledBefore(all[..k], earlier, all[k].ticket.id) {
      assert all[..k] == ps[..k] && (k == |ps| ==> all[..k] == ps);
    }
  }

  lemma BilledNow(ps: seq<Pass>, earlier: seq<Entry>, accepted: seq<Entry>, t: Log.Ticket, e: Entry)
    requires Ledgered(ps, earlier, accepted) && e.id == t.id && e.tenant == t.tenant
    ensures Ledgered(ps + [Pass(t, true)], earlier, accepted + [e])
  {
    StampsAppend(accepted, e);
    BillsAppend(ps, Pass(t, true));
    StillBefore(ps, Pass(t, true), earlier);
  }

  /** An accepted id is that of an earlier entry or of a billed response. */
  lemma AcceptedWasBilled(ps: seq<Pass>, earlier: seq<Entry>, accepted: seq<Entry>, i: nat)
    requires Ledgered(ps, earlier, accepted) && i < |accepted|
    ensures BilledBefore(ps, earlier, accepted[i].id)
  {
    var st := Stamp(accepted[i].id, accepted[i].tenant);
    StampOf(accepted, i);
    assert st in Stamps(earlier) + Bills(ps);
    if st in Stamps(earlier) {
      StampFrom(earlier, st);
    } else {
      BillOf(ps, st);
    }
  }

  lemma {:induction false} StampFrom(es: seq<Entry>, st: Stamp)
    ensures st in Stamps(es) <==> exists e: Entry :: e in es && Stamp(e.id, e.tenant) == st
  {
    if es != [] {
      StampFrom(es[..|es| - 1], st);
      assert es == es[..|es| - 1] + [es[|es| - 1]];
    }
  }

  lemma RepeatsOld(ps: seq<Pass>, earlier: seq<Entry>, accepted: seq<Entry>, t: Log.Ticket, items: seq<string>)
    requires Ledgered(ps, earlier, accepted) && AllAccepted(items, accepted) && t.id in items
    ensures Ledgered(ps + [Pass(t, false)], earlier, accepted)
  {
    var i :| 0 <= i < |accepted| && accepted[i].id == t.id;
    AcceptedWasBilled(ps, earlier, accepted, i);
    BillsAppend(ps, Pass(t, false));
    StillBefore(ps, Pass(t, false), earlier);
  }

  lemma PassedNow(ps: seq<Pass>, earlier: seq<Entry>, accepted: seq<Entry>, after: seq<Entry>, p: Pass, e: Entry, items: seq<string>)
    requires Ledgered(ps, earlier, accepted) && AllAccepted(items, accepted) && AllBalanced(accepted)
    requires e.id == p.ticket.id && e.tenant == p.ticket.tenant && e.usage.Balanced() && (p.billed <==> e.id !in items)
    requires after == if p.billed then accepted + [e] else accepted
    ensures Ledgered(ps + [p], earlier, after) && AllBalanced(after)
  {
    if p.billed {
      BilledNow(ps, earlier, accepted, p.ticket, e);
    } else {
      RepeatsOld(ps, earlier, accepted, p.ticket, items);
    }
  }

  /** The stamps depend only on which entries there are, as a bag. */
  lemma {:induction false} StampsOfBag(a: seq<Entry>, b: seq<Entry>)
    requires multiset(a) == multiset(b)
    ensures multiset(Stamps(a)) == multiset(Stamps(b))
  {
    if a == [] {
      EmptyBag(a, b);
    } else {
      var i := SameBagWithout(a, b);
      StampsOfBag(a[1..], b[..i] + b[i + 1..]);
      StampsAround([], a[0], a[1..]);
      assert a == [] + ([a[0]] + a[1..]) && [] + a[1..] == a[1..];
      StampsAround(b[..i], a[0], b[i + 1..]);
    }
  }

  lemma {:induction false} StampsConcat(a: seq<Entry>, b: seq<Entry>)
    ensures Stamps(a + b) == Stamps(a) + Stamps(b)
  {
    if b == [] {
      assert a + b == a;
    } else {
      StampsConcat(a, b[..|b| - 1]);
      assert (a + b)[..|a + b| - 1] == a + b[..|b| - 1];
    }
  }

  lemma StampsAround(front: seq<Entry>, e: Entry, back: seq<Entry>)
    ensures multiset(Stamps(front + ([e] + back))) == multiset(Stamps(front + back)) + multiset{Stamp(e.id, e.tenant)}
  {
    StampsConcat(front, [e] + back);
    StampsConcat([e], back);
    StampsConcat(front, back);
    StampsAppend([], e);
    assert [] + [e] == [e];
  }

  lemma {:induction false} HasEntry(ps: seq<Pass>, earlier: seq<Entry>, accepted: seq<Entry>, id: string)
    requires Ledgered(ps, earlier, accepted) && BilledBefore(ps, earlier, id)
    ensures exists e: Entry :: e in accepted && e.id == id
  {
    var st: Stamp;
    if e: Entry :| e in earlier && e.id == id {
      st := Stamp(e.id, e.tenant);
      StampFrom(earlier, st);
    } else {
      var p: Pass :| p in ps && p.billed && p.ticket.id == id;
      st := Stamp(p.ticket.id, p.ticket.tenant);
      BillOf(ps, st);
    }
    assert st in Stamps(accepted);
    StampFrom(accepted, st);
  }
}
