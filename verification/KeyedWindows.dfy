/** Windows stored by member when request ids may come back. */
module KeyedWindows {
  import opened QuotaLog

  lemma {:induction false} WindowEmpty(h: seq<Admission>, out: set<Ticket>, scope: Scope, cutoff: int)
    requires forall a :: a in h ==> a.at <= cutoff
    ensures Window(h, out, scope, cutoff) == []
  {
    if h != [] {
      assert h[|h| - 1] in h && forall x :: x in h[..|h| - 1] ==> x in h;
      WindowEmpty(h[..|h| - 1], out, scope, cutoff);
    }
  }

  lemma {:induction false} IndexAllOld(kind: Kind, w: seq<Admission>, cutoff: int)
    requires forall a :: a in w ==> a.at <= cutoff
    ensures Live(Index(kind, w), cutoff) == map[]
  {
    if w != [] {
      assert w[|w| - 1] in w && forall x :: x in w[..|w| - 1] ==> x in w;
      IndexAllOld(kind, w[..|w| - 1], cutoff);
    }
  }

  lemma NothingLater(kind: Kind, h: seq<Admission>, out: set<Ticket>, scope: Scope, c1: int, c2: int)
    requires forall a :: a in h ==> a.at <= c2
    ensures Live(Index(kind, Window(h, out, scope, c1)), c2) == map[] && Window(h, out, scope, c2) == []
  {
    WindowEmpty(h, out, scope, c2);
    forall a | a in Window(h, out, scope, c1) ensures a.at <= c2 {
      WindowMember(h, out, scope, c1, a);
    }
    IndexAllOld(kind, Window(h, out, scope, c1), c2);
  }

  /** Purging a stored window by a later cutoff gives the stored later window, on any ordered history. */
  lemma {:induction false} OrderedIndexLive(kind: Kind, h: seq<Admission>, out: set<Ticket>, scope: Scope, c1: int, c2: int, clock: int)
    requires Ordered(h, clock) && c1 <= c2
    ensures Live(Index(kind, Window(h, out, scope, c1)), c2) == Index(kind, Window(h, out, scope, c2))
  {
    if h != [] {
      var p, a := h[..|h| - 1], h[|h| - 1];
      if a.at <= c2 {
        NothingLater(kind, h, out, scope, c1, c2);
      } else {
        OrderedIndexLive(kind, p, out, scope, c1, c2, clock);
        if Kept(a, out, scope, c1) {
          IndexAppend(kind, Window(p, out, scope, c1), a);
          IndexAppend(kind, Window(p, out, scope, c2), a);
          LiveInsert(Index(kind, Window(p, out, scope, c1)), Name(kind, a), a.at, c2);
        }
      }
    }
  }

  lemma {:induction false} IndexHas(kind: Kind, w: seq<Admission>, i: nat)
    requires i < |w|
    ensures Name(kind, w[i]) in Index(kind, w)
  {
    if i < |w| - 1 {
      IndexHas(kind, w[..|w| - 1], i);
    }
  }

  // ---------------------------------------------------------------- counting distinct ids

  function RequestIds(w: seq<Admission>): set<string> {
    set i | 0 <= i < |w| :: w[i].ticket.id
  }

  predicate NoRepeats(w: seq<Admission>) {
    forall i, j :: 0 <= i < j < |w| ==> w[i].ticket.id != w[j].ticket.id
  }

  lemma RequestIdsAppend(w: seq<Admission>, a: Admission)
    ensures RequestIds(w + [a]) == RequestIds(w) + {a.ticket.id}
  {
    forall id | id in RequestIds(w) + {a.ticket.id} ensures id in RequestIds(w + [a]) {
      if id in RequestIds(w) {
        var i :| 0 <= i < |w| && w[i].ticket.id == id;
        assert (w + [a])[i].ticket.id == id;
      } else {
        assert (w + [a])[|w|].ticket.id == id;
      }
    }
  }

  lemma {:induction false} IndexKeysAreIds(kind: Kind, w: seq<Admission>)
    requires !kind.InputTokens?
    ensures Index(kind, w).Keys == RequestIds(w)
  {
    if w != [] {
      var p, a := w[..|w| - 1], w[|w| - 1];
      IndexKeysAreIds(kind, p);
      assert w == p + [a];
      RequestIdsAppend(p, a);
      IndexAppend(kind, p, a);
    }
  }

  lemma RepeatsAppend(w: seq<Admission>, a: Admission)
    ensures NoRepeats(w + [a]) <==> NoRepeats(w) && a.ticket.id !in RequestIds(w)
  {
    var all := w + [a];
    assert all[|w|] == a && forall i :: 0 <= i < |w| ==> all[i] == w[i];
  }

  lemma {:induction false} DistinctSize(w: seq<Admission>)
    ensures |RequestIds(w)| <= |w| && (|RequestIds(w)| == |w| <==> NoRepeats(w))
  {
    if w != [] {
      var p, a := w[..|w| - 1], w[|w| - 1];
      DistinctSize(p);
      assert w == p + [a];
      RequestIdsAppend(p, a);
      RepeatsAppend(p, a);
    }
  }

  /** A keyed window has one member per distinct id, so as many as admissions exactly if no id repeats. */
  lemma IndexCountsIds(kind: Kind, w: seq<Admission>)
    requires !kind.InputTokens?
    ensures |Index(kind, w)| == |RequestIds(w)| <= |w|
    ensures |RequestIds(w)| == |w| <==> NoRepeats(w)
  {
    IndexKeysAreIds(kind, w);
    DistinctSize(w);
    assert |Index(kind, w)| == |Index(kind, w).Keys|;
  }

  lemma UserIdsAreTenantIds(h: seq<Admission>, t: Ticket, cutoff: int)
    ensures RequestIds(Window(h, {}, User(t.tenant, t.user), cutoff)) <= RequestIds(Window(h, {}, Tenant(t.tenant), cutoff))
  {
    var wu, wt := Window(h, {}, User(t.tenant, t.user), cutoff), Window(h, {}, Tenant(t.tenant), cutoff);
    forall id | id in RequestIds(wu) ensures id in RequestIds(wt) {
      var i :| 0 <= i < |wu| && wu[i].ticket.id == id;
      WindowMember(h, {}, User(t.tenant, t.user), cutoff, wu[i]);
      WindowMember(h, {}, Tenant(t.tenant), cutoff, wu[i]);
      var j :| 0 <= j < |wt| && wt[j] == wu[i];
    }
  }
}
