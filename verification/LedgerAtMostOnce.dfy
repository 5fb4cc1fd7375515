/** With the claim table, no request id is ever written twice: over all interleavings and failures. */
module LedgerAtMostOnce {
  import opened Options
  import opened LedgerBatch
  import opened LedgerProtocol

  /** What a thread has claimed and not yet put. */
  function Pending(f: Flusher): seq<Entry> {
    if f.phase.Claiming? then f.phase.claimed else []
  }

  /** No line is written twice, every written id has a row, and a complete row names an object that holds it. */
  ghost predicate StoreOk(table: map<string, Row>, chunks: seq<Chunk>) {
    (forall id :: Occurrences(chunks, id) <= 1) &&
    (forall id :: Occurrences(chunks, id) > 0 ==> id in table) &&
    (forall id :: id in table && table[id].Complete? ==> Holds(chunks, table[id].key, id))
  }

  /** What a thread has claimed is in the table, unwritten and without repetition. */
  ghost predicate PendingOk(table: map<string, Row>, chunks: seq<Chunk>, f: Flusher) {
    (forall id :: id in Ids(Pending(f)) ==> id in table && Occurrences(chunks, id) == 0) &&
    (forall id :: CountIn(Pending(f), id) <= 1)
  }

  /** What a thread is about to mark is in the object it will name. */
  ghost predicate MarkingOk(table: map<string, Row>, chunks: seq<Chunk>, f: Flusher) {
    f.phase.Marking? ==> forall id :: id in Ids(f.phase.unmarked) ==> id in table && Holds(chunks, f.phase.key, id)
  }

  ghost predicate Apart(f: Flusher, g: Flusher) {
    Ids(Pending(f)) !! Ids(Pending(g))
  }

  ghost predicate Safe(s: State) {
    StoreOk(s.table, s.chunks) &&
    (forall t: Thread :: PendingOk(s.table, s.chunks, s.At(t)) && MarkingOk(s.table, s.chunks, s.At(t))) &&
    (forall t1: Thread, t2: Thread :: t1 != t2 ==> Apart(s.At(t1), s.At(t2)))
  }

  /** A step that only moves one thread on, leaving its claims as they were or giving them up. */
  lemma MoveOneThread(s: State, s': State, t: Thread, f: Flusher)
    requires Safe(s) && s'.table == s.table && s'.chunks == s.chunks && s'.flushers == s.flushers[t := f]
    requires Pending(f) == Pending(s.At(t)) || Pending(f) == []
    requires MarkingOk(s.table, s.chunks, f)
    ensures Safe(s')
  {
    forall u: Thread ensures PendingOk(s'.table, s'.chunks, s'.At(u)) && MarkingOk(s'.table, s'.chunks, s'.At(u)) {
      assert PendingOk(s.table, s.chunks, s.At(u)) && MarkingOk(s.table, s.chunks, s.At(u));
    }
    forall u1: Thread, u2: Thread | u1 != u2 ensures Apart(s'.At(u1), s'.At(u2)) {
      assert Apart(s.At(u1), s.At(u2));
    }
  }

  /** Winning a claim: the id had no row, so nobody holds it and no object contains it. */
  lemma ClaimWon(s: State, s': State, t: Thread, e: Entry, f: Flusher)
    requires Safe(s) && e.id !in s.table && s'.table == s.table[e.id := Writing] && s'.chunks == s.chunks
    requires s'.flushers == s.flushers[t := f] && f.phase.Claiming? && s.At(t).phase.Claiming?
    requires Pending(f) == Pending(s.At(t)) + [e]
    ensures Safe(s')
  {
    var claimed := Pending(s.At(t));
    IdsAppend(claimed, e);
    assert Occurrences(s.chunks, e.id) == 0;
    forall u: Thread ensures PendingOk(s'.table, s'.chunks, s'.At(u)) && MarkingOk(s'.table, s'.chunks, s'.At(u)) {
      assert PendingOk(s.table, s.chunks, s.At(u)) && MarkingOk(s.table, s.chunks, s.At(u));
      if u == t {
        forall id ensures CountIn(Pending(f), id) <= 1 {
          CountAppend(claimed, e, id);
          CountIsMembership(claimed, id);
        }
      }
    }
    forall u1: Thread, u2: Thread | u1 != u2 ensures Apart(s'.At(u1), s'.At(u2)) {
      assert Apart(s.At(u1), s.At(u2));
      assert PendingOk(s.table, s.chunks, s.At(u1)) && PendingOk(s.table, s.chunks, s.At(u2));
    }
  }

  /** Putting an object writes exactly the thread's claims, none of which was written before. */
  lemma ObjectPut(s: State, s': State, t: Thread, key: string, f: Flusher)
    requires Safe(s) && s.At(t).phase.Claiming? && s'.table == s.table
    requires s'.chunks == s.chunks + [Chunk(key, Pending(s.At(t)))] && s'.flushers == s.flushers[t := f]
    requires Pending(f) == [] && (f.phase.Marking? ==> f.phase.key == key && f.phase.unmarked == Pending(s.At(t)))
    ensures Safe(s')
  {
    var claimed := Pending(s.At(t));
    var c := Chunk(key, claimed);
    assert PendingOk(s.table, s.chunks, s.At(t));
    forall id
      ensures Occurrences(s'.chunks, id) <= 1 && (Occurrences(s'.chunks, id) > 0 ==> id in s'.table)
      ensures id !in Ids(claimed) ==> Occurrences(s'.chunks, id) == Occurrences(s.chunks, id)
    {
      OccurrencesAppend(s.chunks, c, id);
      CountIsMembership(claimed, id);
    }
    forall k, id ensures Holds(s.chunks, k, id) ==> Holds(s'.chunks, k, id) {
      HoldsAppend(s.chunks, c, k, id);
    }
    forall id | id in Ids(claimed) ensures Holds(s'.chunks, key, id) {
      HoldsAppend(s.chunks, c, key, id);
    }
    forall u: Thread ensures PendingOk(s'.table, s'.chunks, s'.At(u)) && MarkingOk(s'.table, s'.chunks, s'.At(u)) {
      assert PendingOk(s.table, s.chunks, s.At(u)) && MarkingOk(s.table, s.chunks, s.At(u));
      if u != t { assert Apart(s.At(u), s.At(t)); }
    }
    forall u1: Thread, u2: Thread | u1 != u2 ensures Apart(s'.At(u1), s'.At(u2)) {
      assert Apart(s.At(u1), s.At(u2));
    }
  }

  lemma RowMarked(s: State, s': State, t: Thread, f: Flusher)
    requires Safe(s) && s.At(t).phase.Marking? && s.At(t).phase.unmarked != []
    requires s'.table == s.table[s.At(t).phase.unmarked[0].id := Complete(s.At(t).phase.key)] && s'.chunks == s.chunks
    requires s'.flushers == s.flushers[t := f] && Pending(f) == [] && MarkingOk(s.table, s.chunks, f)
    ensures Safe(s')
  {
    var g := s.At(t);
    assert MarkingOk(s.table, s.chunks, g) && g.phase.unmarked[0].id in Ids(g.phase.unmarked);
    forall u: Thread ensures PendingOk(s'.table, s'.chunks, s'.At(u)) && MarkingOk(s'.table, s'.chunks, s'.At(u)) {
      assert PendingOk(s.table, s.chunks, s.At(u)) && MarkingOk(s.table, s.chunks, s.At(u));
    }
    forall u1: Thread, u2: Thread | u1 != u2 ensures Apart(s'.At(u1), s'.At(u2)) {
      assert Apart(s.At(u1), s.At(u2));
    }
  }

  lemma IdsTail(es: seq<Entry>)
    requires es != []
    ensures Ids(es[1..]) <= Ids(es)
  {
    forall id | id in Ids(es[1..]) ensures id in Ids(es) {
      var i :| 0 <= i < |es[1..]| && es[1..][i].id == id;
      assert es[i + 1].id == id;
    }
  }

  lemma ClaimKeepsSafe(cfg: Config, s: State, t: Thread, o: ClaimOutcome)
    requires cfg.sink.GuardedBucket? && Safe(s)
    ensures Safe(ClaimStep(cfg, s, t, o))
  {
    var f, s' := s.At(t), ClaimStep(cfg, s, t, o);
    if f.phase.Claiming? && f.phase.todo != [] {
      var e, g := f.phase.todo[0], s'.At(t);
      if s'.table == s.table {
        MoveOneThread(s, s', t, g);
      } else if o.Answered? {
        ClaimWon(s, s', t, e, g);
      } else {
        ClaimLost(s, s', t, e, g);
      }
    }
  }

  /** The row was made, but the caller never learns that it was its own. */
  lemma ClaimLost(s: State, s': State, t: Thread, e: Entry, f: Flusher)
    requires Safe(s) && e.id !in s.table && s'.table == s.table[e.id := Writing] && s'.chunks == s.chunks
    requires s'.flushers == s.flushers[t := f] && !f.phase.Marking?
    requires Pending(f) == Pending(s.At(t)) || Pending(f) == []
    ensures Safe(s')
  {
    forall u: Thread ensures PendingOk(s'.table, s'.chunks, s'.At(u)) && MarkingOk(s'.table, s'.chunks, s'.At(u)) {
      assert PendingOk(s.table, s.chunks, s.At(u)) && MarkingOk(s.table, s.chunks, s.At(u));
    }
    forall u1: Thread, u2: Thread | u1 != u2 ensures Apart(s'.At(u1), s'.At(u2)) {
      assert Apart(s.At(u1), s.At(u2));
    }
  }

  lemma PutKeepsSafe(cfg: Config, s: State, t: Thread, key: string, o: Outcome)
    requires Safe(s)
    ensures Safe(PutStep(cfg, s, t, key, o))
  {
    var f, s' := s.At(t), PutStep(cfg, s, t, key, o);
    if f.phase.Claiming? && f.phase.todo == [] {
      if s'.chunks == s.chunks {
        MoveOneThread(s, s', t, s'.At(t));
      } else {
        ObjectPut(s, s', t, key, s'.At(t));
      }
    }
  }

  lemma MarkKeepsSafe(cfg: Config, s: State, t: Thread, o: Outcome)
    requires cfg.sink.GuardedBucket? && Safe(s)
    ensures Safe(MarkStep(cfg, s, t, o))
  {
    var f, s' := s.At(t), MarkStep(cfg, s, t, o);
    if f.phase.Marking? {
      if f.phase.unmarked == [] {
        MoveOneThread(s, s', t, s'.At(t));
      } else {
        IdsTail(f.phase.unmarked);
        assert MarkingOk(s.table, s.chunks, f);
        if o.FailedBefore? { MoveOneThread(s, s', t, s'.At(t)); } else { RowMarked(s, s', t, s'.At(t)); }
      }
    }
  }

  lemma CrashKeepsSafe(s: State, p: nat)
    requires Safe(s)
    ensures Safe(CrashStep(s, p))
  {
    var s' := CrashStep(s, p);
    forall t: Thread ensures s'.At(t) == IDLE || s'.At(t) == s.At(t) {
    }
    forall u: Thread ensures PendingOk(s'.table, s'.chunks, s'.At(u)) && MarkingOk(s'.table, s'.chunks, s'.At(u)) {
      assert PendingOk(s.table, s.chunks, s.At(u)) && MarkingOk(s.table, s.chunks, s.At(u));
    }
    forall u1: Thread, u2: Thread | u1 != u2 ensures Apart(s'.At(u1), s'.At(u2)) {
      assert Apart(s.At(u1), s.At(u2));
    }
  }

  lemma TakeKeepsSafe(cfg: Config, s: State, t: Thread)
    requires Safe(s)
    ensures Safe(TakeStep(cfg, s, t))
  {
    var s' := TakeStep(cfg, s, t);
    if s' != s { MoveOneThread(s, s', t, s'.At(t)); }
  }

  lemma BeginKeepsSafe(cfg: Config, s: State, t: Thread)
    requires Safe(s)
    ensures Safe(BeginStep(cfg, s, t))
  {
    var s' := BeginStep(cfg, s, t);
    if s' != s { MoveOneThread(s, s', t, s'.At(t)); }
  }

  lemma RequeueKeepsSafe(cfg: Config, s: State, t: Thread)
    requires Safe(s)
    ensures Safe(RequeueStep(cfg, s, t))
  {
    var s' := RequeueStep(cfg, s, t);
    if s' != s { MoveOneThread(s, s', t, s'.At(t)); }
  }

  lemma {:induction false} StepKeepsSafe(cfg: Config, s: State, a: Action)
    requires cfg.sink.GuardedBucket? && Safe(s)
    ensures Safe(Step(cfg, s, a))
  {
    var s' := Step(cfg, s, a);
    match a {
      case Accept(p, e) => SameThreads(s, s');
      case Take(t) => TakeKeepsSafe(cfg, s, t);
      case WriteFile(t, o) =>
      case Begin(t) => BeginKeepsSafe(cfg, s, t);
      case Claim(t, o) => ClaimKeepsSafe(cfg, s, t, o);
      case Put(t, key, o) => PutKeepsSafe(cfg, s, t, key, o);
      case Mark(t, o) => MarkKeepsSafe(cfg, s, t, o);
      case Requeue(t) => RequeueKeepsSafe(cfg, s, t);
      case Crash(p) => CrashKeepsSafe(s, p);
    }
  }

  lemma SameThreads(s: State, s': State)
    requires Safe(s) && s'.flushers == s.flushers && s'.table == s.table && s'.chunks == s.chunks
    ensures Safe(s')
  {
    forall t: Thread ensures s'.At(t) == s.At(t) {
    }
    forall t: Thread ensures PendingOk(s'.table, s'.chunks, s'.At(t)) && MarkingOk(s'.table, s'.chunks, s'.At(t)) {
      assert PendingOk(s.table, s.chunks, s.At(t)) && MarkingOk(s.table, s.chunks, s.At(t));
    }
    forall t1: Thread, t2: Thread | t1 != t2 ensures Apart(s'.At(t1), s'.At(t2)) {
      assert Apart(s.At(t1), s.At(t2));
    }
  }

  lemma {:induction false} RunIsSafe(cfg: Config, acts: seq<Action>)
    requires cfg.sink.GuardedBucket?
    ensures Safe(Run(cfg, acts))
  {
    if acts != [] {
      RunIsSafe(cfg, acts[..|acts| - 1]);
      StepKeepsSafe(cfg, Run(cfg, acts[..|acts| - 1]), acts[|acts| - 1]);
    }
  }

  /**
    At-most-once billing: with the claim table, over every interleaving of any number of processes and
    threads and with any failures and crashes, each request id occurs at most once across all objects
    ever written; every written id has a row; and a row marked complete names an object that holds it.
   */
  lemma {:induction false} AtMostOnce(cfg: Config, acts: seq<Action>, id: string)
    requires cfg.sink.GuardedBucket?
    ensures Occurrences(Run(cfg, acts).chunks, id) <= 1
    ensures Occurrences(Run(cfg, acts).chunks, id) == 1 ==> id in Run(cfg, acts).table
    ensures id in Run(cfg, acts).table && Run(cfg, acts).table[id].Complete? ==>
              Holds(Run(cfg, acts).chunks, Run(cfg, acts).table[id].key, id)
  {
    RunIsSafe(cfg, acts);
  }
}
