/** With the claim table: exactly when an id that has been claimed is never written. */
module LedgerStranded {
  import opened Options
  import opened LedgerBatch
  import opened LedgerProtocol
  import opened LedgerAtMostOnce
  import opened LedgerLoss

  ghost predicate PendingSomewhere(s: State, id: string) {
    exists t: Thread :: id in Ids(Pending(s.At(t)))
  }

  /** The id has a row, no line, and nobody who still means to write it. */
  ghost predicate Stranded(s: State, id: string) {
    id in s.table && Occurrences(s.chunks, id) == 0 && !PendingSomewhere(s, id)
  }

  /** The steps that strand an id, read off the state and the outcome of the step. */
  ghost predicate Strands(cfg: Config, s: State, a: Action, id: string) {
    match a
    case Claim(t, o) =>
      var f := s.At(t);
      f.phase.Claiming? && f.phase.todo != [] &&
      // The row is made, but whoever made it does not learn so; or the attempt at another row fails the batch.
      ((f.phase.todo[0].id == id && id !in s.table && (o.ClaimFailedAfter? || o.AnsweredToRetry?)) ||
       (id in Ids(f.phase.claimed) && (o.ClaimFailedBefore? || o.ClaimFailedAfter?)))
    case Put(t, _, o) =>
      var f := s.At(t);
      f.phase.Claiming? && f.phase.todo == [] && id in Ids(f.phase.claimed) && o.FailedBefore?
    case Crash(p) => exists t: Thread :: t.process == p && id in Ids(Pending(s.At(t)))
    case _ => false
  }

  ghost predicate EverStranded(cfg: Config, acts: seq<Action>, id: string) {
    acts != [] &&
    (EverStranded(cfg, acts[..|acts| - 1], id) || Strands(cfg, Run(cfg, acts[..|acts| - 1]), acts[|acts| - 1], id))
  }

  /** The step of one thread in terms of what it had pending. */
  lemma OneThreadPending(s: State, s': State, t: Thread, id: string)
    requires forall u: Thread :: u != t ==> s'.At(u) == s.At(u)
    ensures PendingSomewhere(s', id) <==>
            id in Ids(Pending(s'.At(t))) || exists u: Thread :: u != t && id in Ids(Pending(s.At(u)))
  {
    if PendingSomewhere(s', id) {
      var u: Thread :| id in Ids(Pending(s'.At(u)));
      assert u != t ==> s'.At(u) == s.At(u);
    }
    if u: Thread :| u != t && id in Ids(Pending(s.At(u))) {
      assert s'.At(u) == s.At(u);
    }
  }

  /** A step that leaves table, lines and the thread's claims alone strands and rescues nothing. */
  lemma QuietStep(s: State, s': State, t: Thread, id: string)
    requires s'.table.Keys == s.table.Keys && s'.chunks == s.chunks && Pending(s'.At(t)) == Pending(s.At(t))
    requires forall u: Thread :: u != t ==> s'.At(u) == s.At(u)
    ensures Stranded(s', id) <==> Stranded(s, id)
  {
    forall u: Thread ensures Pending(s'.At(u)) == Pending(s.At(u)) {
      assert u != t ==> s'.At(u) == s.At(u);
    }
    PendingAlike(s, s', id);
  }

  lemma PendingAlike(s: State, s': State, id: string)
    requires forall u: Thread :: Pending(s'.At(u)) == Pending(s.At(u))
    ensures PendingSomewhere(s', id) <==> PendingSomewhere(s, id)
  {
    if u: Thread :| id in Ids(Pending(s'.At(u))) {
      assert id in Ids(Pending(s.At(u)));
    }
    if u: Thread :| id in Ids(Pending(s.At(u))) {
      assert id in Ids(Pending(s'.At(u)));
    }
  }

  /** A thread gives up its claims without writing them. */
  lemma ClaimsGivenUp(s: State, s': State, t: Thread, id: string)
    requires Safe(s) && s'.flushers == s.flushers[t := Fail(s.At(t))] && s'.chunks == s.chunks
    requires s.table.Keys <= s'.table.Keys && (id in s'.table <==> id in s.table)
    ensures Stranded(s', id) <==> Stranded(s, id) || id in Ids(Pending(s.At(t)))
  {
    OneThreadPending(s, s', t, id);
    OneThreadPending(s, s, t, id);
    assert PendingOk(s.table, s.chunks, s.At(t));
    forall u: Thread | u != t ensures id in Ids(Pending(s.At(u))) ==> id !in Ids(Pending(s.At(t))) {
      assert Apart(s.At(u), s.At(t));
    }
  }

  lemma RowlessIsUnwritten(s: State, id: string)
    requires Safe(s) && id !in s.table
    ensures Occurrences(s.chunks, id) == 0 && !PendingSomewhere(s, id)
  {
    forall u: Thread ensures id !in Ids(Pending(s.At(u))) {
      assert PendingOk(s.table, s.chunks, s.At(u));
    }
  }

  /** A fresh row whose maker does not know it is stranded at once. */
  lemma RowMadeUnknown(s: State, s': State, t: Thread, id: string)
    requires Safe(s) && id !in s.table && id in s'.table && s'.chunks == s.chunks
    requires forall u: Thread :: u != t ==> s'.At(u) == s.At(u)
    requires Pending(s'.At(t)) == [] || Pending(s'.At(t)) == Pending(s.At(t))
    ensures Stranded(s', id)
  {
    RowlessIsUnwritten(s, id);
    OneThreadPending(s, s', t, id);
  }

  lemma {:induction false} ClaimStrands(cfg: Config, s: State, t: Thread, o: ClaimOutcome, id: string)
    requires cfg.sink.GuardedBucket? && Safe(s)
    ensures Stranded(ClaimStep(cfg, s, t, o), id) <==> Stranded(s, id) || Strands(cfg, s, Claim(t, o), id)
  {
    var s', f := ClaimStep(cfg, s, t, o), s.At(t);
    if f.phase.Claiming? && f.phase.todo != [] {
      var e := f.phase.todo[0];
      assert PendingOk(s.table, s.chunks, f);
      if e.id == id && id !in s.table {
        RowlessIsUnwritten(s, id);
        if o.Answered? {
          IdsAppend(f.phase.claimed, e);
          assert id in Ids(Pending(s'.At(t)));
        } else if !o.ClaimFailedBefore? {
          RowMadeUnknown(s, s', t, id);
        }
      } else if o.ClaimFailedBefore? || o.ClaimFailedAfter? {
        ClaimsGivenUp(s, s', t, id);
      } else {
        IdsAppend(f.phase.claimed, e);
        OneThreadPending(s, s', t, id);
        OneThreadPending(s, s, t, id);
      }
    }
  }

  lemma PutStrands(cfg: Config, s: State, t: Thread, key: string, o: Outcome, id: string)
    requires Safe(s)
    ensures Stranded(PutStep(cfg, s, t, key, o), id) <==> Stranded(s, id) || Strands(cfg, s, Put(t, key, o), id)
  {
    var s', f := PutStep(cfg, s, t, key, o), s.At(t);
    if f.phase.Claiming? && f.phase.todo == [] {
      if f.phase.claimed == [] {
        QuietStep(s, s', t, id);
      } else if o.FailedBefore? {
        ClaimsGivenUp(s, s', t, id);
      } else {
        ClaimsWritten(s, s', t, key, id);
      }
    }
  }

  lemma ClaimsWritten(s: State, s': State, t: Thread, key: string, id: string)
    requires s'.table == s.table && s'.chunks == s.chunks + [Chunk(key, Pending(s.At(t)))] && Pending(s'.At(t)) == []
    requires forall u: Thread :: u != t ==> s'.At(u) == s.At(u)
    ensures Stranded(s', id) <==> Stranded(s, id)
  {
    OccurrencesAppend(s.chunks, Chunk(key, Pending(s.At(t))), id);
    CountIsMembership(Pending(s.At(t)), id);
    OneThreadPending(s, s', t, id);
    OneThreadPending(s, s, t, id);
  }

  lemma CrashStrands(cfg: Config, s: State, p: nat, id: string)
    requires Safe(s)
    ensures Stranded(CrashStep(s, p), id) <==> Stranded(s, id) || Strands(cfg, s, Crash(p), id)
  {
    var s' := CrashStep(s, p);
    if t: Thread :| t.process == p && id in Ids(Pending(s.At(t))) {
      assert PendingOk(s.table, s.chunks, s.At(t));
      forall u: Thread ensures id !in Ids(Pending(s'.At(u))) {
        if u.process != p { assert Apart(s.At(u), s.At(t)) && s'.At(u) == s.At(u); }
      }
    } else {
      forall u: Thread ensures id in Ids(Pending(s'.At(u))) <==> id in Ids(Pending(s.At(u))) {
        if u.process != p { assert s'.At(u) == s.At(u); }
      }
    }
  }

  lemma SameFlushers(s: State, s': State, id: string)
    requires s'.flushers == s.flushers && s'.table == s.table && s'.chunks == s.chunks
    ensures Stranded(s', id) <==> Stranded(s, id)
  {
    forall u: Thread ensures s'.At(u) == s.At(u) {
    }
    PendingAlike(s, s', id);
  }

  lemma MarkIsQuiet(cfg: Config, s: State, t: Thread, o: Outcome, id: string)
    requires cfg.sink.GuardedBucket? && Safe(s)
    ensures Stranded(MarkStep(cfg, s, t, o), id) <==> Stranded(s, id)
  {
    var s', f := MarkStep(cfg, s, t, o), s.At(t);
    if f.phase.Marking? {
      assert MarkingOk(s.table, s.chunks, f);
      if f.phase.unmarked != [] { IdsHead(f.phase.unmarked); }
      QuietStep(s, s', t, id);
    }
  }

  /** The steps that neither claim nor put. */
  lemma HandlingIsQuiet(cfg: Config, s: State, a: Action, id: string)
    requires cfg.sink.GuardedBucket? && (a.Take? || a.Begin? || a.Requeue? || a.WriteFile? || a.Accept?)
    ensures Stranded(Step(cfg, s, a), id) <==> Stranded(s, id)
  {
    if a.Accept? {
      SameFlushers(s, Step(cfg, s, a), id);
    } else {
      QuietStep(s, Step(cfg, s, a), a.thread, id);
    }
  }

  /** Step by step: an id is stranded after a step exactly if it was before, or the step strands it. */
  lemma StrandedExactly(cfg: Config, s: State, a: Action, id: string)
    requires cfg.sink.GuardedBucket? && Safe(s)
    ensures Stranded(Step(cfg, s, a), id) <==> Stranded(s, id) || Strands(cfg, s, a, id)
  {
    match a {
      case Claim(t, o) => ClaimStrands(cfg, s, t, o, id);
      case Put(t, key, o) => PutStrands(cfg, s, t, key, o, id);
      case Mark(t, o) => MarkIsQuiet(cfg, s, t, o, id);
      case Crash(p) => CrashStrands(cfg, s, p, id);
      case _ => HandlingIsQuiet(cfg, s, a, id);
    }
  }

  /** Once stranded an id stays so, and no run strands it by anything else. */
  lemma {:induction false} StrandedOverRuns(cfg: Config, acts: seq<Action>, id: string)
    requires cfg.sink.GuardedBucket?
    ensures Stranded(Run(cfg, acts), id) <==> EverStranded(cfg, acts, id)
  {
    if acts != [] {
      var p := acts[..|acts| - 1];
      StrandedOverRuns(cfg, p, id);
      RunIsSafe(cfg, p);
      StrandedExactly(cfg, Run(cfg, p), acts[|acts| - 1], id);
    }
  }

  lemma PendingIsInFlight(s: State, id: string)
    ensures PendingSomewhere(s, id) ==> InFlight(s, id)
  {
    if t: Thread :| id in Ids(Pending(s.At(t))) {
      var Claiming(todo, claimed, rest) := s.At(t).phase;
      IdsConcat(todo, claimed);
      IdsConcat(todo + claimed, Flat(rest));
      assert id in Ids(Unsettled(s.At(t)));
    }
  }

  /**
    With the table, over every interleaving, failure and crash: an id that is in no thread's hands is in
    exactly one line if it was claimed and never stranded, and in none otherwise. So an accepted id that was
    neither dropped nor lost in a crash is, once it has left memory, written exactly if it was never stranded.
   */
  lemma {:induction false} WrittenExactlyUnlessStranded(cfg: Config, acts: seq<Action>, id: string)
    requires cfg.sink.GuardedBucket? && !InFlight(Run(cfg, acts), id)
    ensures Occurrences(Run(cfg, acts).chunks, id) ==
            if id in Run(cfg, acts).table && !EverStranded(cfg, acts, id) then 1 else 0
    ensures id in Run(cfg, acts).accepted && id !in Run(cfg, acts).dropped && id !in Run(cfg, acts).crashed &&
            !Queued(Run(cfg, acts), id) ==>
              (Occurrences(Run(cfg, acts).chunks, id) == 1 <==> !EverStranded(cfg, acts, id))
  {
    var s := Run(cfg, acts);
    AtMostOnce(cfg, acts, id);
    StrandedOverRuns(cfg, acts, id);
    PendingIsInFlight(s, id);
    if id in s.accepted && id !in s.dropped && id !in s.crashed && !Queued(s, id) {
      LossAccounting(cfg, acts, id);
    }
  }

  lemma {:induction false} StrandedForGood(cfg: Config, acts: seq<Action>, later: seq<Action>, id: string)
    requires EverStranded(cfg, acts, id)
    ensures EverStranded(cfg, acts + later, id)
  {
    if later == [] {
      assert acts + later == acts;
    } else {
      assert (acts + later)[..|acts + later| - 1] == acts + later[..|later| - 1];
      StrandedForGood(cfg, acts, later[..|later| - 1], id);
    }
  }

  /**
    So the ledger is not at-least-once: after a claim whose put fails the entry is never written, whatever
    happens afterwards, however often it is retried.
   */
  lemma {:induction false} ClaimedThenFailedIsLost(cfg: Config, e: Entry, t: Thread, key: string, later: seq<Action>)
    requires cfg.sink.GuardedBucket?
    ensures e.id in Run(cfg, UpToClaim(e, t)).accepted
    ensures Occurrences(Run(cfg, UpToClaim(e, t) + [Put(t, key, FailedBefore)] + later).chunks, e.id) == 0
  {
    var acts := UpToClaim(e, t);
    var failed := acts + [Put(t, key, FailedBefore)];
    Claimed(cfg, e, t);
    assert failed[..|failed| - 1] == acts && [e][0].id in Ids([e]);
    assert Strands(cfg, Run(cfg, acts), Put(t, key, FailedBefore), e.id);
    StrandedForGood(cfg, failed, later, e.id);
    StrandedOverRuns(cfg, failed + later, e.id);
  }
}
