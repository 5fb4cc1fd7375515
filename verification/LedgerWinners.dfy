/** With the claim table: of all entries that carry one id, which one is written. */
module LedgerWinners {
  import opened Options
  import opened LedgerBatch
  import opened LedgerProtocol
  import opened LedgerAtMostOnce
  import opened LedgerLoss
  import opened LedgerStranded

  /** The step answers a claim of the id, which had no row. */
  predicate Wins(s: State, a: Action, id: string) {
    a.Claim? && a.claim.Answered? && id !in s.table &&
    s.At(a.thread).phase.Claiming? && s.At(a.thread).phase.todo != [] && s.At(a.thread).phase.todo[0].id == id
  }

  /** The entry whose claim of the id was answered first. */
  function Winner(cfg: Config, acts: seq<Action>, id: string): Option<Entry> {
    if acts == [] then None
    else
      var p, a := acts[..|acts| - 1], acts[|acts| - 1];
      if Wins(Run(cfg, p), a, id) then Some(Run(cfg, p).At(a.thread).phase.todo[0]) else Winner(cfg, p, id)
  }

  ghost predicate OnlyEntry(es: seq<Entry>, id: string, w: Option<Entry>) {
    forall i :: 0 <= i < |es| && es[i].id == id ==> w == Some(es[i])
  }

  /** Whoever holds a claim of the id holds it for this entry, and every line with the id is this entry. */
  ghost predicate WonBy(s: State, id: string, w: Option<Entry>) {
    (forall t: Thread :: OnlyEntry(Pending(s.At(t)), id, w)) &&
    (forall k :: 0 <= k < |s.chunks| ==> OnlyEntry(s.chunks[k].entries, id, w)) &&
    (w.Some? ==> id in s.table)
  }

  /** A step that makes no claim: a thread keeps its claims or gives them up, or puts them in an object. */
  lemma NoClaim(s: State, s': State, t: Thread, key: string, id: string, w: Option<Entry>)
    requires WonBy(s, id, w) && s.table.Keys <= s'.table.Keys
    requires s'.chunks == s.chunks || s'.chunks == s.chunks + [Chunk(key, Pending(s.At(t)))]
    requires forall u: Thread :: Pending(s'.At(u)) == Pending(s.At(u)) || Pending(s'.At(u)) == []
    ensures WonBy(s', id, w)
  {
    forall u: Thread ensures OnlyEntry(Pending(s'.At(u)), id, w) {
      assert OnlyEntry(Pending(s.At(u)), id, w);
    }
    assert OnlyEntry(Pending(s.At(t)), id, w);
    forall k | 0 <= k < |s'.chunks| ensures OnlyEntry(s'.chunks[k].entries, id, w) {
      assert k < |s.chunks| ==> s'.chunks[k] == s.chunks[k];
    }
  }

  /** A step of one thread that changes nothing for the others. */
  lemma OneThread(s: State, s': State, t: Thread)
    requires s'.flushers == s.flushers || s'.flushers == s.flushers[t := s'.At(t)]
    requires Pending(s'.At(t)) == Pending(s.At(t)) || Pending(s'.At(t)) == []
    ensures forall u: Thread :: Pending(s'.At(u)) == Pending(s.At(u)) || Pending(s'.At(u)) == []
  {
    forall u: Thread ensures Pending(s'.At(u)) == Pending(s.At(u)) || Pending(s'.At(u)) == [] {
      assert u != t ==> s'.At(u) == s.At(u);
    }
  }

  lemma ClaimKeepsWinner(cfg: Config, s: State, t: Thread, o: ClaimOutcome, id: string, w: Option<Entry>)
    requires cfg.sink.GuardedBucket? && WonBy(s, id, w)
    ensures WonBy(ClaimStep(cfg, s, t, o), id, if Wins(s, Claim(t, o), id) then Some(s.At(t).phase.todo[0]) else w)
  {
    var f, s' := s.At(t), ClaimStep(cfg, s, t, o);
    if f.phase.Claiming? && f.phase.todo != [] && o.Answered? && f.phase.todo[0].id !in s.table {
      ClaimAdds(s, s', t, f.phase.todo[0], id, w);
    } else {
      OneThread(s, s', t);
      NoClaim(s, s', t, "", id, w);
    }
  }

  /** The answered claim of an id without a row: nobody else holds that id, so its entry is the winner. */
  lemma ClaimAdds(s: State, s': State, t: Thread, e: Entry, id: string, w: Option<Entry>)
    requires WonBy(s, id, w) && e.id !in s.table && s'.table == s.table[e.id := Writing] && s'.chunks == s.chunks
    requires Pending(s'.At(t)) == Pending(s.At(t)) + [e] && forall u: Thread :: u != t ==> s'.At(u) == s.At(u)
    ensures WonBy(s', id, if e.id == id then Some(e) else w)
  {
    var w' := if e.id == id then Some(e) else w;
    forall u: Thread ensures OnlyEntry(Pending(s'.At(u)), id, w') {
      assert OnlyEntry(Pending(s.At(u)), id, w);
    }
    forall k | 0 <= k < |s'.chunks| ensures OnlyEntry(s'.chunks[k].entries, id, w') {
      assert OnlyEntry(s.chunks[k].entries, id, w);
    }
  }

  lemma PutKeepsWinner(cfg: Config, s: State, t: Thread, key: string, o: Outcome, id: string, w: Option<Entry>)
    requires WonBy(s, id, w)
    ensures WonBy(PutStep(cfg, s, t, key, o), id, w)
  {
    OneThread(s, PutStep(cfg, s, t, key, o), t);
    NoClaim(s, PutStep(cfg, s, t, key, o), t, key, id, w);
  }

  lemma CrashKeepsWinner(s: State, p: nat, id: string, w: Option<Entry>)
    requires WonBy(s, id, w)
    ensures WonBy(CrashStep(s, p), id, w)
  {
    var s' := CrashStep(s, p);
    forall u: Thread ensures s'.At(u) == s.At(u) || s'.At(u) == IDLE {
    }
    NoClaim(s, s', Thread(p, 0), "", id, w);
  }

  lemma QueueStepKeepsWinner(cfg: Config, s: State, t: Thread, id: string, w: Option<Entry>)
    requires WonBy(s, id, w)
    ensures WonBy(TakeStep(cfg, s, t), id, w) && WonBy(RequeueStep(cfg, s, t), id, w)
  {
    OneThread(s, TakeStep(cfg, s, t), t);
    NoClaim(s, TakeStep(cfg, s, t), t, "", id, w);
    OneThread(s, RequeueStep(cfg, s, t), t);
    NoClaim(s, RequeueStep(cfg, s, t), t, "", id, w);
  }

  lemma PhaseStepKeepsWinner(cfg: Config, s: State, t: Thread, o: Outcome, id: string, w: Option<Entry>)
    requires cfg.sink.GuardedBucket? && WonBy(s, id, w)
    ensures WonBy(BeginStep(cfg, s, t), id, w) && WonBy(MarkStep(cfg, s, t, o), id, w)
  {
    OneThread(s, BeginStep(cfg, s, t), t);
    NoClaim(s, BeginStep(cfg, s, t), t, "", id, w);
    OneThread(s, MarkStep(cfg, s, t, o), t);
    NoClaim(s, MarkStep(cfg, s, t, o), t, "", id, w);
  }

  lemma StepKeepsWinner(cfg: Config, s: State, a: Action, id: string, w: Option<Entry>)
    requires cfg.sink.GuardedBucket? && WonBy(s, id, w)
    ensures WonBy(Step(cfg, s, a), id, if Wins(s, a, id) then Some(s.At(a.thread).phase.todo[0]) else w)
  {
    match a {
      case Accept(p, e) => NoClaim(s, Step(cfg, s, a), Thread(p, 0), "", id, w);
      case Claim(t, o) => ClaimKeepsWinner(cfg, s, t, o, id, w);
      case Put(t, key, o) => PutKeepsWinner(cfg, s, t, key, o, id, w);
      case Crash(p) => CrashKeepsWinner(s, p, id, w);
      case Take(t) => QueueStepKeepsWinner(cfg, s, t, id, w);
      case Requeue(t) => QueueStepKeepsWinner(cfg, s, t, id, w);
      case Begin(t) => PhaseStepKeepsWinner(cfg, s, t, Replied, id, w);
      case Mark(t, o) => PhaseStepKeepsWinner(cfg, s, t, o, id, w);
      case WriteFile(_, _) =>
    }
  }

  lemma {:induction false} RunKeepsWinner(cfg: Config, acts: seq<Action>, id: string)
    requires cfg.sink.GuardedBucket?
    ensures WonBy(Run(cfg, acts), id, Winner(cfg, acts, id))
  {
    if acts != [] {
      var p, a := acts[..|acts| - 1], acts[|acts| - 1];
      RunKeepsWinner(cfg, p, id);
      StepKeepsWinner(cfg, Run(cfg, p), a, id, Winner(cfg, p, id));
    }
  }

  // ---------------------------------------------------------------- what is written

  /** Some object holds this very entry. */
  ghost predicate Written(chunks: seq<Chunk>, e: Entry) {
    exists k :: 0 <= k < |chunks| && e in chunks[k].entries
  }

  lemma {:induction false} SomeLine(chunks: seq<Chunk>, id: string) returns (e: Entry)
    requires Occurrences(chunks, id) > 0
    ensures e.id == id && Written(chunks, e)
  {
    var n := |chunks| - 1;
    if CountIn(chunks[n].entries, id) > 0 {
      CountIsMembership(chunks[n].entries, id);
      var i :| 0 <= i < |chunks[n].entries| && chunks[n].entries[i].id == id;
      e := chunks[n].entries[i];
    } else {
      e := SomeLine(chunks[..n], id);
      var k :| 0 <= k < n && e in chunks[..n][k].entries;
      assert e in chunks[k].entries;
    }
  }

  lemma {:induction false} WrittenCounts(chunks: seq<Chunk>, e: Entry)
    requires Written(chunks, e)
    ensures Occurrences(chunks, e.id) > 0
  {
    var n := |chunks| - 1;
    var k :| 0 <= k < |chunks| && e in chunks[k].entries;
    if k == n {
      var i :| 0 <= i < |chunks[n].entries| && chunks[n].entries[i] == e;
      assert e.id in Ids(chunks[n].entries);
      CountIsMembership(chunks[n].entries, e.id);
    } else {
      assert e in chunks[..n][k].entries;
      WrittenCounts(chunks[..n], e);
    }
  }

  /**
    With the table, over every interleaving, failure and crash: no line but the winner's is ever written for an id; and
    once the id is in no thread's hands, an entry is in some object if and only if it is the winner and its id was
    never stranded. Another entry with that id, of whatever gateway or tenant, is written nowhere.
   */
  lemma {:induction false} EntryWrittenExactly(cfg: Config, acts: seq<Action>, e: Entry)
    requires cfg.sink.GuardedBucket?
    ensures Written(Run(cfg, acts).chunks, e) ==> Winner(cfg, acts, e.id) == Some(e)
    ensures !InFlight(Run(cfg, acts), e.id) ==>
              (Written(Run(cfg, acts).chunks, e) <==> Winner(cfg, acts, e.id) == Some(e) && !EverStranded(cfg, acts, e.id))
  {
    var s, w := Run(cfg, acts), Winner(cfg, acts, e.id);
    RunKeepsWinner(cfg, acts, e.id);
    if Written(s.chunks, e) {
      LineIsWinner(s, e, w);
      WrittenCounts(s.chunks, e);
    }
    if !InFlight(s, e.id) {
      WrittenExactlyUnlessStranded(cfg, acts, e.id);
      if w == Some(e) && !EverStranded(cfg, acts, e.id) {
        var line := SomeLine(s.chunks, e.id);
        LineIsWinner(s, line, w);
      }
    }
  }

  lemma LineIsWinner(s: State, e: Entry, w: Option<Entry>)
    requires WonBy(s, e.id, w) && Written(s.chunks, e)
    ensures w == Some(e)
  {
    var k :| 0 <= k < |s.chunks| && e in s.chunks[k].entries;
    assert OnlyEntry(s.chunks[k].entries, e.id, w);
  }
}
