/** Where every accepted billing entry is, in every reachable state, and what can be lost. */
module LedgerLoss {
  import opened Options
  import opened LedgerBatch
  import opened LedgerProtocol
  import opened LedgerAtMostOnce

  ghost predicate Queued(s: State, id: string) {
    exists p :: id in Ids(s.Queue(p))
  }

  ghost predicate InFlight(s: State, id: string) {
    exists t: Thread :: id in Ids(Unsettled(s.At(t)))
  }

  /** What makes an id safe to forget: a claim row where there is a table, a written line where there is none. */
  predicate Settled(cfg: Config, s: State, id: string) {
    if cfg.sink.GuardedBucket? then id in s.table else Occurrences(s.chunks, id) > 0
  }

  ghost predicate Accounted(cfg: Config, s: State, id: string) {
    Queued(s, id) || InFlight(s, id) || id in s.dropped || id in s.crashed || Settled(cfg, s, id)
  }

  /** Whatever a thread still has to settle is in its batch, which is what a failure puts back. */
  predicate Covered(f: Flusher) {
    f.phase.Requeuing? || Ids(Unsettled(f)) <= Ids(f.batch)
  }

  ghost predicate Tracked(cfg: Config, s: State) {
    (forall id :: id in s.accepted ==> Accounted(cfg, s, id)) &&
    (forall t: Thread :: Covered(s.At(t))) &&
    (cfg.sink.GuardedBucket? ==> Safe(s))
  }

  lemma IdsConcat(a: seq<Entry>, b: seq<Entry>)
    ensures Ids(a + b) == Ids(a) + Ids(b)
  {
    forall id ensures id in Ids(a + b) <==> id in Ids(a) + Ids(b) {
      if id in Ids(a) {
        var i :| 0 <= i < |a| && a[i].id == id;
        assert (a + b)[i].id == id;
      }
      if id in Ids(b) {
        var i :| 0 <= i < |b| && b[i].id == id;
        assert (a + b)[|a| + i].id == id;
      }
      if id in Ids(a + b) {
        var i :| 0 <= i < |a + b| && (a + b)[i].id == id;
        if i < |a| { assert a[i].id == id; } else { assert b[i - |a|].id == id; }
      }
    }
  }

  lemma IdsHead(es: seq<Entry>)
    requires es != []
    ensures Ids(es) == {es[0].id} + Ids(es[1..])
  {
  }

  lemma IdsSameMembers(a: seq<Entry>, b: seq<Entry>)
    requires forall e :: e in a <==> e in b
    ensures Ids(a) == Ids(b)
  {
    forall id ensures id in Ids(a) <==> id in Ids(b) {
      if id in Ids(a) {
        var i :| 0 <= i < |a| && a[i].id == id;
        assert a[i] in b;
      }
      if id in Ids(b) {
        var i :| 0 <= i < |b| && b[i].id == id;
        assert b[i] in a;
      }
    }
  }

  lemma OnwardIds(f: Flusher, rest: seq<Group>)
    ensures Ids(Unsettled(Onward(f, rest))) == Ids(Flat(rest))
    ensures Onward(f, rest) == IDLE || Onward(f, rest).batch == f.batch
  {
    if rest != [] {
      assert rest[0] + [] + Flat(rest[1..]) == Flat(rest);
    }
  }

  /** The ids a thread has left to settle after a step are those it had, minus what the step settled. */
  lemma ThreadMoved(cfg: Config, s: State, s': State, t: Thread, f: Flusher)
    requires Tracked(cfg, s) && s'.flushers == s.flushers[t := f] && Covered(f) && s'.accepted == s.accepted
    requires cfg.sink.GuardedBucket? ==> Safe(s')
    requires s.dropped <= s'.dropped && s.crashed <= s'.crashed
    requires forall id :: Settled(cfg, s, id) ==> Settled(cfg, s', id)
    requires forall p, id :: id in Ids(s.Queue(p)) ==> id in Ids(s'.Queue(p)) || id in Ids(Unsettled(f))
    requires forall id :: id in Ids(Unsettled(s.At(t))) ==>
               id in Ids(Unsettled(f)) || Queued(s', id) || id in s'.dropped || Settled(cfg, s', id)
    ensures Tracked(cfg, s')
  {
    assert s'.At(t) == f;
    forall id | id in s'.accepted ensures Accounted(cfg, s', id) {
      assert Accounted(cfg, s, id);
      if Queued(s, id) {
        var p :| id in Ids(s.Queue(p));
        assert id in Ids(s'.Queue(p)) || id in Ids(Unsettled(s'.At(t)));
      } else if InFlight(s, id) {
        var u: Thread :| id in Ids(Unsettled(s.At(u)));
        if u == t {
          assert id in Ids(Unsettled(s'.At(t))) || Queued(s', id) || id in s'.dropped || Settled(cfg, s', id);
        } else {
          assert s'.At(u) == s.At(u);
        }
      }
    }
    forall u: Thread ensures Covered(s'.At(u)) {
      assert Covered(s.At(u));
    }
  }

  lemma AcceptKeepsTracked(cfg: Config, s: State, p: nat, e: Entry)
    requires Tracked(cfg, s)
    ensures Tracked(cfg, Step(cfg, s, Accept(p, e)))
  {
    var s' := Step(cfg, s, Accept(p, e));
    if cfg.sink.GuardedBucket? { StepKeepsSafe(cfg, s, Accept(p, e)); }
    if s' != s {
      IdsAppend(s.Queue(p), e);
      assert e.id in Ids(s'.Queue(p));
      forall id | id in s'.accepted ensures Accounted(cfg, s', id) {
        if id in s.accepted {
          assert Accounted(cfg, s, id);
          if Queued(s, id) {
            var q :| id in Ids(s.Queue(q));
            assert id in Ids(s'.Queue(q));
          } else if InFlight(s, id) {
            var u: Thread :| id in Ids(Unsettled(s.At(u)));
            assert s'.At(u) == s.At(u);
          }
        }
      }
      forall u: Thread ensures Covered(s'.At(u)) {
        assert Covered(s.At(u));
      }
    }
  }

  lemma TakeKeepsTracked(cfg: Config, s: State, t: Thread)
    requires Tracked(cfg, s)
    ensures Tracked(cfg, TakeStep(cfg, s, t))
  {
    var s', f, q := TakeStep(cfg, s, t), s.At(t), s.Queue(t.process);
    if cfg.sink.GuardedBucket? { StepKeepsSafe(cfg, s, Take(t)); }
    if s' != s {
      IdsAppend(f.batch, q[0]);
      IdsHead(q);
      ThreadMoved(cfg, s, s', t, s'.At(t));
    }
  }

  lemma WriteFileKeepsTracked(cfg: Config, s: State, t: Thread, o: Outcome)
    requires Tracked(cfg, s)
    ensures Tracked(cfg, WriteFileStep(cfg, s, t, o))
  {
    var s', f := WriteFileStep(cfg, s, t, o), s.At(t);
    if cfg.sink.LocalFile? && f.phase.Collecting? && f.batch != [] {
      ChunkSettles(cfg, s, s', Chunk("", f.batch));
      ThreadMoved(cfg, s, s', t, s'.At(t));
    }
  }

  lemma ChunkSettles(cfg: Config, s: State, s': State, c: Chunk)
    requires s'.table == s.table && (s'.chunks == s.chunks || s'.chunks == s.chunks + [c])
    ensures forall id :: Settled(cfg, s, id) ==> Settled(cfg, s', id)
    ensures s'.chunks == s.chunks + [c] && !cfg.sink.GuardedBucket? ==> forall id :: id in Ids(c.entries) ==> Settled(cfg, s', id)
  {
    forall id ensures Occurrences(s.chunks + [c], id) == Occurrences(s.chunks, id) + CountIn(c.entries, id) &&
                      (id in Ids(c.entries) ==> CountIn(c.entries, id) > 0)
    {
      OccurrencesAppend(s.chunks, c, id);
      CountIsMembership(c.entries, id);
    }
  }

  lemma BeginKeepsTracked(cfg: Config, s: State, t: Thread)
    requires Tracked(cfg, s)
    ensures Tracked(cfg, BeginStep(cfg, s, t))
  {
    var s', f := BeginStep(cfg, s, t), s.At(t);
    if cfg.sink.GuardedBucket? { StepKeepsSafe(cfg, s, Begin(t)); }
    if !cfg.sink.LocalFile? && f.phase.Collecting? && f.batch != [] {
      OnwardIds(f, Partition(f.batch));
      forall e ensures e in Flat(Partition(f.batch)) <==> e in f.batch {
        PartitionMembers(f.batch, e);
      }
      IdsSameMembers(Flat(Partition(f.batch)), f.batch);
      ThreadMoved(cfg, s, s', t, s'.At(t));
    }
  }

  lemma UnsettledClaiming(todo: seq<Entry>, claimed: seq<Entry>, rest: seq<Group>)
    requires todo != []
    ensures Ids(todo + claimed + Flat(rest)) == {todo[0].id} + Ids(todo[1..] + claimed + Flat(rest))
    ensures Ids(todo[1..] + (claimed + [todo[0]]) + Flat(rest)) == Ids(todo + claimed + Flat(rest))
  {
    IdsHead(todo);
    IdsConcat(todo, claimed);
    IdsConcat(todo + claimed, Flat(rest));
    IdsConcat(todo[1..], claimed);
    IdsConcat(todo[1..] + claimed, Flat(rest));
    IdsAppend(claimed, todo[0]);
    IdsConcat(todo[1..], claimed + [todo[0]]);
    IdsConcat(todo[1..] + (claimed + [todo[0]]), Flat(rest));
  }

  lemma {:induction false} ClaimKeepsTracked(cfg: Config, s: State, t: Thread, o: ClaimOutcome)
    requires Tracked(cfg, s)
    ensures Tracked(cfg, ClaimStep(cfg, s, t, o))
  {
    var s', f := ClaimStep(cfg, s, t, o), s.At(t);
    if cfg.sink.GuardedBucket? { ClaimKeepsSafe(cfg, s, t, o); }
    if f.phase.Claiming? && f.phase.todo != [] {
      UnsettledClaiming(f.phase.todo, f.phase.claimed, f.phase.rest);
      assert Covered(f);
      ThreadMoved(cfg, s, s', t, s'.At(t));
    }
  }

  lemma ClaimedIds(f: Flusher)
    requires f.phase.Claiming? && f.phase.todo == []
    ensures Ids(Unsettled(f)) == Ids(f.phase.claimed) + Ids(Flat(f.phase.rest))
  {
    IdsConcat(f.phase.claimed, Flat(f.phase.rest));
    assert [] + f.phase.claimed + Flat(f.phase.rest) == f.phase.claimed + Flat(f.phase.rest);
  }

  lemma PutKeepsTracked(cfg: Config, s: State, t: Thread, key: string, o: Outcome)
    requires Tracked(cfg, s)
    ensures Tracked(cfg, PutStep(cfg, s, t, key, o))
  {
    var s', f := PutStep(cfg, s, t, key, o), s.At(t);
    if cfg.sink.GuardedBucket? { PutKeepsSafe(cfg, s, t, key, o); }
    if f.phase.Claiming? && f.phase.todo == [] {
      assert Covered(f);
      ClaimedIds(f);
      if f.phase.claimed == [] {
        OnwardIds(f, f.phase.rest);
        ThreadMoved(cfg, s, s', t, s'.At(t));
      } else if o.FailedBefore? {
        ThreadMoved(cfg, s, s', t, s'.At(t));
      } else {
        ObjectTracked(cfg, s, s', t, key, s'.At(t));
      }
    }
  }

  lemma ObjectTracked(cfg: Config, s: State, s': State, t: Thread, key: string, f: Flusher)
    requires Tracked(cfg, s) && s.At(t).phase.Claiming? && s.At(t).phase.todo == []
    requires s' == s.(chunks := s.chunks + [Chunk(key, s.At(t).phase.claimed)], flushers := s.flushers[t := f])
    requires f == Fail(s.At(t)) || f == s.At(t).(phase := Marking(key, s.At(t).phase.claimed, s.At(t).phase.rest))
    requires cfg.sink.GuardedBucket? ==> Safe(s')
    ensures Tracked(cfg, s')
  {
    var claimed := s.At(t).phase.claimed;
    assert Covered(s.At(t));
    ClaimedIds(s.At(t));
    ChunkSettles(cfg, s, s', Chunk(key, claimed));
    if cfg.sink.GuardedBucket? {
      assert PendingOk(s.table, s.chunks, s.At(t));
    }
    ThreadMoved(cfg, s, s', t, f);
  }

  lemma MarkKeepsTracked(cfg: Config, s: State, t: Thread, o: Outcome)
    requires Tracked(cfg, s)
    ensures Tracked(cfg, MarkStep(cfg, s, t, o))
  {
    var f := s.At(t);
    if cfg.sink.GuardedBucket? { MarkKeepsSafe(cfg, s, t, o); }
    if f.phase.Marking? {
      assert Covered(f);
      MarkedThread(cfg, s, t, o);
      MarkedMoved(cfg, s, MarkStep(cfg, s, t, o), t, MarkStep(cfg, s, t, o).At(t));
    }
  }

  /** What marking leaves of a thread and of the table. */
  lemma {:induction false} MarkedThread(cfg: Config, s: State, t: Thread, o: Outcome)
    requires s.At(t).phase.Marking? && Covered(s.At(t))
    ensures var s' := MarkStep(cfg, s, t, o);
            s' == s.(table := s'.table, flushers := s.flushers[t := s'.At(t)]) && s.table.Keys <= s'.table.Keys &&
            Covered(s'.At(t)) && Ids(Unsettled(s.At(t))) <= Ids(Unsettled(s'.At(t)))
  {
    OnwardIds(s.At(t), s.At(t).phase.rest);
  }

  /** A move that may complete rows and takes nothing out of the thread's hands. */
  lemma MarkedMoved(cfg: Config, s: State, s': State, t: Thread, f: Flusher)
    requires Tracked(cfg, s) && s'.flushers == s.flushers[t := f] && Covered(f) && s'.queues == s.queues
    requires s'.accepted == s.accepted && s'.dropped == s.dropped && s'.crashed == s.crashed && s'.chunks == s.chunks
    requires s.table.Keys <= s'.table.Keys && (cfg.sink.GuardedBucket? ==> Safe(s'))
    requires Ids(Unsettled(s.At(t))) <= Ids(Unsettled(f))
    ensures Tracked(cfg, s')
  {
    ThreadMoved(cfg, s, s', t, f);
  }

  /** The next entry of a failed batch is back in the queue. */
  lemma EntryPutBack(cfg: Config, s: State, s': State, t: Thread)
    requires Tracked(cfg, s) && s.At(t).phase.Requeuing? && s.At(t).phase.left != []
    requires var f := s.At(t);
             s' == s.(queues := s.queues[t.process := s.Queue(t.process) + [f.phase.left[0]]],
                      flushers := s.flushers[t := f.(phase := Requeuing(f.phase.left[1..]))])
    requires cfg.sink.GuardedBucket? ==> Safe(s')
    ensures Tracked(cfg, s')
  {
    var left := s.At(t).phase.left;
    IdsHead(left);
    IdsAppend(s.Queue(t.process), left[0]);
    assert left[0].id in Ids(s'.Queue(t.process));
    ThreadMoved(cfg, s, s', t, s'.At(t));
  }

  lemma RequeueKeepsTracked(cfg: Config, s: State, t: Thread)
    requires Tracked(cfg, s)
    ensures Tracked(cfg, RequeueStep(cfg, s, t))
  {
    var s', f := RequeueStep(cfg, s, t), s.At(t);
    if cfg.sink.GuardedBucket? { StepKeepsSafe(cfg, s, Requeue(t)); }
    if f.phase.Requeuing? {
      if f.phase.left != [] && |s.Queue(t.process)| < cfg.queueMax {
        EntryPutBack(cfg, s, s', t);
      } else {
        ThreadMoved(cfg, s, s', t, IDLE);
      }
    }
  }

  lemma CrashKeepsTracked(cfg: Config, s: State, p: nat)
    requires Tracked(cfg, s)
    ensures Tracked(cfg, CrashStep(s, p))
  {
    var s' := CrashStep(s, p);
    if cfg.sink.GuardedBucket? { CrashKeepsSafe(s, p); }
    forall id | id in s'.accepted ensures Accounted(cfg, s', id) {
      assert Accounted(cfg, s, id);
      if Queued(s, id) {
        var q :| id in Ids(s.Queue(q));
        if q != p { assert id in Ids(s'.Queue(q)); }
      } else if InFlight(s, id) {
        var u: Thread :| id in Ids(Unsettled(s.At(u)));
        if u.process != p {
          assert s'.At(u) == s.At(u);
        } else {
          assert u in s.flushers;
          var i :| 0 <= i < |Unsettled(s.flushers[u])| && Unsettled(s.flushers[u])[i].id == id;
        }
      }
    }
    forall u: Thread ensures Covered(s'.At(u)) {
      assert Covered(s.At(u));
    }
  }

  lemma StepKeepsTracked(cfg: Config, s: State, a: Action)
    requires Tracked(cfg, s)
    ensures Tracked(cfg, Step(cfg, s, a))
  {
    match a {
      case Accept(p, e) => AcceptKeepsTracked(cfg, s, p, e);
      case Take(t) => TakeKeepsTracked(cfg, s, t);
      case WriteFile(t, o) => WriteFileKeepsTracked(cfg, s, t, o);
      case Begin(t) => BeginKeepsTracked(cfg, s, t);
      case Claim(t, o) => ClaimKeepsTracked(cfg, s, t, o);
      case Put(t, key, o) => PutKeepsTracked(cfg, s, t, key, o);
      case Mark(t, o) => MarkKeepsTracked(cfg, s, t, o);
      case Requeue(t) => RequeueKeepsTracked(cfg, s, t);
      case Crash(p) => CrashKeepsTracked(cfg, s, p);
    }
  }

  lemma {:induction false} RunIsTracked(cfg: Config, acts: seq<Action>)
    ensures Tracked(cfg, Run(cfg, acts))
  {
    if acts == [] {
      if cfg.sink.GuardedBucket? { RunIsSafe(cfg, acts); }
    } else {
      RunIsTracked(cfg, acts[..|acts| - 1]);
      StepKeepsTracked(cfg, Run(cfg, acts[..|acts| - 1]), acts[|acts| - 1]);
    }
  }

  /**
    Loss accounting: in every reachable state the id of every accepted entry is queued, in flight,
    dropped on a full requeue, lost in a crash, or settled: claimed if there is a table, written if not.
   */
  lemma {:induction false} LossAccounting(cfg: Config, acts: seq<Action>, id: string)
    requires id in Run(cfg, acts).accepted
    ensures Accounted(cfg, Run(cfg, acts), id)
  {
    RunIsTracked(cfg, acts);
  }

  /** At-least-once without a table: nothing dropped, nothing crashed and nothing left means everything was written. */
  lemma {:induction false} AtLeastOnce(cfg: Config, acts: seq<Action>, id: string)
    requires !cfg.sink.GuardedBucket? && id in Run(cfg, acts).accepted
    requires id !in Run(cfg, acts).dropped && id !in Run(cfg, acts).crashed
    requires !Queued(Run(cfg, acts), id) && !InFlight(Run(cfg, acts), id)
    ensures Occurrences(Run(cfg, acts).chunks, id) >= 1
  {
    LossAccounting(cfg, acts, id);
  }

  /** With the table, an accepted entry that has left memory is in exactly one object or its row is stuck at "writing". */
  lemma {:induction false} OnlyStuckRows(cfg: Config, acts: seq<Action>, id: string)
    requires cfg.sink.GuardedBucket? && id in Run(cfg, acts).accepted
    requires id !in Run(cfg, acts).dropped && id !in Run(cfg, acts).crashed
    requires !Queued(Run(cfg, acts), id) && !InFlight(Run(cfg, acts), id)
    ensures id in Run(cfg, acts).table
    ensures Occurrences(Run(cfg, acts).chunks, id) == 1 || Run(cfg, acts).table[id] == Writing
  {
    LossAccounting(cfg, acts, id);
    AtMostOnce(cfg, acts, id);
    var s := Run(cfg, acts);
    if s.table[id].Complete? {
      HeldMeansWritten(s.chunks, s.table[id].key, id);
    }
  }

  lemma {:induction false} HeldMeansWritten(chunks: seq<Chunk>, key: string, id: string)
    requires Holds(chunks, key, id)
    ensures Occurrences(chunks, id) >= 1
  {
    var i :| 0 <= i < |chunks| && chunks[i].key == key && id in Ids(chunks[i].entries);
    var p := chunks[..|chunks| - 1];
    CountIsMembership(chunks[|chunks| - 1].entries, id);
    if i < |p| {
      assert p[i] == chunks[i];
      HeldMeansWritten(p, key, id);
    }
  }

  // ---------------------------------------------------------------- a first claim

  lemma RunAppend(cfg: Config, acts: seq<Action>, a: Action)
    ensures Run(cfg, acts + [a]) == Step(cfg, Run(cfg, acts), a)
  {
    assert (acts + [a])[..|acts|] == acts;
  }

  /** One entry is accepted, taken and claimed. */
  function UpToClaim(e: Entry, t: Thread): seq<Action> {
    [] + [Accept(t.process, e)] + [Take(t)] + [Begin(t)] + [Claim(t, Answered)]
  }

  lemma SingleGroup(e: Entry)
    ensures Partition([e]) == [[e]] && Partition([e])[1..] == [] && Partition([e])[0] == [e]
  {
    assert [e][..0] == [];
  }

  lemma Claimed(cfg: Config, e: Entry, t: Thread)
    requires !cfg.sink.LocalFile?
    ensures var s := Run(cfg, UpToClaim(e, t));
            s.At(t) == Flusher([e], Claiming([], [e], [])) && e.id in s.accepted && s.chunks == []
  {
    var a1 := [] + [Accept(t.process, e)];
    var a2 := a1 + [Take(t)];
    RunAppend(cfg, [], Accept(t.process, e));
    RunAppend(cfg, a1, Take(t));
    RunAppend(cfg, a2, Begin(t));
    RunAppend(cfg, a2 + [Begin(t)], Claim(t, Answered));
    SingleGroup(e);
    assert [] + [e] == [e] && [e][1..] == [];
    assert Run(cfg, a1).Queue(t.process) == [e];
    assert Run(cfg, a2).At(t) == Flusher([e], Collecting);
    assert Run(cfg, a2 + [Begin(t)]).At(t) == Flusher([e], Claiming([e], [], []));
  }
}
