/** Without the claim table the ledger is not at-most-once: two runs that end at rest with an entry written twice. */
module LedgerRewrites {
  import opened Options
  import opened LedgerBatch
  import opened LedgerProtocol
  import opened LedgerLoss
  import opened LedgerDuplicates

  // ---------------------------------------------------------------- one thread at work

  /** Every queue but the thread's and every other thread is empty, and nothing was dropped or lost. */
  ghost predicate OthersRest(s: State, t: Thread) {
    (forall p :: p != t.process ==> s.Queue(p) == []) && (forall u: Thread :: u != t ==> s.At(u) == IDLE) &&
    s.dropped == {} && s.crashed == {}
  }

  /** The thread stands at this point with this queue behind it, after these objects, and it alone is at work. */
  ghost predicate Stands(s: State, t: Thread, queue: seq<Entry>, f: Flusher, chunks: seq<Chunk>) {
    OthersRest(s, t) && s.Queue(t.process) == queue && s.At(t) == f && s.chunks == chunks
  }

  lemma NothingAround(s: State, t: Thread, chunks: seq<Chunk>, id: string)
    requires Stands(s, t, [], IDLE, chunks)
    ensures LeftMemory(s, id)
  {
    forall p ensures id !in Ids(s.Queue(p)) {
      assert s.Queue(p) == [];
    }
    forall u: Thread ensures id !in Ids(Unsettled(s.At(u))) {
      assert s.At(u) == IDLE;
    }
  }

  /** What changes one thread and the queue behind it leaves the others as they are. */
  lemma OthersUntouched(s: State, s': State, t: Thread)
    requires OthersRest(s, t) && s'.dropped == s.dropped && s'.crashed == s.crashed
    requires s'.queues == s.queues || s'.queues == s.queues[t.process := s'.Queue(t.process)]
    requires s'.flushers == s.flushers || s'.flushers == s.flushers[t := s'.At(t)]
    ensures OthersRest(s', t)
  {
    forall p | p != t.process ensures s'.Queue(p) == [] {
      assert s.Queue(p) == [];
    }
    forall u: Thread | u != t ensures s'.At(u) == IDLE {
      assert s.At(u) == IDLE;
    }
  }

  lemma Taken(cfg: Config, s: State, t: Thread, q: seq<Entry>, batch: seq<Entry>, cs: seq<Chunk>)
    requires Stands(s, t, q, Flusher(batch, Collecting), cs) && q != [] && |batch| < cfg.batchMax
    ensures Stands(Step(cfg, s, Take(t)), t, q[1..], Flusher(batch + [q[0]], Collecting), cs)
  {
    OthersUntouched(s, Step(cfg, s, Take(t)), t);
  }

  /** The next entry of a failed batch is put back. */
  lemma PutBack(cfg: Config, s: State, t: Thread, q: seq<Entry>, batch: seq<Entry>, left: seq<Entry>, cs: seq<Chunk>)
    requires Stands(s, t, q, Flusher(batch, Requeuing(left)), cs) && left != [] && |q| < cfg.queueMax
    ensures Stands(Step(cfg, s, Requeue(t)), t, q + [left[0]], Flusher(batch, Requeuing(left[1..])), cs)
  {
    OthersUntouched(s, Step(cfg, s, Requeue(t)), t);
  }

  /** The thread is through with its failed batch. */
  lemma PutBackLast(cfg: Config, s: State, t: Thread, q: seq<Entry>, batch: seq<Entry>, cs: seq<Chunk>)
    requires Stands(s, t, q, Flusher(batch, Requeuing([])), cs)
    ensures Stands(Step(cfg, s, Requeue(t)), t, q, IDLE, cs)
  {
    OthersUntouched(s, Step(cfg, s, Requeue(t)), t);
  }

  lemma Begun(cfg: Config, s: State, t: Thread, q: seq<Entry>, batch: seq<Entry>, cs: seq<Chunk>)
    requires cfg.sink.Bucket? && Stands(s, t, q, Flusher(batch, Collecting), cs) && batch != []
    ensures Stands(Step(cfg, s, Begin(t)), t, q, Onward(Flusher(batch, Collecting), Partition(batch)), cs)
  {
    OthersUntouched(s, Step(cfg, s, Begin(t)), t);
  }

  lemma GroupClaimed(cfg: Config, s: State, t: Thread, q: seq<Entry>, batch: seq<Entry>, e: Entry, rest: seq<Group>, cs: seq<Chunk>)
    requires cfg.sink.Bucket? && Stands(s, t, q, Flusher(batch, Claiming([e], [], rest)), cs)
    ensures Stands(Step(cfg, s, Claim(t, Answered)), t, q, Flusher(batch, Claiming([], [e], rest)), cs)
  {
    assert [e][1..] == [] && [] + [e] == [e];
    OthersUntouched(s, Step(cfg, s, Claim(t, Answered)), t);
  }

  /** A group of one claimed entry is put, and a failure puts its batch back. */
  lemma GroupPut(cfg: Config, s: State, t: Thread, key: string, o: Outcome, q: seq<Entry>, batch: seq<Entry>, e: Entry,
                 rest: seq<Group>, cs: seq<Chunk>)
    requires cfg.sink.Bucket? && Stands(s, t, q, Flusher(batch, Claiming([], [e], rest)), cs)
    ensures Stands(Step(cfg, s, Put(t, key, o)), t, q,
                   Flusher(batch, if o.Replied? then Marking(key, [e], rest) else Requeuing(batch)),
                   if o.FailedBefore? then cs else cs + [Chunk(key, [e])])
  {
    OthersUntouched(s, Step(cfg, s, Action.Put(t, key, o)), t);
  }

  /** The acknowledgement of a group of one entry, and on to the next group. */
  lemma GroupMarked(cfg: Config, s: State, t: Thread, key: string, q: seq<Entry>, batch: seq<Entry>, e: Entry, rest: seq<Group>,
                    cs: seq<Chunk>)
    requires cfg.sink.Bucket? && Stands(s, t, q, Flusher(batch, Marking(key, [e], rest)), cs)
    ensures var f := Flusher(batch, Marking(key, [], rest));
            Stands(Step(cfg, Step(cfg, s, Mark(t, Replied)), Mark(t, Replied)), t, q, Onward(f, rest), cs)
  {
    assert [e][1..] == [];
    OthersUntouched(s, Step(cfg, s, Mark(t, Replied)), t);
    OthersUntouched(Step(cfg, s, Mark(t, Replied)), Step(cfg, Step(cfg, s, Mark(t, Replied)), Mark(t, Replied)), t);
    assert Stands(Step(cfg, s, Mark(t, Replied)), t, q, Flusher(batch, Marking(key, [], rest)), cs);
  }

  lemma RunTwice(cfg: Config, acts: seq<Action>, a: Action, b: Action)
    ensures Run(cfg, acts + [a] + [b]) == Step(cfg, Step(cfg, Run(cfg, acts), a), b)
  {
    RunAppend(cfg, acts, a);
    RunAppend(cfg, acts + [a], b);
  }

  // ---------------------------------------------------------------- a put whose answer is lost

  /** The entry queued is taken, claimed and put. */
  function FlushOne(acts: seq<Action>, t: Thread, key: string, o: Outcome): seq<Action> {
    acts + [Take(t)] + [Begin(t)] + [Claim(t, Answered)] + [Put(t, key, o)]
  }

  lemma FlushedOne(cfg: Config, acts: seq<Action>, e: Entry, t: Thread, key: string, o: Outcome, cs: seq<Chunk>)
    requires cfg.sink.Bucket? && Stands(Run(cfg, acts), t, [e], IDLE, cs)
    ensures Run(cfg, acts + [Take(t)] + [Begin(t)] + [Claim(t, Answered)]).At(t) == Flusher([e], Claiming([], [e], []))
    ensures Stands(Run(cfg, FlushOne(acts, t, key, o)), t, [],
                   Flusher([e], if o.Replied? then Marking(key, [e], []) else Requeuing([e])),
                   if o.FailedBefore? then cs else cs + [Chunk(key, [e])])
  {
    RunTwice(cfg, acts, Take(t), Begin(t));
    RunTwice(cfg, acts + [Take(t)] + [Begin(t)], Claim(t, Answered), Action.Put(t, key, o));
    RunAppend(cfg, acts + [Take(t)] + [Begin(t)], Claim(t, Answered));
    var s := Run(cfg, acts);
    Taken(cfg, s, t, [e], [], cs);
    assert [e][1..] == [] && [] + [e] == [e];
    SingleGroup(e);
    Begun(cfg, Step(cfg, s, Take(t)), t, [], [e], cs);
    var s1 := Run(cfg, acts + [Take(t)] + [Begin(t)]);
    GroupClaimed(cfg, s1, t, [], [e], e, [], cs);
    GroupPut(cfg, Step(cfg, s1, Claim(t, Answered)), t, key, o, [], [e], e, [], cs);
  }

  /** The failed batch of one goes back into the queue. */
  lemma OnePutBack(cfg: Config, acts: seq<Action>, e: Entry, t: Thread, cs: seq<Chunk>)
    requires Stands(Run(cfg, acts), t, [], Flusher([e], Requeuing([e])), cs)
    ensures Stands(Run(cfg, acts + [Requeue(t)] + [Requeue(t)]), t, [e], IDLE, cs)
  {
    assert [e][1..] == [] && [] + [e] == [e];
    RunTwice(cfg, acts, Requeue(t), Requeue(t));
    PutBack(cfg, Run(cfg, acts), t, [], [e], [e], cs);
    PutBackLast(cfg, Step(cfg, Run(cfg, acts), Requeue(t)), t, [e], [e], cs);
  }

  /** The acknowledgement of the last group, after which the thread is idle. */
  lemma FlushEnds(cfg: Config, acts: seq<Action>, t: Thread, key: string, batch: seq<Entry>, e: Entry, cs: seq<Chunk>)
    requires cfg.sink.Bucket? && Stands(Run(cfg, acts), t, [], Flusher(batch, Marking(key, [e], [])), cs)
    ensures Stands(Run(cfg, acts + [Mark(t, Replied)] + [Mark(t, Replied)]), t, [], IDLE, cs)
  {
    RunTwice(cfg, acts, Mark(t, Replied), Mark(t, Replied));
    GroupMarked(cfg, Run(cfg, acts), t, key, [], batch, e, [], cs);
  }

  /** The put fails having taken effect; the entry is put back and flushed again, this time with an answer. */
  function AnswerLost(e: Entry, t: Thread): seq<Action> {
    FlushOne([] + [Accept(t.process, e)], t, "k1", FailedAfter)
  }

  function AnswerLostRetried(e: Entry, t: Thread): seq<Action> {
    FlushOne(AnswerLost(e, t) + [Requeue(t)] + [Requeue(t)], t, "k2", Replied) + [Mark(t, Replied)] + [Mark(t, Replied)]
  }

  lemma Accepted(cfg: Config, e: Entry, t: Thread)
    ensures Stands(Run(cfg, [] + [Accept(t.process, e)]), t, [e], IDLE, [])
  {
    RunAppend(cfg, [], Accept(t.process, e));
    assert [] + [e] == [e];
  }

  lemma LostAnswerPutBack(cfg: Config, e: Entry, t: Thread)
    requires cfg.sink.Bucket?
    ensures Stands(Run(cfg, AnswerLost(e, t) + [Requeue(t)] + [Requeue(t)]), t, [e], IDLE, [Chunk("k1", [e])])
  {
    Accepted(cfg, e, t);
    FlushedOne(cfg, [] + [Accept(t.process, e)], e, t, "k1", FailedAfter, []);
    assert [] + [Chunk("k1", [e])] == [Chunk("k1", [e])];
    OnePutBack(cfg, AnswerLost(e, t), e, t, [Chunk("k1", [e])]);
  }

  lemma OccurrencesOfGroups(chunks: seq<Chunk>, key: string, e: Entry, id: string)
    ensures Occurrences(chunks + [Chunk(key, [e])], id) == Occurrences(chunks, id) + (if e.id == id then 1 else 0)
  {
    OccurrencesAppend(chunks, Chunk(key, [e]), id);
    CountAppend([], e, id);
    assert [] + [e] == [e];
  }

  /** An answer lost once: the flush ends well, and the entry stands in two objects. */
  lemma {:induction false} LostAnswerWritesTwice(cfg: Config, e: Entry, t: Thread)
    requires cfg.sink.Bucket?
    ensures var s := Run(cfg, AnswerLostRetried(e, t));
            s.chunks == [Chunk("k1", [e])] + [Chunk("k2", [e])] && LeftMemory(s, e.id) && Occurrences(s.chunks, e.id) == 2
  {
    var back, c1 := AnswerLost(e, t) + [Requeue(t)] + [Requeue(t)], [Chunk("k1", [e])];
    LostAnswerPutBack(cfg, e, t);
    FlushedOne(cfg, back, e, t, "k2", Replied, c1);
    FlushEnds(cfg, FlushOne(back, t, "k2", Replied), t, "k2", [e], e, c1 + [Chunk("k2", [e])]);
    NothingAround(Run(cfg, AnswerLostRetried(e, t)), t, c1 + [Chunk("k2", [e])], e.id);
    OccurrencesOfGroups([], "k1", e, e.id);
    assert [] + c1 == c1;
    OccurrencesOfGroups(c1, "k2", e, e.id);
  }

  // ---------------------------------------------------------------- a later group that fails cleanly

  /** Two queued entries of different partitions are taken, and the first group is written. */
  function FlushFirst(acts: seq<Action>, t: Thread, key: string): seq<Action> {
    acts + [Take(t)] + [Take(t)] + [Begin(t)] + [Claim(t, Answered)] + [Put(t, key, Replied)] + [Mark(t, Replied)] + [Mark(t, Replied)]
  }

  lemma TwoGroups(e1: Entry, e2: Entry)
    requires e1.Partition() != e2.Partition()
    ensures Partition([e1, e2]) == [[e1], [e2]]
  {
    assert [e1, e2][..1] == [e1];
    SingleGroup(e1);
    assert AddTo([[e1]], e2) == [[e1]] + AddTo([[e1]][1..], e2);
  }

  /** Both entries taken and the first group begun. */
  lemma BothTaken(cfg: Config, s: State, e1: Entry, e2: Entry, t: Thread, cs: seq<Chunk>)
    requires cfg.sink.Bucket? && e1.Partition() != e2.Partition() && cfg.batchMax >= 2 && Stands(s, t, [e1, e2], IDLE, cs)
    ensures Stands(Step(cfg, Step(cfg, Step(cfg, s, Take(t)), Take(t)), Begin(t)), t, [],
                   Flusher([e1, e2], Claiming([e1], [], [[e2]])), cs)
  {
    assert [e1, e2][1..] == [e2] && [e2][1..] == [] && [] + [e1] == [e1] && [e1] + [e2] == [e1, e2] && [[e1], [e2]][1..] == [[e2]];
    Taken(cfg, s, t, [e1, e2], [], cs);
    var s1 := Step(cfg, s, Take(t));
    Taken(cfg, s1, t, [e2], [e1], cs);
    TwoGroups(e1, e2);
    Begun(cfg, Step(cfg, s1, Take(t)), t, [], [e1, e2], cs);
  }

  lemma FlushedFirst(cfg: Config, acts: seq<Action>, e1: Entry, e2: Entry, t: Thread, key: string, cs: seq<Chunk>)
    requires cfg.sink.Bucket? && e1.Partition() != e2.Partition() && cfg.batchMax >= 2 && Stands(Run(cfg, acts), t, [e1, e2], IDLE, cs)
    ensures Stands(Run(cfg, FlushFirst(acts, t, key)), t, [], Flusher([e1, e2], Claiming([e2], [], [])), cs + [Chunk(key, [e1])])
  {
    var a1 := acts + [Take(t)] + [Take(t)] + [Begin(t)];
    RunTwice(cfg, acts, Take(t), Take(t));
    RunAppend(cfg, acts + [Take(t)] + [Take(t)], Begin(t));
    BothTaken(cfg, Run(cfg, acts), e1, e2, t, cs);
    var a2 := a1 + [Claim(t, Answered)] + [Action.Put(t, key, Replied)];
    RunTwice(cfg, a1, Claim(t, Answered), Action.Put(t, key, Replied));
    GroupClaimed(cfg, Run(cfg, a1), t, [], [e1, e2], e1, [[e2]], cs);
    GroupPut(cfg, Step(cfg, Run(cfg, a1), Claim(t, Answered)), t, key, Replied, [], [e1, e2], e1, [[e2]], cs);
    RunTwice(cfg, a2, Mark(t, Replied), Mark(t, Replied));
    GroupMarked(cfg, Run(cfg, a2), t, key, [], [e1, e2], e1, [[e2]], cs + [Chunk(key, [e1])]);
    assert [[e2]][1..] == [];
  }

  /** The second group is claimed and put after the first was written. */
  lemma FlushedSecond(cfg: Config, acts: seq<Action>, e1: Entry, e2: Entry, t: Thread, key: string, o: Outcome, cs: seq<Chunk>)
    requires cfg.sink.Bucket? && Stands(Run(cfg, acts), t, [], Flusher([e1, e2], Claiming([e2], [], [])), cs)
    ensures Run(cfg, acts + [Claim(t, Answered)]).At(t) == Flusher([e1, e2], Claiming([], [e2], []))
    ensures Stands(Run(cfg, acts + [Claim(t, Answered)] + [Action.Put(t, key, o)]), t, [],
                   Flusher([e1, e2], if o.Replied? then Marking(key, [e2], []) else Requeuing([e1, e2])),
                   if o.FailedBefore? then cs else cs + [Chunk(key, [e2])])
  {
    RunTwice(cfg, acts, Claim(t, Answered), Action.Put(t, key, o));
    RunAppend(cfg, acts, Claim(t, Answered));
    GroupClaimed(cfg, Run(cfg, acts), t, [], [e1, e2], e2, [], cs);
    GroupPut(cfg, Step(cfg, Run(cfg, acts), Claim(t, Answered)), t, key, o, [], [e1, e2], e2, [], cs);
  }

  /** The whole batch of two goes back into the queue. */
  lemma BothPutBack(cfg: Config, acts: seq<Action>, e1: Entry, e2: Entry, t: Thread, cs: seq<Chunk>)
    requires Stands(Run(cfg, acts), t, [], Flusher([e1, e2], Requeuing([e1, e2])), cs) && cfg.queueMax >= 2
    ensures Stands(Run(cfg, acts + [Requeue(t)] + [Requeue(t)] + [Requeue(t)]), t, [e1, e2], IDLE, cs)
  {
    assert [e1, e2][1..] == [e2] && [e2][1..] == [] && [] + [e1] == [e1] && [e1] + [e2] == [e1, e2];
    RunTwice(cfg, acts, Requeue(t), Requeue(t));
    RunAppend(cfg, acts + [Requeue(t)] + [Requeue(t)], Requeue(t));
    var s := Run(cfg, acts);
    PutBack(cfg, s, t, [], [e1, e2], [e1, e2], cs);
    PutBack(cfg, Step(cfg, s, Requeue(t)), t, [e1], [e1, e2], [e2], cs);
    PutBackLast(cfg, Run(cfg, acts + [Requeue(t)] + [Requeue(t)]), t, [e1, e2], [e1, e2], cs);
  }

  function FirstGroupWritten(e1: Entry, e2: Entry, t: Thread): seq<Action> {
    FlushFirst([] + [Accept(t.process, e1)] + [Accept(t.process, e2)], t, "k1")
  }

  /** Nothing fails but the put of the second group, and cleanly; the batch is flushed again, with answers. */
  function SecondGroupFails(e1: Entry, e2: Entry, t: Thread): seq<Action> {
    FirstGroupWritten(e1, e2, t) + [Claim(t, Answered)] + [Put(t, "k2", FailedBefore)]
  }

  function SecondGroupRetried(e1: Entry, e2: Entry, t: Thread): seq<Action> {
    FlushFirst(SecondGroupFails(e1, e2, t) + [Requeue(t)] + [Requeue(t)] + [Requeue(t)], t, "k3") +
    [Claim(t, Answered)] + [Put(t, "k4", Replied)] + [Mark(t, Replied)] + [Mark(t, Replied)]
  }

  lemma BothAccepted(cfg: Config, e1: Entry, e2: Entry, t: Thread)
    requires cfg.queueMax >= 2
    ensures Stands(Run(cfg, [] + [Accept(t.process, e1)] + [Accept(t.process, e2)]), t, [e1, e2], IDLE, [])
  {
    Accepted(cfg, e1, t);
    RunAppend(cfg, [] + [Accept(t.process, e1)], Accept(t.process, e2));
    assert [e1] + [e2] == [e1, e2];
  }

  lemma SecondGroupFailed(cfg: Config, e1: Entry, e2: Entry, t: Thread)
    requires cfg.sink.Bucket? && e1.Partition() != e2.Partition() && cfg.batchMax >= 2 && cfg.queueMax >= 2
    ensures Run(cfg, FirstGroupWritten(e1, e2, t) + [Claim(t, Answered)]).At(t) == Flusher([e1, e2], Claiming([], [e2], []))
    ensures Stands(Run(cfg, SecondGroupFails(e1, e2, t)), t, [], Flusher([e1, e2], Requeuing([e1, e2])), [Chunk("k1", [e1])])
  {
    var a1 := [] + [Accept(t.process, e1)] + [Accept(t.process, e2)];
    BothAccepted(cfg, e1, e2, t);
    FlushedFirst(cfg, a1, e1, e2, t, "k1", []);
    assert [] + [Chunk("k1", [e1])] == [Chunk("k1", [e1])];
    FlushedSecond(cfg, FirstGroupWritten(e1, e2, t), e1, e2, t, "k2", FailedBefore, [Chunk("k1", [e1])]);
  }

  lemma SecondGroupPutBack(cfg: Config, e1: Entry, e2: Entry, t: Thread)
    requires cfg.sink.Bucket? && e1.Partition() != e2.Partition() && cfg.batchMax >= 2 && cfg.queueMax >= 2
    ensures Stands(Run(cfg, FlushFirst(SecondGroupFails(e1, e2, t) + [Requeue(t)] + [Requeue(t)] + [Requeue(t)], t, "k3")), t, [],
                   Flusher([e1, e2], Claiming([e2], [], [])), [Chunk("k1", [e1])] + [Chunk("k3", [e1])])
  {
    var failed, c1 := SecondGroupFails(e1, e2, t), [Chunk("k1", [e1])];
    SecondGroupFailed(cfg, e1, e2, t);
    BothPutBack(cfg, failed, e1, e2, t, c1);
    FlushedFirst(cfg, failed + [Requeue(t)] + [Requeue(t)] + [Requeue(t)], e1, e2, t, "k3", c1);
  }

  lemma CountsOfRetry(e1: Entry, e2: Entry)
    ensures Occurrences([Chunk("k1", [e1])] + [Chunk("k3", [e1])] + [Chunk("k4", [e2])], e1.id) == if e1.id == e2.id then 3 else 2
  {
    OccurrencesOfGroups([], "k1", e1, e1.id);
    assert [] + [Chunk("k1", [e1])] == [Chunk("k1", [e1])];
    OccurrencesOfGroups([Chunk("k1", [e1])], "k3", e1, e1.id);
    OccurrencesOfGroups([Chunk("k1", [e1])] + [Chunk("k3", [e1])], "k4", e2, e1.id);
  }

  /** A clean failure of a batch's second group: its retry ends well, and the first group stands in two objects. */
  lemma {:induction false} SecondGroupRetryWritesTwice(cfg: Config, e1: Entry, e2: Entry, t: Thread)
    requires cfg.sink.Bucket? && e1.Partition() != e2.Partition() && cfg.batchMax >= 2 && cfg.queueMax >= 2
    ensures var s := Run(cfg, SecondGroupRetried(e1, e2, t));
            s.chunks == [Chunk("k1", [e1])] + [Chunk("k3", [e1])] + [Chunk("k4", [e2])] && LeftMemory(s, e1.id) &&
            Occurrences(s.chunks, e1.id) == if e1.id == e2.id then 3 else 2
  {
    var first := FlushFirst(SecondGroupFails(e1, e2, t) + [Requeue(t)] + [Requeue(t)] + [Requeue(t)], t, "k3");
    var c1 := [Chunk("k1", [e1])];
    var c2 := c1 + [Chunk("k3", [e1])];
    SecondGroupPutBack(cfg, e1, e2, t);
    FlushedSecond(cfg, first, e1, e2, t, "k4", Replied, c2);
    FlushEnds(cfg, first + [Claim(t, Answered)] + [Action.Put(t, "k4", Replied)], t, "k4", [e1, e2], e2, c2 + [Chunk("k4", [e2])]);
    NothingAround(Run(cfg, SecondGroupRetried(e1, e2, t)), t, c2 + [Chunk("k4", [e2])], e1.id);
    CountsOfRetry(e1, e2);
  }

  // ---------------------------------------------------------------- whatever happens afterwards

  lemma {:induction false} PutBackForGood(cfg: Config, acts: seq<Action>, later: seq<Action>, id: string)
    requires EverPutBack(cfg, acts, id)
    ensures EverPutBack(cfg, acts + later, id)
  {
    if later == [] {
      assert acts + later == acts;
    } else {
      assert (acts + later)[..|acts + later| - 1] == acts + later[..|later| - 1];
      PutBackForGood(cfg, acts, later[..|later| - 1], id);
    }
  }

  /** A put that fails with a line of its batch in some object puts that line's id back, so it is written again. */
  lemma FailedPutRewrites(cfg: Config, acts: seq<Action>, t: Thread, key: string, o: Outcome, later: seq<Action>, id: string)
    requires !cfg.sink.GuardedBucket? && !o.Replied?
    requires var f := Run(cfg, acts).At(t);
             f.phase.Claiming? && f.phase.todo == [] && f.phase.claimed != [] && id in Ids(f.batch)
    requires Occurrences(Run(cfg, acts + [Put(t, key, o)]).chunks, id) > 0
    ensures var s := Run(cfg, acts + [Put(t, key, o)] + later);
            LeftMemory(s, id) ==> Occurrences(s.chunks, id) >= 2
  {
    var put := Action.Put(t, key, o);
    RunAppend(cfg, acts, put);
    assert (acts + [put])[..|acts|] == acts;
    assert !Run(cfg, acts).At(t).phase.Requeuing? && Run(cfg, acts + [put]).At(t).phase.Requeuing?;
    assert PutBackWritten(cfg, Run(cfg, acts), put, id);
    PutBackForGood(cfg, acts + [put], later, id);
    PutBackStaysDoomed(cfg, acts + [put] + later, id);
  }

  /**
    Likewise after any other retry: after a put that fails having taken effect, and after a put of a later group
    that fails cleanly, every run in which the entry leaves memory has written it again.
   */
  lemma {:induction false} UnguardedRetryWritesTwice(cfg: Config, e1: Entry, e2: Entry, t: Thread, later: seq<Action>)
    requires cfg.sink.Bucket?
    ensures var s := Run(cfg, AnswerLost(e1, t) + later);
            LeftMemory(s, e1.id) ==> Occurrences(s.chunks, e1.id) >= 2
    ensures e1.Partition() != e2.Partition() && cfg.batchMax >= 2 && cfg.queueMax >= 2 ==>
              var s := Run(cfg, SecondGroupFails(e1, e2, t) + later);
              LeftMemory(s, e1.id) ==> Occurrences(s.chunks, e1.id) >= 2
  {
    var a1 := [] + [Accept(t.process, e1)];
    Accepted(cfg, e1, t);
    FlushedOne(cfg, a1, e1, t, "k1", FailedAfter, []);
    assert [] + [Chunk("k1", [e1])] == [Chunk("k1", [e1])];
    OccurrencesOfGroups([], "k1", e1, e1.id);
    assert [e1][0].id in Ids([e1]);
    FailedPutRewrites(cfg, a1 + [Take(t)] + [Begin(t)] + [Claim(t, Answered)], t, "k1", FailedAfter, later, e1.id);
    if e1.Partition() != e2.Partition() && cfg.batchMax >= 2 && cfg.queueMax >= 2 {
      SecondGroupFailed(cfg, e1, e2, t);
      assert [e1, e2][0].id in Ids([e1, e2]);
      FailedPutRewrites(cfg, FirstGroupWritten(e1, e2, t) + [Claim(t, Answered)], t, "k2", FailedBefore, later, e1.id);
    }
  }
}
