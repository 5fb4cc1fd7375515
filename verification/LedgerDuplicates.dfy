/** Without the claim table: exactly when an entry that was accepted once is written more than once. */
module LedgerDuplicates {
  import opened Options
  import opened LedgerBatch
  import opened LedgerProtocol
  import opened LedgerLoss

  /** A step that fails a batch holding an id of which some line has been written. */
  ghost predicate PutBackWritten(cfg: Config, s: State, a: Action, id: string) {
    var s' := Step(cfg, s, a);
    Occurrences(s'.chunks, id) > 0 &&
    exists t: Thread :: !s.At(t).phase.Requeuing? && s'.At(t).phase.Requeuing? && id in Ids(s.At(t).batch)
  }

  ghost predicate EverPutBack(cfg: Config, acts: seq<Action>, id: string) {
    acts != [] &&
    (EverPutBack(cfg, acts[..|acts| - 1], id) || PutBackWritten(cfg, Run(cfg, acts[..|acts| - 1]), acts[|acts| - 1], id))
  }

  /** How often a run queued an entry with the id. */
  function Accepts(cfg: Config, acts: seq<Action>, id: string): nat {
    if acts == [] then 0
    else
      var p, a := acts[..|acts| - 1], acts[|acts| - 1];
      Accepts(cfg, p, id) +
      if a.Accept? && a.entry.id == id && |Run(cfg, p).Queue(a.process)| < cfg.queueMax then 1 else 0
  }

  // ---------------------------------------------------------------- counting

  lemma {:induction false} CountConcat(a: seq<Entry>, b: seq<Entry>, id: string)
    ensures CountIn(a + b, id) == CountIn(a, id) + CountIn(b, id)
  {
    if b == [] {
      assert a + b == a;
    } else {
      CountConcat(a, b[..|b| - 1], id);
      assert (a + b)[..|a + b| - 1] == a + b[..|b| - 1];
    }
  }

  lemma CountHead(es: seq<Entry>, id: string)
    requires es != []
    ensures CountIn(es, id) == (if es[0].id == id then 1 else 0) + CountIn(es[1..], id)
  {
    assert es == [es[0]] + es[1..];
    CountConcat([es[0]], es[1..], id);
    assert [es[0]][..0] == [];
  }

  /** The count depends only on how often each entry occurs. */
  lemma {:induction false} CountOfBag(a: seq<Entry>, b: seq<Entry>, id: string)
    requires multiset(a) == multiset(b)
    ensures CountIn(a, id) == CountIn(b, id)
  {
    if a == [] {
      EmptyBag(a, b);
    } else {
      var i := SameBagWithout(a, b);
      CountOfBag(a[1..], b[..i] + b[i + 1..], id);
      CountHead(a, id);
      CountConcat(b[..i], b[i + 1..], id);
      CountConcat(b[..i], [a[0]] + b[i + 1..], id);
      CountHead([a[0]] + b[i + 1..], id);
    }
  }

  lemma {:induction false} OccurrencesConcat(a: seq<Chunk>, b: seq<Chunk>, id: string)
    ensures Occurrences(a + b, id) == Occurrences(a, id) + Occurrences(b, id)
  {
    if b == [] {
      assert a + b == a;
    } else {
      OccurrencesConcat(a, b[..|b| - 1], id);
      assert (a + b)[..|a + b| - 1] == a + b[..|b| - 1];
    }
  }

  // ---------------------------------------------------------------- put back means written again

  /** In memory, or known to be lost from it. */
  ghost predicate Around(s: State, id: string) {
    Queued(s, id) || InFlight(s, id) || id in s.dropped || id in s.crashed
  }

  /** Two states that differ in what was written and accepted before. */
  predicate Alike(s: State, blank: State, chunks: seq<Chunk>) {
    s.queues == blank.queues && s.flushers == blank.flushers && s.dropped == blank.dropped && s.crashed == blank.crashed &&
    s.chunks == chunks + blank.chunks
  }

  function Blank(s: State, accepted: set<string>): State {
    s.(chunks := [], accepted := accepted)
  }

  lemma WritesIgnoreChunks(cfg: Config, s: State, t: Thread, key: string, o: Outcome, accepted: set<string>)
    ensures Alike(WriteFileStep(cfg, s, t, o), WriteFileStep(cfg, Blank(s, accepted), t, o), s.chunks)
    ensures Alike(PutStep(cfg, s, t, key, o), PutStep(cfg, Blank(s, accepted), t, key, o), s.chunks)
  {
    assert s.chunks + [] == s.chunks && Blank(s, accepted).At(t) == s.At(t);
  }

  lemma QueueMovesIgnoreChunks(cfg: Config, s: State, t: Thread, accepted: set<string>)
    ensures Alike(TakeStep(cfg, s, t), TakeStep(cfg, Blank(s, accepted), t), s.chunks)
    ensures Alike(RequeueStep(cfg, s, t), RequeueStep(cfg, Blank(s, accepted), t), s.chunks)
  {
    assert s.chunks + [] == s.chunks;
    assert Blank(s, accepted).At(t) == s.At(t) && Blank(s, accepted).Queue(t.process) == s.Queue(t.process);
  }

  lemma PhasesIgnoreChunks(cfg: Config, s: State, t: Thread, c: ClaimOutcome, o: Outcome, accepted: set<string>)
    requires !cfg.sink.GuardedBucket?
    ensures Alike(BeginStep(cfg, s, t), BeginStep(cfg, Blank(s, accepted), t), s.chunks)
    ensures Alike(ClaimStep(cfg, s, t, c), ClaimStep(cfg, Blank(s, accepted), t, c), s.chunks)
    ensures Alike(MarkStep(cfg, s, t, o), MarkStep(cfg, Blank(s, accepted), t, o), s.chunks)
  {
    assert s.chunks + [] == s.chunks && Blank(s, accepted).At(t) == s.At(t);
  }

  lemma CrashIgnoresChunks(s: State, p: nat, accepted: set<string>)
    ensures Alike(CrashStep(s, p), CrashStep(Blank(s, accepted), p), s.chunks)
  {
    assert s.chunks + [] == s.chunks && InMemory(Blank(s, accepted), p) == InMemory(s, p);
  }

  /** Without a table no step reads what was written. */
  lemma StepIgnoresChunks(cfg: Config, s: State, a: Action, accepted: set<string>)
    requires !cfg.sink.GuardedBucket?
    ensures Alike(Step(cfg, s, a), Step(cfg, Blank(s, accepted), a), s.chunks)
    ensures accepted <= Step(cfg, Blank(s, accepted), a).accepted
  {
    match a
    case Accept(_, _) => assert s.chunks + [] == s.chunks;
    case Take(t) => QueueMovesIgnoreChunks(cfg, s, t, accepted);
    case WriteFile(t, o) => WritesIgnoreChunks(cfg, s, t, "", o, accepted);
    case Begin(t) => PhasesIgnoreChunks(cfg, s, t, Answered, Replied, accepted);
    case Claim(t, c) => PhasesIgnoreChunks(cfg, s, t, c, Replied, accepted);
    case Put(t, key, o) => WritesIgnoreChunks(cfg, s, t, key, o, accepted);
    case Mark(t, o) => PhasesIgnoreChunks(cfg, s, t, Answered, o, accepted);
    case Requeue(t) => QueueMovesIgnoreChunks(cfg, s, t, accepted);
    case Crash(p) => CrashIgnoresChunks(s, p, accepted);
  }

  /** Without a table an id leaves memory only by being written. */
  lemma KeptOrWritten(cfg: Config, s: State, a: Action, id: string)
    requires !cfg.sink.GuardedBucket? && Around(s, id) && forall t: Thread :: Covered(s.At(t))
    ensures Around(Step(cfg, s, a), id) || Occurrences(Step(cfg, s, a).chunks, id) > Occurrences(s.chunks, id)
  {
    var blank := Blank(s, {id});
    forall t: Thread ensures blank.At(t) == s.At(t) {
    }
    forall p ensures blank.Queue(p) == s.Queue(p) {
    }
    assert Accounted(cfg, blank, id);
    StepKeepsTracked(cfg, blank, a);
    StepIgnoresChunks(cfg, s, a, {id});
    var s', after := Step(cfg, s, a), Step(cfg, blank, a);
    OccurrencesConcat(s.chunks, after.chunks, id);
    assert Accounted(cfg, after, id);
    SameMemory(after, s', id);
  }

  lemma SameMemory(s: State, s': State, id: string)
    requires s.queues == s'.queues && s.flushers == s'.flushers
    ensures Queued(s, id) ==> Queued(s', id)
    ensures InFlight(s, id) ==> InFlight(s', id)
  {
    if Queued(s, id) {
      var p :| id in Ids(s.Queue(p));
      assert id in Ids(s'.Queue(p));
    }
    if InFlight(s, id) {
      var t: Thread :| id in Ids(Unsettled(s.At(t)));
      assert id in Ids(Unsettled(s'.At(t)));
    }
  }

  /** Written twice, or written and about to be written again unless it is lost first. */
  ghost predicate Doomed(s: State, id: string) {
    Occurrences(s.chunks, id) >= 2 || (Occurrences(s.chunks, id) >= 1 && Around(s, id))
  }

  lemma StepKeepsDoomed(cfg: Config, s: State, a: Action, id: string)
    requires !cfg.sink.GuardedBucket? && Doomed(s, id) && forall t: Thread :: Covered(s.At(t))
    ensures Doomed(Step(cfg, s, a), id)
  {
    StepIgnoresChunks(cfg, s, a, {});
    OccurrencesConcat(s.chunks, Step(cfg, Blank(s, {}), a).chunks, id);
    if Around(s, id) {
      KeptOrWritten(cfg, s, a, id);
    }
  }

  /** A failure puts the whole batch back. */
  lemma FailsWhole(cfg: Config, s: State, a: Action, t: Thread)
    requires !s.At(t).phase.Requeuing? && Step(cfg, s, a).At(t).phase.Requeuing?
    ensures Unsettled(Step(cfg, s, a).At(t)) == s.At(t).batch
  {
  }

  lemma PutBackIsDoomed(cfg: Config, s: State, a: Action, id: string)
    requires PutBackWritten(cfg, s, a, id)
    ensures Doomed(Step(cfg, s, a), id)
  {
    var s' := Step(cfg, s, a);
    var t: Thread :| !s.At(t).phase.Requeuing? && s'.At(t).phase.Requeuing? && id in Ids(s.At(t).batch);
    FailsWhole(cfg, s, a, t);
    assert InFlight(s', id);
  }

  lemma {:induction false} PutBackStaysDoomed(cfg: Config, acts: seq<Action>, id: string)
    requires !cfg.sink.GuardedBucket? && EverPutBack(cfg, acts, id)
    ensures Doomed(Run(cfg, acts), id)
  {
    var p, a := acts[..|acts| - 1], acts[|acts| - 1];
    RunIsTracked(cfg, p);
    if EverPutBack(cfg, p, id) {
      PutBackStaysDoomed(cfg, p, id);
      StepKeepsDoomed(cfg, Run(cfg, p), a, id);
    } else {
      PutBackIsDoomed(cfg, Run(cfg, p), a, id);
    }
  }

  // ---------------------------------------------------------------- never put back means written once

  /** Where an entry can be in memory: in a queue or in the hands of a thread. */
  datatype Place = QueueOf(process: nat) | HandsOf(thread: Thread)

  /** What a thread may still put somewhere: its batch, or what is left of it to put back. */
  function Held(f: Flusher): seq<Entry> {
    if f.phase.Requeuing? then f.phase.left else f.batch
  }

  function Copies(s: State, x: Place, id: string): nat {
    match x
    case QueueOf(p) => CountIn(s.Queue(p), id)
    case HandsOf(t) => CountIn(Held(s.At(t)), id)
  }

  /** At most one copy of the id is in memory. */
  ghost predicate Solo(s: State, id: string) {
    (forall x: Place :: Copies(s, x, id) <= 1) &&
    (forall x: Place, y: Place :: x != y ==> Copies(s, x, id) == 0 || Copies(s, y, id) == 0)
  }

  /** What a thread has left to write is part of what it holds. */
  predicate Within(f: Flusher, id: string) {
    CountIn(Unsettled(f), id) <= CountIn(Held(f), id)
  }

  /** One copy in memory or one line written, never both. */
  ghost predicate Once(s: State, id: string) {
    Solo(s, id) && (forall t: Thread :: Within(s.At(t), id)) &&
    Occurrences(s.chunks, id) <= 1 &&
    (Occurrences(s.chunks, id) == 1 ==> !Queued(s, id) && !InFlight(s, id))
  }

  ghost predicate Absent(s: State, id: string) {
    Occurrences(s.chunks, id) == 0 && forall x: Place :: Copies(s, x, id) == 0
  }

  lemma QueuedIsCopied(s: State, p: nat, id: string)
    ensures id in Ids(s.Queue(p)) <==> Copies(s, QueueOf(p), id) > 0
  {
    CountIsMembership(s.Queue(p), id);
  }

  lemma FlyingIsCopied(s: State, t: Thread, id: string)
    requires Within(s.At(t), id)
    ensures id in Ids(Unsettled(s.At(t))) <==> CountIn(Unsettled(s.At(t)), id) > 0
    ensures id in Ids(Unsettled(s.At(t))) ==> Copies(s, HandsOf(t), id) > 0
  {
    CountIsMembership(Unsettled(s.At(t)), id);
  }

  /** What a move of one thread may do: hand copies over between it and its queue, and write some of what it had left to write. */
  ghost predicate Moves(s: State, s': State, t: Thread, id: string) {
    var f, f', p := s.At(t), s'.At(t), t.process;
    var written := Occurrences(s'.chunks, id) - Occurrences(s.chunks, id);
    (forall u: Thread :: u != t ==> s'.At(u) == s.At(u)) && (forall q :: q != p ==> s'.Queue(q) == s.Queue(q)) &&
    CountIn(s'.Queue(p), id) + CountIn(Held(f'), id) <= CountIn(s.Queue(p), id) + CountIn(Held(f), id) &&
    Within(f', id) && written >= 0 &&
    (Occurrences(s'.chunks, id) == 0 ||
     written + CountIn(s'.Queue(p), id) + CountIn(Unsettled(f'), id) <= CountIn(s.Queue(p), id) + CountIn(Unsettled(f), id))
  }

  lemma MoveKeepsSolo(s: State, s': State, t: Thread, id: string)
    requires Solo(s, id) && Moves(s, s', t, id)
    ensures Solo(s', id)
  {
    var here, hands := QueueOf(t.process), HandsOf(t);
    assert Copies(s, here, id) == 0 || Copies(s, hands, id) == 0;
    forall x: Place ensures Copies(s', x, id) <= 1 {
      assert Copies(s, x, id) <= 1 && Copies(s, here, id) <= 1 && Copies(s, hands, id) <= 1;
    }
    forall x: Place, y: Place | x != y ensures Copies(s', x, id) == 0 || Copies(s', y, id) == 0 {
      assert Copies(s, x, id) == 0 || Copies(s, y, id) == 0;
      assert Copies(s, x, id) == 0 || x == here || Copies(s, here, id) == 0;
      assert Copies(s, x, id) == 0 || x == hands || Copies(s, hands, id) == 0;
      assert Copies(s, y, id) == 0 || y == here || Copies(s, here, id) == 0;
      assert Copies(s, y, id) == 0 || y == hands || Copies(s, hands, id) == 0;
      assert Copies(s, here, id) <= 1 && Copies(s, hands, id) <= 1;
    }
  }

  /** Where the only copy can be waiting, if it is anywhere. */
  lemma NotWaitingAfter(s: State, s': State, t: Thread, id: string)
    requires Once(s, id) && Moves(s, s', t, id) && Occurrences(s'.chunks, id) > 0
    ensures Occurrences(s'.chunks, id) == 1 && !Queued(s', id) && !InFlight(s', id)
  {
    var p, f := t.process, s.At(t);
    QueuedIsCopied(s, p, id);
    FlyingIsCopied(s, t, id);
    assert Copies(s, QueueOf(p), id) == 0 || Copies(s, HandsOf(t), id) == 0;
    assert Copies(s, QueueOf(p), id) <= 1 && Copies(s, HandsOf(t), id) <= 1 && Within(f, id);
    forall q ensures id !in Ids(s'.Queue(q)) {
      QueuedIsCopied(s, q, id);
      QueuedIsCopied(s', q, id);
      assert q != p ==> Copies(s, QueueOf(q), id) == 0 || (Copies(s, QueueOf(p), id) == 0 && Copies(s, HandsOf(t), id) == 0);
    }
    forall u: Thread ensures id !in Ids(Unsettled(s'.At(u))) {
      FlyingIsCopied(s, u, id);
      CountIsMembership(Unsettled(s'.At(u)), id);
      assert u != t ==> Copies(s, HandsOf(u), id) == 0 || (Copies(s, QueueOf(p), id) == 0 && Copies(s, HandsOf(t), id) == 0);
    }
  }

  lemma MoveKeepsOnce(s: State, s': State, t: Thread, id: string)
    requires Once(s, id) && Moves(s, s', t, id)
    ensures Once(s', id) && (Absent(s, id) ==> Absent(s', id))
  {
    MoveKeepsSolo(s, s', t, id);
    forall u: Thread ensures Within(s'.At(u), id) {
      assert Within(s.At(u), id);
    }
    if Occurrences(s'.chunks, id) > 0 {
      NotWaitingAfter(s, s', t, id);
    }
    if Absent(s, id) {
      assert Copies(s, QueueOf(t.process), id) == 0 && Copies(s, HandsOf(t), id) == 0 && Within(s.At(t), id);
      forall x: Place ensures Copies(s', x, id) == 0 {
        assert Copies(s, x, id) == 0;
      }
    }
  }

  // ---------------------------------------------------------------- every step is such a move

  /** A move that writes nothing, by what it leaves in the queue and in the thread's hands. */
  lemma HandOver(s: State, s': State, t: Thread, q: seq<Entry>, f: Flusher, id: string)
    requires s'.chunks == s.chunks && s'.flushers == s.flushers[t := f]
    requires (s'.queues == s.queues && q == s.Queue(t.process)) || s'.queues == s.queues[t.process := q]
    requires Within(f, id)
    requires CountIn(q, id) + CountIn(Held(f), id) <= CountIn(s.Queue(t.process), id) + CountIn(Held(s.At(t)), id)
    requires CountIn(q, id) + CountIn(Unsettled(f), id) <= CountIn(s.Queue(t.process), id) + CountIn(Unsettled(s.At(t)), id)
    ensures Moves(s, s', t, id)
  {
    assert s'.At(t) == f && s'.Queue(t.process) == q;
  }

  /** Passing the head of one list to the end of another changes neither's total. */
  lemma PassedOn(from: seq<Entry>, to: seq<Entry>, id: string)
    requires from != []
    ensures CountIn(from[1..], id) + CountIn(to + [from[0]], id) == CountIn(from, id) + CountIn(to, id)
  {
    CountHead(from, id);
    CountAppend(to, from[0], id);
  }

  lemma TakeMoves(cfg: Config, s: State, t: Thread, id: string)
    requires Within(s.At(t), id)
    ensures Moves(s, TakeStep(cfg, s, t), t, id)
  {
    var f, q := s.At(t), s.Queue(t.process);
    if f.phase.Collecting? && q != [] && |f.batch| < cfg.batchMax {
      PassedOn(q, f.batch, id);
      HandOver(s, TakeStep(cfg, s, t), t, q[1..], f.(batch := f.batch + [q[0]]), id);
    } else {
      StillMoves(s, t, id);
    }
  }

  /** A failure that puts nothing written back. */
  lemma FailMoves(s: State, s': State, t: Thread, id: string)
    requires s'.queues == s.queues && s'.flushers == s.flushers[t := Fail(s.At(t))] && !s.At(t).phase.Requeuing?
    requires s'.chunks == s.chunks || exists c :: s'.chunks == s.chunks + [c]
    requires Within(s.At(t), id) && (Occurrences(s'.chunks, id) == 0 || id !in Ids(s.At(t).batch))
    requires id !in Ids(s.At(t).batch) ==> Occurrences(s'.chunks, id) == Occurrences(s.chunks, id)
    ensures Moves(s, s', t, id)
  {
    CountIsMembership(s.At(t).batch, id);
    if c :| s'.chunks == s.chunks + [c] {
      OccurrencesAppend(s.chunks, c, id);
    }
  }

  /** A chunk of what the thread had left to write holds no id it does not hold. */
  lemma ForeignChunk(s: State, t: Thread, c: Chunk, id: string)
    requires Within(s.At(t), id) && !s.At(t).phase.Requeuing? && id !in Ids(s.At(t).batch)
    requires CountIn(c.entries, id) <= CountIn(Unsettled(s.At(t)), id)
    ensures Occurrences(s.chunks + [c], id) == Occurrences(s.chunks, id)
  {
    CountIsMembership(s.At(t).batch, id);
    OccurrencesAppend(s.chunks, c, id);
  }

  lemma FileWritten(s: State, t: Thread, id: string)
    requires s.At(t).phase.Collecting?
    ensures Moves(s, s.(chunks := s.chunks + [Chunk("", s.At(t).batch)]).Set(t, IDLE), t, id)
  {
    OccurrencesAppend(s.chunks, Chunk("", s.At(t).batch), id);
  }

  lemma FileWriteFails(cfg: Config, s: State, t: Thread, o: Outcome, id: string)
    requires Within(s.At(t), id) && !PutBackWritten(cfg, s, WriteFile(t, o), id) && !o.Replied?
    requires cfg.sink.LocalFile? && s.At(t).phase.Collecting? && s.At(t).batch != []
    ensures Moves(s, WriteFileStep(cfg, s, t, o), t, id)
  {
    var c, s' := Chunk("", s.At(t).batch), WriteFileStep(cfg, s, t, o);
    assert s'.chunks == if o.FailedBefore? then s.chunks else s.chunks + [c];
    if id !in Ids(s.At(t).batch) {
      ForeignChunk(s, t, c, id);
    }
    FailMoves(s, s', t, id);
  }

  lemma WriteFileMoves(cfg: Config, s: State, t: Thread, o: Outcome, id: string)
    requires Within(s.At(t), id) && !PutBackWritten(cfg, s, WriteFile(t, o), id)
    ensures Moves(s, WriteFileStep(cfg, s, t, o), t, id)
  {
    var f := s.At(t);
    if !(cfg.sink.LocalFile? && f.phase.Collecting? && f.batch != []) {
      StillMoves(s, t, id);
    } else if o.Replied? {
      FileWritten(s, t, id);
    } else {
      FileWriteFails(cfg, s, t, o, id);
    }
  }

  lemma OnwardCounts(f: Flusher, rest: seq<Group>, id: string)
    ensures CountIn(Unsettled(Onward(f, rest)), id) == CountIn(Flat(rest), id)
    ensures CountIn(Held(Onward(f, rest)), id) <= CountIn(f.batch, id)
  {
    if rest != [] {
      assert rest[0] + [] + Flat(rest[1..]) == Flat(rest);
    }
  }

  lemma OnwardWithin(f: Flusher, rest: seq<Group>, id: string)
    requires CountIn(Flat(rest), id) <= CountIn(f.batch, id)
    ensures Within(Onward(f, rest), id)
  {
    OnwardCounts(f, rest, id);
  }

  lemma BeginMoves(cfg: Config, s: State, t: Thread, id: string)
    requires Within(s.At(t), id)
    ensures Moves(s, BeginStep(cfg, s, t), t, id)
  {
    var f := s.At(t);
    if !cfg.sink.LocalFile? && f.phase.Collecting? && f.batch != [] {
      PartitionConserves(f.batch);
      CountOfBag(Flat(Partition(f.batch)), f.batch, id);
      OnwardCounts(f, Partition(f.batch), id);
      OnwardWithin(f, Partition(f.batch), id);
      HandOver(s, BeginStep(cfg, s, t), t, s.Queue(t.process), Onward(f, Partition(f.batch)), id);
    } else {
      StillMoves(s, t, id);
    }
  }

  /** Claiming moves an entry from one part of the batch to another. */
  lemma ClaimCounts(todo: seq<Entry>, claimed: seq<Entry>, rest: seq<Entry>, id: string)
    requires todo != []
    ensures CountIn(todo[1..] + (claimed + [todo[0]]) + rest, id) == CountIn(todo + claimed + rest, id)
  {
    PassedOn(todo, claimed, id);
    CountThree(todo, claimed, rest, id);
    CountThree(todo[1..], claimed + [todo[0]], rest, id);
  }

  lemma ClaimMoves(cfg: Config, s: State, t: Thread, o: ClaimOutcome, id: string)
    requires !cfg.sink.GuardedBucket? && Within(s.At(t), id)
    ensures Moves(s, ClaimStep(cfg, s, t, o), t, id)
  {
    var f := s.At(t);
    if f.phase.Claiming? && f.phase.todo != [] {
      var Claiming(todo, claimed, rest) := f.phase;
      ClaimCounts(todo, claimed, Flat(rest), id);
      HandOver(s, ClaimStep(cfg, s, t, o), t, s.Queue(t.process),
               f.(phase := Claiming(todo[1..], claimed + [todo[0]], rest)), id);
    } else {
      StillMoves(s, t, id);
    }
  }

  lemma CountThree(a: seq<Entry>, b: seq<Entry>, c: seq<Entry>, id: string)
    ensures CountIn(a + b + c, id) == CountIn(a, id) + CountIn(b, id) + CountIn(c, id)
  {
    CountConcat(a, b, id);
    CountConcat(a + b, c, id);
  }

  /** Putting an object writes what was claimed and leaves the later groups. */
  lemma PutWrites(s: State, s': State, t: Thread, key: string, id: string)
    requires s.At(t).phase.Claiming? && s.At(t).phase.todo == [] && Within(s.At(t), id)
    requires s'.queues == s.queues && s'.chunks == s.chunks + [Chunk(key, s.At(t).phase.claimed)]
    requires s'.flushers == s.flushers[t := s.At(t).(phase := Marking(key, s.At(t).phase.claimed, s.At(t).phase.rest))]
    ensures Moves(s, s', t, id)
  {
    var f := s.At(t);
    CountThree(f.phase.todo, f.phase.claimed, Flat(f.phase.rest), id);
    OccurrencesAppend(s.chunks, Chunk(key, f.phase.claimed), id);
  }

  lemma PutFails(s: State, s': State, t: Thread, c: Chunk, id: string)
    requires s.At(t).phase.Claiming? && s.At(t).phase.todo == [] && Within(s.At(t), id) && c.entries == s.At(t).phase.claimed
    requires s'.queues == s.queues && s'.flushers == s.flushers[t := Fail(s.At(t))]
    requires s'.chunks == s.chunks || s'.chunks == s.chunks + [c]
    requires Occurrences(s'.chunks, id) == 0 || id !in Ids(s.At(t).batch)
    ensures Moves(s, s', t, id)
  {
    var f := s.At(t);
    CountThree(f.phase.todo, f.phase.claimed, Flat(f.phase.rest), id);
    if id !in Ids(f.batch) { ForeignChunk(s, t, c, id); }
    FailMoves(s, s', t, id);
  }

  lemma FailedPutIsClean(cfg: Config, s: State, t: Thread, key: string, o: Outcome, id: string)
    requires s.At(t).phase.Claiming? && s.At(t).phase.todo == [] && s.At(t).phase.claimed != [] && !o.Replied?
    requires !PutBackWritten(cfg, s, Put(t, key, o), id)
    ensures Occurrences(PutStep(cfg, s, t, key, o).chunks, id) == 0 || id !in Ids(s.At(t).batch)
  {
    assert PutStep(cfg, s, t, key, o).At(t).phase.Requeuing?;
  }

  lemma EmptyPutMoves(s: State, s': State, t: Thread, id: string)
    requires s.At(t).phase.Claiming? && s.At(t).phase.todo == [] && s.At(t).phase.claimed == [] && Within(s.At(t), id)
    requires s' == s.Set(t, Onward(s.At(t), s.At(t).phase.rest))
    ensures Moves(s, s', t, id)
  {
    var f := s.At(t);
    CountThree(f.phase.todo, f.phase.claimed, Flat(f.phase.rest), id);
    OnwardCounts(f, f.phase.rest, id);
    OnwardWithin(f, f.phase.rest, id);
  }

  lemma PutMoves(cfg: Config, s: State, t: Thread, key: string, o: Outcome, id: string)
    requires Within(s.At(t), id) && !PutBackWritten(cfg, s, Put(t, key, o), id)
    ensures Moves(s, PutStep(cfg, s, t, key, o), t, id)
  {
    var s', f := PutStep(cfg, s, t, key, o), s.At(t);
    if !(f.phase.Claiming? && f.phase.todo == []) {
      StillMoves(s, t, id);
    } else if f.phase.claimed == [] {
      EmptyPutMoves(s, s', t, id);
    } else if o.Replied? {
      PutWrites(s, s', t, key, id);
    } else {
      FailedPutIsClean(cfg, s, t, key, o, id);
      PutFails(s, s', t, Chunk(key, f.phase.claimed), id);
    }
  }

  lemma StillMoves(s: State, t: Thread, id: string)
    requires Within(s.At(t), id)
    ensures Moves(s, s, t, id)
  {
  }

  lemma MarkMoves(cfg: Config, s: State, t: Thread, o: Outcome, id: string)
    requires !cfg.sink.GuardedBucket? && Within(s.At(t), id)
    ensures Moves(s, MarkStep(cfg, s, t, o), t, id)
  {
    var f := s.At(t);
    if !f.phase.Marking? {
      StillMoves(s, t, id);
    } else {
      OnwardCounts(f, f.phase.rest, id);
      OnwardWithin(f, f.phase.rest, id);
      HandOver(s, MarkStep(cfg, s, t, o), t, s.Queue(t.process), MarkStep(cfg, s, t, o).At(t), id);
    }
  }

  lemma PutBackMoves(s: State, s': State, t: Thread, left: seq<Entry>, id: string)
    requires s.At(t).phase == Requeuing(left) && left != [] && s'.chunks == s.chunks
    requires s'.queues == s.queues[t.process := s.Queue(t.process) + [left[0]]]
    requires s'.flushers == s.flushers[t := s.At(t).(phase := Requeuing(left[1..]))]
    ensures Moves(s, s', t, id)
  {
    PassedOn(left, s.Queue(t.process), id);
    HandOver(s, s', t, s.Queue(t.process) + [left[0]], s.At(t).(phase := Requeuing(left[1..])), id);
  }

  lemma LetGoMoves(s: State, s': State, t: Thread, id: string)
    requires s'.queues == s.queues && s'.chunks == s.chunks && s'.flushers == s.flushers[t := IDLE]
    ensures Moves(s, s', t, id)
  {
    HandOver(s, s', t, s.Queue(t.process), IDLE, id);
  }

  lemma RequeueMoves(cfg: Config, s: State, t: Thread, id: string)
    requires Within(s.At(t), id)
    ensures Moves(s, RequeueStep(cfg, s, t), t, id)
  {
    var f := s.At(t);
    if !f.phase.Requeuing? {
      StillMoves(s, t, id);
    } else if f.phase.left != [] && |s.Queue(t.process)| < cfg.queueMax {
      PutBackMoves(s, RequeueStep(cfg, s, t), t, f.phase.left, id);
    } else {
      LetGoMoves(s, RequeueStep(cfg, s, t), t, id);
    }
  }

  lemma CrashKeepsOnce(s: State, p: nat, id: string)
    requires Once(s, id)
    ensures Once(CrashStep(s, p), id) && (Absent(s, id) ==> Absent(CrashStep(s, p), id))
  {
    var s' := CrashStep(s, p);
    forall x: Place ensures Copies(s', x, id) <= Copies(s, x, id) {
    }
    forall x: Place, y: Place | x != y ensures Copies(s', x, id) == 0 || Copies(s', y, id) == 0 {
      assert Copies(s, x, id) == 0 || Copies(s, y, id) == 0;
    }
    forall t: Thread ensures Within(s'.At(t), id) && (s'.At(t) == s.At(t) || s'.At(t) == IDLE) {
      assert Within(s.At(t), id);
    }
    if Queued(s', id) {
      var q :| id in Ids(s'.Queue(q));
      assert id in Ids(s.Queue(q));
    }
    if InFlight(s', id) {
      var t: Thread :| id in Ids(Unsettled(s'.At(t)));
      assert id in Ids(Unsettled(s.At(t)));
    }
  }

  lemma AcceptedCopies(cfg: Config, s: State, p: nat, e: Entry, id: string)
    requires |s.Queue(p)| < cfg.queueMax
    ensures forall x: Place ::
              Copies(Step(cfg, s, Accept(p, e)), x, id) == Copies(s, x, id) + (if e.id == id && x == QueueOf(p) then 1 else 0)
  {
    CountAppend(s.Queue(p), e, id);
    assert Step(cfg, s, Accept(p, e)).Queue(p) == s.Queue(p) + [e];
  }

  /** One more copy, of an id that had none, or of another id. */
  lemma OneMoreCopy(s: State, s': State, here: Place, more: bool, id: string)
    requires Once(s, id) && (more ==> Absent(s, id)) && s'.chunks == s.chunks && here.QueueOf?
    requires forall t: Thread :: s'.At(t) == s.At(t)
    requires forall x: Place :: Copies(s', x, id) == Copies(s, x, id) + (if more && x == here then 1 else 0)
    ensures Once(s', id) && (Absent(s, id) && !more ==> Absent(s', id))
  {
    forall x: Place, y: Place | x != y ensures Copies(s', x, id) == 0 || Copies(s', y, id) == 0 {
      assert Copies(s, x, id) == 0 || Copies(s, y, id) == 0;
    }
    forall t: Thread ensures Within(s'.At(t), id) {
      assert Within(s.At(t), id);
    }
    if Occurrences(s'.chunks, id) == 1 {
      forall q ensures id !in Ids(s'.Queue(q)) {
        QueuedIsCopied(s, q, id);
        QueuedIsCopied(s', q, id);
      }
      forall t: Thread ensures id !in Ids(Unsettled(s'.At(t))) {
        assert s'.At(t) == s.At(t);
      }
    }
  }

  /** Queueing an entry with another id, or the first one with this id. */
  lemma AcceptKeepsOnce(cfg: Config, s: State, p: nat, e: Entry, id: string)
    requires Once(s, id) && |s.Queue(p)| < cfg.queueMax && (e.id == id ==> Absent(s, id))
    ensures Once(Step(cfg, s, Accept(p, e)), id) && (Absent(s, id) && e.id != id ==> Absent(Step(cfg, s, Accept(p, e)), id))
  {
    AcceptedCopies(cfg, s, p, e, id);
    OneMoreCopy(s, Step(cfg, s, Accept(p, e)), QueueOf(p), e.id == id, id);
  }

  lemma StepKeepsOnce(cfg: Config, s: State, a: Action, id: string)
    requires !cfg.sink.GuardedBucket? && Once(s, id) && !PutBackWritten(cfg, s, a, id) && !a.Accept?
    ensures Once(Step(cfg, s, a), id) && (Absent(s, id) ==> Absent(Step(cfg, s, a), id))
  {
    if a.Crash? {
      CrashKeepsOnce(s, a.process, id);
    } else {
      assert Within(s.At(a.thread), id);
      match a {
        case Take(t) => TakeMoves(cfg, s, t, id);
        case WriteFile(t, o) => WriteFileMoves(cfg, s, t, o, id);
        case Begin(t) => BeginMoves(cfg, s, t, id);
        case Claim(t, o) => ClaimMoves(cfg, s, t, o, id);
        case Put(t, key, o) => PutMoves(cfg, s, t, key, o, id);
        case Mark(t, o) => MarkMoves(cfg, s, t, o, id);
        case Requeue(t) => RequeueMoves(cfg, s, t, id);
      }
      MoveKeepsOnce(s, Step(cfg, s, a), a.thread, id);
    }
  }

  lemma {:induction false} RunIsOnce(cfg: Config, acts: seq<Action>, id: string)
    requires !cfg.sink.GuardedBucket? && Accepts(cfg, acts, id) <= 1 && !EverPutBack(cfg, acts, id)
    ensures Once(Run(cfg, acts), id) && (Accepts(cfg, acts, id) == 0 ==> Absent(Run(cfg, acts), id))
  {
    if acts != [] {
      var p, a := acts[..|acts| - 1], acts[|acts| - 1];
      RunIsOnce(cfg, p, id);
      if !a.Accept? {
        StepKeepsOnce(cfg, Run(cfg, p), a, id);
      } else if |Run(cfg, p).Queue(a.process)| < cfg.queueMax {
        AcceptKeepsOnce(cfg, Run(cfg, p), a.process, a.entry, id);
      }
    }
  }

  // ---------------------------------------------------------------- the exact condition

  /** In no queue, in no thread's hands, and lost from neither. */
  ghost predicate LeftMemory(s: State, id: string) {
    !Around(s, id)
  }

  /**
    Without a table, over every interleaving and failure: an id accepted once occurs at most once if no step
    ever put it back after a line with it was written; and if one did, then the id, once it has left memory
    other than by being dropped or by a crash, occurs at least twice.
   */
  lemma {:induction false} WrittenTwiceExactly(cfg: Config, acts: seq<Action>, id: string)
    requires !cfg.sink.GuardedBucket? && Accepts(cfg, acts, id) == 1
    ensures !EverPutBack(cfg, acts, id) ==> Occurrences(Run(cfg, acts).chunks, id) <= 1
    ensures LeftMemory(Run(cfg, acts), id) ==>
              (Occurrences(Run(cfg, acts).chunks, id) == 1 <==> !EverPutBack(cfg, acts, id))
  {
    if EverPutBack(cfg, acts, id) {
      PutBackStaysDoomed(cfg, acts, id);
    } else {
      RunIsOnce(cfg, acts, id);
      if LeftMemory(Run(cfg, acts), id) {
        AcceptedOnce(cfg, acts, id);
        LossAccounting(cfg, acts, id);
      }
    }
  }

  lemma {:induction false} AcceptedOnce(cfg: Config, acts: seq<Action>, id: string)
    requires Accepts(cfg, acts, id) > 0
    ensures id in Run(cfg, acts).accepted
  {
    var p, a := acts[..|acts| - 1], acts[|acts| - 1];
    if Accepts(cfg, p, id) > 0 {
      AcceptedOnce(cfg, p, id);
      AcceptedGrows(cfg, Run(cfg, p), a);
    }
  }

  lemma AcceptedGrows(cfg: Config, s: State, a: Action)
    ensures s.accepted <= Step(cfg, s, a).accepted
  {
  }
}
