/**
  The billing ledger as a protocol: any number of gateway processes, each with a bounded queue and any
  number of flushing threads, sharing one claim table and one bucket (or writing local files).
  Every remote operation may fail before or after taking effect.
 */
module LedgerProtocol {
  import opened Options
  import opened LedgerBatch

  /** Where flushed entries go; the bucket may be guarded by a claim table. */
  datatype Sink = LocalFile | Bucket | GuardedBucket

  datatype Config = Config(sink: Sink, batchMax: pos, queueMax: pos)

  /** A row of the claim table. */
  datatype Row = Writing | Complete(key: string)

  /** One object put into the bucket, or one append to a local file. */
  datatype Chunk = Chunk(key: string, entries: seq<Entry>)

  /** Where a flushing thread stands. */
  datatype Phase =
    | Collecting
    | Claiming(todo: seq<Entry>, claimed: seq<Entry>, rest: seq<Group>)
    | Marking(key: string, unmarked: seq<Entry>, rest: seq<Group>)
    | Requeuing(left: seq<Entry>)

  datatype Flusher = Flusher(batch: seq<Entry>, phase: Phase)

  const IDLE := Flusher([], Collecting)

  /** A thread of a process: its worker, or whoever called `flush`. */
  datatype Thread = Thread(process: nat, index: nat)

  datatype State = State(
    queues: map<nat, seq<Entry>>,
    flushers: map<Thread, Flusher>,
    table: map<string, Row>,
    chunks: seq<Chunk>,
    accepted: set<string>,
    dropped: set<string>,
    crashed: set<string>)
  {
    function Queue(p: nat): seq<Entry> { Lookup(queues, p, []) }

    function At(t: Thread): Flusher { Lookup(flushers, t, IDLE) }

    function Set(t: Thread, f: Flusher): State { this.(flushers := flushers[t := f]) }
  }

  const START := State(map[], map[], map[], [], {}, {}, {})

  /** How a remote call ends: with its reply, or with an exception before or after it took effect. */
  datatype Outcome = Replied | FailedBefore | FailedAfter

  /** A conditional put may also take effect and then be answered "exists" to its own retry. */
  datatype ClaimOutcome = Answered | ClaimFailedBefore | ClaimFailedAfter | AnsweredToRetry

  datatype Action =
    | Accept(process: nat, entry: Entry)
    | Take(thread: Thread)
    | WriteFile(thread: Thread, outcome: Outcome)
    | Begin(thread: Thread)
    | Claim(thread: Thread, claim: ClaimOutcome)
    | Put(thread: Thread, key: string, outcome: Outcome)
    | Mark(thread: Thread, outcome: Outcome)
    | Requeue(thread: Thread)
    | Crash(process: nat)

  function Ids(es: seq<Entry>): set<string> {
    set i | 0 <= i < |es| :: es[i].id
  }

  /** The next group of the batch, or the end of a successful flush. */
  function Onward(f: Flusher, rest: seq<Group>): Flusher {
    if rest == [] then IDLE else f.(phase := Claiming(rest[0], [], rest[1..]))
  }

  function Fail(f: Flusher): Flusher {
    f.(phase := Requeuing(f.batch))
  }

  function TakeStep(cfg: Config, s: State, t: Thread): State {
    var f, q := s.At(t), s.Queue(t.process);
    if f.phase.Collecting? && q != [] && |f.batch| < cfg.batchMax then
      s.(queues := s.queues[t.process := q[1..]]).Set(t, f.(batch := f.batch + [q[0]]))
    else s
  }

  /** One append of the whole batch to the local file. */
  function WriteFileStep(cfg: Config, s: State, t: Thread, o: Outcome): State {
    var f := s.At(t);
    if !(cfg.sink.LocalFile? && f.phase.Collecting? && f.batch != []) then s
    else
      match o
      case Replied => s.(chunks := s.chunks + [Chunk("", f.batch)]).Set(t, IDLE)
      case FailedBefore => s.Set(t, Fail(f))
      case FailedAfter => s.(chunks := s.chunks + [Chunk("", f.batch)]).Set(t, Fail(f))
  }

  function BeginStep(cfg: Config, s: State, t: Thread): State {
    var f := s.At(t);
    if !cfg.sink.LocalFile? && f.phase.Collecting? && f.batch != [] then s.Set(t, Onward(f, Partition(f.batch))) else s
  }

  /** Claims the next id of the current group. */
  function ClaimStep(cfg: Config, s: State, t: Thread, o: ClaimOutcome): State {
    var f := s.At(t);
    if !(f.phase.Claiming? && f.phase.todo != []) then s
    else
      var Claiming(todo, claimed, rest) := f.phase;
      var e := todo[0];
      var won := f.(phase := Claiming(todo[1..], claimed + [e], rest));
      var lost := f.(phase := Claiming(todo[1..], claimed, rest));
      var table := if e.id in s.table then s.table else s.table[e.id := Writing];
      if !cfg.sink.GuardedBucket? then s.Set(t, won)
      else
        match o
        case Answered => if e.id in s.table then s.Set(t, lost) else s.(table := table).Set(t, won)
        case ClaimFailedBefore => s.Set(t, Fail(f))
        case ClaimFailedAfter => s.(table := table).Set(t, Fail(f))
        case AnsweredToRetry => s.(table := table).Set(t, lost)
  }

  /** Puts one object with the claimed entries of the current group; an empty group is skipped. */
  function PutStep(cfg: Config, s: State, t: Thread, key: string, o: Outcome): State {
    var f := s.At(t);
    if !(f.phase.Claiming? && f.phase.todo == []) then s
    else if f.phase.claimed == [] then s.Set(t, Onward(f, f.phase.rest))
    else
      var chunks := s.chunks + [Chunk(key, f.phase.claimed)];
      match o
      case Replied => s.(chunks := chunks).Set(t, f.(phase := Marking(key, f.phase.claimed, f.phase.rest)))
      case FailedBefore => s.Set(t, Fail(f))
      case FailedAfter => s.(chunks := chunks).Set(t, Fail(f))
  }

  /** Marks the next row of the group just written complete. */
  function MarkStep(cfg: Config, s: State, t: Thread, o: Outcome): State {
    var f := s.At(t);
    if !f.phase.Marking? then s
    else if f.phase.unmarked == [] then s.Set(t, Onward(f, f.phase.rest))
    else
      var next := f.(phase := Marking(f.phase.key, f.phase.unmarked[1..], f.phase.rest));
      var table := s.table[f.phase.unmarked[0].id := Complete(f.phase.key)];
      if !cfg.sink.GuardedBucket? then s.Set(t, next)
      else
        match o
        case Replied => s.(table := table).Set(t, next)
        case FailedBefore => s.Set(t, Fail(f))
        case FailedAfter => s.(table := table).Set(t, Fail(f))
  }

  /** Puts the next entry of a failed batch back; a full queue drops it and all that follow. */
  function RequeueStep(cfg: Config, s: State, t: Thread): State {
    var f := s.At(t);
    if !f.phase.Requeuing? then s
    else if f.phase.left == [] then s.Set(t, IDLE)
    else if |s.Queue(t.process)| < cfg.queueMax then
      s.(queues := s.queues[t.process := s.Queue(t.process) + [f.phase.left[0]]])
       .Set(t, f.(phase := Requeuing(f.phase.left[1..])))
    else s.(dropped := s.dropped + Ids(f.phase.left)).Set(t, IDLE)
  }

  /** Everything a process holds in memory. */
  function InMemory(s: State, p: nat): set<string> {
    Ids(s.Queue(p)) + set t, i | t in s.flushers && t.process == p && 0 <= i < |Unsettled(s.flushers[t])| :: Unsettled(s.flushers[t])[i].id
  }

  function CrashStep(s: State, p: nat): State {
    State(s.queues[p := []], map t | t in s.flushers && t.process != p :: s.flushers[t],
          s.table, s.chunks, s.accepted, s.dropped, s.crashed + InMemory(s, p))
  }

  function Step(cfg: Config, s: State, a: Action): State {
    match a
    case Accept(p, e) =>
      if |s.Queue(p)| < cfg.queueMax
      then s.(queues := s.queues[p := s.Queue(p) + [e]], accepted := s.accepted + {e.id})
      else s
    case Take(t) => TakeStep(cfg, s, t)
    case WriteFile(t, o) => WriteFileStep(cfg, s, t, o)
    case Begin(t) => BeginStep(cfg, s, t)
    case Claim(t, o) => ClaimStep(cfg, s, t, o)
    case Put(t, key, o) => PutStep(cfg, s, t, key, o)
    case Mark(t, o) => MarkStep(cfg, s, t, o)
    case Requeue(t) => RequeueStep(cfg, s, t)
    case Crash(p) => CrashStep(s, p)
  }

  /** Any interleaving of the processes' steps; a step that is not enabled does nothing. */
  function Run(cfg: Config, acts: seq<Action>): State {
    if acts == [] then START else Step(cfg, Run(cfg, acts[..|acts| - 1]), acts[|acts| - 1])
  }

  /** The entries of a thread's batch that are not yet settled: neither written nor, with a table, claimed. */
  function Unsettled(f: Flusher): seq<Entry> {
    match f.phase
    case Collecting => f.batch
    case Claiming(todo, claimed, rest) => todo + claimed + Flat(rest)
    case Marking(_, _, rest) => Flat(rest)
    case Requeuing(left) => left
  }

  // ---------------------------------------------------------------- counting occurrences

  function CountIn(es: seq<Entry>, id: string): nat {
    if es == [] then 0 else CountIn(es[..|es| - 1], id) + (if es[|es| - 1].id == id then 1 else 0)
  }

  /** How many lines with this id all objects ever written hold together. */
  function Occurrences(chunks: seq<Chunk>, id: string): nat {
    if chunks == [] then 0 else Occurrences(chunks[..|chunks| - 1], id) + CountIn(chunks[|chunks| - 1].entries, id)
  }

  lemma {:induction false} CountIsMembership(es: seq<Entry>, id: string)
    ensures CountIn(es, id) > 0 <==> id in Ids(es)
  {
    if es != [] {
      CountIsMembership(es[..|es| - 1], id);
      IdsAppend(es[..|es| - 1], es[|es| - 1]);
      assert es == es[..|es| - 1] + [es[|es| - 1]];
    }
  }

  lemma IdsAppend(es: seq<Entry>, e: Entry)
    ensures Ids(es + [e]) == Ids(es) + {e.id}
  {
    assert (es + [e])[|es|] == e;
    forall id ensures id in Ids(es + [e]) <==> id in Ids(es) + {e.id} {
      if id in Ids(es) {
        var i :| 0 <= i < |es| && es[i].id == id;
        assert (es + [e])[i].id == id;
      }
    }
  }

  lemma OccurrencesAppend(chunks: seq<Chunk>, c: Chunk, id: string)
    ensures Occurrences(chunks + [c], id) == Occurrences(chunks, id) + CountIn(c.entries, id)
  {
    assert (chunks + [c])[..|chunks|] == chunks;
  }

  lemma CountAppend(es: seq<Entry>, e: Entry, id: string)
    ensures CountIn(es + [e], id) == CountIn(es, id) + (if e.id == id then 1 else 0)
  {
    assert (es + [e])[..|es|] == es;
  }

  /** Some object under the key holds a line with the id. */
  ghost predicate Holds(chunks: seq<Chunk>, key: string, id: string) {
    exists i :: 0 <= i < |chunks| && chunks[i].key == key && id in Ids(chunks[i].entries)
  }

  lemma HoldsAppend(chunks: seq<Chunk>, c: Chunk, key: string, id: string)
    ensures Holds(chunks, key, id) ==> Holds(chunks + [c], key, id)
    ensures c.key == key && id in Ids(c.entries) ==> Holds(chunks + [c], key, id)
  {
    if Holds(chunks, key, id) {
      var i :| 0 <= i < |chunks| && chunks[i].key == key && id in Ids(chunks[i].entries);
      assert (chunks + [c])[i] == chunks[i];
    }
    assert (chunks + [c])[|chunks|] == c;
  }
}
