/**
  The local JSONL ledger of one process: a bounded queue, the counter behind `task_done`, and any number of
  threads that flush it (the worker, and whoever calls `flush` or `close`). A write of a batch to the file
  happens completely or not at all.
 */
module LocalLedger {
  import opened Options
  import opened LedgerBatch

  datatype Bounds = Bounds(batchMax: pos, queueMax: pos)

  /** Where a flushing thread stands: gathering a batch, acknowledging a written one, or putting a failed one back. */
  datatype Phase = Collecting | Acking(unacked: nat) | Requeuing(left: seq<Entry>)

  datatype Flusher = Flusher(batch: seq<Entry>, phase: Phase) {
    /** The entries of the batch that are neither written nor back in the queue. */
    function Unwritten(): seq<Entry> {
      match phase
      case Collecting => batch
      case Acking(_) => []
      case Requeuing(left) => left
    }

    /** How many calls of `task_done` the thread still owes the queue. */
    function Owed(): nat {
      match phase
      case Collecting => |batch|
      case Acking(unacked) => unacked
      case Requeuing(_) => 0
    }

    predicate Fits(b: Bounds) {
      |batch| <= b.batchMax && (phase.Acking? ==> phase.unacked <= |batch|)
    }
  }

  const IDLE := Flusher([], Collecting)

  /** `written` is the content of the file; `failed` counts the entries of all failed batches: the queue was never told they were taken care of. */
  datatype State = State(
    queue: seq<Entry>,
    unfinished: nat,
    threads: seq<Flusher>,
    written: seq<Entry>,
    accepted: seq<Entry>,
    dropped: seq<Entry>,
    failed: nat)
  {
    function Set(t: nat, f: Flusher): State
      requires t < |threads|
    {
      this.(threads := threads[t := f])
    }
  }

  datatype Action =
    | Accept(entry: Entry)
    | Take(thread: nat)
    | Write(thread: nat, ok: bool)
    | Ack(thread: nat)
    | Requeue(thread: nat)

  function Start(threads: nat): State {
    State([], 0, seq(threads, _ => IDLE), [], [], [], 0)
  }

  function AcceptStep(b: Bounds, s: State, e: Entry): State {
    if |s.queue| >= b.queueMax then s
    else s.(queue := s.queue + [e], unfinished := s.unfinished + 1, accepted := s.accepted + [e])
  }

  function TakeStep(b: Bounds, s: State, t: nat): State
    requires t < |s.threads|
  {
    var f := s.threads[t];
    if f.phase.Collecting? && s.queue != [] && |f.batch| < b.batchMax
    then s.(queue := s.queue[1..]).Set(t, f.(batch := f.batch + [s.queue[0]]))
    else s
  }

  function WriteStep(s: State, t: nat, ok: bool): State
    requires t < |s.threads|
  {
    var f := s.threads[t];
    if !(f.phase.Collecting? && f.batch != []) then s
    else if ok then s.(written := s.written + f.batch).Set(t, f.(phase := Acking(|f.batch|)))
    else s.(failed := s.failed + |f.batch|).Set(t, f.(phase := Requeuing(f.batch)))
  }

  /** `task_done` raises when more calls arrive than items were put; the handler would then requeue the batch. */
  predicate AckRaises(s: State, t: nat)
    requires t < |s.threads|
  {
    s.threads[t].phase.Acking? && s.threads[t].phase.unacked > 0 && s.unfinished == 0
  }

  function AckStep(s: State, t: nat): State
    requires t < |s.threads|
  {
    var f := s.threads[t];
    if !f.phase.Acking? then s
    else if f.phase.unacked == 0 then s.Set(t, IDLE)
    else if AckRaises(s, t) then s.Set(t, f.(phase := Requeuing(f.batch)))
    else s.(unfinished := s.unfinished - 1).Set(t, f.(phase := Acking(f.phase.unacked - 1)))
  }

  /** Puts the next entry of a failed batch back; a full queue drops it and all that follow. */
  function RequeueStep(b: Bounds, s: State, t: nat): State
    requires t < |s.threads|
  {
    var f := s.threads[t];
    if !f.phase.Requeuing? then s
    else if f.phase.left == [] then s.Set(t, IDLE)
    else if |s.queue| < b.queueMax then
      s.(queue := s.queue + [f.phase.left[0]], unfinished := s.unfinished + 1)
       .Set(t, f.(phase := Requeuing(f.phase.left[1..])))
    else s.(dropped := s.dropped + f.phase.left).Set(t, IDLE)
  }

  function Step(b: Bounds, s: State, a: Action): State {
    if a.Accept? then AcceptStep(b, s, a.entry)
    else if a.thread >= |s.threads| then s
    else
      match a
      case Take(t) => TakeStep(b, s, t)
      case Write(t, ok) => WriteStep(s, t, ok)
      case Ack(t) => AckStep(s, t)
      case Requeue(t) => RequeueStep(b, s, t)
  }

  /** Any interleaving of appends and the threads' steps; a step that is not enabled does nothing. */
  function Run(b: Bounds, threads: nat, acts: seq<Action>): State {
    if acts == [] then Start(threads) else Step(b, Run(b, threads, acts[..|acts| - 1]), acts[|acts| - 1])
  }

  lemma RunAppend(b: Bounds, threads: nat, acts: seq<Action>, a: Action)
    ensures Run(b, threads, acts + [a]) == Step(b, Run(b, threads, acts), a)
  {
    assert (acts + [a])[..|acts|] == acts;
  }

  // ---------------------------------------------------------------- sums over the threads

  function InFlight(threads: seq<Flusher>): seq<Entry> {
    if threads == [] then [] else threads[0].Unwritten() + InFlight(threads[1..])
  }

  function Owed(threads: seq<Flusher>): nat {
    if threads == [] then 0 else threads[0].Owed() + Owed(threads[1..])
  }

  lemma {:induction false} SetInFlight(threads: seq<Flusher>, t: nat, f: Flusher)
    requires t < |threads|
    ensures multiset(InFlight(threads[t := f])) + multiset(threads[t].Unwritten()) ==
            multiset(InFlight(threads)) + multiset(f.Unwritten())
    ensures Owed(threads[t := f]) + threads[t].Owed() == Owed(threads) + f.Owed()
  {
    var head, rest := threads[0].Unwritten(), InFlight(threads[1..]);
    if t == 0 {
      assert threads[t := f][1..] == threads[1..];
      BagSwap(multiset(head), multiset(f.Unwritten()), multiset(rest));
    } else {
      SetInFlight(threads[1..], t - 1, f);
      assert threads[t := f][1..] == threads[1..][t - 1 := f];
      var after := InFlight(threads[1..][t - 1 := f]);
      assert InFlight(threads[t := f]) == head + after;
      BagUnder(multiset(head), multiset(after), multiset(threads[t].Unwritten()), multiset(rest), multiset(f.Unwritten()));
    }
  }

  lemma BagSwap(x: multiset<Entry>, y: multiset<Entry>, rest: multiset<Entry>)
    ensures (y + rest) + x == (x + rest) + y
  {
  }

  lemma BagUnder(head: multiset<Entry>, after: multiset<Entry>, x: multiset<Entry>, rest: multiset<Entry>, y: multiset<Entry>)
    requires after + x == rest + y
    ensures (head + after) + x == (head + rest) + y
  {
    forall e ensures ((head + after) + x)[e] == ((head + rest) + y)[e] {
      assert (after + x)[e] == (rest + y)[e];
    }
  }

  /** The bookkeeping of one move: the thread's share changes from `x` to `y` and so does the rest of the ledger. */
  lemma BagMove(all: multiset<Entry>, flight: multiset<Entry>, flight': multiset<Entry>, x: multiset<Entry>, y: multiset<Entry>,
                rest: multiset<Entry>, rest': multiset<Entry>)
    requires flight' + x == flight + y && rest' + y == rest + x && all == flight + rest
    ensures all == flight' + rest'
  {
    forall e ensures all[e] == (flight' + rest')[e] {
      assert (flight' + x)[e] == (flight + y)[e] && (rest' + y)[e] == (rest + x)[e];
    }
  }

  lemma {:induction false} OwedIncludes(threads: seq<Flusher>, t: nat)
    requires t < |threads|
    ensures Owed(threads) >= threads[t].Owed()
  {
    if t > 0 {
      OwedIncludes(threads[1..], t - 1);
    }
  }

  lemma {:induction false} IdleThreads(threads: seq<Flusher>)
    requires forall t :: 0 <= t < |threads| ==> threads[t] == IDLE
    ensures InFlight(threads) == [] && Owed(threads) == 0
  {
    if threads != [] {
      IdleThreads(threads[1..]);
    }
  }

  // ---------------------------------------------------------------- conservation over all runs

  /** The entries that are in no thread's hands. */
  function AtRest(s: State): seq<Entry> {
    s.queue + (s.written + s.dropped)
  }

  /** Where the entries are. */
  function Everywhere(s: State): seq<Entry> {
    InFlight(s.threads) + AtRest(s)
  }

  ghost predicate Conserved(b: Bounds, s: State) {
    multiset(s.accepted) == multiset(Everywhere(s)) &&
    s.unfinished == |s.queue| + Owed(s.threads) + s.failed &&
    |s.queue| <= b.queueMax &&
    forall t :: 0 <= t < |s.threads| ==> s.threads[t].Fits(b)
  }

  lemma ThreadMoved(b: Bounds, s: State, s': State, t: nat, f: Flusher)
    requires t < |s.threads| && Conserved(b, s) && f.Fits(b) && s'.threads == s.threads[t := f]
    requires s'.accepted == s.accepted && |s'.queue| <= b.queueMax
    requires multiset(AtRest(s')) + multiset(f.Unwritten()) == multiset(AtRest(s)) + multiset(s.threads[t].Unwritten())
    requires s'.unfinished - |s'.queue| - f.Owed() - s'.failed == s.unfinished - |s.queue| - s.threads[t].Owed() - s.failed
    ensures Conserved(b, s')
  {
    SetInFlight(s.threads, t, f);
    BagMove(multiset(s.accepted), multiset(InFlight(s.threads)), multiset(InFlight(s'.threads)),
            multiset(s.threads[t].Unwritten()), multiset(f.Unwritten()), multiset(AtRest(s)), multiset(AtRest(s')));
  }

  lemma AcceptConserves(b: Bounds, s: State, e: Entry)
    requires Conserved(b, s)
    ensures Conserved(b, AcceptStep(b, s, e))
  {
    var s' := AcceptStep(b, s, e);
    if |s.queue| < b.queueMax {
      assert multiset(AtRest(s')) == multiset(AtRest(s)) + multiset{e};
    }
  }

  lemma TakeConserves(b: Bounds, s: State, t: nat)
    requires t < |s.threads| && Conserved(b, s)
    ensures Conserved(b, TakeStep(b, s, t))
  {
    var s', f := TakeStep(b, s, t), s.threads[t];
    if s' != s {
      assert s.queue == [s.queue[0]] + s.queue[1..];
      ThreadMoved(b, s, s', t, f.(batch := f.batch + [s.queue[0]]));
    }
  }

  lemma WriteConserves(b: Bounds, s: State, t: nat, ok: bool)
    requires t < |s.threads| && Conserved(b, s)
    ensures Conserved(b, WriteStep(s, t, ok))
  {
    var s', f := WriteStep(s, t, ok), s.threads[t];
    if f.phase.Collecting? && f.batch != [] {
      ThreadMoved(b, s, s', t, s'.threads[t]);
    }
  }

  lemma AckConserves(b: Bounds, s: State, t: nat)
    requires t < |s.threads| && Conserved(b, s)
    ensures !AckRaises(s, t) && Conserved(b, AckStep(s, t))
  {
    var s', f := AckStep(s, t), s.threads[t];
    OwedIncludes(s.threads, t);
    if f.phase.Acking? {
      ThreadMoved(b, s, s', t, s'.threads[t]);
    }
  }

  lemma RequeueConserves(b: Bounds, s: State, t: nat)
    requires t < |s.threads| && Conserved(b, s)
    ensures Conserved(b, RequeueStep(b, s, t))
  {
    var s', f := RequeueStep(b, s, t), s.threads[t];
    if f.phase.Requeuing? {
      if f.phase.left != [] {
        assert f.phase.left == [f.phase.left[0]] + f.phase.left[1..];
      }
      ThreadMoved(b, s, s', t, s'.threads[t]);
    }
  }

  lemma StepConserves(b: Bounds, s: State, a: Action)
    requires Conserved(b, s)
    ensures Conserved(b, Step(b, s, a))
  {
    if a.Accept? {
      AcceptConserves(b, s, a.entry);
    } else if a.thread < |s.threads| {
      match a
      case Take(t) => TakeConserves(b, s, t);
      case Write(t, ok) => WriteConserves(b, s, t, ok);
      case Ack(t) => AckConserves(b, s, t);
      case Requeue(t) => RequeueConserves(b, s, t);
    }
  }

  /**
    Requeue conservation: over every interleaving of any number of threads and any failures, each accepted
    instance is in exactly one place, the queue keeps its bound, and the queue's counter of unfinished
    tasks is what is queued, what is owed and what ever failed.
   */
  lemma {:induction false} ConservationOverRuns(b: Bounds, threads: nat, acts: seq<Action>)
    ensures Conserved(b, Run(b, threads, acts))
  {
    if acts == [] {
      IdleThreads(Start(threads).threads);
    } else {
      ConservationOverRuns(b, threads, acts[..|acts| - 1]);
      StepConserves(b, Run(b, threads, acts[..|acts| - 1]), acts[|acts| - 1]);
    }
  }

  lemma QueueBounded(b: Bounds, threads: nat, acts: seq<Action>)
    ensures |Run(b, threads, acts).queue| <= b.queueMax
  {
    ConservationOverRuns(b, threads, acts);
  }

  /** Nothing is ever taken out of the file, nor forgotten of what was accepted or dropped. */
  predicate Grows(s: State, s': State) {
    s.written <= s'.written && s.accepted <= s'.accepted && s.dropped <= s'.dropped
  }

  lemma StepGrows(b: Bounds, s: State, a: Action)
    ensures Grows(s, Step(b, s, a))
  {
  }

  /** A step of one thread leaves the local variables of the others alone. */
  lemma StepIsLocal(b: Bounds, s: State, a: Action, t: nat)
    requires t < |s.threads| && (a.Accept? || a.thread != t)
    ensures |Step(b, s, a).threads| == |s.threads| && Step(b, s, a).threads[t] == s.threads[t]
  {
  }

  /** Hence `task_done` never raises, and a batch that was written is never put back. */
  lemma TaskDoneNeverRaises(b: Bounds, threads: nat, acts: seq<Action>, t: nat)
    requires t < |Run(b, threads, acts).threads|
    ensures !AckRaises(Run(b, threads, acts), t)
  {
    ConservationOverRuns(b, threads, acts);
    AckConserves(b, Run(b, threads, acts), t);
  }

  // ---------------------------------------------------------------- tokens

  function TotalTokens(es: seq<Entry>): nat {
    if es == [] then 0 else es[0].usage.total + TotalTokens(es[1..])
  }

  function SplitTokens(es: seq<Entry>): nat {
    if es == [] then 0 else es[0].usage.prompt + es[0].usage.completion + SplitTokens(es[1..])
  }

  lemma {:induction false} TotalConcat(a: seq<Entry>, b: seq<Entry>)
    ensures TotalTokens(a + b) == TotalTokens(a) + TotalTokens(b)
  {
    if a == [] {
      assert a + b == b;
    } else {
      TotalConcat(a[1..], b);
      assert (a + b)[1..] == a[1..] + b;
    }
  }

  /** The total depends only on how often each entry occurs. */
  lemma {:induction false} TotalOfBag(a: seq<Entry>, b: seq<Entry>)
    requires multiset(a) == multiset(b)
    ensures TotalTokens(a) == TotalTokens(b)
  {
    if a == [] {
      EmptyBag(a, b);
    } else {
      var i := SameBagWithout(a, b);
      TotalOfBag(a[1..], b[..i] + b[i + 1..]);
      TotalConcat(b[..i], b[i + 1..]);
      TotalConcat(b[..i], [a[0]] + b[i + 1..]);
      assert ([a[0]] + b[i + 1..])[1..] == b[i + 1..];
    }
  }

  lemma {:induction false} BalancedLines(es: seq<Entry>)
    requires forall e :: e in es ==> e.usage.Balanced()
    ensures SplitTokens(es) == TotalTokens(es)
  {
    if es != [] {
      assert es[0] in es && forall e :: e in es[1..] ==> e in es;
      BalancedLines(es[1..]);
    }
  }

  ghost predicate BalancedAccepts(acts: seq<Action>) {
    forall i :: 0 <= i < |acts| && acts[i].Accept? ==> acts[i].entry.usage.Balanced()
  }

  lemma {:induction false} AcceptedBalance(b: Bounds, threads: nat, acts: seq<Action>)
    requires BalancedAccepts(acts)
    ensures forall e :: e in Run(b, threads, acts).accepted ==> e.usage.Balanced()
  {
    if acts != [] {
      AcceptedBalance(b, threads, acts[..|acts| - 1]);
    }
  }

  /**
    No token is lost or billed twice: what was accepted is what is queued, in flight, written and dropped
    together; and if every accepted usage balances, so does every line of the file and the file as a whole.
   */
  lemma {:induction false} TokensConserved(b: Bounds, threads: nat, acts: seq<Action>)
    ensures var s := Run(b, threads, acts);
            TotalTokens(s.accepted) ==
            TotalTokens(s.queue) + TotalTokens(InFlight(s.threads)) + TotalTokens(s.written) + TotalTokens(s.dropped)
    ensures BalancedAccepts(acts) ==> forall e :: e in Run(b, threads, acts).written ==> e.usage.Balanced()
    ensures BalancedAccepts(acts) ==> SplitTokens(Run(b, threads, acts).written) == TotalTokens(Run(b, threads, acts).written)
  {
    var s := Run(b, threads, acts);
    ConservationOverRuns(b, threads, acts);
    TotalOfBag(s.accepted, Everywhere(s));
    TotalConcat(InFlight(s.threads), AtRest(s));
    TotalConcat(s.queue, s.written + s.dropped);
    TotalConcat(s.written, s.dropped);
    if BalancedAccepts(acts) {
      AcceptedBalance(b, threads, acts);
      WrittenWasAccepted(s);
      BalancedLines(s.written);
    }
  }

  lemma WrittenWasAccepted(s: State)
    requires multiset(s.accepted) == multiset(Everywhere(s))
    ensures forall e :: e in s.written ==> e in s.accepted
  {
    forall e | e in s.written ensures e in s.accepted {
      assert e in Everywhere(s);
      assert e in multiset(s.accepted);
    }
  }

  // ---------------------------------------------------------------- order

  ghost predicate NoFailures(acts: seq<Action>) {
    forall i :: 0 <= i < |acts| && acts[i].Write? ==> acts[i].ok
  }

  /** One thread that never failed: what it wrote, what it holds and what is queued, in that order, is what was accepted. */
  ghost predicate InOrder(s: State) {
    |s.threads| == 1 && !s.threads[0].phase.Requeuing? && s.dropped == [] && s.failed == 0 &&
    s.written + s.threads[0].Unwritten() + s.queue == s.accepted
  }

  lemma AcceptKeepsOrder(b: Bounds, s: State, e: Entry)
    requires InOrder(s)
    ensures InOrder(AcceptStep(b, s, e))
  {
    var before := s.written + s.threads[0].Unwritten();
    assert before + (s.queue + [e]) == before + s.queue + [e];
  }

  lemma TakeKeepsOrder(b: Bounds, s: State)
    requires InOrder(s)
    ensures InOrder(TakeStep(b, s, 0))
  {
    var s', f := TakeStep(b, s, 0), s.threads[0];
    if s' != s {
      assert s'.threads[0] == f.(batch := f.batch + [s.queue[0]]);
      NextInLine(s.written, f.batch, s.queue);
    }
  }

  lemma NextInLine(written: seq<Entry>, batch: seq<Entry>, queue: seq<Entry>)
    requires queue != []
    ensures written + (batch + [queue[0]]) + queue[1..] == written + batch + queue
  {
    assert queue == [queue[0]] + queue[1..];
  }

  lemma WriteKeepsOrder(s: State)
    requires InOrder(s)
    ensures InOrder(WriteStep(s, 0, true))
  {
    assert s.written + s.threads[0].batch + [] == s.written + s.threads[0].batch;
  }

  lemma AckKeepsOrder(b: Bounds, s: State)
    requires Conserved(b, s) && InOrder(s)
    ensures InOrder(AckStep(s, 0))
  {
    assert !AckRaises(s, 0) by { AckConserves(b, s, 0); }
    CalmAckKeepsOrder(s);
  }

  lemma CalmAckKeepsOrder(s: State)
    requires InOrder(s) && !AckRaises(s, 0)
    ensures InOrder(AckStep(s, 0))
  {
    assert AckStep(s, 0).threads[0].Unwritten() == s.threads[0].Unwritten();
  }

  /** FIFO: with one worker and no failures, written ++ in flight ++ queued is the accepted sequence in every state. */
  lemma {:induction false} FifoOverRuns(b: Bounds, acts: seq<Action>)
    requires NoFailures(acts)
    ensures InOrder(Run(b, 1, acts))
  {
    if acts != [] {
      var p := acts[..|acts| - 1];
      FifoOverRuns(b, p);
      ConservationOverRuns(b, 1, p);
      var s, a := Run(b, 1, p), acts[|acts| - 1];
      if a.Accept? {
        AcceptKeepsOrder(b, s, a.entry);
      } else if a.thread == 0 {
        match a
        case Take(_) => TakeKeepsOrder(b, s);
        case Write(_, _) => WriteKeepsOrder(s);
        case Ack(_) => AckKeepsOrder(b, s);
        case Requeue(_) =>
      }
    }
  }

  /** So the file's token totals are those of the entries accepted first. */
  lemma WrittenTotals(b: Bounds, acts: seq<Action>)
    requires NoFailures(acts)
    ensures var s := Run(b, 1, acts);
            |s.threads| == 1 && s.written <= s.accepted &&
            TotalTokens(s.written) == TotalTokens(s.accepted) - TotalTokens(s.threads[0].Unwritten() + s.queue)
  {
    var s := Run(b, 1, acts);
    FifoOverRuns(b, acts);
    assert s.accepted == s.written + (s.threads[0].Unwritten() + s.queue);
    TotalConcat(s.written, s.threads[0].Unwritten() + s.queue);
  }
}
