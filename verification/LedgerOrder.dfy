/** The order of the shared protocol's queues: whatever fails, each is first in, first out, and within its bound. */
module LedgerOrder {
  import opened Options
  import opened LedgerBatch
  import opened LedgerProtocol
  import opened LedgerLoss

  /** What was put into the queue of a process since it started, by appends and by threads with a failed batch. */
  function Puts(cfg: Config, acts: seq<Action>, p: nat): seq<Entry> {
    if acts == [] then []
    else
      var before, s := Puts(cfg, acts[..|acts| - 1], p), Run(cfg, acts[..|acts| - 1]);
      match acts[|acts| - 1]
      case Accept(q, e) => if q == p && |s.Queue(p)| < cfg.queueMax then before + [e] else before
      case Requeue(t) =>
        var f := s.At(t);
        if t.process == p && f.phase.Requeuing? && f.phase.left != [] && |s.Queue(p)| < cfg.queueMax
        then before + [f.phase.left[0]]
        else before
      case Crash(q) => if q == p then [] else before
      case _ => before
  }

  /** How many of them its threads have taken. */
  function Takes(cfg: Config, acts: seq<Action>, p: nat): nat {
    if acts == [] then 0
    else
      var before, s := Takes(cfg, acts[..|acts| - 1], p), Run(cfg, acts[..|acts| - 1]);
      match acts[|acts| - 1]
      case Take(t) =>
        if t.process == p && s.At(t).phase.Collecting? && |s.At(t).batch| < cfg.batchMax && s.Queue(p) != []
        then before + 1
        else before
      case Crash(q) => if q == p then 0 else before
      case _ => before
  }

  /** A queue holds, in the order in which they were put, those entries that have not been taken; never more than its bound. */
  lemma {:induction false} FirstInFirstOut(cfg: Config, acts: seq<Action>, p: nat)
    ensures Takes(cfg, acts, p) <= |Puts(cfg, acts, p)|
    ensures Run(cfg, acts).Queue(p) == Puts(cfg, acts, p)[Takes(cfg, acts, p)..]
    ensures |Run(cfg, acts).Queue(p)| <= cfg.queueMax
  {
    if acts != [] {
      var s, a := Run(cfg, acts[..|acts| - 1]), acts[|acts| - 1];
      FirstInFirstOut(cfg, acts[..|acts| - 1], p);
      match a {
        case Accept(_, _) => AcceptQueue(cfg, s, a, p);
        case Take(t) => TakeQueue(cfg, s, t, p);
        case Requeue(t) => RequeueQueue(cfg, s, t, p);
        case Crash(q) =>
        case _ => QueueStays(cfg, s, a);
      }
    }
  }

  lemma AcceptQueue(cfg: Config, s: State, a: Action, p: nat)
    requires a.Accept?
    ensures Step(cfg, s, a).Queue(p) == s.Queue(p) + (if a.process == p && |s.Queue(p)| < cfg.queueMax then [a.entry] else [])
  {
  }

  lemma TakeQueue(cfg: Config, s: State, t: Thread, p: nat)
    ensures TakeStep(cfg, s, t).Queue(p) ==
            if t.process == p && s.At(t).phase.Collecting? && |s.At(t).batch| < cfg.batchMax && s.Queue(p) != [] then s.Queue(p)[1..]
            else s.Queue(p)
  {
  }

  lemma RequeueQueue(cfg: Config, s: State, t: Thread, p: nat)
    ensures var f := s.At(t);
            RequeueStep(cfg, s, t).Queue(p) ==
            if t.process == p && f.phase.Requeuing? && f.phase.left != [] && |s.Queue(p)| < cfg.queueMax
            then s.Queue(p) + [f.phase.left[0]]
            else s.Queue(p)
  {
  }

  lemma QueueStays(cfg: Config, s: State, a: Action)
    requires !a.Accept? && !a.Take? && !a.Requeue? && !a.Crash?
    ensures Step(cfg, s, a).queues == s.queues
  {
  }

  /** What a thread takes is the oldest entry that was not taken before, and it goes to the end of the thread's batch. */
  lemma {:induction false} TakesTheOldest(cfg: Config, acts: seq<Action>, t: Thread)
    requires Run(cfg, acts).At(t).phase.Collecting? && |Run(cfg, acts).At(t).batch| < cfg.batchMax
    requires Run(cfg, acts).Queue(t.process) != []
    ensures Takes(cfg, acts, t.process) < |Puts(cfg, acts, t.process)|
    ensures Run(cfg, acts + [Take(t)]).At(t).batch ==
            Run(cfg, acts).At(t).batch + [Puts(cfg, acts, t.process)[Takes(cfg, acts, t.process)]]
  {
    FirstInFirstOut(cfg, acts, t.process);
    RunAppend(cfg, acts, Take(t));
  }

  /** No batch is ever larger than its bound. */
  lemma {:induction false} BatchesFit(cfg: Config, acts: seq<Action>, t: Thread)
    ensures |Run(cfg, acts).At(t).batch| <= cfg.batchMax
  {
    if acts != [] {
      BatchesFit(cfg, acts[..|acts| - 1], t);
      StepKeepsFit(cfg, Run(cfg, acts[..|acts| - 1]), acts[|acts| - 1], t);
    }
  }

  lemma StepKeepsFit(cfg: Config, s: State, a: Action, t: Thread)
    requires |s.At(t).batch| <= cfg.batchMax
    ensures |Step(cfg, s, a).At(t).batch| <= cfg.batchMax
  {
  }

  /** What the thread has still to put back, if it is about that, is the rest of its batch. */
  ghost predicate HasRest(f: Flusher) {
    f.phase.Requeuing? ==> |f.phase.left| <= |f.batch| && f.phase.left == f.batch[|f.batch| - |f.phase.left|..]
  }

  /** A failed batch is put back from its first entry to its last. */
  lemma {:induction false} PutsBackInOrder(cfg: Config, acts: seq<Action>, t: Thread)
    ensures HasRest(Run(cfg, acts).At(t))
  {
    if acts != [] {
      var s, a := Run(cfg, acts[..|acts| - 1]), acts[|acts| - 1];
      PutsBackInOrder(cfg, acts[..|acts| - 1], t);
      if a.Requeue? {
        RequeueKeepsRest(cfg, s, a.thread, t);
      } else {
        OthersKeepRest(cfg, s, a, t);
      }
    }
  }

  lemma RequeueKeepsRest(cfg: Config, s: State, u: Thread, t: Thread)
    requires HasRest(s.At(t))
    ensures HasRest(RequeueStep(cfg, s, u).At(t))
  {
  }

  /** A batch that fails is to be put back as a whole. */
  lemma OthersKeepRest(cfg: Config, s: State, a: Action, t: Thread)
    requires !a.Requeue?
    ensures var f, f' := s.At(t), Step(cfg, s, a).At(t);
            f'.phase.Requeuing? && f' != f ==> f'.phase.left == f'.batch
  {
  }
}
