/** What one object of the bucket holds: the lines of a single tenant and hour. */
module LedgerObjects {
  import opened Options
  import opened LedgerBatch
  import opened LedgerProtocol
  import opened LedgerAtMostOnce
  import opened LedgerLoss

  /** All of one tenant and one hour. */
  ghost predicate OnePlace(es: seq<Entry>) {
    forall i, j :: 0 <= i < |es| && 0 <= j < |es| ==> es[i].tenant == es[j].tenant && es[i].hour == es[j].hour
  }

  ghost predicate Separated(groups: seq<Group>) {
    forall g :: 0 <= g < |groups| ==> OnePlace(groups[g])
  }

  /** What a thread is about to put is of one place, and so is every group it has still to come to. */
  ghost predicate Sorted(f: Flusher) {
    match f.phase
    case Claiming(todo, claimed, rest) => OnePlace(claimed + todo) && Separated(rest)
    case Marking(_, _, rest) => Separated(rest)
    case _ => true
  }

  ghost predicate AllSorted(s: State) {
    (forall t: Thread :: Sorted(s.At(t))) && (forall k :: 0 <= k < |s.chunks| ==> OnePlace(s.chunks[k].entries))
  }

  lemma PartitionSeparates(batch: seq<Entry>)
    ensures Separated(Partition(batch))
  {
    PartitionGroups(batch);
    forall g | 0 <= g < |Partition(batch)| ensures OnePlace(Partition(batch)[g]) {
      var group := Partition(batch)[g];
      forall i | 0 <= i < |group| ensures (group[i].tenant, group[i].hour) == group[0].Partition() {
        InPartition(batch, group[0].Partition(), group[i]);
      }
    }
  }

  lemma OnwardSorted(f: Flusher, rest: seq<Group>)
    requires Separated(rest)
    ensures Sorted(Onward(f, rest))
  {
    if rest != [] {
      assert [] + rest[0] == rest[0];
      assert forall g :: 0 <= g < |rest[1..]| ==> rest[1..][g] == rest[g + 1];
    }
  }

  /** Claiming the next entry, or passing it over. */
  lemma ClaimedSorted(todo: seq<Entry>, claimed: seq<Entry>)
    requires OnePlace(claimed + todo) && todo != []
    ensures OnePlace(claimed + [todo[0]] + todo[1..]) && OnePlace(claimed + todo[1..])
  {
    var all := claimed + todo;
    assert claimed + [todo[0]] + todo[1..] == all;
    forall i | 0 <= i < |claimed + todo[1..]| ensures (claimed + todo[1..])[i] in all {
      assert (claimed + todo[1..])[i] == all[if i < |claimed| then i else i + 1];
    }
  }

  /** A step that moves one thread and adds at most one object of one place. */
  lemma OneMoved(s: State, s': State, t: Thread)
    requires AllSorted(s) && Sorted(s'.At(t)) && forall u: Thread :: u != t ==> s'.At(u) == s.At(u) || s'.At(u) == IDLE
    requires s'.chunks == s.chunks || exists c: Chunk :: s'.chunks == s.chunks + [c] && OnePlace(c.entries)
    ensures AllSorted(s')
  {
    forall u: Thread ensures Sorted(s'.At(u)) {
      assert Sorted(s.At(u));
    }
    forall k | 0 <= k < |s'.chunks| ensures OnePlace(s'.chunks[k].entries) {
      assert k < |s.chunks| ==> s'.chunks[k] == s.chunks[k];
    }
  }

  lemma ClaimKeepsSorted(cfg: Config, s: State, t: Thread, o: ClaimOutcome)
    requires AllSorted(s)
    ensures AllSorted(ClaimStep(cfg, s, t, o))
  {
    var f := s.At(t);
    assert Sorted(f);
    if f.phase.Claiming? && f.phase.todo != [] {
      ClaimedSorted(f.phase.todo, f.phase.claimed);
    }
    OneMoved(s, ClaimStep(cfg, s, t, o), t);
  }

  /** What a put leaves of its thread, and the object it may add. */
  lemma PutIsSorted(cfg: Config, s: State, t: Thread, key: string, o: Outcome)
    requires Sorted(s.At(t))
    ensures var f, s' := s.At(t), PutStep(cfg, s, t, key, o);
            Sorted(s'.At(t)) &&
            (s'.chunks == s.chunks || (f.phase.Claiming? && s'.chunks == s.chunks + [Chunk(key, f.phase.claimed)] && OnePlace(f.phase.claimed)))
  {
    var f := s.At(t);
    if f.phase.Claiming? && f.phase.todo == [] {
      OnwardSorted(f, f.phase.rest);
      assert f.phase.claimed + [] == f.phase.claimed;
    }
  }

  lemma PutKeepsSorted(cfg: Config, s: State, t: Thread, key: string, o: Outcome)
    requires AllSorted(s)
    ensures AllSorted(PutStep(cfg, s, t, key, o))
  {
    var f, s' := s.At(t), PutStep(cfg, s, t, key, o);
    assert Sorted(f);
    PutIsSorted(cfg, s, t, key, o);
    assert f.phase.Claiming? && OnePlace(f.phase.claimed) ==> OnePlace(Chunk(key, f.phase.claimed).entries);
    OneMoved(s, s', t);
  }

  lemma BeginKeepsSorted(cfg: Config, s: State, t: Thread)
    requires AllSorted(s)
    ensures AllSorted(BeginStep(cfg, s, t))
  {
    var f := s.At(t);
    PartitionSeparates(f.batch);
    OnwardSorted(f, Partition(f.batch));
    OneMoved(s, BeginStep(cfg, s, t), t);
  }

  lemma MarkKeepsSorted(cfg: Config, s: State, t: Thread, o: Outcome)
    requires AllSorted(s)
    ensures AllSorted(MarkStep(cfg, s, t, o))
  {
    var f := s.At(t);
    assert Sorted(f);
    if f.phase.Marking? {
      OnwardSorted(f, f.phase.rest);
    }
    OneMoved(s, MarkStep(cfg, s, t, o), t);
  }

  lemma QueueKeepsSorted(cfg: Config, s: State, t: Thread)
    requires AllSorted(s)
    ensures AllSorted(TakeStep(cfg, s, t)) && AllSorted(RequeueStep(cfg, s, t))
  {
    assert Sorted(s.At(t));
    OneMoved(s, TakeStep(cfg, s, t), t);
    OneMoved(s, RequeueStep(cfg, s, t), t);
  }

  lemma CrashKeepsSorted(s: State, p: nat)
    requires AllSorted(s)
    ensures AllSorted(CrashStep(s, p))
  {
    var s' := CrashStep(s, p);
    forall u: Thread ensures s'.At(u) == s.At(u) || s'.At(u) == IDLE {
    }
    assert Sorted(s.At(Thread(p, 0)));
    OneMoved(s, s', Thread(p, 0));
  }

  lemma StepKeepsSorted(cfg: Config, s: State, a: Action)
    requires !cfg.sink.LocalFile? && AllSorted(s)
    ensures AllSorted(Step(cfg, s, a))
  {
    match a {
      case Accept(p, e) =>
        assert Sorted(s.At(Thread(p, 0)));
        OneMoved(s, Step(cfg, s, a), Thread(p, 0));
      case Claim(t, o) => ClaimKeepsSorted(cfg, s, t, o);
      case Put(t, key, o) => PutKeepsSorted(cfg, s, t, key, o);
      case Crash(p) => CrashKeepsSorted(s, p);
      case Take(t) => QueueKeepsSorted(cfg, s, t);
      case Requeue(t) => QueueKeepsSorted(cfg, s, t);
      case Begin(t) => BeginKeepsSorted(cfg, s, t);
      case Mark(t, o) => MarkKeepsSorted(cfg, s, t, o);
      case WriteFile(_, _) =>
    }
  }

  lemma {:induction false} RunIsSorted(cfg: Config, acts: seq<Action>)
    requires !cfg.sink.LocalFile?
    ensures AllSorted(Run(cfg, acts))
  {
    if acts != [] {
      RunIsSorted(cfg, acts[..|acts| - 1]);
      StepKeepsSorted(cfg, Run(cfg, acts[..|acts| - 1]), acts[|acts| - 1]);
    }
  }

  /** Over every interleaving, failure and crash, with or without the table: all lines of one object are of one tenant and hour. */
  lemma {:induction false} ObjectsAreUnmixed(cfg: Config, acts: seq<Action>, c: Chunk, x: Entry, y: Entry)
    requires !cfg.sink.LocalFile? && c in Run(cfg, acts).chunks && x in c.entries && y in c.entries
    ensures x.tenant == y.tenant && x.hour == y.hour
  {
    RunIsSorted(cfg, acts);
    var k :| 0 <= k < |Run(cfg, acts).chunks| && Run(cfg, acts).chunks[k] == c;
    assert OnePlace(Run(cfg, acts).chunks[k].entries);
  }
}
