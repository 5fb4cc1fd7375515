/**
  The billing ledger object of one process, in its local mode. Its threads interleave: between any two steps of
  one of them the others may append, take, write, acknowledge and put back; every method is a run of such steps.
 */
module BillingLedger {
  import opened Options
  import opened LedgerBatch
  import opened LruSet
  import opened LocalLedger

  datatype Mode = Disabled | Observability | LedgerRequired | AwsNativeReference {
    /** The modes in which a response must be billed. */
    predicate Required() { LedgerRequired? || AwsNativeReference? }
  }

  /** What came of an append: nothing to do, a replayed id, an entry queued, or an error raised. */
  datatype Appended = Ignored | Suppressed | Queued | QueueFull

  function Least(a: nat, b: nat): nat {
    if a <= b then a else b
  }

  ghost predicate AllAccepted(ids: seq<string>, accepted: seq<Entry>) {
    forall id :: id in ids ==> exists i :: 0 <= i < |accepted| && accepted[i].id == id
  }

  /** The part was added, in one piece, to what was there before. */
  ghost predicate AddedWhole(before: seq<Entry>, after: seq<Entry>, part: seq<Entry>) {
    before <= after && exists i :: |before| <= i && StandsAt(after, i, part)
  }

  predicate StandsAt(all: seq<Entry>, i: nat, part: seq<Entry>) {
    i + |part| <= |all| && all[i..i + |part|] == part
  }

  class BillingLedger {
    const mode: Mode
    const bounds: Bounds
    const threadCount: nat
    const seen: BoundedLruSet
    var queue: seq<Entry>
    var unfinished: nat
    var written: seq<Entry>

    /** The local variables of the flushing threads. */
    var threads: seq<Flusher>

    /** Every step taken so far, by appends and by the flushing threads. */
    ghost var acts: seq<Action>

    ghost function Contents(): State
      reads this
    {
      Run(bounds, threadCount, acts)
    }

    ghost predicate Synced()
      reads this
    {
      |threads| == threadCount && Contents().threads == threads &&
      Contents().queue == queue && Contents().unfinished == unfinished && Contents().written == written
    }

    ghost predicate Valid()
      reads this, seen
    {
      Synced() && seen.Valid() && AllAccepted(seen.items, Contents().accepted)
    }

    constructor (mode: Mode, bounds: Bounds, threadCount: nat, lruMax: pos)
      ensures Valid() && fresh(seen) && this.mode == mode && this.bounds == bounds && this.threadCount == threadCount
      ensures seen.maxSize == lruMax && queue == [] && written == [] && seen.items == [] && acts == []
      ensures forall t :: 0 <= t < threadCount ==> threads[t] == IDLE
    {
      this.mode, this.bounds, this.threadCount := mode, bounds, threadCount;
      seen := new BoundedLruSet(lruMax);
      queue, unfinished, written, acts := [], 0, [], [];
      threads := seq(threadCount, _ => IDLE);
    }

    /** The ledger took these steps, and perhaps others of the same kind before. */
    twostate predicate Moved()
      reads this
    {
      old(acts) <= acts && Grows(old(Contents()), Contents())
    }

    /** The step that the statements around it carry out. */
    ghost method Step(a: Action)
      modifies this`acts
      ensures acts == old(acts) + [a] && Contents() == LocalLedger.Step(bounds, old(Contents()), a) && Moved()
    {
      RunAppend(bounds, threadCount, acts, a);
      StepGrows(bounds, Contents(), a);
      acts := acts + [a];
    }

    // -------------------------------------------------------------- the bounded queue

    /** `put_nowait` by an append. */
    method PutNowait(e: Entry) returns (full: bool)
      requires Synced()
      modifies this`queue, this`unfinished, this`acts
      ensures Synced() && Moved() && acts == old(acts) + [Accept(e)]
      ensures Contents() == LocalLedger.Step(bounds, old(Contents()), Accept(e))
      ensures full <==> |old(queue)| >= bounds.queueMax
    {
      Step(Accept(e));
      full := |queue| >= bounds.queueMax;
      if !full {
        queue, unfinished := queue + [e], unfinished + 1;
      }
    }

    /** `put_nowait` by the requeue loop of a thread; a full queue makes it give up the rest of its batch. */
    method PutOneBack(t: nat) returns (full: bool)
      requires Synced() && t < |threads| && threads[t].phase.Requeuing? && threads[t].phase.left != []
      modifies this`queue, this`unfinished, this`threads, this`acts
      ensures Synced() && Moved() && acts == old(acts) + [Requeue(t)]
      ensures Contents() == LocalLedger.Step(bounds, old(Contents()), Requeue(t))
      ensures full <==> |old(queue)| >= bounds.queueMax
    {
      Step(Requeue(t));
      var f := threads[t];
      full := |queue| >= bounds.queueMax;
      if full {
        threads := threads[t := IDLE];
      } else {
        queue, unfinished := queue + [f.phase.left[0]], unfinished + 1;
        threads := threads[t := f.(phase := Requeuing(f.phase.left[1..]))];
      }
    }

    /** `get_nowait`, into the batch of a thread. */
    method GetNowait(t: nat) returns (e: Option<Entry>)
      requires Synced() && t < |threads| && threads[t].phase.Collecting? && |threads[t].batch| < bounds.batchMax
      modifies this`queue, this`threads, this`acts
      ensures Synced() && Moved() && acts == old(acts) + [Take(t)]
      ensures Contents() == LocalLedger.Step(bounds, old(Contents()), Take(t))
      ensures e == if old(queue) == [] then None else Some(old(queue)[0])
    {
      Step(Take(t));
      if queue == [] {
        return None;
      }
      e := Some(queue[0]);
      threads := threads[t := threads[t].(batch := threads[t].batch + [queue[0]])];
      queue := queue[1..];
    }

    method TaskDone(t: nat) returns (raised: bool)
      requires Synced() && t < |threads| && threads[t].phase.Acking? && threads[t].phase.unacked > 0
      modifies this`unfinished, this`threads, this`acts
      ensures Synced() && Moved() && acts == old(acts) + [Ack(t)]
      ensures Contents() == LocalLedger.Step(bounds, old(Contents()), Ack(t))
      ensures raised <==> old(unfinished) == 0
    {
      Step(Ack(t));
      var f := threads[t];
      raised := unfinished == 0;
      if raised {
        threads := threads[t := f.(phase := Requeuing(f.batch))];
      } else {
        unfinished := unfinished - 1;
        threads := threads[t := f.(phase := Acking(f.phase.unacked - 1))];
      }
    }

    /** Writes the thread's batch as one append to the file; the disk may refuse it. */
    method FlushLocalJsonl(t: nat, disk: bool)
      requires Synced() && t < |threads| && threads[t].phase.Collecting? && threads[t].batch != []
      modifies this`written, this`threads, this`acts
      ensures Synced() && Moved() && acts == old(acts) + [Write(t, disk)]
      ensures Contents() == LocalLedger.Step(bounds, old(Contents()), Write(t, disk))
    {
      Step(Write(t, disk));
      var f := threads[t];
      if disk {
        written := written + f.batch;
        threads := threads[t := f.(phase := Acking(|f.batch|))];
      } else {
        threads := threads[t := f.(phase := Requeuing(f.batch))];
      }
    }

    /** A thread is through with its batch. */
    method Rest(t: nat, ghost a: Action)
      requires Synced() && t < |threads|
      requires (a == Ack(t) && threads[t].phase == Acking(0)) || (a == Requeue(t) && threads[t].phase == Requeuing([]))
      modifies this`threads, this`acts
      ensures Synced() && Moved() && acts == old(acts) + [a] && Contents() == old(Contents()).Set(t, IDLE)
    {
      Step(a);
      threads := threads[t := IDLE];
    }

    // -------------------------------------------------------------- append

    /**
      An append, whatever the threads are doing: they never touch the set of seen ids, so it takes effect at
      once when it reaches the queue.
     */
    method Append(e: Entry) returns (outcome: Appended)
      requires Valid()
      modifies this`queue, this`unfinished, this`acts, seen
      ensures Valid() && Moved()
      ensures outcome == (if mode.Disabled? || mode.Observability? then Ignored else if e.id in old(seen.items) then Suppressed
                          else if |old(queue)| >= bounds.queueMax then QueueFull else Queued)
      ensures seen.items == if mode.Required() then Submit(old(seen.items), Submission(e.id, outcome.QueueFull?), seen.maxSize)
                            else old(seen.items)
      ensures queue == if outcome.Queued? then old(queue) + [e] else old(queue)
      ensures Contents().accepted == if outcome.Queued? then old(Contents().accepted) + [e] else old(Contents().accepted)
      ensures NoFailures(old(acts)) ==> NoFailures(acts)
    {
      if !mode.Required() {
        return Ignored;
      }
      ghost var items, accepted := seen.items, Contents().accepted;
      var added := seen.AddIfAbsent(e.id);
      TouchedIds(items, e.id, seen.maxSize);
      if !added {
        return Suppressed;
      }
      var full := PutNowait(e);
      KeptAccepted(items, accepted, Contents().accepted);
      if full {
        WithoutDistinct(seen.items, e.id);
        seen.Discard(e.id);
        return QueueFull;
      }
      assert Contents().accepted[|accepted|].id == e.id;
      return Queued;
    }

    // -------------------------------------------------------------- other threads

    /** The next step of a flushing thread, if it is enabled. */
    method ThreadStep(a: Action)
      requires Valid() && !a.Accept?
      modifies this`queue, this`unfinished, this`written, this`threads, this`acts
      ensures Valid() && Moved() && Contents() == LocalLedger.Step(bounds, old(Contents()), a)
    {
      ghost var accepted := Contents().accepted;
      if a.thread < |threads| {
        var t, f := a.thread, threads[a.thread];
        if a.Take? && f.phase.Collecting? && |f.batch| < bounds.batchMax {
          var _ := GetNowait(t);
        } else if a.Write? && f.phase.Collecting? && f.batch != [] {
          FlushLocalJsonl(t, a.ok);
        } else if a.Ack? && f.phase.Acking? && f.phase.unacked > 0 {
          var _ := TaskDone(t);
        } else if a.Requeue? && f.phase.Requeuing? && f.phase.left != [] {
          var _ := PutOneBack(t);
        } else if (a.Ack? && f.phase == Acking(0)) || (a.Requeue? && f.phase == Requeuing([])) {
          Rest(t, a);
        }
      }
      KeptAccepted(seen.items, accepted, Contents().accepted);
    }

    /** An append, or a step of another thread. */
    method OtherStep(t: nat, a: Action)
      requires Valid() && t < |threads|
      modifies this`queue, this`unfinished, this`written, this`threads, this`acts, seen
      ensures Valid() && Moved() && threads[t] == old(threads)[t]
    {
      if a.Accept? {
        var _ := Append(a.entry);
      } else if a.thread != t {
        StepIsLocal(bounds, Contents(), a, t);
        ThreadStep(a);
      }
    }

    /** Between two steps of a thread everyone else may take any number of theirs, unless all is quiet. */
    method Others(t: nat, quiet: bool)
      requires Valid() && t < |threads|
      modifies this`queue, this`unfinished, this`written, this`threads, this`acts, seen
      ensures Valid() && Moved() && threads[t] == old(threads)[t]
      ensures quiet ==> unchanged(this) && unchanged(seen)
    {
      var n: nat := *;
      if quiet {
        n := 0;
      }
      while n > 0
        invariant Valid() && Moved() && threads[t] == old(threads)[t]
        invariant quiet ==> n == 0 && unchanged(this) && unchanged(seen)
      {
        var a: Action := *;
        OtherStep(t, a);
        n := n - 1;
      }
    }

    // -------------------------------------------------------------- flushing

    /** Acknowledges the next entry of a written batch. */
    method AcknowledgeOne(t: nat, quiet: bool) returns (raised: bool)
      requires Valid() && t < |threads| && threads[t].phase.Acking? && threads[t].phase.unacked > 0
      modifies this`queue, this`unfinished, this`written, this`threads, this`acts, seen
      ensures Valid() && Moved() && !raised && |threads| == |old(threads)|
      ensures threads[t] == old(threads)[t].(phase := Acking(old(threads)[t].phase.unacked - 1))
      ensures quiet ==> unchanged(seen) && (NoFailures(old(acts)) ==> NoFailures(acts))
      ensures quiet ==> unfinished == old(unfinished) - 1
      ensures quiet ==> Contents() == old(Contents()).(unfinished := unfinished, threads := old(threads)[t := threads[t]])
    {
      Others(t, quiet);
      ghost var accepted := Contents().accepted;
      CountsOff(t);
      raised := TaskDone(t);
      KeptAccepted(seen.items, accepted, Contents().accepted);
    }

    /** The loop over the batch. */
    method AcknowledgeEach(t: nat, quiet: bool) returns (raised: bool)
      requires Valid() && t < |threads| && threads[t].phase == Acking(|threads[t].batch|)
      modifies this`queue, this`unfinished, this`written, this`threads, this`acts, seen
      ensures Valid() && Moved() && |threads| == |old(threads)| && threads[t].phase == Acking(0) && !raised
      ensures quiet ==> unchanged(seen) && (NoFailures(old(acts)) ==> NoFailures(acts))
      ensures quiet ==> Contents() == old(Contents()).(unfinished := unfinished, threads := old(threads)[t := threads[t]])
      ensures quiet ==> unfinished == old(unfinished) - |old(threads[t].batch)|
    {
      var batch, i := threads[t].batch, 0;
      ghost var s := Contents();
      raised := false;
      while i < |batch| && !raised
        invariant i <= |batch| && Valid() && Moved() && |threads| == |old(threads)| && !raised
        invariant threads[t] == Flusher(batch, Acking(|batch| - i))
        invariant quiet ==> unchanged(seen) && unfinished == old(unfinished) - i && (NoFailures(old(acts)) ==> NoFailures(acts))
        invariant quiet ==> Contents() == s.(unfinished := unfinished, threads := s.threads[t := threads[t]])
      {
        ghost var before := threads;
        raised := AcknowledgeOne(t, quiet);
        assert quiet ==> before[t := threads[t]] == s.threads[t := threads[t]];
        i := i + 1;
      }
    }

    /** Acknowledges a written batch entry by entry. */
    method Acknowledge(t: nat, quiet: bool) returns (raised: bool)
      requires Valid() && t < |threads| && threads[t].phase == Acking(|threads[t].batch|)
      modifies this`queue, this`unfinished, this`written, this`threads, this`acts, seen
      ensures Valid() && Moved() && |threads| == |old(threads)| && threads[t] == IDLE && !raised
      ensures quiet ==> unchanged(seen) && (NoFailures(old(acts)) ==> NoFailures(acts))
      ensures quiet ==> Contents() == old(Contents()).(unfinished := unfinished, threads := old(threads)[t := IDLE])
      ensures quiet ==> unfinished == old(unfinished) - |old(threads[t].batch)|
    {
      raised := AcknowledgeEach(t, quiet);
      ghost var accepted := Contents().accepted;
      Rest(t, Ack(t));
      KeptAccepted(seen.items, accepted, Contents().accepted);
    }

    /** A thread that has tasks left to acknowledge never drives the counter below zero. */
    ghost method CountsOff(t: nat)
      requires Synced() && t < |threads| && threads[t].phase.Acking? && threads[t].phase.unacked > 0
      ensures unfinished > 0
    {
      TaskDoneNeverRaises(bounds, threadCount, acts, t);
    }

    /** Puts the next entry of a failed batch back, or gives up what is left of it. */
    method RequeueOne(t: nat, batch: seq<Entry>, kept: nat, quiet: bool) returns (full: bool)
      requires Valid() && t < |threads| && kept < |batch| && threads[t] == Flusher(batch, Requeuing(batch[kept..]))
      modifies this`queue, this`unfinished, this`written, this`threads, this`acts, seen
      ensures Valid() && Moved() && |threads| == |old(threads)|
      ensures threads[t] == if full then IDLE else Flusher(batch, Requeuing(batch[kept + 1..]))
      ensures full ==> AddedWhole(old(Contents()).dropped, Contents().dropped, batch[kept..])
      ensures quiet ==> unchanged(seen) && (NoFailures(old(acts)) ==> NoFailures(acts)) && (full <==> |old(queue)| >= bounds.queueMax)
      ensures quiet ==> written == old(written) && Contents().accepted == old(Contents()).accepted
      ensures quiet ==> queue == if full then old(queue) else old(queue) + [batch[kept]]
      ensures quiet ==> Contents().dropped == if full then old(Contents()).dropped + batch[kept..] else old(Contents()).dropped
    {
      Others(t, quiet);
      ghost var now := Contents();
      full := PutOneBack(t);
      KeptAccepted(seen.items, now.accepted, Contents().accepted);
      if full {
        AddedLast(old(Contents()).dropped, now.dropped, batch[kept..]);
      }
    }

    /** The loop of the requeue: entry by entry until one meets a full queue. */
    method PutBackEach(t: nat, quiet: bool) returns (kept: nat, full: bool)
      requires Valid() && t < |threads| && threads[t].phase == Requeuing(threads[t].batch)
      modifies this`queue, this`unfinished, this`written, this`threads, this`acts, seen
      ensures Valid() && Moved() && |threads| == |old(threads)| && kept <= |old(threads[t].batch)|
      ensures full <==> kept < |old(threads[t].batch)|
      ensures threads[t] == if full then IDLE else old(threads[t]).(phase := Requeuing([]))
      ensures full ==> AddedWhole(old(Contents()).dropped, Contents().dropped, old(threads[t].batch)[kept..])
      ensures quiet ==> unchanged(seen) && (NoFailures(old(acts)) ==> NoFailures(acts)) && written == old(written)
      ensures quiet && |old(queue)| <= bounds.queueMax ==>
                kept == Least(|old(threads[t].batch)|, bounds.queueMax - |old(queue)|) &&
                queue == old(queue) + old(threads[t].batch)[..kept] && Contents().accepted == old(Contents()).accepted &&
                Contents().dropped == old(Contents()).dropped + old(threads[t].batch)[kept..]
    {
      var batch := threads[t].batch;
      ghost var s, q, fits := Contents(), queue, quiet && |queue| <= bounds.queueMax;
      kept, full := 0, false;
      while kept < |batch|
        invariant kept <= |batch| && Valid() && Moved() && |threads| == |old(threads)|
        invariant threads[t] == Flusher(batch, Requeuing(batch[kept..]))
        invariant quiet ==> unchanged(seen) && (NoFailures(old(acts)) ==> NoFailures(acts)) && written == old(written)
        invariant fits ==> kept <= bounds.queueMax - |q| && queue == q + batch[..kept]
        invariant fits ==> Contents().accepted == s.accepted && Contents().dropped == s.dropped
      {
        KeptOneMore(q, batch, kept);
        ghost var dropped := Contents().dropped;
        full := RequeueOne(t, batch, kept, quiet);
        if full {
          AddedSooner(s.dropped, dropped, Contents().dropped, batch[kept..]);
          return;
        }
        kept := kept + 1;
      }
      assert batch[kept..] == [] && batch[..kept] == batch;
    }

    /** Puts a failed batch back; the first entry that meets a full queue and all behind it are dropped. */
    method PutBack(t: nat, quiet: bool) returns (kept: nat)
      requires Valid() && t < |threads| && threads[t].phase == Requeuing(threads[t].batch)
      modifies this`queue, this`unfinished, this`written, this`threads, this`acts, seen
      ensures Valid() && Moved() && |threads| == |old(threads)| && threads[t] == IDLE && kept <= |old(threads[t].batch)|
      ensures kept < |old(threads[t].batch)| ==>
                AddedWhole(old(Contents()).dropped, Contents().dropped, old(threads[t].batch)[kept..])
      ensures quiet ==> unchanged(seen) && (NoFailures(old(acts)) ==> NoFailures(acts)) && written == old(written)
      ensures quiet && |old(queue)| <= bounds.queueMax ==>
                kept == Least(|old(threads[t].batch)|, bounds.queueMax - |old(queue)|) &&
                queue == old(queue) + old(threads[t].batch)[..kept] && Contents().accepted == old(Contents()).accepted &&
                Contents().dropped == old(Contents()).dropped + old(threads[t].batch)[kept..]
    {
      var full;
      kept, full := PutBackEach(t, quiet);
      if !full {
        ghost var accepted := Contents().accepted;
        Rest(t, Requeue(t));
        KeptAccepted(seen.items, accepted, Contents().accepted);
      }
    }

    /** Writes the thread's batch, whatever the others do first. */
    method WriteBatch(t: nat, disk: bool, quiet: bool)
      requires Valid() && t < |threads| && threads[t].phase.Collecting? && threads[t].batch != []
      modifies this`queue, this`unfinished, this`written, this`threads, this`acts, seen
      ensures Valid() && Moved() && |threads| == |old(threads)|
      ensures var batch := old(threads)[t].batch;
              threads[t] == Flusher(batch, if disk then Acking(|batch|) else Requeuing(batch)) &&
              (disk ==> AddedWhole(old(written), written, batch))
      ensures quiet ==> unchanged(seen) && acts == old(acts) + [Write(t, disk)]
      ensures quiet ==> Contents() == LocalLedger.Step(bounds, old(Contents()), Write(t, disk))
    {
      Others(t, quiet);
      ghost var accepted, w, batch := Contents().accepted, written, threads[t].batch;
      FlushLocalJsonl(t, disk);
      KeptAccepted(seen.items, accepted, Contents().accepted);
      if disk {
        AddedLast(old(written), w, batch);
      }
    }

    /**
      Flushes the thread's batch: either it stands in the file in one piece and is acknowledged, or it goes back
      to the queue entry by entry, and what meets a full queue is dropped in one piece.
     */
    method FlushBatch(t: nat, disk: bool, quiet: bool) returns (kept: nat)
      requires Valid() && t < |threads| && threads[t].phase.Collecting?
      modifies this`queue, this`unfinished, this`written, this`threads, this`acts, seen
      ensures Valid() && Moved() && |threads| == |old(threads)| && threads[t] == IDLE && kept <= |old(threads)[t].batch|
      ensures disk && old(threads)[t].batch != [] ==> AddedWhole(old(written), written, old(threads)[t].batch)
      ensures !disk && kept < |old(threads)[t].batch| ==>
                AddedWhole(old(Contents()).dropped, Contents().dropped, old(threads)[t].batch[kept..])
      ensures quiet ==> unchanged(seen) && (NoFailures(old(acts)) && disk ==> NoFailures(acts))
      ensures quiet && |old(queue)| + |old(threads)[t].batch| <= bounds.queueMax ==>
                Contents().accepted == old(Contents()).accepted && Contents().dropped == old(Contents()).dropped &&
                written == (if disk then old(written) + old(threads)[t].batch else old(written)) &&
                queue == (if disk then old(queue) else old(queue) + old(threads)[t].batch)
    {
      kept := 0;
      var batch := threads[t].batch;
      if batch == [] {
        return;
      }
      WriteBatch(t, disk, quiet);
      var failed := !disk;
      ghost var now, dropped := written, Contents().dropped;
      if !failed {
        failed := Acknowledge(t, quiet);
        AddedStays(old(written), now, written, batch);
      }
      if failed {
        kept := PutBack(t, quiet);
        if kept < |batch| {
          AddedSooner(old(Contents()).dropped, dropped, Contents().dropped, batch[kept..]);
        }
        assert batch[..|batch|] == batch && batch[|batch|..] == [];
      }
    }

    /** Takes the next entry from the front of the queue. */
    method CollectOne(t: nat, quiet: bool) returns (e: Option<Entry>)
      requires Valid() && t < |threads| && threads[t].phase.Collecting? && |threads[t].batch| < bounds.batchMax
      modifies this`queue, this`unfinished, this`written, this`threads, this`acts, seen
      ensures Valid() && Moved() && |threads| == |old(threads)|
      ensures threads[t] == if e.Some? then old(threads)[t].(batch := old(threads)[t].batch + [e.value]) else old(threads)[t]
      ensures quiet ==> unchanged(seen) && (NoFailures(old(acts)) ==> NoFailures(acts)) && (e.None? <==> old(queue) == [])
      ensures quiet ==> queue == if e.Some? then old(queue)[1..] else old(queue)
      ensures quiet ==> Contents() == old(Contents()).(queue := queue, threads := old(threads)[t := threads[t]])
      ensures quiet && e.Some? ==> e.value == old(queue)[0]
    {
      Others(t, quiet);
      ghost var accepted := Contents().accepted;
      e := GetNowait(t);
      KeptAccepted(seen.items, accepted, Contents().accepted);
    }

    /** Takes entries until the batch is full or the queue is empty. */
    method Collect(t: nat, quiet: bool)
      requires Valid() && t < |threads| && threads[t].phase.Collecting? && |threads[t].batch| <= bounds.batchMax
      modifies this`queue, this`unfinished, this`written, this`threads, this`acts, seen
      ensures Valid() && Moved() && |threads| == |old(threads)| && threads[t].phase.Collecting?
      ensures old(threads)[t].batch <= threads[t].batch && |threads[t].batch| <= bounds.batchMax
      ensures quiet ==> unchanged(seen) && (NoFailures(old(acts)) ==> NoFailures(acts))
      ensures quiet ==>
                var n := Least(|old(queue)|, bounds.batchMax - |old(threads)[t].batch|);
                threads[t].batch == old(threads)[t].batch + old(queue)[..n] &&
                Contents() == old(Contents()).(queue := old(queue)[n..], threads := old(threads)[t := threads[t]])
    {
      ghost var q, s, first, n := queue, Contents(), threads[t].batch, 0;
      while |threads[t].batch| < bounds.batchMax
        invariant Valid() && Moved() && |threads| == |old(threads)| && threads[t].phase.Collecting?
        invariant first <= threads[t].batch && |threads[t].batch| <= bounds.batchMax
        invariant quiet ==> unchanged(seen) && (NoFailures(old(acts)) ==> NoFailures(acts))
        invariant quiet ==> n <= |q| && |threads[t].batch| == |first| + n && threads[t].batch == first + q[..n]
        invariant quiet ==> Contents() == s.(queue := q[n..], threads := old(threads)[t := threads[t]])
        decreases bounds.batchMax - |threads[t].batch|
      {
        if quiet && n < |q| {
          OneMore(first, q, n);
        }
        var e := CollectOne(t, quiet);
        if e.None? {
          break;
        }
        n := n + 1;
      }
    }

    /** What one drain of up to a batch does when nobody interferes. */
    twostate predicate Drained(disk: bool)
      reads this
    {
      var n := Least(|old(queue)|, bounds.batchMax);
      Contents().accepted == old(Contents()).accepted && Contents().dropped == old(Contents()).dropped &&
      (disk ==> written == old(written) + old(queue)[..n] && queue == old(queue)[n..]) &&
      (!disk ==> written == old(written) && queue == old(queue)[n..] + old(queue)[..n])
    }

    /** Flushes what a thread gathered, if anything. */
    method FlushGathered(t: nat, disk: bool, quiet: bool, ghost taken: seq<Entry>, ghost rest: seq<Entry>)
      requires Valid() && t < |threads| && threads[t].phase.Collecting?
      requires quiet ==> threads[t].batch == taken && queue == rest && |taken| + |rest| <= bounds.queueMax
      modifies this`queue, this`unfinished, this`written, this`threads, this`acts, seen
      ensures Valid() && Moved() && |threads| == |old(threads)| && threads[t] == IDLE
      ensures quiet ==> unchanged(seen) && (NoFailures(old(acts)) && disk ==> NoFailures(acts))
      ensures quiet ==>
                Contents().accepted == old(Contents()).accepted && Contents().dropped == old(Contents()).dropped &&
                written == (if disk then old(written) + taken else old(written)) && queue == if disk then rest else rest + taken
    {
      if threads[t].batch != [] {
        var _ := FlushBatch(t, disk, quiet);
      } else {
        assert threads[t] == IDLE;
      }
    }

    /** The worker's way to gather a batch: it waits for a first entry, then takes what else fits without waiting. */
    method Gather(t: nat, quiet: bool)
      requires Valid() && t < |threads| && threads[t] == IDLE
      modifies this`queue, this`unfinished, this`written, this`threads, this`acts, seen
      ensures Valid() && Moved() && |threads| == |old(threads)| && threads[t].phase.Collecting?
      ensures |threads[t].batch| <= bounds.batchMax
      ensures quiet ==> unchanged(seen) && (NoFailures(old(acts)) ==> NoFailures(acts))
      ensures quiet ==>
                var n := Least(|old(queue)|, bounds.batchMax);
                threads[t].batch == old(queue)[..n] &&
                Contents() == old(Contents()).(queue := old(queue)[n..], threads := old(threads)[t := threads[t]])
    {
      if queue != [] {
        FirstThenRest(queue, bounds);
      }
      var first := CollectOne(t, quiet);
      if first.Some? {
        Collect(t, quiet);
      }
    }

    /** `flush` by an idle thread: it ends idle again, and with nobody else about even a failed batch fits back. */
    method Flush(t: nat, disk: bool, quiet: bool)
      requires Valid() && t < |threads| && threads[t] == IDLE
      modifies this`queue, this`unfinished, this`written, this`threads, this`acts, seen
      ensures Valid() && Moved() && |threads| == |old(threads)| && threads[t] == IDLE
      ensures quiet ==> unchanged(seen) && Drained(disk) && (NoFailures(old(acts)) && disk ==> NoFailures(acts))
    {
      ghost var q, n := queue, Least(|queue|, bounds.batchMax);
      QueueBounded(bounds, threadCount, acts);
      WholeBatch(q, bounds);
      Collect(t, quiet);
      FlushGathered(t, disk, quiet, q[..n], q[n..]);
    }

    /** One turn of the worker: a full batch, a last one and one cut short by the timeout are all flushed. */
    method WorkerTurn(t: nat, stopping: bool, disk: bool, quiet: bool)
      requires Valid() && t < |threads| && threads[t] == IDLE
      modifies this`queue, this`unfinished, this`written, this`threads, this`acts, seen
      ensures Valid() && Moved() && |threads| == |old(threads)| && threads[t] == IDLE
      ensures quiet ==> unchanged(seen) && Drained(disk) && (NoFailures(old(acts)) && disk ==> NoFailures(acts))
    {
      ghost var q, n := queue, Least(|queue|, bounds.batchMax);
      QueueBounded(bounds, threadCount, acts);
      WholeBatch(q, bounds);
      Gather(t, quiet);
      if |threads[t].batch| >= bounds.batchMax || stopping {
        FlushGathered(t, disk, quiet, q[..n], q[n..]);
      } else {
        FlushGathered(t, disk, quiet, q[..n], q[n..]);
      }
    }

    /**
      `close`. Once the worker has joined and nobody appends any more, it writes exactly the first entries that
      fit one batch, so everything is written exactly when the rest fits; and then, after a life without
      failures of one thread at a time, the file is the accepted sequence.
     */
    method Close(t: nat, disk: bool, quiet: bool)
      requires Valid() && t < |threads| && threads[t] == IDLE
      modifies this`queue, this`unfinished, this`written, this`threads, this`acts, seen
      ensures Valid() && Moved() && |threads| == |old(threads)| && threads[t] == IDLE
      ensures quiet ==> Drained(disk)
      ensures quiet && disk ==> (queue == [] <==> |old(queue)| <= bounds.batchMax)
      ensures quiet && disk && NoFailures(old(acts)) && threadCount == 1 ==> written + queue == Contents().accepted
      ensures quiet && disk && NoFailures(old(acts)) && threadCount == 1 && |old(queue)| <= bounds.batchMax ==>
                written == Contents().accepted
    {
      Flush(t, disk, quiet);
      if quiet && disk && NoFailures(old(acts)) && threadCount == 1 {
        FifoOverRuns(bounds, acts);
      }
    }
  }

  lemma OneMore(first: seq<Entry>, q: seq<Entry>, n: nat)
    requires n < |q|
    ensures q[n..] != [] && q[n..][0] == q[n] && q[n..][1..] == q[n + 1..]
    ensures first + q[..n] + [q[n]] == first + q[..n + 1]
  {
  }

  /** A batch taken from the queue fits back into it. */
  lemma WholeBatch(queue: seq<Entry>, b: Bounds)
    requires |queue| <= b.queueMax
    ensures var n := Least(|queue|, b.batchMax);
            [] + queue[..n] == queue[..n] && |queue[n..]| + |queue[..n]| <= b.queueMax
  {
  }

  lemma FirstThenRest(queue: seq<Entry>, b: Bounds)
    requires queue != []
    ensures [queue[0]] + queue[1..][..Least(|queue| - 1, b.batchMax - 1)] == queue[..Least(|queue|, b.batchMax)]
    ensures queue[1..][Least(|queue| - 1, b.batchMax - 1)..] == queue[Least(|queue|, b.batchMax)..]
  {
  }

  lemma AddedLast(before: seq<Entry>, now: seq<Entry>, part: seq<Entry>)
    requires before <= now
    ensures AddedWhole(before, now + part, part)
  {
    assert StandsAt(now + part, |now|, part);
  }

  lemma AddedSooner(before: seq<Entry>, now: seq<Entry>, after: seq<Entry>, part: seq<Entry>)
    requires before <= now && AddedWhole(now, after, part)
    ensures AddedWhole(before, after, part)
  {
    var i :| |now| <= i && StandsAt(after, i, part);
  }

  lemma AddedStays(before: seq<Entry>, now: seq<Entry>, after: seq<Entry>, part: seq<Entry>)
    requires AddedWhole(before, now, part) && now <= after
    ensures AddedWhole(before, after, part)
  {
    var i :| |before| <= i && StandsAt(now, i, part);
    assert after[i..i + |part|] == now[i..i + |part|];
    assert StandsAt(after, i, part);
  }

  lemma KeptAccepted(ids: seq<string>, before: seq<Entry>, after: seq<Entry>)
    requires before <= after && AllAccepted(ids, before)
    ensures AllAccepted(ids, after)
  {
  }

  /** One more entry of the batch is back in the queue. */
  lemma KeptOneMore(queue: seq<Entry>, batch: seq<Entry>, kept: nat)
    requires kept < |batch|
    ensures queue + batch[..kept] + [batch[kept]] == queue + batch[..kept + 1]
  {
  }

  lemma TouchedIds(items: Items, key: string, max: nat)
    requires Distinct(items)
    ensures forall k :: k in Touched(items, key, max) ==> k in items || k == key
  {
    WithoutDistinct(items, key);
  }
}
