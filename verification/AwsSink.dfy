/** The S3 flush of one thread, as a run of the protocol's steps with everyone else's steps in between. */
module AwsSink {
  import opened Options
  import opened LedgerBatch
  import opened LedgerProtocol
  import opened LedgerAtMostOnce
  import opened LedgerLoss
  import opened LedgerObjects

  datatype ClaimResult = Won | Lost | Raised

  /** A step that thread t neither takes nor dies of. */
  predicate Foreign(a: Action, t: Thread) {
    match a
    case Accept(_, _) => true
    case Crash(p) => p != t.process
    case _ => a.thread != t
  }

  /** Rows and objects are only ever added. */
  predicate Grown(s: State, s': State) {
    s.table.Keys <= s'.table.Keys && s.chunks <= s'.chunks
  }

  lemma StepGrows(cfg: Config, s: State, a: Action)
    ensures Grown(s, Step(cfg, s, a))
  {
  }

  lemma StepIsForeign(cfg: Config, s: State, a: Action, t: Thread)
    requires Foreign(a, t)
    ensures Step(cfg, s, a).At(t) == s.At(t)
  {
  }

  /** The objects put since then include one with these entries, under a key that names the tenant of all of them. */
  ghost predicate PutSince(prefix: string, before: State, after: State, es: seq<Entry>) {
    exists i :: |before.chunks| <= i < |after.chunks| && after.chunks[i].entries == es && Placed(prefix, after.chunks[i])
  }

  ghost predicate Placed(prefix: string, c: Chunk) {
    forall e :: e in c.entries ==> prefix + "tenant_id=" + e.tenant + "/" <= c.key
  }

  lemma PlacedByFirst(prefix: string, c: Chunk)
    requires OnePlace(c.entries) && c.entries != [] && prefix + "tenant_id=" + c.entries[0].tenant + "/" <= c.key
    ensures Placed(prefix, c)
  {
    forall e | e in c.entries ensures prefix + "tenant_id=" + e.tenant + "/" <= c.key {
      var i :| 0 <= i < |c.entries| && c.entries[i] == e;
      assert c.entries[0].tenant == c.entries[i].tenant;
    }
  }

  class AwsSink {
    const cfg: Config
    const prefix: string

    /** The table and the bucket, which all processes share, and what each process holds in memory. */
    var world: State

    /** Every step any process has taken so far. */
    ghost var acts: seq<Action>

    ghost predicate Valid()
      reads this
    {
      !cfg.sink.LocalFile? && Run(cfg, acts) == world
    }

    constructor (cfg: Config, prefix: string)
      requires !cfg.sink.LocalFile?
      ensures Valid() && this.cfg == cfg && this.prefix == prefix && acts == [] && world == START
    {
      this.cfg, this.prefix := cfg, prefix;
      world, acts := START, [];
    }

    /** The protocol step that the statements around it carry out. */
    ghost method Log(a: Action)
      modifies this`acts
      ensures acts == old(acts) + [a] && Run(cfg, acts) == Step(cfg, Run(cfg, old(acts)), a)
    {
      RunAppend(cfg, acts, a);
      acts := acts + [a];
    }

    /** Before each remote call of a thread everyone else may take any number of steps. */
    method Others(t: Thread)
      requires Valid()
      modifies this
      ensures Valid() && world.At(t) == old(world).At(t) && Grown(old(world), world)
    {
      var n: nat := *;
      while n > 0
        invariant Valid() && world.At(t) == old(world).At(t) && Grown(old(world), world)
      {
        var a: Action := *;
        if Foreign(a, t) {
          StepGrows(cfg, world, a);
          StepIsForeign(cfg, world, a, t);
          Log(a);
          world := Step(cfg, world, a);
        }
        n := n - 1;
      }
    }

    /** Claims an id with a conditional put; without a table every claim is won. */
    method Claim(t: Thread, e: Entry) returns (r: ClaimResult)
      requires Valid()
      requires world.At(t).phase.Claiming? && world.At(t).phase.todo != [] && world.At(t).phase.todo[0] == e
      modifies this
      ensures Valid() && Grown(old(world), world)
      ensures !cfg.sink.GuardedBucket? ==> r.Won?
      ensures cfg.sink.GuardedBucket? && !r.Raised? ==> e.id in world.table
      ensures cfg.sink.GuardedBucket? && r.Won? ==> e.id !in old(world).table
      ensures var f := old(world).At(t);
              world.At(t) ==
              if r.Raised? then Fail(f)
              else f.(phase := Claiming(f.phase.todo[1..], if r.Won? then f.phase.claimed + [e] else f.phase.claimed, f.phase.rest))
    {
      Others(t);
      var f := world.At(t);
      var outcome: ClaimOutcome := *;
      Log(Action.Claim(t, outcome));
      r := Won;
      if cfg.sink.GuardedBucket? {
        var taken := e.id in world.table;
        if !taken && !outcome.ClaimFailedBefore? {
          world := world.(table := world.table[e.id := Writing]);
        }
        match outcome {
          case Answered => r := if taken then Lost else Won;
          case AnsweredToRetry => r := Lost;
          case _ => r := Raised;
        }
      }
      world := world.Set(t, if r.Raised? then Fail(f)
                            else f.(phase := Claiming(f.phase.todo[1..], if r.Won? then f.phase.claimed + [e] else f.phase.claimed,
                                                      f.phase.rest)));
    }

    /** What a thread claims is of one tenant and hour at any time. */
    ghost method OnePlaceAt(t: Thread)
      requires Valid() && world.At(t).phase.Claiming?
      ensures OnePlace(world.At(t).phase.claimed + world.At(t).phase.todo)
    {
      RunIsSorted(cfg, acts);
      assert Sorted(world.At(t));
    }

    /** Puts the claimed entries of a group as one object. */
    method Put(t: Thread, key: string, claimed: seq<Entry>) returns (raised: bool)
      requires Valid() && claimed != []
      requires world.At(t).phase.Claiming? && world.At(t).phase.todo == [] && world.At(t).phase.claimed == claimed
      requires prefix + "tenant_id=" + claimed[0].tenant + "/" <= key
      modifies this
      ensures Valid() && Grown(old(world), world)
      ensures !raised ==> PutSince(prefix, old(world), world, claimed)
      ensures var f := old(world).At(t);
              world.At(t) == if raised then Fail(f) else f.(phase := Marking(key, claimed, f.phase.rest))
    {
      Others(t);
      var f := world.At(t);
      OnePlaceAt(t);
      assert claimed + [] == claimed;
      var outcome: Outcome := *;
      Log(Action.Put(t, key, outcome));
      if !outcome.FailedBefore? {
        world := world.(chunks := world.chunks + [Chunk(key, claimed)]);
        assert world.chunks[|world.chunks| - 1] == Chunk(key, claimed);
        PlacedByFirst(prefix, Chunk(key, claimed));
      }
      raised := !outcome.Replied?;
      world := world.Set(t, if raised then Fail(f) else f.(phase := Marking(key, claimed, f.phase.rest)));
    }

    /** Marks a row complete; without a table there is nothing to mark. */
    method MarkComplete(t: Thread, key: string, e: Entry) returns (raised: bool)
      requires Valid() && world.At(t).phase.Marking?
      requires world.At(t).phase.key == key && world.At(t).phase.unmarked != [] && world.At(t).phase.unmarked[0] == e
      modifies this
      ensures Valid() && Grown(old(world), world)
      ensures cfg.sink.GuardedBucket? && !raised ==> e.id in world.table && world.table[e.id] == Complete(key)
      ensures var f := old(world).At(t);
              world.At(t) == if raised then Fail(f) else f.(phase := Marking(key, f.phase.unmarked[1..], f.phase.rest))
    {
      Others(t);
      var f := world.At(t);
      var outcome: Outcome := *;
      Log(Action.Mark(t, outcome));
      raised := false;
      if cfg.sink.GuardedBucket? {
        if !outcome.FailedBefore? {
          world := world.(table := world.table[e.id := Complete(key)]);
        }
        raised := !outcome.Replied?;
      }
      world := world.Set(t, if raised then Fail(f) else f.(phase := Marking(key, f.phase.unmarked[1..], f.phase.rest)));
    }

    /** Claims the entries of a group one by one. */
    method ClaimGroup(t: Thread, batch: seq<Entry>, group: Group, ghost rest: seq<Group>) returns (claimed: seq<Entry>, raised: bool)
      requires Valid() && world.At(t) == Flusher(batch, Claiming(group, [], rest))
      modifies this
      ensures Valid() && Grown(old(world), world)
      ensures world.At(t) == if raised then Flusher(batch, Requeuing(batch)) else Flusher(batch, Claiming([], claimed, rest))
      ensures !cfg.sink.GuardedBucket? ==> !raised && claimed == group
      ensures forall e :: e in claimed ==> e in group
      ensures cfg.sink.GuardedBucket? && !raised ==> AllClaimed(world.table, group)
      ensures cfg.sink.GuardedBucket? ==> forall e :: e in claimed ==> e.id !in old(world).table
    {
      claimed, raised := [], false;
      for i := 0 to |group|
        invariant Valid() && Grown(old(world), world)
        invariant world.At(t) == Flusher(batch, Claiming(group[i..], claimed, rest))
        invariant !cfg.sink.GuardedBucket? ==> claimed == group[..i]
        invariant forall e :: e in claimed ==> e in group
        invariant cfg.sink.GuardedBucket? ==> AllClaimed(world.table, group[..i])
        invariant cfg.sink.GuardedBucket? ==> forall e :: e in claimed ==> e.id !in old(world).table
      {
        var r := Claim(t, group[i]);
        assert group[..i + 1] == group[..i] + [group[i]];
        if r.Raised? {
          raised := true;
          return;
        }
        if r.Won? {
          claimed := claimed + [group[i]];
        }
      }
    }

    /** Marks the rows of a written group one by one. */
    method MarkGroup(t: Thread, batch: seq<Entry>, key: string, claimed: seq<Entry>, ghost rest: seq<Group>) returns (raised: bool)
      requires Valid() && world.At(t) == Flusher(batch, Marking(key, claimed, rest))
      modifies this
      ensures Valid() && Grown(old(world), world)
      ensures world.At(t) == if raised then Flusher(batch, Requeuing(batch)) else Flusher(batch, Marking(key, [], rest))
    {
      for i := 0 to |claimed|
        invariant Valid() && Grown(old(world), world)
        invariant world.At(t) == Flusher(batch, Marking(key, claimed[i..], rest))
      {
        assert claimed[i..][0] == claimed[i] && claimed[i..][1..] == claimed[i + 1..];
        var failed := MarkComplete(t, key, claimed[i]);
        if failed {
          return true;
        }
      }
      assert claimed[|claimed|..] == [];
      return false;
    }

    /** Goes on to the next group, or ends the flush. */
    method Next(t: Thread, ghost a: Action, rest: seq<Group>)
      requires Valid() && Step(cfg, world, a) == world.Set(t, Onward(world.At(t), rest))
      modifies this
      ensures Valid() && Grown(old(world), world) && world.At(t) == Onward(old(world).At(t), rest)
    {
      Log(a);
      world := world.Set(t, Onward(world.At(t), rest));
    }

    /** Flushes one group: claim, put what was won as one object under a new key, mark. */
    method FlushGroup(t: Thread, batch: seq<Entry>, group: Group, rest: seq<Group>) returns (raised: bool)
      requires Valid() && world.At(t) == Flusher(batch, Claiming(group, [], rest))
      modifies this
      ensures Valid() && Grown(old(world), world)
      ensures world.At(t) == if raised then Flusher(batch, Requeuing(batch)) else Onward(Flusher(batch, Collecting), rest)
      ensures cfg.sink.GuardedBucket? && !raised ==> AllClaimed(world.table, group)
      ensures !cfg.sink.GuardedBucket? && !raised && group != [] ==> PutSince(prefix, old(world), world, group)
    {
      OnePlaceAt(t);
      assert [] + group == group;
      var claimed;
      claimed, raised := ClaimGroup(t, batch, group, rest);
      if raised {
        return;
      }
      if claimed == [] {
        Next(t, Action.Put(t, "", Replied), rest);
        return;
      }
      assert claimed[0] in group;
      var unique: string := *;
      var key := prefix + "tenant_id=" + group[0].tenant + "/" + unique;
      raised := Put(t, key, claimed);
      if raised {
        return;
      }
      ghost var written := world;
      raised := MarkGroup(t, batch, key, claimed, rest);
      if !raised {
        Next(t, Action.Mark(t, Replied), rest);
        PutStays(prefix, old(world), written, world, claimed);
      }
    }

    /** Flushes the groups in order, until one raises. */
    method FlushGroups(t: Thread, batch: seq<Entry>, groups: seq<Group>) returns (ok: bool)
      requires Valid() && world.At(t) == Onward(Flusher(batch, Collecting), groups)
      requires forall i :: 0 <= i < |groups| ==> groups[i] != []
      modifies this
      ensures Valid() && Grown(old(world), world)
      ensures world.At(t) == if ok then IDLE else Flusher(batch, Requeuing(batch))
      ensures cfg.sink.GuardedBucket? && ok ==> GroupsClaimed(world.table, groups, |groups|)
      ensures !cfg.sink.GuardedBucket? && ok ==> GroupsPut(prefix, old(world), world, groups, |groups|)
    {
      for i := 0 to |groups|
        invariant Valid() && Grown(old(world), world)
        invariant world.At(t) == Onward(Flusher(batch, Collecting), groups[i..])
        invariant cfg.sink.GuardedBucket? ==> GroupsClaimed(world.table, groups, i)
        invariant !cfg.sink.GuardedBucket? ==> GroupsPut(prefix, old(world), world, groups, i)
      {
        assert groups[i..][0] == groups[i] && groups[i..][1..] == groups[i + 1..];
        ghost var before := world;
        var raised := FlushGroup(t, batch, groups[i], groups[i + 1..]);
        if raised {
          return false;
        }
        if cfg.sink.GuardedBucket? {
          ClaimsStay(before.table, world.table, groups, i);
        } else {
          PutsStay(prefix, old(world), before, world, groups, i);
        }
      }
      return true;
    }

    /** Groups the batch and flushes the groups. */
    method FlushBatchGroups(t: Thread, batch: seq<Entry>) returns (ok: bool)
      requires Valid() && batch != [] && world.At(t) == Flusher(batch, Collecting)
      modifies this
      ensures Valid() && Grown(old(world), world)
      ensures world.At(t) == if ok then IDLE else Flusher(batch, Requeuing(batch))
      ensures cfg.sink.GuardedBucket? && ok ==> AllClaimed(world.table, batch)
      ensures !cfg.sink.GuardedBucket? && ok ==> GroupsPut(prefix, old(world), world, Partition(batch), |Partition(batch)|)
    {
      var groups := GroupBatch(batch);
      Next(t, Begin(t), groups);
      GroupsOfBatch(batch);
      ok := FlushGroups(t, batch, groups);
      if cfg.sink.GuardedBucket? && ok {
        GroupsCoverBatch(world.table, batch);
      }
    }

    /**
      The whole flush of a batch, with everyone else's steps between its remote calls. It ends idle or with the
      whole batch to be put back; a flush that ends without an error leaves every id of the batch claimed or,
      without a table, every group in an object put since under its tenant's prefix. Whatever failed, every object
      holds the lines of one tenant and hour, and the bucket of a guarded ledger never holds an id twice.
     */
    method FlushS3Batch(t: Thread, batch: seq<Entry>) returns (ok: bool)
      requires Valid() && batch != [] && world.At(t) == Flusher(batch, Collecting)
      modifies this
      ensures Valid() && Grown(old(world), world)
      ensures world.At(t) == if ok then IDLE else Flusher(batch, Requeuing(batch))
      ensures cfg.sink.GuardedBucket? && ok ==> AllClaimed(world.table, batch)
      ensures !cfg.sink.GuardedBucket? && ok ==> GroupsPut(prefix, old(world), world, Partition(batch), |Partition(batch)|)
      ensures cfg.sink.GuardedBucket? ==> forall id :: Occurrences(world.chunks, id) <= 1
      ensures forall c, x, y :: c in world.chunks && x in c.entries && y in c.entries ==> x.tenant == y.tenant && x.hour == y.hour
    {
      ok := FlushBatchGroups(t, batch);
      if cfg.sink.GuardedBucket? {
        EveryId(cfg, acts);
      }
      EveryObject(cfg, acts);
    }
  }

  ghost predicate AllClaimed(table: map<string, Row>, es: seq<Entry>) {
    forall i :: 0 <= i < |es| ==> es[i].id in table
  }

  /** Each of the first groups is in an object put since then. */
  ghost predicate GroupsPut(prefix: string, before: State, after: State, groups: seq<Group>, n: nat)
    requires n <= |groups|
  {
    forall g :: 0 <= g < n ==> PutSince(prefix, before, after, groups[g])
  }

  lemma PutStays(prefix: string, before: State, now: State, after: State, es: seq<Entry>)
    requires PutSince(prefix, before, now, es) && Grown(now, after)
    ensures PutSince(prefix, before, after, es)
  {
    var i :| |before.chunks| <= i < |now.chunks| && now.chunks[i].entries == es && Placed(prefix, now.chunks[i]);
    assert after.chunks[i] == now.chunks[i];
  }

  lemma PutsStay(prefix: string, before: State, now: State, after: State, groups: seq<Group>, n: nat)
    requires n < |groups| && GroupsPut(prefix, before, now, groups, n) && Grown(before, now) && Grown(now, after)
    requires PutSince(prefix, now, after, groups[n])
    ensures GroupsPut(prefix, before, after, groups, n + 1)
  {
    forall g | 0 <= g < n + 1 ensures PutSince(prefix, before, after, groups[g]) {
      if g < n {
        PutStays(prefix, before, now, after, groups[g]);
      } else {
        var i :| |now.chunks| <= i < |after.chunks| && after.chunks[i].entries == groups[g] && Placed(prefix, after.chunks[i]);
      }
    }
  }

  ghost predicate GroupsClaimed(table: map<string, Row>, groups: seq<Group>, n: nat)
    requires n <= |groups|
  {
    forall g :: 0 <= g < n ==> AllClaimed(table, groups[g])
  }

  lemma ClaimsStay(rows: map<string, Row>, table: map<string, Row>, groups: seq<Group>, n: nat)
    requires rows.Keys <= table.Keys && n < |groups|
    ensures GroupsClaimed(rows, groups, n) && AllClaimed(table, groups[n]) ==> GroupsClaimed(table, groups, n + 1)
  {
  }

  lemma {:induction false} EveryId(cfg: Config, acts: seq<LedgerProtocol.Action>)
    requires cfg.sink.GuardedBucket?
    ensures forall id :: Occurrences(Run(cfg, acts).chunks, id) <= 1
  {
    forall id ensures Occurrences(Run(cfg, acts).chunks, id) <= 1 {
      AtMostOnce(cfg, acts, id);
    }
  }

  lemma {:induction false} EveryObject(cfg: Config, acts: seq<LedgerProtocol.Action>)
    requires !cfg.sink.LocalFile?
    ensures forall c, x, y :: c in Run(cfg, acts).chunks && x in c.entries && y in c.entries ==> x.tenant == y.tenant && x.hour == y.hour
  {
    forall c, x, y | c in Run(cfg, acts).chunks && x in c.entries && y in c.entries
      ensures x.tenant == y.tenant && x.hour == y.hour
    {
      ObjectsAreUnmixed(cfg, acts, c, x, y);
    }
  }

  lemma GroupsCoverBatch(table: map<string, Row>, batch: seq<Entry>)
    requires batch != [] && GroupsClaimed(table, Partition(batch), |Partition(batch)|)
    ensures AllClaimed(table, batch)
  {
    GroupsOfBatch(batch);
    forall i | 0 <= i < |batch| ensures batch[i].id in table {
      assert batch[i] in batch;
      var g :| 0 <= g < |Partition(batch)| && batch[i] in Partition(batch)[g];
      assert AllClaimed(table, Partition(batch)[g]);
    }
  }

  lemma GroupsOfBatch(batch: seq<Entry>)
    requires batch != []
    ensures Partition(batch) != []
    ensures forall i :: 0 <= i < |Partition(batch)| ==> Partition(batch)[i] != []
    ensures forall e :: e in batch ==> exists g :: 0 <= g < |Partition(batch)| && e in Partition(batch)[g]
  {
    PartitionGroups(batch);
    forall e | e in batch ensures exists g :: 0 <= g < |Partition(batch)| && e in Partition(batch)[g] {
      PartitionMembers(batch, e);
      InSomeGroup(Partition(batch), e);
    }
    assert batch[0] in batch;
  }

  lemma {:induction false} InSomeGroup(groups: seq<Group>, e: Entry)
    requires e in Flat(groups)
    ensures exists g :: 0 <= g < |groups| && e in groups[g]
  {
    if e !in groups[0] {
      InSomeGroup(groups[1..], e);
      var g :| 0 <= g < |groups[1..]| && e in groups[1..][g];
      assert e in groups[g + 1];
    }
  }
}
