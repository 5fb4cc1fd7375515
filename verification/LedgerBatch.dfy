/** Ledger entries, and how an S3 flush groups a batch by tenant and hour. */
module LedgerBatch {
  import opened Options

  /** The token counts of a response. */
  datatype Usage = Usage(prompt: nat, completion: nat, total: nat) {
    predicate Balanced() { prompt + completion == total }
  }

  /** A billing entry; its creation time matters only through the hour it falls in. */
  datatype Entry = Entry(id: string, tenant: string, hour: nat, usage: Usage) {
    function Partition(): (string, nat) { (tenant, hour) }
  }

  type Group = seq<Entry>

  /** A value of an upstream response's `usage` object, as `isinstance(value, int)` sees it. */
  datatype Field = Missing | NotAnInt | Int(value: int)

  /** An upstream body: with a `usage` object or without one. */
  datatype Body = NoUsage | WithUsage(prompt: Field, completion: Field, total: Field)

  /** `require_usage_tokens`: the only usage it returns is the one the body states, and only if it balances. */
  function RequireUsage(body: Body): (u: Option<Usage>)
    ensures forall v: Usage :: u == Some(v) <==>
              v.prompt + v.completion == v.total && body == WithUsage(Int(v.prompt), Int(v.completion), Int(v.total))
  {
    if body.NoUsage? then None
    else
      var WithUsage(p, c, t) := body;
      if !(p.Int? && p.value >= 0 && c.Int? && c.value >= 0 && t.Int? && t.value >= 0) then None
      else if p.value + c.value != t.value then None
      else Some(Usage(p.value, c.value, t.value))
  }

  /** Appends an entry to the list of its partition, opening a new list at the end if there is none. */
  function AddTo(groups: seq<Group>, e: Entry): seq<Group> {
    if groups == [] then [[e]]
    else if groups[0] != [] && groups[0][0].Partition() == e.Partition() then [groups[0] + [e]] + groups[1..]
    else [groups[0]] + AddTo(groups[1..], e)
  }

  function Partition(batch: seq<Entry>): seq<Group> {
    if batch == [] then [] else AddTo(Partition(batch[..|batch| - 1]), batch[|batch| - 1])
  }

  function Flat(groups: seq<Group>): seq<Entry> {
    if groups == [] then [] else groups[0] + Flat(groups[1..])
  }

  /** The entries of a batch that belong to a partition, in order. */
  function OfPartition(batch: seq<Entry>, p: (string, nat)): seq<Entry> {
    if batch == [] then []
    else
      var init, last := OfPartition(batch[..|batch| - 1], p), batch[|batch| - 1];
      if last.Partition() == p then init + [last] else init
  }

  /** The groups are non-empty, of pairwise different partitions, and each holds its partition's entries in order. */
  ghost predicate Groups(groups: seq<Group>, batch: seq<Entry>) {
    (forall i :: 0 <= i < |groups| ==> groups[i] != [] && groups[i] == OfPartition(batch, groups[i][0].Partition())) &&
    (forall i, j :: 0 <= i < j < |groups| ==> groups[i][0].Partition() != groups[j][0].Partition())
  }

  lemma OfPartitionAppend(batch: seq<Entry>, e: Entry, p: (string, nat))
    ensures OfPartition(batch + [e], p) == if e.Partition() == p then OfPartition(batch, p) + [e] else OfPartition(batch, p)
  {
    assert (batch + [e])[..|batch|] == batch;
  }

  /** The position of an entry's partition, or the number of groups if it has none yet. */
  function Position(groups: seq<Group>, e: Entry): (i: nat)
    ensures i <= |groups|
    ensures i < |groups| ==> groups[i] != [] && groups[i][0].Partition() == e.Partition()
    ensures forall j :: 0 <= j < i && groups[j] != [] ==> groups[j][0].Partition() != e.Partition()
  {
    if groups == [] then 0
    else if groups[0] != [] && groups[0][0].Partition() == e.Partition() then 0
    else 1 + Position(groups[1..], e)
  }

  lemma {:induction false} AddToAt(groups: seq<Group>, e: Entry)
    ensures AddTo(groups, e) ==
            if Position(groups, e) == |groups| then groups + [[e]]
            else groups[Position(groups, e) := groups[Position(groups, e)] + [e]]
  {
    if groups != [] && Position(groups, e) != 0 {
      AddToAt(groups[1..], e);
    }
  }

  lemma {:induction false} AddToFlat(groups: seq<Group>, e: Entry)
    ensures multiset(Flat(AddTo(groups, e))) == multiset(Flat(groups)) + multiset{e}
  {
    if groups == [] {
      assert Flat([[e]]) == [e] + Flat([]);
    } else if groups[0] != [] && groups[0][0].Partition() == e.Partition() {
      assert ([groups[0] + [e]] + groups[1..])[1..] == groups[1..];
    } else {
      AddToFlat(groups[1..], e);
      assert ([groups[0]] + AddTo(groups[1..], e))[1..] == AddTo(groups[1..], e);
    }
  }

  /** Grouping loses, adds and duplicates nothing. */
  lemma {:induction false} PartitionConserves(batch: seq<Entry>)
    ensures multiset(Flat(Partition(batch))) == multiset(batch)
  {
    if batch != [] {
      var p, e := batch[..|batch| - 1], batch[|batch| - 1];
      assert multiset(batch) == multiset(p) + multiset{e} by {
        assert batch == p + [e];
      }
      PartitionConserves(p);
      AddToFlat(Partition(p), e);
    }
  }

  lemma PartitionMembers(batch: seq<Entry>, e: Entry)
    ensures e in Flat(Partition(batch)) <==> e in batch
  {
    PartitionConserves(batch);
    assert e in Flat(Partition(batch)) <==> e in multiset(Flat(Partition(batch)));
  }

  /** Grouping keeps the order within each partition and never mixes partitions. */
  lemma {:induction false} PartitionGroups(batch: seq<Entry>)
    ensures Groups(Partition(batch), batch)
    ensures forall e :: e in batch ==> Position(Partition(batch), e) < |Partition(batch)|
  {
    if batch != [] {
      var p, e := batch[..|batch| - 1], batch[|batch| - 1];
      PartitionGroups(p);
      assert batch == p + [e];
      AddToAt(Partition(p), e);
      AddKeepsGroups(Partition(p), p, e);
    }
  }

  lemma AddKeepsGroups(groups: seq<Group>, p: seq<Entry>, e: Entry)
    requires Groups(groups, p) && forall x :: x in p ==> Position(groups, x) < |groups|
    ensures Groups(AddTo(groups, e), p + [e])
    ensures forall x :: x in p + [e] ==> Position(AddTo(groups, e), x) < |AddTo(groups, e)|
  {
    var after: seq<Group> := AddTo(groups, e);
    var at := Position(groups, e);
    AddToAt(groups, e);
    forall i | 0 <= i < |after| ensures after[i] != [] && after[i] == OfPartition(p + [e], after[i][0].Partition()) {
      OfPartitionAppend(p, e, after[i][0].Partition());
      if i == at && at == |groups| {
        NoneOfPartition(groups, p, e);
      }
    }
    forall x | x in p + [e] ensures Position(after, x) < |after| {
      if x in p {
        assert after[Position(groups, x)][0].Partition() == x.Partition();
      } else {
        assert after[at][0].Partition() == e.Partition();
      }
    }
  }

  lemma {:induction false} NoneOfPartition(groups: seq<Group>, p: seq<Entry>, e: Entry)
    requires Position(groups, e) == |groups| && forall x :: x in p ==> Position(groups, x) < |groups|
    ensures OfPartition(p, e.Partition()) == []
  {
    if p != [] {
      var last := p[|p| - 1];
      assert last in p && forall x :: x in p[..|p| - 1] ==> x in p;
      NoneOfPartition(groups, p[..|p| - 1], e);
    }
  }

  lemma {:induction false} InPartition(batch: seq<Entry>, p: (string, nat), e: Entry)
    ensures e in OfPartition(batch, p) <==> e in batch && (e.tenant, e.hour) == p
  {
    if batch != [] {
      InPartition(batch[..|batch| - 1], p, e);
      assert batch == batch[..|batch| - 1] + [batch[|batch| - 1]];
    }
  }

  /** Two entries of a batch are in one group if and only if they are of one tenant and one hour. */
  lemma {:induction false} OneGroupExactly(batch: seq<Entry>, x: Entry, y: Entry)
    requires x in batch && y in batch
    ensures (exists g :: g in Partition(batch) && x in g && y in g) <==> x.tenant == y.tenant && x.hour == y.hour
  {
    var groups := Partition(batch);
    PartitionGroups(batch);
    if g: Group :| g in groups && x in g && y in g {
      InPartition(batch, g[0].Partition(), x);
      InPartition(batch, g[0].Partition(), y);
    }
    if x.tenant == y.tenant && x.hour == y.hour {
      var g := groups[Position(groups, x)];
      InPartition(batch, g[0].Partition(), x);
      InPartition(batch, g[0].Partition(), y);
      assert g in groups && x in g && y in g;
    }
  }

  /** The groups come in the order in which their first entries do: some prefix of the batch has the one and not yet the other. */
  ghost predicate InFirstOrder(groups: seq<Group>, batch: seq<Entry>) {
    forall i, j :: 0 <= i < j < |groups| ==> EarlierIn(groups[i], groups[j], batch)
  }

  ghost predicate EarlierIn(a: Group, b: Group, batch: seq<Entry>) {
    exists k :: 0 <= k < |batch| && batch[k] in a && forall m :: 0 <= m <= k ==> batch[m] !in b
  }

  lemma {:induction false} PartitionInFirstOrder(batch: seq<Entry>)
    ensures InFirstOrder(Partition(batch), batch)
  {
    if batch != [] {
      var p, e := batch[..|batch| - 1], batch[|batch| - 1];
      assert batch == p + [e];
      PartitionInFirstOrder(p);
      PartitionGroups(p);
      AddToAt(Partition(p), e);
      AddKeepsFirstOrder(Partition(p), p, e);
    }
  }

  lemma {:induction false} AddKeepsFirstOrder(groups: seq<Group>, p: seq<Entry>, e: Entry)
    requires InFirstOrder(groups, p) && Groups(groups, p) && forall x :: x in p ==> Position(groups, x) < |groups|
    requires AddTo(groups, e) ==
             if Position(groups, e) == |groups| then groups + [[e]]
             else groups[Position(groups, e) := groups[Position(groups, e)] + [e]]
    ensures InFirstOrder(AddTo(groups, e), p + [e])
  {
    var after: seq<Group> := AddTo(groups, e);
    forall i, j | 0 <= i < j < |after| ensures EarlierIn(after[i], after[j], p + [e]) {
      if j < |groups| {
        GrownGroups(groups, p, e, i, j);
      } else {
        NewGroupIsLast(groups, p, e, i);
      }
    }
  }

  /** Of two groups that were there before, the earlier stays the earlier. */
  lemma {:induction false} GrownGroups(groups: seq<Group>, p: seq<Entry>, e: Entry, i: nat, j: nat)
    requires i < j < |groups| && Groups(groups, p) && EarlierIn(groups[i], groups[j], p)
    ensures forall a: Group, b: Group ::
              (a == groups[i] || a == groups[i] + [e]) && (b == groups[j] || (b == groups[j] + [e] && Position(groups, e) == j)) ==>
                EarlierIn(a, b, p + [e])
  {
    var k :| 0 <= k < |p| && p[k] in groups[i] && forall m :: 0 <= m <= k ==> p[m] !in groups[j];
    forall a: Group, b: Group | (a == groups[i] || a == groups[i] + [e]) &&
                                (b == groups[j] || (b == groups[j] + [e] && Position(groups, e) == j))
      ensures EarlierIn(a, b, p + [e])
    {
      forall m | 0 <= m <= k ensures (p + [e])[m] !in b {
        InPartition(p, groups[j][0].Partition(), p[m]);
        assert p[m] in p;
      }
      assert (p + [e])[k] in a;
    }
  }

  /** A new group holds an entry of which no group had the place. */
  lemma {:induction false} NewGroupIsLast(groups: seq<Group>, p: seq<Entry>, e: Entry, i: nat)
    requires i < |groups| && Groups(groups, p) && Position(groups, e) == |groups|
    requires forall x :: x in p ==> Position(groups, x) < |groups|
    ensures EarlierIn(groups[i], [e], p + [e])
  {
    var first := groups[i][0];
    InPartition(p, first.Partition(), first);
    var k :| 0 <= k < |p| && p[k] == first;
    assert (p + [e])[k] in groups[i];
    forall m | 0 <= m <= k ensures (p + [e])[m] !in [e] {
      assert p[m] in p;
    }
  }

  /** The grouping loop of the S3 flush, on the list of the dictionary's values in insertion order. */
  method GroupBatch(batch: seq<Entry>) returns (groups: seq<Group>)
    ensures groups == Partition(batch)
    ensures Groups(groups, batch) && multiset(Flat(groups)) == multiset(batch)
    ensures forall x, y :: x in batch && y in batch ==>
              ((exists g :: g in groups && x in g && y in g) <==> x.tenant == y.tenant && x.hour == y.hour)
    ensures InFirstOrder(groups, batch)
  {
    groups := [];
    for i := 0 to |batch|
      invariant groups == Partition(batch[..i])
    {
      var e := batch[i];
      var at := 0;
      while at < |groups| && !(groups[at] != [] && groups[at][0].Partition() == e.Partition())
        invariant at <= |groups|
        invariant Position(groups, e) == at + Position(groups[at..], e)
      {
        at := at + 1;
      }
      assert Position(groups, e) == at;
      AddToAt(groups, e);
      groups := if at == |groups| then groups + [[e]] else groups[at := groups[at] + [e]];
      assert batch[..i + 1][..i] == batch[..i];
    }
    assert batch[..|batch|] == batch;
    PartitionGroups(batch);
    PartitionConserves(batch);
    PartitionInFirstOrder(batch);
    forall x, y | x in batch && y in batch
      ensures (exists g :: g in groups && x in g && y in g) <==> x.tenant == y.tenant && x.hour == y.hour
    {
      OneGroupExactly(batch, x, y);
    }
  }

  // ---------------------------------------------------------------- bags of entries

  /** Two lists with the same entries, each less the first's head, still have the same entries. */
  lemma SameBagWithout(a: seq<Entry>, b: seq<Entry>) returns (i: nat)
    requires multiset(a) == multiset(b) && a != []
    ensures i < |b| && b[i] == a[0] && b == b[..i] + ([a[0]] + b[i + 1..])
    ensures multiset(a[1..]) == multiset(b[..i] + b[i + 1..])
  {
    var e := a[0];
    assert e in multiset(b);
    i :| 0 <= i < |b| && b[i] == e;
    assert a == [e] + a[1..] && b == b[..i] + ([e] + b[i + 1..]);
    assert multiset(a) == multiset{e} + multiset(a[1..]);
    assert multiset(b) == multiset(b[..i]) + multiset{e} + multiset(b[i + 1..]);
    BagTail(e, multiset(a[1..]), multiset(b[..i]), multiset(b[i + 1..]));
  }

  lemma BagTail(e: Entry, tail: multiset<Entry>, before: multiset<Entry>, after: multiset<Entry>)
    requires multiset{e} + tail == before + multiset{e} + after
    ensures tail == before + after
  {
    forall x ensures tail[x] == (before + after)[x] {
      assert (multiset{e} + tail)[x] == (before + multiset{e} + after)[x];
    }
  }

  lemma EmptyBag(a: seq<Entry>, b: seq<Entry>)
    requires multiset(a) == multiset(b) && a == []
    ensures b == []
  {
    assert |multiset(a)| == |multiset(b)|;
  }
}
