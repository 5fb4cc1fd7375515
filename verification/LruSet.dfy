/** The bounded LRU set of seen request ids, and how long it suppresses a replay. */
module LruSet {
  import opened Options

  /** The keys of the ordered dictionary, oldest first. */
  type Items = seq<string>

  ghost predicate Distinct(items: Items) {
    forall i, j :: 0 <= i < j < |items| ==> items[i] != items[j]
  }

  function Without(items: Items, key: string): Items {
    if items == [] then [] else if items[0] == key then items[1..] else [items[0]] + Without(items[1..], key)
  }

  function Trim(items: Items, max: nat): Items {
    if |items| <= max then items else items[|items| - max..]
  }

  /** `add_if_absent` as a function of the items. */
  function Touched(items: Items, key: string, max: nat): Items {
    if key in items then Without(items, key) + [key] else Trim(items + [key], max)
  }

  class BoundedLruSet {
    const maxSize: nat
    var items: Items

    ghost predicate Valid()
      reads this
    {
      Distinct(items) && |items| <= maxSize
    }

    constructor (maxSize: nat)
      ensures Valid() && this.maxSize == maxSize && items == []
    {
      this.maxSize, items := maxSize, [];
    }

    method AddIfAbsent(key: string) returns (added: bool)
      requires Valid()
      modifies this
      ensures Valid() && items == Touched(old(items), key, maxSize)
      ensures added <==> key !in old(items)
    {
      TouchedDistinct(items, key, maxSize);
      if key in items {
        items := Without(items, key) + [key];
        return false;
      }
      items := items + [key];
      while |items| > maxSize
        invariant Trim(items, maxSize) == Trim(old(items) + [key], maxSize)
        decreases |items|
      {
        items := items[1..];
      }
      return true;
    }

    method Discard(key: string)
      requires Valid()
      modifies this
      ensures Valid() && items == Without(old(items), key)
    {
      WithoutDistinct(items, key);
      items := Without(items, key);
    }
  }

  // ---------------------------------------------------------------- sequences of distinct keys

  lemma {:induction false} WithoutMember(items: Items, key: string, k: string)
    requires Distinct(items)
    ensures k in Without(items, key) <==> k in items && k != key
  {
    if items != [] {
      WithoutMember(items[1..], key, k);
      assert items == [items[0]] + items[1..];
    }
  }

  lemma {:induction false} WithoutSize(items: Items, key: string)
    ensures |Without(items, key)| == |items| - (if key in items then 1 else 0)
  {
    if items != [] {
      WithoutSize(items[1..], key);
      assert items == [items[0]] + items[1..];
    }
  }

  lemma {:induction false} WithoutKeepsDistinct(items: Items, key: string)
    requires Distinct(items)
    ensures Distinct(Without(items, key))
  {
    if items != [] && items[0] != key {
      WithoutKeepsDistinct(items[1..], key);
      WithoutMember(items[1..], key, items[0]);
    }
  }

  lemma WithoutDistinct(items: Items, key: string)
    requires Distinct(items)
    ensures Distinct(Without(items, key))
    ensures forall k :: k in Without(items, key) <==> k in items && k != key
    ensures |Without(items, key)| == |items| - (if key in items then 1 else 0)
  {
    WithoutKeepsDistinct(items, key);
    WithoutSize(items, key);
    forall k ensures k in Without(items, key) <==> k in items && k != key {
      WithoutMember(items, key, k);
    }
  }

  lemma TouchedDistinct(items: Items, key: string, max: nat)
    requires Distinct(items) && |items| <= max
    ensures Distinct(Touched(items, key, max)) && |Touched(items, key, max)| <= max
  {
    WithoutDistinct(items, key);
  }

  /** The keys behind a key: those touched later. */
  function Behind(items: Items, key: string): Items {
    if items == [] then [] else if items[0] == key then items[1..] else Behind(items[1..], key)
  }

  ghost function Elements(items: Items): set<string> {
    set k | k in items
  }

  lemma {:induction false} ElementsSize(items: Items)
    requires Distinct(items)
    ensures |Elements(items)| == |items|
  {
    if items != [] {
      ElementsSize(items[1..]);
      assert Elements(items) == {items[0]} + Elements(items[1..]);
    }
  }

  lemma {:induction false} BehindDistinct(items: Items, key: string)
    requires Distinct(items) && key in items
    ensures Distinct(Behind(items, key)) && key !in Behind(items, key) && |Behind(items, key)| < |items|
    ensures forall k :: k in Behind(items, key) ==> k in items
  {
    if items[0] != key {
      BehindDistinct(items[1..], key);
    }
  }

  lemma {:induction false} BehindAppend(items: Items, key: string, last: string)
    requires key in items
    ensures Behind(items + [last], key) == Behind(items, key) + [last]
  {
    if items[0] == key {
      assert (items + [last])[1..] == items[1..] + [last];
    } else {
      BehindAppend(items[1..], key, last);
      assert (items + [last])[1..] == items[1..] + [last];
    }
  }

  lemma {:induction false} BehindWithout(items: Items, key: string, gone: string)
    requires Distinct(items) && key in items && gone != key
    ensures Behind(Without(items, gone), key) == Without(Behind(items, key), gone)
    ensures key in Without(items, gone)
  {
    WithoutMember(items, gone, key);
    if items[0] == gone {
      BehindDistinct(items[1..], key);
      WithoutAbsent(Behind(items[1..], key), gone);
    } else if items[0] == key {
      assert ([items[0]] + Without(items[1..], gone))[1..] == Without(items[1..], gone);
    } else {
      BehindWithout(items[1..], key, gone);
      assert ([items[0]] + Without(items[1..], gone))[1..] == Without(items[1..], gone);
    }
  }

  lemma {:induction false} WithoutAbsent(items: Items, key: string)
    requires key !in items
    ensures Without(items, key) == items
  {
    if items != [] {
      WithoutAbsent(items[1..], key);
    }
  }

  // ---------------------------------------------------------------- histories

  datatype Op = Touch(key: string) | Discard(key: string)

  function Replay(ops: seq<Op>, max: nat): Items {
    if ops == [] then []
    else
      var items := Replay(ops[..|ops| - 1], max);
      match ops[|ops| - 1]
      case Touch(k) => Touched(items, k, max)
      case Discard(k) => Without(items, k)
  }

  /** The last operation on the key was a touch. */
  predicate Standing(ops: seq<Op>, key: string) {
    ops != [] &&
    (if ops[|ops| - 1].key == key then ops[|ops| - 1].Touch? else Standing(ops[..|ops| - 1], key))
  }

  /** The distinct other keys touched since the key was last touched. */
  function Others(ops: seq<Op>, key: string): set<string> {
    if ops == [] then {}
    else
      match ops[|ops| - 1]
      case Touch(k) => if k == key then {} else Others(ops[..|ops| - 1], key) + {k}
      case Discard(_) => Others(ops[..|ops| - 1], key)
  }

  predicate NoDiscards(ops: seq<Op>) {
    forall i :: 0 <= i < |ops| ==> ops[i].Touch?
  }

  lemma {:induction false} ReplayBounded(ops: seq<Op>, max: nat)
    ensures Distinct(Replay(ops, max)) && |Replay(ops, max)| <= max
  {
    if ops != [] {
      var p := ops[..|ops| - 1];
      ReplayBounded(p, max);
      TouchedDistinct(Replay(p, max), ops[|ops| - 1].key, max);
      WithoutDistinct(Replay(p, max), ops[|ops| - 1].key);
    }
  }

  /** A key that is still stored was touched and not discarded since. */
  lemma {:induction false} StoredIsStanding(ops: seq<Op>, max: nat, key: string)
    requires key in Replay(ops, max)
    ensures Standing(ops, key)
  {
    if ops != [] {
      var p, op := ops[..|ops| - 1], ops[|ops| - 1];
      ReplayBounded(p, max);
      WithoutDistinct(Replay(p, max), op.key);
      if op.key != key {
        StoredIsStanding(p, max, key);
      }
    }
  }

  /** What touching another key does to a stored key: it is pushed out exactly by a full set it leads. */
  lemma TouchOther(items: Items, key: string, other: string, max: nat)
    requires Distinct(items) && |items| <= max && key in items && other != key
    ensures key in Touched(items, other, max) ==>
              Elements(Behind(Touched(items, other, max), key)) == Elements(Behind(items, key)) + {other}
    ensures key !in Touched(items, other, max) ==>
              other !in items && |items| == max && items[0] == key
  {
    if other in items {
      TouchStored(items, key, other);
    } else if |items| < max {
      BehindAppend(items, key, other);
    } else {
      assert Trim(items + [other], max) == items[1..] + [other];
      if items[0] != key {
        BehindAppend(items[1..], key, other);
      }
    }
  }

  lemma TouchStored(items: Items, key: string, other: string)
    requires Distinct(items) && key in items && other in items && other != key
    ensures key in Without(items, other) + [other]
    ensures Elements(Behind(Without(items, other) + [other], key)) == Elements(Behind(items, key)) + {other}
  {
    BehindWithout(items, key, other);
    BehindDistinct(items, key);
    WithoutDistinct(Behind(items, key), other);
    BehindAppend(Without(items, other), key, other);
  }

  lemma LeaderGone(items: Items, key: string, others: set<string>, other: string)
    requires Distinct(items) && items != [] && items[0] == key && other !in items
    requires Elements(Behind(items, key)) <= others
    ensures |others + {other}| >= |items|
  {
    ElementsSize(items[1..]);
    assert other !in Elements(items[1..]);
    assert Elements(items[1..]) + {other} <= others + {other};
    SubsetSize(Elements(items[1..]) + {other}, others + {other});
  }

  /**
    Replay window: an id once touched stays suppressed until it is discarded or at least
    `max` distinct other ids have been touched.
   */
  lemma {:induction false} StaysSuppressed(ops: seq<Op>, max: nat, key: string)
    requires Standing(ops, key) && |Others(ops, key)| < max
    ensures key in Replay(ops, max)
    ensures Elements(Behind(Replay(ops, max), key)) <= Others(ops, key)
  {
    var p, op := ops[..|ops| - 1], ops[|ops| - 1];
    var items := Replay(p, max);
    ReplayBounded(p, max);
    if op.key == key {
      TouchSelf(items, key, max);
    } else {
      SubsetSize(Others(p, key), Others(ops, key));
      StaysSuppressed(p, max, key);
      if op.Touch? {
        TouchOther(items, key, op.key, max);
        if key !in Touched(items, op.key, max) {
          LeaderGone(items, key, Others(p, key), op.key);
          assert false;
        }
      } else {
        BehindWithout(items, key, op.key);
        BehindDistinct(items, key);
        WithoutDistinct(Behind(items, key), op.key);
      }
    }
  }

  lemma TouchSelf(items: Items, key: string, max: nat)
    requires Distinct(items) && |items| <= max && max > 0
    ensures key in Touched(items, key, max) && Behind(Touched(items, key, max), key) == []
  {
    if key in items {
      WithoutDistinct(items, key);
      BehindLast(Without(items, key), key);
    } else {
      var kept := if |items| < max then items else items[1..];
      assert Trim(items + [key], max) == kept + [key];
      BehindLast(kept, key);
    }
  }

  lemma {:induction false} BehindLast(items: Items, key: string)
    requires key !in items
    ensures Behind(items + [key], key) == []
  {
    if items != [] {
      BehindLast(items[1..], key);
      assert (items + [key])[1..] == items[1..] + [key];
    }
  }

  /** Without discards the set holds exactly the last `max` distinct ids. */
  lemma {:induction false} ExactlyTheLast(ops: seq<Op>, max: nat, key: string)
    requires NoDiscards(ops)
    ensures key in Replay(ops, max) <==> Standing(ops, key) && |Others(ops, key)| < max
    ensures key in Replay(ops, max) ==> Elements(Behind(Replay(ops, max), key)) == Others(ops, key)
  {
    if ops != [] {
      var p, op := ops[..|ops| - 1], ops[|ops| - 1];
      var items := Replay(p, max);
      ExactlyTheLast(p, max, key);
      ReplayBounded(p, max);
      ReplayBounded(ops, max);
      if op.key == key {
        if max > 0 { TouchSelf(items, key, max); }
      } else if key in items {
        TouchOther(items, key, op.key, max);
        if key in Replay(ops, max) {
          BehindDistinct(Replay(ops, max), key);
          ElementsSize(Behind(Replay(ops, max), key));
        } else {
          LeaderGone(items, key, Others(p, key), op.key);
        }
      } else {
        WithoutDistinct(items, op.key);
        SubsetSize(Others(p, key), Others(ops, key));
      }
    }
  }

  // ---------------------------------------------------------------- submissions

  /** One `append`: the id is touched; if it was absent and the queue is full, it is discarded again. */
  datatype Submission = Submission(id: string, queueFull: bool)

  function Submit(items: Items, s: Submission, max: nat): Items {
    var touched := Touched(items, s.id, max);
    if s.id !in items && s.queueFull then Without(touched, s.id) else touched
  }

  predicate Accepted(items: Items, s: Submission) {
    s.id !in items && !s.queueFull
  }

  function SubmitAll(items: Items, ss: seq<Submission>, max: nat): Items {
    if ss == [] then items else Submit(SubmitAll(items, ss[..|ss| - 1], max), ss[|ss| - 1], max)
  }

  function OtherIds(ss: seq<Submission>, id: string): set<string> {
    set i | 0 <= i < |ss| && ss[i].id != id :: ss[i].id
  }

  lemma SubmitDistinct(items: Items, s: Submission, max: nat)
    requires Distinct(items) && |items| <= max
    ensures Distinct(Submit(items, s, max)) && |Submit(items, s, max)| <= max
  {
    TouchedDistinct(items, s.id, max);
    WithoutDistinct(Touched(items, s.id, max), s.id);
  }

  lemma OtherIdsAppend(ss: seq<Submission>, id: string)
    requires ss != []
    ensures var p, s := ss[..|ss| - 1], ss[|ss| - 1];
            OtherIds(ss, id) == if s.id == id then OtherIds(p, id) else OtherIds(p, id) + {s.id}
  {
  }

  lemma {:induction false} AcceptedStays(items: Items, first: Submission, ss: seq<Submission>, max: nat)
    requires Distinct(items) && |items| <= max && Accepted(items, first)
    requires |OtherIds(ss, first.id)| < max
    ensures var later := SubmitAll(Submit(items, first, max), ss, max);
            Distinct(later) && |later| <= max && first.id in later &&
            Elements(Behind(later, first.id)) <= OtherIds(ss, first.id)
  {
    SubmitDistinct(items, first, max);
    if ss == [] {
      TouchSelf(items, first.id, max);
    } else {
      var p, s := ss[..|ss| - 1], ss[|ss| - 1];
      OtherIdsAppend(ss, first.id);
      SubsetSize(OtherIds(p, first.id), OtherIds(ss, first.id));
      AcceptedStays(items, first, p, max);
      var now := SubmitAll(Submit(items, first, max), p, max);
      SubmitDistinct(now, s, max);
      if s.id == first.id {
        TouchSelf(now, s.id, max);
      } else {
        OtherSubmission(now, first.id, s, OtherIds(p, first.id), max);
      }
    }
  }

  lemma OtherSubmission(items: Items, key: string, s: Submission, others: set<string>, max: nat)
    requires Distinct(items) && |items| <= max && key in items && s.id != key
    requires Elements(Behind(items, key)) <= others && |others + {s.id}| < max
    ensures key in Submit(items, s, max) && Elements(Behind(Submit(items, s, max), key)) <= others + {s.id}
  {
    TouchOther(items, key, s.id, max);
    TouchedDistinct(items, s.id, max);
    if key !in Touched(items, s.id, max) {
      LeaderGone(items, key, others, s.id);
      assert false;
    }
    var touched := Touched(items, s.id, max);
    assert Elements(Behind(touched, key)) <= others + {s.id};
    if s.id !in items && s.queueFull {
      BehindWithout(touched, key, s.id);
      BehindDistinct(touched, key);
      WithoutDistinct(Behind(touched, key), s.id);
    }
  }

  /**
    Two accepted entries with one id have at least `max` distinct other ids submitted between them,
    whatever happened to the queue in the meantime.
   */
  lemma DuplicatesAreFarApart(items: Items, first: Submission, ss: seq<Submission>, second: Submission, max: nat)
    requires Distinct(items) && |items| <= max && first.id == second.id
    requires Accepted(items, first) && Accepted(SubmitAll(Submit(items, first, max), ss, max), second)
    ensures |OtherIds(ss, first.id)| >= max
  {
    if |OtherIds(ss, first.id)| < max {
      AcceptedStays(items, first, ss, max);
    }
  }
}
