/** The six key names of a Redis check, and when two of them collide. */
module RedisKeys {
  import opened QuotaLog

  function Owner(scope: Scope): string {
    match scope
    case User(t, u) => "user:" + (t + ":" + u)
    case Tenant(t) => "tenant:" + t
  }

  /** The key of one kind of set of one scope, under the configured prefix. */
  function Key(prefix: string, kind: Kind, scope: Scope): string {
    match kind
    case Requests => prefix + (":quota:" + (Owner(scope) + ":requests"))
    case InputTokens => prefix + (":quota:" + (Owner(scope) + ":input_tokens"))
    case Slots => prefix + (":concurrency:" + Owner(scope))
  }

  predicate ColonFree(s: string) {
    ':' !in s
  }

  /** Two scopes whose key names read the same. */
  predicate Alias(s1: Scope, s2: Scope) {
    match (s1, s2)
    case (User(t1, u1), User(t2, u2)) => t1 + ":" + u1 == t2 + ":" + u2
    case (Tenant(t1), Tenant(t2)) => t1 == t2
    case _ => false
  }

  lemma CancelFront(a: string, b: string, c: string)
    ensures a + b == a + c <==> b == c
  {
    assert (a + b)[|a|..] == b && (a + c)[|a|..] == c;
  }

  lemma CancelBack(a: string, b: string, c: string)
    ensures b + a == c + a <==> b == c
  {
    if b + a == c + a {
      assert b == (b + a)[..|b|] == (c + a)[..|b|] == c;
    }
  }

  lemma OwnersAlias(s1: Scope, s2: Scope)
    ensures Owner(s1) == Owner(s2) <==> Alias(s1, s2)
  {
    match (s1, s2) {
      case (User(t1, u1), User(t2, u2)) => CancelFront("user:", t1 + ":" + u1, t2 + ":" + u2);
      case (Tenant(t1), Tenant(t2)) => CancelFront("tenant:", t1, t2);
      case _ => assert Owner(s1)[0] != Owner(s2)[0];
    }
  }

  lemma SuffixesDiffer(a: string, b: string)
    ensures a + ":requests" != b + ":input_tokens"
  {
    var x, y := a + ":requests", b + ":input_tokens";
    assert x[|x| - 2] == 't' && y[|y| - 2] == 'n';
  }

  /** Keys coincide exactly when the kinds are equal and the scopes read the same. */
  lemma KeysCollideExactly(prefix: string, k1: Kind, s1: Scope, k2: Kind, s2: Scope)
    ensures Key(prefix, k1, s1) == Key(prefix, k2, s2) <==> k1 == k2 && Alias(s1, s2)
  {
    OwnersAlias(s1, s2);
    var o1, o2 := Owner(s1), Owner(s2);
    match (k1, k2) {
      case (Slots, Slots) =>
        CancelFront(prefix, ":concurrency:" + o1, ":concurrency:" + o2);
        CancelFront(":concurrency:", o1, o2);
      case (Slots, _) =>
        assert Key(prefix, k1, s1)[|prefix| + 1] == 'c' && Key(prefix, k2, s2)[|prefix| + 1] == 'q';
      case (_, Slots) =>
        assert Key(prefix, k1, s1)[|prefix| + 1] == 'q' && Key(prefix, k2, s2)[|prefix| + 1] == 'c';
      case (_, _) =>
        var e1 := if k1.Requests? then ":requests" else ":input_tokens";
        var e2 := if k2.Requests? then ":requests" else ":input_tokens";
        CancelFront(prefix, ":quota:" + (o1 + e1), ":quota:" + (o2 + e2));
        CancelFront(":quota:", o1 + e1, o2 + e2);
        CancelBack(e1, o1, o2);
        SuffixesDiffer(o1, o2);
        SuffixesDiffer(o2, o1);
    }
  }

  /** Gateways that use different prefixes, without colons, share no key. */
  lemma PrefixesSeparate(p1: string, k1: Kind, s1: Scope, p2: string, k2: Kind, s2: Scope)
    requires ColonFree(p1) && ColonFree(p2)
    ensures Key(p1, k1, s1) == Key(p2, k2, s2) ==> p1 == p2
  {
    var x, y := Key(p1, k1, s1), Key(p2, k2, s2);
    assert x[|p1|] == ':' && x[..|p1|] == p1;
    assert y[|p2|] == ':' && y[..|p2|] == p2;
    if |p1| < |p2| {
      assert y[|p1|] == p2[|p1|];
    } else if |p2| < |p1| {
      assert x[|p2|] == p1[|p2|];
    }
  }

  /** With colon-free tenant ids, reading the same means being the same. */
  lemma ColonFreeScopesNeverAlias(s1: Scope, s2: Scope)
    requires ColonFree(s1.tenant) && ColonFree(s2.tenant)
    ensures Alias(s1, s2) <==> s1 == s2
  {
    if s1.User? && s2.User? && Alias(s1, s2) {
      var x1, x2 := s1.tenant + ":" + s1.user, s2.tenant + ":" + s2.user;
      assert x1[|s1.tenant|] == ':' && x2[|s2.tenant|] == ':';
      assert s1.tenant == x1[..|s1.tenant|] && s2.tenant == x2[..|s2.tenant|];
      assert |s1.tenant| == |s2.tenant|;
      assert s1.user == x1[|s1.tenant| + 1..] == x2[|s2.tenant| + 1..] == s2.user;
    }
  }
}
