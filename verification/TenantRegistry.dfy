/** The tenant registry: loading it, and finding the tenant that owns a host. */
module TenantRegistry {
  import opened Options
  import opened Text
  import opened QuotaLog

  /** A piece of a format string. */
  datatype Piece = Literal(text: string) | Field(name: string)

  datatype Artifact = Artifact(status: string, models: seq<string>, sha256: string, signedBy: Option<string>)

  datatype Tenant = Tenant(
    id: string,
    domains: seq<string>,
    models: map<string, seq<string>>,
    artifacts: map<string, Artifact>,
    limits: Limits,
    userTemplate: seq<Piece>,
    filterTemplate: seq<Piece>,
    profile: string,
    isolationMode: string,
    isolateCache: bool)

  datatype Registry = Registry(byId: map<string, Tenant>, byDomain: map<string, Tenant>)

  datatype LoadError = DuplicateTenant(id: string) | SharedDomain(domain: string, owner: string, tenant: string)

  datatype LoadResult = Loaded(registry: Registry) | Rejected(error: LoadError)

  // ---------------------------------------------------------------- indexing by key

  /** A listing of a tenant under a key. */
  type Listing = (string, Tenant)

  ghost predicate DistinctKeys(ls: seq<Listing>) {
    forall i, j :: 0 <= i < j < |ls| ==> ls[i].0 != ls[j].0
  }

  /** The map holds exactly the listings, each key once. */
  ghost predicate Indexes(m: map<string, Tenant>, ls: seq<Listing>) {
    DistinctKeys(ls) &&
    (forall i :: 0 <= i < |ls| ==> ls[i].0 in m && m[ls[i].0] == ls[i].1) &&
    (forall k :: k in m ==> exists i :: 0 <= i < |ls| && ls[i].0 == k)
  }

  function ById(ts: seq<Tenant>): seq<Listing> {
    seq(|ts|, i requires 0 <= i < |ts| => (ts[i].id, ts[i]))
  }

  function DomainsOf(t: Tenant): seq<Listing> {
    seq(|t.domains|, i requires 0 <= i < |t.domains| => (t.domains[i], t))
  }

  /** Every domain of every tenant, in the order of the document. */
  function ByDomain(ts: seq<Tenant>): seq<Listing> {
    if ts == [] then [] else ByDomain(ts[..|ts| - 1]) + DomainsOf(ts[|ts| - 1])
  }

  lemma IndexExtends(m: map<string, Tenant>, ls: seq<Listing>, k: string, t: Tenant)
    requires Indexes(m, ls)
    ensures k !in m ==> Indexes(m[k := t], ls + [(k, t)])
    ensures k in m <==> !DistinctKeys(ls + [(k, t)])
  {
    var after := ls + [(k, t)];
    assert after[|ls|] == (k, t) && forall i :: 0 <= i < |ls| ==> after[i] == ls[i];
    if k !in m {
      var m' := m[k := t];
      forall x | x in m' ensures exists i :: 0 <= i < |after| && after[i].0 == x {
        if x == k {
          assert after[|ls|].0 == x;
        } else {
          var i :| 0 <= i < |ls| && ls[i].0 == x;
          assert after[i].0 == x;
        }
      }
    } else {
      var i :| 0 <= i < |ls| && ls[i].0 == k;
      assert after[i].0 == after[|ls|].0;
    }
  }

  lemma ClashStays(ls: seq<Listing>, rest: seq<Listing>)
    requires !DistinctKeys(ls)
    ensures !DistinctKeys(ls + rest)
  {
    var i, j :| 0 <= i < j < |ls| && ls[i].0 == ls[j].0;
    assert (ls + rest)[i].0 == (ls + rest)[j].0;
  }

  lemma {:induction false} ByDomainSplits(ts: seq<Tenant>, k: nat)
    requires k < |ts|
    ensures ByDomain(ts[..k + 1]) == ByDomain(ts[..k]) + DomainsOf(ts[k])
    ensures exists rest :: ByDomain(ts) == ByDomain(ts[..k]) + DomainsOf(ts[k]) + rest
  {
    assert ts[..k + 1][..k] == ts[..k];
    if k + 1 == |ts| {
      assert ts[..k + 1] == ts && ByDomain(ts) == ByDomain(ts[..k]) + DomainsOf(ts[k]) + [];
    } else {
      var p := ts[..|ts| - 1];
      assert p[..k] == ts[..k] && p[k] == ts[k];
      ByDomainSplits(p, k);
      var rest :| ByDomain(p) == ByDomain(p[..k]) + DomainsOf(p[k]) + rest;
      assert ByDomain(ts) == ByDomain(ts[..k]) + DomainsOf(ts[k]) + (rest + DomainsOf(ts[|ts| - 1]));
    }
  }

  /** A listing under a domain names a tenant of the document that lists it. */
  lemma {:induction false} ListedByItsTenant(ts: seq<Tenant>, d: string, t: Tenant)
    requires (d, t) in ByDomain(ts)
    ensures exists i :: 0 <= i < |ts| && ts[i] == t && d in ts[i].domains
  {
    var p, last := ts[..|ts| - 1], ts[|ts| - 1];
    if (d, t) in DomainsOf(last) {
      var a :| 0 <= a < |DomainsOf(last)| && DomainsOf(last)[a] == (d, t);
      assert last.domains[a] == d;
    } else {
      ListedByItsTenant(p, d, t);
      var i :| 0 <= i < |p| && p[i] == t && d in p[i].domains;
      assert ts[i] == t;
    }
  }

  lemma {:induction false} ListedOnce(ts: seq<Tenant>, i: nat, d: string)
    requires i < |ts| && d in ts[i].domains
    ensures (d, ts[i]) in ByDomain(ts)
  {
    var p := ts[..|ts| - 1];
    if i == |ts| - 1 {
      var a :| 0 <= a < |ts[i].domains| && ts[i].domains[a] == d;
      assert DomainsOf(ts[i])[a] == (d, ts[i]);
      assert (d, ts[i]) in DomainsOf(ts[i]);
    } else {
      assert p[i] == ts[i];
      ListedOnce(p, i, d);
    }
  }

  // ---------------------------------------------------------------- load

  /** Where loading stops: the tenants before position `k` are unambiguous, and tenant `k` repeats an id or a domain. */
  ghost predicate StopsAt(ts: seq<Tenant>, k: nat, error: LoadError) {
    k < |ts| && DistinctKeys(ById(ts[..k])) && DistinctKeys(ByDomain(ts[..k])) &&
    match error
    case DuplicateTenant(id) => ts[k].id == id && exists i :: 0 <= i < k && ts[i].id == id
    case SharedDomain(domain, owner, tenant) =>
      ts[k].id == tenant && domain in ts[k].domains && DistinctKeys(ById(ts[..k + 1])) &&
      exists i :: 0 <= i <= k && ts[i].id == owner && domain in ts[i].domains
  }

  lemma EnterDomain(m: map<string, Tenant>, before: seq<Listing>, t: Tenant, a: nat)
    requires a < |t.domains| && Indexes(m, before + DomainsOf(t)[..a])
    ensures var d := t.domains[a];
            if d in m then !DistinctKeys(before + DomainsOf(t)) && (d, m[d]) in before + DomainsOf(t)
            else Indexes(m[d := t], before + DomainsOf(t)[..a + 1])
  {
    var d, soFar := t.domains[a], before + DomainsOf(t)[..a];
    IndexExtends(m, soFar, d, t);
    assert soFar + [(d, t)] == before + DomainsOf(t)[..a + 1];
    if d in m {
      ClashStays(soFar + [(d, t)], DomainsOf(t)[a + 1..]);
      assert soFar + [(d, t)] + DomainsOf(t)[a + 1..] == before + DomainsOf(t);
      var i :| 0 <= i < |soFar| && soFar[i].0 == d;
      assert (before + DomainsOf(t))[i] == (d, m[d]);
    }
  }

  lemma EnterId(m: map<string, Tenant>, ts: seq<Tenant>, k: nat)
    requires k < |ts| && Indexes(m, ById(ts[..k]))
    ensures if ts[k].id in m then !DistinctKeys(ById(ts)) && exists i :: 0 <= i < k && ts[i].id == ts[k].id
            else Indexes(m[ts[k].id := ts[k]], ById(ts[..k + 1]))
  {
    var id := ts[k].id;
    IndexExtends(m, ById(ts[..k]), id, ts[k]);
    assert ById(ts[..k + 1]) == ById(ts[..k]) + [(id, ts[k])];
    if id in m {
      ClashStays(ById(ts[..k + 1]), ById(ts)[k + 1..]);
      assert ById(ts) == ById(ts[..k + 1]) + ById(ts)[k + 1..];
      var i :| 0 <= i < |ById(ts[..k])| && ById(ts[..k])[i].0 == id;
      assert ts[i].id == id;
    }
  }

  lemma ClashSpreads(ts: seq<Tenant>, k: nat)
    requires k < |ts| && !DistinctKeys(ByDomain(ts[..k]) + DomainsOf(ts[k]))
    ensures !DistinctKeys(ByDomain(ts))
  {
    ByDomainSplits(ts, k);
    var rest :| ByDomain(ts) == ByDomain(ts[..k]) + DomainsOf(ts[k]) + rest;
    ClashStays(ByDomain(ts[..k]) + DomainsOf(ts[k]), rest);
  }

  lemma PrefixDistinct(ls: seq<Listing>, n: nat)
    requires n <= |ls| && DistinctKeys(ls)
    ensures DistinctKeys(ls[..n])
  {
  }

  /** A domain that already has an owner stops the load. */
  lemma DomainClash(ts: seq<Tenant>, k: nat, d: string, owner: Tenant)
    requires k < |ts| && DistinctKeys(ById(ts[..k + 1])) && DistinctKeys(ByDomain(ts[..k])) && d in ts[k].domains
    requires (d, owner) in ByDomain(ts[..k]) + DomainsOf(ts[k])
    ensures StopsAt(ts, k, SharedDomain(d, owner.id, ts[k].id))
  {
    ByDomainSplits(ts, k);
    PrefixDistinct(ById(ts[..k + 1]), k);
    assert ById(ts[..k]) == ById(ts[..k + 1])[..k];
    ListedByItsTenant(ts[..k + 1], d, owner);
    var i :| 0 <= i < k + 1 && ts[..k + 1][i] == owner && d in ts[..k + 1][i].domains;
    assert ts[i].id == owner.id && d in ts[i].domains;
  }

  /** Enters the domains of a tenant one by one, up to the first that already has an owner. */
  method AddDomains(byDomain: map<string, Tenant>, t: Tenant, ghost before: seq<Listing>)
    returns (after: map<string, Tenant>, clash: Option<string>)
    requires Indexes(byDomain, before)
    ensures clash.None? ==> Indexes(after, before + DomainsOf(t))
    ensures clash.Some? ==> clash.value in t.domains && !DistinctKeys(before + DomainsOf(t))
    ensures clash.Some? ==> clash.value in after && (clash.value, after[clash.value]) in before + DomainsOf(t)
  {
    after := byDomain;
    assert before + DomainsOf(t)[..0] == before;
    for a := 0 to |t.domains|
      invariant Indexes(after, before + DomainsOf(t)[..a])
    {
      EnterDomain(after, before, t, a);
      if t.domains[a] in after {
        return after, Some(t.domains[a]);
      }
      after := after[t.domains[a] := t];
    }
    assert DomainsOf(t)[..|t.domains|] == DomainsOf(t);
    return after, None;
  }

  /**
    Loads the tenants of a document. It succeeds exactly when no id and no domain occurs twice, and then both
    maps hold exactly what the document lists; otherwise it stops at the first tenant that repeats something.
   */
  method Load(ts: seq<Tenant>) returns (r: LoadResult)
    ensures r.Loaded? <==> DistinctKeys(ById(ts)) && DistinctKeys(ByDomain(ts))
    ensures r.Loaded? ==> Indexes(r.registry.byId, ById(ts)) && Indexes(r.registry.byDomain, ByDomain(ts))
    ensures r.Rejected? ==> exists k :: StopsAt(ts, k, r.error)
  {
    var byId, byDomain := map[], map[];
    for k := 0 to |ts|
      invariant Indexes(byId, ById(ts[..k])) && Indexes(byDomain, ByDomain(ts[..k]))
    {
      var t := ts[k];
      EnterId(byId, ts, k);
      if t.id in byId {
        assert StopsAt(ts, k, DuplicateTenant(t.id));
        return Rejected(DuplicateTenant(t.id));
      }
      byId := byId[t.id := t];
      ByDomainSplits(ts, k);
      var clash;
      byDomain, clash := AddDomains(byDomain, t, ByDomain(ts[..k]));
      if clash.Some? {
        ClashSpreads(ts, k);
        DomainClash(ts, k, clash.value, byDomain[clash.value]);
        return Rejected(SharedDomain(clash.value, byDomain[clash.value].id, t.id));
      }
    }
    assert ts[..|ts|] == ts;
    return Loaded(Registry(byId, byDomain));
  }

  // ---------------------------------------------------------------- resolving a host

  /** The registry of a document that loads. */
  ghost predicate RegistryOf(r: Registry, ts: seq<Tenant>) {
    Indexes(r.byId, ById(ts)) && Indexes(r.byDomain, ByDomain(ts))
  }

  /** `lower_domains`: strips and lower-cases, drops blank entries, and refuses a list with nothing left. */
  function CleanDomains(values: seq<string>): seq<string> {
    if values == [] then []
    else (if Strip(values[0]) == [] then [] else [Lower(Strip(values[0]))]) + CleanDomains(values[1..])
  }

  function LowerDomains(values: seq<string>): Option<seq<string>> {
    if CleanDomains(values) == [] then None else Some(CleanDomains(values))
  }

  /** The domain a host header is looked up under. */
  function HostKey(host: string): string {
    var h := Lower(Strip(host));
    if Count(h, ':') == 1 then Before(h, ':') else h
  }

  function ResolveByHost(r: Registry, host: Option<string>): Option<Tenant> {
    if host.None? || host.value == [] then None
    else if HostKey(host.value) in r.byDomain then Some(r.byDomain[HostKey(host.value)])
    else None
  }

  /** A host resolves to a tenant exactly when that tenant lists the host's domain; so no two tenants share a host. */
  lemma OwnerIsTheLister(r: Registry, ts: seq<Tenant>, host: string, i: nat)
    requires RegistryOf(r, ts) && host != [] && i < |ts|
    ensures ResolveByHost(r, Some(host)) == Some(ts[i]) <==> HostKey(host) in ts[i].domains
    ensures HostKey(host) in ts[i].domains ==> forall j :: 0 <= j < |ts| && HostKey(host) in ts[j].domains ==> ts[j] == ts[i]
  {
    var d := HostKey(host);
    if d in ts[i].domains {
      Listed(r, ts, i, d);
      forall j | 0 <= j < |ts| && d in ts[j].domains ensures ts[j] == ts[i] {
        Listed(r, ts, j, d);
      }
    }
    if ResolveByHost(r, Some(host)) == Some(ts[i]) {
      var a :| 0 <= a < |ByDomain(ts)| && ByDomain(ts)[a].0 == d;
      assert ByDomain(ts)[a] == (d, ts[i]);
      ListedByItsTenant(ts, d, ts[i]);
    }
  }

  lemma Listed(r: Registry, ts: seq<Tenant>, i: nat, d: string)
    requires RegistryOf(r, ts) && i < |ts| && d in ts[i].domains
    ensures d in r.byDomain && r.byDomain[d] == ts[i]
  {
    ListedOnce(ts, i, d);
    var a :| 0 <= a < |ByDomain(ts)| && ByDomain(ts)[a] == (d, ts[i]);
  }

  lemma CaseDoesNotMatter(host: string)
    ensures HostKey(Lower(host)) == HostKey(host)
  {
    LowerStrip(host);
    LowerTwice(Strip(host));
  }

  lemma JoinIsTrimmed(host: string, port: string)
    requires host != [] && port != [] && Trimmed(host) && Trimmed(port)
    ensures Strip(host + ":" + port) == host + ":" + port && Strip(host) == host
  {
  }

  lemma CutAtTheColon(host: string, port: string)
    requires Count(host, ':') == 0 && Count(port, ':') == 0
    ensures Count(host + ":" + port, ':') == 1 && Before(host + ":" + port, ':') == host
  {
    CountConcat(host + ":", port, ':');
    CountConcat(host, ":", ':');
    assert Count(":", ':') == 1;
    BeforeSuffix(host, ':', port);
  }

  lemma PortDoesNotMatter(host: string, port: string)
    requires host != [] && port != [] && Trimmed(host) && Trimmed(port) && Count(host, ':') == 0 && Count(port, ':') == 0
    ensures HostKey(host + ":" + port) == HostKey(host)
  {
    JoinIsTrimmed(host, port);
    LowerKeepsColons(host);
    LowerKeepsColons(port);
    LowerJoin(host, port);
    HostKeyOfCut(host + ":" + port, Lower(host), Lower(port));
    assert Lower(Strip(host)) == Lower(host) && HostKey(host) == Lower(host);
  }

  lemma LowerJoin(host: string, port: string)
    ensures Lower(host + ":" + port) == Lower(host) + ":" + Lower(port)
  {
  }

  lemma HostKeyOfCut(full: string, name: string, port: string)
    requires Strip(full) == full && Lower(full) == name + ":" + port && Count(name, ':') == 0 && Count(port, ':') == 0
    ensures HostKey(full) == name
  {
    CutAtTheColon(name, port);
  }

  /** Case and a port do not change the owner of a host name. */
  lemma SpellingDoesNotMatter(r: Registry, host: string, port: string)
    requires host != []
    ensures ResolveByHost(r, Some(Lower(host))) == ResolveByHost(r, Some(host))
    ensures Trimmed(host) && Trimmed(port) && port != [] && Count(host, ':') == 0 && Count(port, ':') == 0 ==>
              ResolveByHost(r, Some(host + ":" + port)) == ResolveByHost(r, Some(host))
  {
    CaseDoesNotMatter(host);
    if Trimmed(host) && Trimmed(port) && port != [] && Count(host, ':') == 0 && Count(port, ':') == 0 {
      PortDoesNotMatter(host, port);
    }
  }

  /** A spelling of a solid word is solid. */
  lemma SpellingIsSolid(host: string, d: string)
    requires Spells(host, d) && Solid(d)
    ensures Solid(host)
  {
  }

  /** What a header that spells a domain, with or without a port and with blanks around it, is looked up under. */
  lemma {:induction false} KeyOfSpelling(d: string, before: string, host: string, port: string, after: string)
    requires LowerCase(d) && Solid(d) && ':' !in d && Spells(host, d) && Blank(before) && Blank(after)
    requires ':' !in port && (port != [] ==> !BlankChar(port[|port| - 1]))
    ensures HostKey(before + host + after) == d && HostKey(before + (host + ":" + port) + after) == d
  {
    SpellingIsSolid(host, d);
    SpellingsAreLowered(host, d);
    StripPads(before, host, after);
    StripPads(before, host + ":" + port, after);
    NotIn(d, ':');
    NotIn(port, ':');
    LowerKeepsColons(port);
    LowerJoin(host, port);
    CutAtTheColon(d, Lower(port));
  }

  /**
    However a client spells a domain that a tenant lists, in any mix of cases, with or without a port, and with blanks
    around it, the host resolves to that tenant.
   */
  lemma {:induction false} AnySpellingResolves(r: Registry, ts: seq<Tenant>, i: nat, d: string, before: string, host: string, port: string,
                                               after: string)
    requires RegistryOf(r, ts) && i < |ts| && d in ts[i].domains
    requires LowerCase(d) && Solid(d) && ':' !in d && Spells(host, d) && Blank(before) && Blank(after)
    requires ':' !in port && (port != [] ==> !BlankChar(port[|port| - 1]))
    ensures ResolveByHost(r, Some(before + host + after)) == Some(ts[i])
    ensures ResolveByHost(r, Some(before + (host + ":" + port) + after)) == Some(ts[i])
  {
    KeyOfSpelling(d, before, host, port, after);
    Listed(r, ts, i, d);
    assert |before + host + after| > 0 && |before + (host + ":" + port) + after| > 0;
  }

  /** The entry is a spelling of the domain, in any mix of cases, with nothing but blanks around it. */
  ghost predicate SpelledIn(value: string, d: string) {
    exists before, host, after :: value == before + host + after && Blank(before) && Blank(after) && Spells(host, d)
  }

  lemma {:induction false} CleanedIsSpelled(value: string, d: string)
    requires LowerCase(d) && Solid(d)
    ensures SpelledIn(value, d) <==> Strip(value) != [] && Lower(Strip(value)) == d
  {
    if before, host, after :| value == before + host + after && Blank(before) && Blank(after) && Spells(host, d) {
      SpellingIsSolid(host, d);
      SpellingsAreLowered(host, d);
      StripPads(before, host, after);
    }
    if Lower(Strip(value)) == d {
      var before, after := StripSplits(value);
      SpellingsAreLowered(Strip(value), d);
    }
  }

  /** What an entry is cleaned to is a solid lower-case domain, and an entry of blanks is nothing. */
  lemma {:induction false} CleanedIsDomain(value: string)
    ensures Strip(value) != [] ==> LowerCase(Lower(Strip(value))) && Solid(Lower(Strip(value)))
    ensures Strip(value) == [] <==> Blank(value)
  {
    var before, after := StripSplits(value);
    LoweredIsLowerCase(Strip(value));
    if Strip(value) != [] {
      assert value[|before|] == Strip(value)[0];
      LoweredIsSolid(Strip(value));
    } else {
      assert value == before + after;
    }
  }

  lemma LoweredIsSolid(s: string)
    requires Solid(s)
    ensures Solid(Lower(s))
  {
  }

  lemma {:induction false} CleanedExactly(values: seq<string>, d: string)
    ensures d in CleanDomains(values) <==> LowerCase(d) && Solid(d) && exists k :: 0 <= k < |values| && SpelledIn(values[k], d)
    ensures CleanDomains(values) == [] <==> forall k :: 0 <= k < |values| ==> Blank(values[k])
  {
    if values != [] {
      var rest := values[1..];
      CleanedExactly(rest, d);
      CleanedIsDomain(values[0]);
      assert forall k :: 0 <= k < |rest| ==> rest[k] == values[k + 1];
      if LowerCase(d) && Solid(d) {
        CleanedIsSpelled(values[0], d);
        assert (exists k :: 0 <= k < |values| && SpelledIn(values[k], d)) <==>
               SpelledIn(values[0], d) || exists k :: 0 <= k < |rest| && SpelledIn(rest[k], d);
      }
    }
  }

  /**
    A tenant's list of domains is refused exactly if every entry is blank; otherwise the domains accepted are exactly
    the lower-case ones of which some entry is a spelling.
   */
  lemma {:induction false} AcceptedDomains(values: seq<string>, d: string)
    ensures LowerDomains(values).None? <==> forall k :: 0 <= k < |values| ==> Blank(values[k])
    ensures LowerDomains(values).Some? ==>
              (d in LowerDomains(values).value <==> LowerCase(d) && Solid(d) && exists k :: 0 <= k < |values| && SpelledIn(values[k], d))
  {
    CleanedExactly(values, d);
  }

  lemma {:induction false} LowerKeepsColons(s: string)
    ensures Count(Lower(s), ':') == Count(s, ':')
  {
    if s != [] {
      LowerKeepsColons(s[1..]);
      assert Lower(s)[1..] == Lower(s[1..]);
    }
  }

  lemma {:induction false} CleanMembers(values: seq<string>, d: string)
    requires d in CleanDomains(values)
    ensures d != [] && Trimmed(d) && Lower(d) == d
  {
    if !(Strip(values[0]) != [] && d == Lower(Strip(values[0]))) {
      CleanMembers(values[1..], d);
    } else {
      StripTrims(values[0]);
      LowerTwice(Strip(values[0]));
    }
  }

  /**
    A domain the configuration accepts can be reached by some host header exactly when it does not hold exactly
    one colon: a domain written with a port is accepted but never matches, because the port of the host is cut off.
   */
  lemma ReachableDomains(values: seq<string>, d: string)
    requires LowerDomains(values).Some? && d in LowerDomains(values).value
    ensures (exists host :: HostKey(host) == d) <==> Count(d, ':') != 1
  {
    CleanMembers(values, d);
    if Count(d, ':') != 1 {
      StripTrims(d);
      assert HostKey(d) == d;
    }
    forall host | HostKey(host) == d ensures Count(d, ':') != 1 {
      NoneBefore(Lower(Strip(host)), ':');
    }
  }
}
