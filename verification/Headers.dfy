/** What becomes of a request's headers: client-supplied routing is stripped and trusted values are set. */
module Headers {
  import opened Options
  import opened Text
  import opened TenantRegistry
  import QuotaLog
  import K = RedisKeys

  /** A request's headers, in order; a name may occur more than once. */
  type HeaderList = seq<(string, string)>

  const CLIENT_SUPPLIED: set<string> := {
    "x-tenant-id", "x-user-id", "x-tier", "user", "external-filter", "config-profile",
    "x-internal-tenant-id", "x-internal-user-id", "x-internal-slo-tier"}

  const HOP_BY_HOP: set<string> := {
    "authorization", "connection", "keep-alive", "proxy-authenticate", "proxy-authorization", "te", "trailer",
    "transfer-encoding", "upgrade", "host", "content-length"}

  /** The names the gateway sets itself: five that clients may not supply and three that they may. */
  const INJECTED: set<string> := {"user", "external-filter", "config-profile", "x-internal-tenant-id", "x-internal-user-id"}

  const ADDED: set<string> := {
    "x-request-id", "x-internal-kv-cache-isolation-required", "x-internal-runtime-isolation-mode"}

  predicate Blocked(name: string) {
    Lower(name) in CLIENT_SUPPLIED || Lower(name) in HOP_BY_HOP
  }

  /** The value a name ends up with when the headers are stored one after the other. */
  function LastValue(headers: HeaderList, name: string): Option<string> {
    if headers == [] then None
    else if headers[|headers| - 1].0 == name then Some(headers[|headers| - 1].1)
    else LastValue(headers[..|headers| - 1], name)
  }

  /** Blocked are the spellings, in any mix of cases, of these twenty names and of no others. */
  lemma BlockedExactly(name: string)
    ensures Blocked(name) <==>
            exists b :: b in {"x-tenant-id", "x-user-id", "x-tier", "user", "external-filter", "config-profile",
                              "x-internal-tenant-id", "x-internal-user-id", "x-internal-slo-tier",
                              "authorization", "connection", "keep-alive", "proxy-authenticate", "proxy-authorization", "te", "trailer",
                              "transfer-encoding", "upgrade", "host", "content-length"} && Spells(name, b)
  {
    BlockedIsLowerCase();
    LoweredIsLowerCase(name);
    forall b | b in CLIENT_SUPPLIED + HOP_BY_HOP ensures Lower(name) == b <==> Spells(name, b) {
      SpellingsAreLowered(name, b);
    }
  }

  lemma BlockedIsLowerCase()
    ensures forall b :: b in CLIENT_SUPPLIED + HOP_BY_HOP ==> LowerCase(b)
  {
    forall b | b in CLIENT_SUPPLIED + HOP_BY_HOP ensures LowerCase(b) {
      ClientNameIsLowerCase(b);
      SensitiveNameIsLowerCase(b);
    }
  }

  lemma ClientNameIsLowerCase(b: string)
    ensures b in CLIENT_SUPPLIED ==> LowerCase(b)
  {
  }

  lemma SensitiveNameIsLowerCase(b: string)
    ensures b in HOP_BY_HOP ==> LowerCase(b)
  {
  }

  /** No later header has the same name. */
  ghost predicate LastOfName(headers: HeaderList, i: int)
    requires 0 <= i < |headers|
  {
    forall j :: i < j < |headers| ==> headers[j].0 != headers[i].0
  }

  lemma {:induction false} LastValues(headers: HeaderList)
    ensures forall i :: 0 <= i < |headers| && LastOfName(headers, i) ==> LastValue(headers, headers[i].0) == Some(headers[i].1)
  {
    if headers != [] {
      var p := headers[..|headers| - 1];
      LastValues(p);
      forall i | 0 <= i < |headers| && LastOfName(headers, i) ensures LastValue(headers, headers[i].0) == Some(headers[i].1) {
        if i < |p| {
          assert p[i] == headers[i] && LastOfName(p, i);
        }
      }
    }
  }

  method SanitizeInboundHeaders(headers: HeaderList) returns (sanitized: map<string, string>)
    ensures forall name :: name in sanitized <==> !Blocked(name) && LastValue(headers, name).Some?
    ensures forall name :: name in sanitized ==> LastValue(headers, name) == Some(sanitized[name])
    ensures forall name, b :: b in CLIENT_SUPPLIED + HOP_BY_HOP && Spells(name, b) ==> name !in sanitized
    ensures forall i :: 0 <= i < |headers| && headers[i].0 in sanitized && LastOfName(headers, i) ==> sanitized[headers[i].0] == headers[i].1
  {
    sanitized := map[];
    for i := 0 to |headers|
      invariant forall name :: name in sanitized <==> !Blocked(name) && LastValue(headers[..i], name).Some?
      invariant forall name :: name in sanitized ==> LastValue(headers[..i], name) == Some(sanitized[name])
    {
      assert headers[..i + 1][..i] == headers[..i];
      var lower := Lower(headers[i].0);
      if !(lower in CLIENT_SUPPLIED || lower in HOP_BY_HOP) {
        sanitized := sanitized[headers[i].0 := headers[i].1];
      }
    }
    assert headers[..|headers|] == headers;
    SpellingsAreBlocked();
    LastValues(headers);
  }

  lemma SpellingsAreBlocked()
    ensures forall name, b :: b in CLIENT_SUPPLIED + HOP_BY_HOP && Spells(name, b) ==> Blocked(name)
  {
    BlockedIsLowerCase();
    forall name, b | b in CLIENT_SUPPLIED + HOP_BY_HOP && Spells(name, b) ensures Blocked(name) {
      SpellingsAreLowered(name, b);
    }
  }

  // ---------------------------------------------------------------- trusted values

  /** `str.format` with named fields: it fails on a name that is not supplied. */
  function Render(template: seq<Piece>, fields: map<string, string>): Option<string> {
    if template == [] then Some([])
    else
      var rest := Render(template[1..], fields);
      match template[0]
      case Literal(text) => if rest.None? then None else Some(text + rest.value)
      case Field(name) => if name !in fields || rest.None? then None else Some(fields[name] + rest.value)
  }

  predicate KnownFields(template: seq<Piece>, names: set<string>) {
    forall i :: 0 <= i < |template| && template[i].Field? ==> template[i].name in names
  }

  lemma {:induction false} RendersExactly(template: seq<Piece>, fields: map<string, string>)
    ensures Render(template, fields).Some? <==> KnownFields(template, fields.Keys)
  {
    if template != [] {
      RendersExactly(template[1..], fields);
      assert template == [template[0]] + template[1..];
    }
  }

  function TemplatesOk(t: Tenant): bool {
    KnownFields(t.userTemplate, {"tenant_id", "user_id"}) && KnownFields(t.filterTemplate, {"tenant_id"})
  }

  datatype Trusted = Trusted(user: string, filter: string)

  function Joined(parts: seq<string>): string {
    if parts == [] then [] else parts[0] + Joined(parts[1..])
  }

  /** Part by part, a template with the tenant's id and the user's id in the place of its fields. */
  ghost predicate Filled(parts: seq<string>, template: seq<Piece>, tenant: string, user: string) {
    |parts| == |template| &&
    forall i :: 0 <= i < |template| ==>
      match template[i]
      case Literal(text) => parts[i] == text
      case Field(name) => (name == "tenant_id" && parts[i] == tenant) || (name == "user_id" && parts[i] == user)
  }

  ghost predicate Reads(text: string, template: seq<Piece>, tenant: string, user: string) {
    exists parts :: Filled(parts, template, tenant, user) && text == Joined(parts)
  }

  lemma {:induction false} RenderedReads(template: seq<Piece>, fields: map<string, string>, tenant: string, user: string)
    requires fields.Keys <= {"tenant_id", "user_id"}
    requires ("tenant_id" in fields ==> fields["tenant_id"] == tenant) && ("user_id" in fields ==> fields["user_id"] == user)
    requires Render(template, fields).Some?
    ensures Reads(Render(template, fields).value, template, tenant, user)
  {
    if template == [] {
      assert Filled([], template, tenant, user);
    } else {
      RenderedReads(template[1..], fields, tenant, user);
      var rest :| Filled(rest, template[1..], tenant, user) && Render(template[1..], fields).value == Joined(rest);
      var first := match template[0] case Literal(text) => text case Field(name) => fields[name];
      assert ([first] + rest)[1..] == rest;
      assert forall i :: 1 <= i < |template| ==> template[i] == template[1..][i - 1];
      assert Filled([first] + rest, template, tenant, user);
    }
  }

  function TrustedValues(t: Tenant, user: string): (v: Option<Trusted>)
    ensures v.Some? <==> TemplatesOk(t)
    ensures v.Some? ==> Reads(v.value.user, t.userTemplate, t.id, user) && Reads(v.value.filter, t.filterTemplate, t.id, user)
  {
    var both := map["tenant_id" := t.id, "user_id" := user];
    var one := map["tenant_id" := t.id];
    assert both.Keys == {"tenant_id", "user_id"} && one.Keys == {"tenant_id"};
    RendersExactly(t.userTemplate, both);
    RendersExactly(t.filterTemplate, one);
    var header, filter := Render(t.userTemplate, both), Render(t.filterTemplate, one);
    if header.None? || filter.None? then None
    else
      RenderedReads(t.userTemplate, both, t.id, user);
      RenderedReads(t.filterTemplate, one, t.id, user);
      Some(Trusted(header.value, filter.value))
  }

  function Injected(t: Tenant, user: string, v: Trusted): (m: map<string, string>)
    ensures m.Keys == INJECTED
  {
    map["user" := v.user, "external-filter" := v.filter, "config-profile" := t.profile,
        "x-internal-tenant-id" := t.id, "x-internal-user-id" := user]
  }

  function Added(t: Tenant, requestId: string): (m: map<string, string>)
    ensures m.Keys == ADDED
  {
    map["x-request-id" := requestId,
        "x-internal-kv-cache-isolation-required" := if t.isolateCache then "true" else "false",
        "x-internal-runtime-isolation-mode" := t.isolationMode]
  }

  /** Everything the gateway sets itself. */
  function Own(t: Tenant, user: string, requestId: string, v: Trusted): (m: map<string, string>)
    ensures m.Keys == INJECTED + ADDED
  {
    Injected(t, user, v) + Added(t, requestId)
  }

  /** The outbound headers: the gateway's own values, and of the client's the last of each name that is neither blocked nor set. */
  ghost predicate IsOutbound(out: map<string, string>, headers: HeaderList, own: map<string, string>) {
    (forall name :: name in own ==> name in out && out[name] == own[name]) &&
    (forall name :: name !in own ==> (name in out <==> !Blocked(name) && LastValue(headers, name).Some?)) &&
    (forall name :: name !in own && name in out ==> LastValue(headers, name) == Some(out[name]))
  }

  lemma SetOneByOne(m: map<string, string>, a: string, b: string, c: string, x: string, y: string, z: string)
    ensures m[a := x][b := y][c := z] == m + map[a := x, b := y, c := z]
  {
  }

  lemma MergedIsOutbound(sanitized: map<string, string>, headers: HeaderList, injected: map<string, string>, added: map<string, string>)
    requires forall name :: name in sanitized <==> !Blocked(name) && LastValue(headers, name).Some?
    requires forall name :: name in sanitized ==> LastValue(headers, name) == Some(sanitized[name])
    ensures IsOutbound(sanitized + injected + added, headers, injected + added)
  {
  }

  /** Whatever the client sent, the upstream sees the owner, the user, the request id and the isolation the gateway decided on. */
  ghost predicate Identifies(out: map<string, string>, t: Tenant, user: string, requestId: string) {
    Lookup(out, "x-internal-tenant-id", "") == t.id && Lookup(out, "x-internal-user-id", "") == user &&
    Lookup(out, "x-request-id", "") == requestId && Lookup(out, "config-profile", "") == t.profile &&
    Lookup(out, "x-internal-kv-cache-isolation-required", "") == (if t.isolateCache then "true" else "false") &&
    Lookup(out, "x-internal-runtime-isolation-mode", "") == t.isolationMode &&
    Reads(Lookup(out, "user", ""), t.userTemplate, t.id, user) &&
    Reads(Lookup(out, "external-filter", ""), t.filterTemplate, t.id, user)
  }

  lemma OwnIdentifies(out: map<string, string>, t: Tenant, user: string, requestId: string, v: Trusted)
    requires forall name :: name in Own(t, user, requestId, v) ==> name in out && out[name] == Own(t, user, requestId, v)[name]
    requires Reads(v.user, t.userTemplate, t.id, user) && Reads(v.filter, t.filterTemplate, t.id, user)
    ensures Identifies(out, t, user, requestId)
  {
    var own := Own(t, user, requestId, v);
    assert "x-internal-tenant-id" in own && "x-internal-user-id" in own && "x-request-id" in own && "config-profile" in own;
    assert "x-internal-kv-cache-isolation-required" in own && "x-internal-runtime-isolation-mode" in own;
    assert "user" in own && "external-filter" in own;
  }

  /** No spelling of a hop-by-hop or sensitive name, "authorization" among them, is passed on. */
  lemma NothingSensitive(out: map<string, string>, headers: HeaderList, own: map<string, string>)
    requires own.Keys == INJECTED + ADDED && IsOutbound(out, headers, own)
    ensures forall name, b :: b in HOP_BY_HOP && Spells(name, b) ==> name !in out
  {
    SpellingsAreBlocked();
    BlockedIsLowerCase();
    forall name, b | b in HOP_BY_HOP && Spells(name, b) ensures name !in out {
      OwnIsNotSensitive(name, b);
    }
  }

  lemma OwnIsNotSensitive(name: string, b: string)
    requires b in HOP_BY_HOP && Spells(name, b)
    ensures name !in INJECTED + ADDED
  {
    OwnIsLowerCase(name);
    if LowerCase(name) {
      assert name == b;
    }
    OwnIsApart();
  }

  lemma OwnIsLowerCase(name: string)
    ensures name in INJECTED + ADDED ==> LowerCase(name)
  {
    InjectedIsLowerCase(name);
    AddedIsLowerCase(name);
  }

  lemma InjectedIsLowerCase(name: string)
    ensures name in INJECTED ==> LowerCase(name)
  {
  }

  lemma AddedIsLowerCase(name: string)
    ensures name in ADDED ==> LowerCase(name)
  {
  }

  lemma OwnIsApart()
    ensures INJECTED + ADDED !! HOP_BY_HOP
  {
  }

  /** Fails, with an exception, exactly when one of the tenant's templates names an unknown field. */
  method BuildOutboundHeaders(headers: HeaderList, t: Tenant, user: string, requestId: string)
    returns (out: Option<map<string, string>>)
    ensures out.Some? <==> (forall i :: 0 <= i < |t.userTemplate| && t.userTemplate[i].Field? ==> t.userTemplate[i].name in {"tenant_id", "user_id"}) &&
                           (forall i :: 0 <= i < |t.filterTemplate| && t.filterTemplate[i].Field? ==> t.filterTemplate[i].name == "tenant_id")
    ensures out.Some? <==> TemplatesOk(t)
    ensures out.Some? ==> IsOutbound(out.value, headers, Own(t, user, requestId, TrustedValues(t, user).value))
    ensures out.Some? ==> Identifies(out.value, t, user, requestId)
    ensures out.Some? ==> forall name, b :: b in HOP_BY_HOP && Spells(name, b) ==> name !in out.value
  {
    var sanitized := SanitizeInboundHeaders(headers);
    var trusted := TrustedValues(t, user);
    if trusted.None? {
      return None;
    }
    var outbound := sanitized;
    outbound := outbound + Injected(t, user, trusted.value);
    ghost var injected := outbound;
    outbound := outbound["x-request-id" := requestId];
    outbound := outbound["x-internal-kv-cache-isolation-required" := if t.isolateCache then "true" else "false"];
    outbound := outbound["x-internal-runtime-isolation-mode" := t.isolationMode];
    SetOneByOne(injected, "x-request-id", "x-internal-kv-cache-isolation-required", "x-internal-runtime-isolation-mode",
                requestId, if t.isolateCache then "true" else "false", t.isolationMode);
    MergedIsOutbound(sanitized, headers, Injected(t, user, trusted.value), Added(t, requestId));
    OwnIdentifies(outbound, t, user, requestId, trusted.value);
    NothingSensitive(outbound, headers, Own(t, user, requestId, trusted.value));
    return Some(outbound);
  }

  /** The template a tenant has unless it sets its own. */
  const DEFAULT_USER_TEMPLATE := [Field("tenant_id"), Literal(":"), Field("user_id")]

  /** The default user header names one user exactly when it names one key owner, so always for colon-free tenant ids. */
  lemma DefaultUserHeaderIdentifies(t1: string, u1: string, t2: string, u2: string)
    ensures var h1 := Render(DEFAULT_USER_TEMPLATE, map["tenant_id" := t1, "user_id" := u1]);
            var h2 := Render(DEFAULT_USER_TEMPLATE, map["tenant_id" := t2, "user_id" := u2]);
            h1 == Some(t1 + ":" + u1) && (h1 == h2 <==> K.Alias(QuotaLog.User(t1, u1), QuotaLog.User(t2, u2)))
    ensures K.ColonFree(t1) && K.ColonFree(t2) ==>
              (t1 + ":" + u1 == t2 + ":" + u2 <==> t1 == t2 && u1 == u2)
  {
    RenderDefault(t1, u1);
    RenderDefault(t2, u2);
    if K.ColonFree(t1) && K.ColonFree(t2) {
      K.ColonFreeScopesNeverAlias(QuotaLog.User(t1, u1), QuotaLog.User(t2, u2));
    }
  }

  lemma RenderDefault(t: string, u: string)
    ensures Render(DEFAULT_USER_TEMPLATE, map["tenant_id" := t, "user_id" := u]) == Some(t + ":" + u)
  {
    var fields := map["tenant_id" := t, "user_id" := u];
    assert DEFAULT_USER_TEMPLATE[1..] == [Literal(":"), Field("user_id")] && DEFAULT_USER_TEMPLATE[1..][1..] == [Field("user_id")];
    assert Render([Field("user_id")], fields) == Some(u + []) && u + [] == u;
    assert t + (":" + u) == t + ":" + u;
  }

  /** With the default templates, the user header is tenant, colon, user, and the filter names the tenant. */
  lemma DefaultHeaders(out: map<string, string>, t: Tenant, user: string, requestId: string)
    requires t.userTemplate == DEFAULT_USER_TEMPLATE && t.filterTemplate == [Literal("tenant="), Field("tenant_id")]
    requires Identifies(out, t, user, requestId)
    ensures Lookup(out, "user", "") == t.id + ":" + user && Lookup(out, "external-filter", "") == "tenant=" + t.id
  {
    var user', filter := Lookup(out, "user", ""), Lookup(out, "external-filter", "");
    var p :| Filled(p, t.userTemplate, t.id, user) && user' == Joined(p);
    assert t.userTemplate[0] == Field("tenant_id") && t.userTemplate[1] == Literal(":") && t.userTemplate[2] == Field("user_id");
    assert p == [t.id, ":", user];
    JoinedParts(t.id, ":", user);
    var q :| Filled(q, t.filterTemplate, t.id, user) && filter == Joined(q);
    assert t.filterTemplate[0] == Literal("tenant=") && t.filterTemplate[1] == Field("tenant_id");
    assert q == ["tenant=", t.id];
    JoinedParts("", "tenant=", t.id);
  }

  lemma JoinedParts(a: string, b: string, c: string)
    ensures Joined([a, b, c]) == a + b + c && Joined([b, c]) == b + c
  {
    assert [a, b, c][1..] == [b, c] && [b, c][1..] == [c] && [c][1..] == [];
    assert Joined([c]) == c + [] && c + [] == c;
    assert a + (b + c) == a + b + c;
  }

  // ---------------------------------------------------------------- what clients can and cannot influence

  /** The headers that can matter: neither blocked nor overwritten. */
  function Passing(headers: HeaderList): HeaderList {
    if headers == [] then []
    else
      var init, last := Passing(headers[..|headers| - 1]), headers[|headers| - 1];
      if Blocked(last.0) || last.0 in ADDED then init else init + [last]
  }

  lemma {:induction false} PassingKeepsValues(headers: HeaderList, name: string)
    requires !Blocked(name) && name !in ADDED
    ensures LastValue(Passing(headers), name) == LastValue(headers, name)
  {
    if headers != [] {
      var init, last := headers[..|headers| - 1], headers[|headers| - 1];
      PassingKeepsValues(init, name);
      assert (Passing(init) + [last])[..|Passing(init)|] == Passing(init);
    }
  }

  /** Every name the gateway injects is one that clients may not supply. */
  lemma InjectedAreBlocked(name: string)
    requires name in INJECTED
    ensures name in CLIENT_SUPPLIED
  {
  }

  lemma OutboundIsDetermined(out: map<string, string>, out': map<string, string>, headers: HeaderList, own: map<string, string>)
    requires IsOutbound(out, headers, own) && IsOutbound(out', headers, own)
    ensures out == out'
  {
  }

  /**
    Header non-interference: two requests that differ only in blocked and overwritten headers are forwarded
    with the same headers.
   */
  lemma {:induction false} BlockedHeadersDoNotMatter(h: HeaderList, h': HeaderList, out: map<string, string>, out': map<string, string>,
                                  own: map<string, string>)
    requires Passing(h) == Passing(h') && own.Keys == INJECTED + ADDED
    requires IsOutbound(out, h, own) && IsOutbound(out', h', own)
    ensures out == out'
  {
    assert IsOutbound(out', h, own) by {
      forall name | name !in own && !Blocked(name) ensures LastValue(h, name) == LastValue(h', name) {
        PassingKeepsValues(h, name);
        PassingKeepsValues(h', name);
      }
    }
    OutboundIsDetermined(out, out', h, own);
  }

  /** A client header that would reach the upstream beside a trusted one, under another spelling of its name. */
  predicate Shadows(name: string) {
    name !in ADDED && Lower(name) in ADDED
  }

  lemma AddedAreAllowed(name: string)
    requires name in ADDED
    ensures name !in CLIENT_SUPPLIED && name !in HOP_BY_HOP
  {
  }

  /** No spelling of a trusted name reaches the upstream with a client's value. */
  ghost predicate Unspoofed(out: map<string, string>, own: map<string, string>) {
    forall name :: name in out && Lower(name) in own ==> name in own && out[name] == own[name]
  }

  /**
    Trusted headers cannot be spoofed exactly when no header name is a respelling of one of the three names that
    are added without being blocked; servers that lower-case names, as ASGI requires, never pass such a name.
   */
  lemma UnspoofedExactly(headers: HeaderList, out: map<string, string>, own: map<string, string>)
    requires own.Keys == INJECTED + ADDED && IsOutbound(out, headers, own)
    ensures Unspoofed(out, own) <==> forall i :: 0 <= i < |headers| ==> !Shadows(headers[i].0)
  {
    if i :| 0 <= i < |headers| && Shadows(headers[i].0) {
      var name := headers[i].0;
      AddedAreAllowed(Lower(name));
      SuppliedHasValue(headers, i);
      if name in own {
        InjectedAreBlocked(name);
        InjectedAreLower(name);
      }
    }
    if !Unspoofed(out, own) {
      var name :| name in out && Lower(name) in own && !(name in own && out[name] == own[name]);
      if Lower(name) in INJECTED { InjectedAreBlocked(Lower(name)); }
      ValueIsSupplied(headers, name);
    }
  }

  lemma InjectedAreLower(name: string)
    requires name in INJECTED
    ensures Lower(name) == name
  {
  }

  lemma {:induction false} SuppliedHasValue(headers: HeaderList, i: nat)
    requires i < |headers|
    ensures LastValue(headers, headers[i].0).Some?
  {
    var init := headers[..|headers| - 1];
    if headers[|headers| - 1].0 != headers[i].0 {
      assert init[i] == headers[i];
      SuppliedHasValue(init, i);
    }
  }

  lemma {:induction false} ValueIsSupplied(headers: HeaderList, name: string)
    requires LastValue(headers, name).Some?
    ensures exists i :: 0 <= i < |headers| && headers[i].0 == name
  {
    if headers[|headers| - 1].0 != name {
      var init := headers[..|headers| - 1];
      ValueIsSupplied(init, name);
      var i :| 0 <= i < |init| && init[i].0 == name;
      assert headers[i].0 == name;
    }
  }
}
