/** The gates a request passes before anything is spent on it: tenant policy, then adapter governance. */
module Policy {
  import opened Options
  import opened Text
  import opened TenantRegistry

  /** What a verified token says. */
  datatype Principal = Principal(tenantId: string, userId: string)

  /** The parts of a request the policy looks at. */
  datatype Attributes = Attributes(domain: Option<string>, model: Option<string>, adapter: Option<string>)

  datatype GovernanceMode = AllowlistOnly | CatalogEnforced

  datatype Verdict =
    | Forward(tenant: Tenant, user: string, model: string, adapter: Option<string>)
    | Refuse(status: nat, reason: string)

  /** An adapter was asked for, by a name that is not empty. */
  predicate AsksForAdapter(adapter: Option<string>) {
    adapter.Some? && adapter.value != []
  }

  predicate ModelAllowed(t: Tenant, model: Option<string>, adapter: Option<string>) {
    model.Some? && model.value in t.models && (AsksForAdapter(adapter) ==> adapter.value in t.models[model.value])
  }

  function EvaluatePolicy(r: Option<Registry>, a: Attributes, principal: Option<Principal>, authError: Option<string>): (v: Verdict)
    ensures v.Forward? ==> r.Some? && ResolveByHost(r.value, a.domain) == Some(v.tenant) && a.model == Some(v.model) &&
                           principal == Some(Principal(v.tenant.id, v.user)) && v.adapter == a.adapter
    ensures v.Forward? <==> r.Some? && ResolveByHost(r.value, a.domain).Some? && principal.Some? &&
                            var t := ResolveByHost(r.value, a.domain).value;
                            principal.value.tenantId == t.id && a.model.Some? && a.model.value in t.models &&
                            (a.adapter.Some? && a.adapter.value != [] ==> a.adapter.value in t.models[a.model.value])
    ensures r.None? ==> v == Refuse(503, "registry_unavailable")
    ensures r.Some? && ResolveByHost(r.value, a.domain).None? ==> v == Refuse(403, "unknown_tenant")
    ensures r.Some? && ResolveByHost(r.value, a.domain).Some? ==>
              var t := ResolveByHost(r.value, a.domain).value;
              if principal.None? then v == Refuse(401, if authError.Some? && authError.value != [] then authError.value else "missing_token")
              else if principal.value.tenantId != t.id then v == Refuse(403, "tenant_claim_mismatch")
              else if a.model.None? || a.model.value !in t.models then v == Refuse(403, "unknown_model")
              else v.Refuse? ==> v == Refuse(403, "unknown_adapter")
  {
    if r.None? then Refuse(503, "registry_unavailable")
    else
      var resolved := ResolveByHost(r.value, a.domain);
      if resolved.None? then Refuse(403, "unknown_tenant")
      else if principal.None? then Refuse(401, if authError == None || authError == Some([]) then "missing_token" else authError.value)
      else
        var tenant, p := resolved.value, principal.value;
        if p.tenantId != tenant.id then Refuse(403, "tenant_claim_mismatch")
        else if a.model.None? then Refuse(403, "unknown_model")
        else if a.model.value !in tenant.models then Refuse(403, "unknown_model")
        else if AsksForAdapter(a.adapter) && a.adapter.value !in tenant.models[a.model.value] then Refuse(403, "unknown_adapter")
        else Forward(tenant, p.userId, a.model.value, a.adapter)
  }

  /** The catalogue vouches for the adapter: active, made for the model, with a checksum and a signer. */
  predicate Vouched(artifact: Artifact, model: string) {
    artifact.status == "active" && model in artifact.models && |artifact.sha256| >= 32 &&
    artifact.signedBy.Some? && artifact.signedBy.value != []
  }

  /** `None` means allowed; otherwise the reason for the refusal. */
  function EvaluateGovernance(t: Tenant, model: string, adapter: Option<string>, mode: GovernanceMode): (refusal: Option<string>)
    ensures refusal.None? <==> adapter.None? || mode.AllowlistOnly? ||
                               (adapter.value in t.artifacts &&
                                var a := t.artifacts[adapter.value];
                                a.status == "active" && model in a.models && |a.sha256| >= 32 && a.signedBy.Some? && a.signedBy.value != [])
    ensures refusal.Some? ==>
              if adapter.value !in t.artifacts then refusal.value == "adapter_not_governed"
              else
                var a := t.artifacts[adapter.value];
                if a.status != "active" then refusal.value == "adapter_" + a.status
                else if model !in a.models then refusal.value == "adapter_model_incompatible"
                else if |a.sha256| < 32 then refusal.value == "adapter_checksum_missing"
                else refusal.value == "adapter_signature_missing"
  {
    if adapter.None? then None
    else if mode.AllowlistOnly? then None
    else if adapter.value !in t.artifacts then Some("adapter_not_governed")
    else
      var artifact := t.artifacts[adapter.value];
      if artifact.status != "active" then Some("adapter_" + artifact.status)
      else if model !in artifact.models then Some("adapter_model_incompatible")
      else if artifact.sha256 == [] || |artifact.sha256| < 32 then Some("adapter_checksum_missing")
      else if artifact.signedBy.None? || artifact.signedBy.value == [] then Some("adapter_signature_missing")
      else None
  }

  /** The attributes of a request with a given host header. */
  function AttributesOf(host: Option<string>, model: string, adapter: Option<string>): Attributes {
    Attributes(if host.Some? && host.value != [] then Some(Lower(host.value)) else None, Some(model), adapter)
  }

  function Gates(r: Option<Registry>, host: Option<string>, model: string, adapter: Option<string>,
                 principal: Option<Principal>, authError: Option<string>, mode: GovernanceMode): Verdict
  {
    var v := EvaluatePolicy(r, AttributesOf(host, model, adapter), principal, authError);
    if v.Refuse? then v
    else
      var refusal := EvaluateGovernance(v.tenant, v.model, v.adapter, mode);
      if refusal.Some? then Refuse(403, refusal.value) else v
  }

  /** What must hold of the tenant that owns the host. */
  predicate Entitled(t: Tenant, model: string, adapter: Option<string>, principal: Option<Principal>, mode: GovernanceMode) {
    principal.Some? && principal.value.tenantId == t.id && ModelAllowed(t, Some(model), adapter) &&
    (adapter.None? || mode.AllowlistOnly? || (adapter.value in t.artifacts && Vouched(t.artifacts[adapter.value], model)))
  }

  ghost predicate OwnedByEntitled(ts: seq<Tenant>, host: string, model: string, adapter: Option<string>,
                                  principal: Option<Principal>, mode: GovernanceMode)
  {
    exists i :: 0 <= i < |ts| && HostKey(host) in ts[i].domains && Entitled(ts[i], model, adapter, principal, mode)
  }

  /** The tenant whose issuer checks the token is the tenant whose policy is applied, however the host is spelled. */
  lemma AuthTenantIsPolicyTenant(r: Registry, host: Option<string>, model: string, adapter: Option<string>)
    ensures ResolveByHost(r, AttributesOf(host, model, adapter).domain) == ResolveByHost(r, host)
  {
    if host.Some? && host.value != [] {
      SpellingDoesNotMatter(r, host.value, []);
    }
  }

  /**
    Forwarding soundness and completeness: with the registry of a document that loads, a request passes the
    gates exactly when some tenant of the document owns the host's domain, the token is that tenant's, and the
    tenant allows the model and adapter; and it is forwarded as that tenant, which no other tenant shares the domain with.
   */
  lemma ForwardedExactly(r: Registry, ts: seq<Tenant>, host: Option<string>, model: string, adapter: Option<string>,
                         principal: Option<Principal>, authError: Option<string>, mode: GovernanceMode)
    requires RegistryOf(r, ts)
    ensures var v := Gates(Some(r), host, model, adapter, principal, authError, mode);
            v.Forward? <==> host.Some? && host.value != [] && OwnedByEntitled(ts, host.value, model, adapter, principal, mode)
    ensures var v := Gates(Some(r), host, model, adapter, principal, authError, mode);
            forall i :: 0 <= i < |ts| && v.Forward? && HostKey(host.value) in ts[i].domains ==>
                        v == Forward(ts[i], principal.value.userId, model, adapter) && principal.value.tenantId == ts[i].id
  {
    var v := Gates(Some(r), host, model, adapter, principal, authError, mode);
    AuthTenantIsPolicyTenant(r, host, model, adapter);
    if host.Some? && host.value != [] {
      forall i | 0 <= i < |ts|
        ensures ResolveByHost(r, host) == Some(ts[i]) <==> HostKey(host.value) in ts[i].domains
      {
        OwnerIsTheLister(r, ts, host.value, i);
      }
      if v.Forward? {
        var d := HostKey(host.value);
        var a :| 0 <= a < |ByDomain(ts)| && ByDomain(ts)[a].0 == d;
        ListedByItsTenant(ts, d, v.tenant);
      }
    }
  }

  /** What an owner answers to a request for one of its hosts, refusal by refusal. */
  ghost predicate AnswersAs(v: Verdict, t: Tenant, model: string, adapter: Option<string>, principal: Option<Principal>,
                            authError: Option<string>, mode: GovernanceMode)
  {
    if principal.None? then v == Refuse(401, if authError.Some? && authError.value != [] then authError.value else "missing_token")
    else if principal.value.tenantId != t.id then v == Refuse(403, "tenant_claim_mismatch")
    else if model !in t.models then v == Refuse(403, "unknown_model")
    else if adapter.Some? && adapter.value != [] && adapter.value !in t.models[model] then v == Refuse(403, "unknown_adapter")
    else if adapter.None? || mode.AllowlistOnly? then v == Forward(t, principal.value.userId, model, adapter)
    else if adapter.value !in t.artifacts then v == Refuse(403, "adapter_not_governed")
    else
      var a := t.artifacts[adapter.value];
      if a.status != "active" then v == Refuse(403, "adapter_" + a.status)
      else if model !in a.models then v == Refuse(403, "adapter_model_incompatible")
      else if |a.sha256| < 32 then v == Refuse(403, "adapter_checksum_missing")
      else if a.signedBy.None? || a.signedBy.value == [] then v == Refuse(403, "adapter_signature_missing")
      else v == Forward(t, principal.value.userId, model, adapter)
  }

  /**
    The whole answer of the gates: a host no tenant of the document lists is refused, and any other is answered by the
    one tenant that lists it.
   */
  lemma {:induction false} AnsweredExactly(r: Registry, ts: seq<Tenant>, host: string, model: string, adapter: Option<string>,
                                           principal: Option<Principal>, authError: Option<string>, mode: GovernanceMode)
    requires RegistryOf(r, ts) && host != []
    ensures var v := Gates(Some(r), Some(host), model, adapter, principal, authError, mode);
            (forall i :: 0 <= i < |ts| && HostKey(host) in ts[i].domains ==> AnswersAs(v, ts[i], model, adapter, principal, authError, mode)) &&
            ((forall i :: 0 <= i < |ts| ==> HostKey(host) !in ts[i].domains) ==> v == Refuse(403, "unknown_tenant"))
  {
    AuthTenantIsPolicyTenant(r, Some(host), model, adapter);
    forall i | 0 <= i < |ts| && HostKey(host) in ts[i].domains
      ensures AnswersAs(Gates(Some(r), Some(host), model, adapter, principal, authError, mode), ts[i], model, adapter, principal, authError, mode)
    {
      OwnerIsTheLister(r, ts, host, i);
    }
    if ResolveByHost(r, Some(host)).Some? {
      var d := HostKey(host);
      var a :| 0 <= a < |ByDomain(ts)| && ByDomain(ts)[a].0 == d;
      ListedByItsTenant(ts, d, r.byDomain[d]);
    }
  }

  /** A token of one tenant is never accepted on a host of another. */
  lemma TokensStayHome(r: Registry, ts: seq<Tenant>, host: string, model: string, adapter: Option<string>,
                       principal: Principal, authError: Option<string>, mode: GovernanceMode, i: nat)
    requires RegistryOf(r, ts) && i < |ts| && HostKey(host) in ts[i].domains && principal.tenantId != ts[i].id
    ensures Gates(Some(r), Some(host), model, adapter, Some(principal), authError, mode).Refuse?
  {
    ForwardedExactly(r, ts, Some(host), model, adapter, Some(principal), authError, mode);
  }
}
