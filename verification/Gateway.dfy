/**
  The request handler: which effects it has, and in which order. Its awaits are the boundaries of the methods
  below, and a step of a ledger thread is a method too, so every interleaving of concurrent requests and ledger
  threads is a sequence of calls of them.
 */
module Gateway {
  import opened Options
  import opened LedgerBatch
  import opened BillingLedger
  import opened PassedBills
  import opened SlotAccounts
  import Log = QuotaLog
  import MemoryRuns
  import Memory = MemoryQuota
  import Registry = TenantRegistry
  import L = LocalLedger
  import S = LruSet
  import LedgerProtocol
  import LedgerLoss
  import LedgerDuplicates
  import LedgerStranded
  import LedgerWinners
  import H = Headers
  import P = Policy

  datatype Settings = Settings(billing: Mode, governance: P.GovernanceMode, allowUnbilledStreams: bool, blocked: bool)

  /** A parsed body, or the reason it was refused. */
  datatype Content = Malformed(reason: string) | Parsed(model: string, adapter: Option<string>, stream: bool)

  /** What token validation says; it is asked only if the host has an owner. */
  datatype Auth = Verified(principal: P.Principal) | Unverified(reason: string)

  datatype Request = Request(
    id: Log.RequestId,
    host: Option<string>,
    headers: H.HeaderList,
    content: Content,
    auth: Auth,
    estimate: Option<int>)

  /** A response sent by the gateway, the upstream's passed through, or an exception left to the server. */
  datatype Response =
    | Refused(status: nat, reason: string)
    | Limited(decision: Log.Decision)
    | Passed(status: nat, body: Body)
    | Streaming(status: nat)
    | Crashed

  /** A request whose handler waits for the upstream. */
  datatype Pending = Pending(ticket: Log.Ticket, recorded: bool)

  datatype Stage =
    | Answered(response: Response)
    | Forwarding(pending: Pending, headers: map<string, string>)
    | Opening(pending: Pending, headers: map<string, string>)

  datatype Upstream = Replied(status: nat, body: Body) | Raised

  /** `_streaming_billing_is_blocked`. */
  predicate StreamBlocked(s: Settings, stream: bool) {
    if !stream then false else if s.allowUnbilledStreams then false else s.billing.Required()
  }

  /** The outcome of everything that happens before quota is touched. */
  function Gate(s: Settings, r: Option<Registry.Registry>, req: Request): (v: P.Verdict)
    ensures s.blocked ==> v == P.Refuse(503, "security_posture_blocked")
    ensures !s.blocked && req.content.Malformed? ==> v == P.Refuse(400, req.content.reason)
    ensures !s.blocked && req.content.Parsed? && req.auth.Verified? ==>
              var c := req.content;
              var gates := P.Gates(r, req.host, c.model, c.adapter, Some(req.auth.principal), None, s.governance);
              v == if gates.Forward? && c.stream && !s.allowUnbilledStreams && (s.billing.LedgerRequired? || s.billing.AwsNativeReference?)
                   then P.Refuse(400, "streaming_billing_not_supported") else gates
    ensures !s.blocked && req.content.Parsed? && req.auth.Unverified? && r.Some? && Registry.ResolveByHost(r.value, req.host).Some? ==>
              v == P.Refuse(401, if req.auth.reason == [] then "missing_token" else req.auth.reason)
    ensures !s.blocked && req.content.Parsed? && r.Some? && Registry.ResolveByHost(r.value, req.host).None? ==>
              v == P.Refuse(403, "unknown_tenant")
    ensures !s.blocked && req.content.Parsed? && r.None? ==> v == P.Refuse(503, "registry_unavailable")
  {
    if s.blocked then P.Refuse(503, "security_posture_blocked")
    else
      match req.content
      case Malformed(reason) => P.Refuse(400, reason)
      case Parsed(model, adapter, stream) =>
        var owned := r.Some? && Registry.ResolveByHost(r.value, req.host).Some?;
        var principal := if owned && req.auth.Verified? then Some(req.auth.principal) else None;
        var authError := if owned && req.auth.Unverified? then Some(req.auth.reason) else None;
        OwnerDecides(r, req.host, model, adapter, req.auth, s.governance);
        var v := P.Gates(r, req.host, model, adapter, principal, authError, s.governance);
        if v.Forward? && StreamBlocked(s, stream) then P.Refuse(400, "streaming_billing_not_supported") else v
  }

  /** Without an owner the token makes no difference. */
  lemma OwnerDecides(r: Option<Registry.Registry>, host: Option<string>, model: string, adapter: Option<string>, auth: Auth,
                     mode: P.GovernanceMode)
    ensures r.None? ==> forall p, e :: P.Gates(r, host, model, adapter, p, e, mode) == P.Refuse(503, "registry_unavailable")
    ensures r.Some? && Registry.ResolveByHost(r.value, host).None? ==>
              forall p, e :: P.Gates(r, host, model, adapter, p, e, mode) == P.Refuse(403, "unknown_tenant")
    ensures r.Some? && Registry.ResolveByHost(r.value, host).Some? ==>
              forall reason :: P.Gates(r, host, model, adapter, None, Some(reason), mode) ==
                               P.Refuse(401, if reason == [] then "missing_token" else reason)
  {
    if r.Some? {
      P.AuthTenantIsPolicyTenant(r.value, host, model, adapter);
    }
  }

  /** A request that is forwarded is its host's owner's, and its user's. */
  lemma ForwardedAsOwner(s: Settings, r: Option<Registry.Registry>, req: Request)
    requires Gate(s, r, req).Forward?
    ensures var v := Gate(s, r, req);
            r.Some? && Registry.ResolveByHost(r.value, req.host) == Some(v.tenant) && req.auth.Verified? &&
            req.auth.principal == P.Principal(v.tenant.id, v.user)
  {
    var c := req.content;
    P.AuthTenantIsPolicyTenant(r.value, req.host, c.model, c.adapter);
  }

  function TicketOf(req: Request, v: P.Verdict): Log.Ticket
    requires v.Forward?
  {
    Log.Ticket(v.tenant.id, v.user, req.id)
  }

  function CallOf(req: Request, v: P.Verdict, now: nat): Log.Call
    requires v.Forward?
  {
    Log.Call(TicketOf(req, v), req.estimate, v.tenant.limits, now)
  }

  /** The tokens a request counts with: its estimate, if it has one that is not negative. */
  function Estimated(req: Request): (tokens: nat)
    ensures req.estimate.Some? && req.estimate.value >= 0 ==> tokens == req.estimate.value
    ensures req.estimate.None? || req.estimate.value < 0 ==> tokens == 0
  {
    if req.estimate.Some? && req.estimate.value > 0 then req.estimate.value else 0
  }

  lemma CallIsOwn(req: Request, v: P.Verdict, now: nat)
    requires v.Forward?
    ensures CallOf(req, v, now) == Log.Call(Log.Ticket(v.tenant.id, v.user, req.id), req.estimate, v.tenant.limits, now)
    ensures CallOf(req, v, now).AsAdmission() == Log.Admission(Log.Ticket(v.tenant.id, v.user, req.id), now, Estimated(req))
    ensures CallOf(req, v, now).ticket == TicketOf(req, v)
  {
  }

  /** A call that alone is more than the token limit is never admitted. */
  lemma OverLimitIsRefused(cfg: Log.Config, s: Memory.Store, c: Log.Call)
    requires c.limits.inputTokens.Some? && c.Tokens() > c.limits.inputTokens.value
    ensures !Memory.CheckStep(cfg, s, c).1.allowed
  {
  }

  /** The outbound headers are the gateway's own and the client's harmless ones. */
  ghost predicate CarriesOwn(req: Request, v: P.Verdict, headers: map<string, string>) {
    v.Forward? && H.TemplatesOk(v.tenant) &&
    H.IsOutbound(headers, req.headers, H.Own(v.tenant, v.user, req.id, H.TrustedValues(v.tenant, v.user).value))
  }

  /**
    The quota was asked about the request as the host owner's and the token's user's, with the owner's own limits: an
    admission enters exactly that request with its estimate in the history, and an estimate above the owner's token
    limit is refused.
   */
  ghost predicate AskedAsOwner(cfg: Log.Config, before: Memory.Store, log: seq<Log.Admission>, log': seq<Log.Admission>, req: Request,
                               now: nat, d: Log.Decision, owner: Registry.Tenant, user: string)
  {
    var tokens := if req.estimate.Some? && req.estimate.value > 0 then req.estimate.value else 0;
    d == Memory.CheckStep(cfg, before, Log.Call(Log.Ticket(owner.id, user, req.id), req.estimate, owner.limits, now)).1 &&
    log' == (if d.allowed then log + [Log.Admission(Log.Ticket(owner.id, user, req.id), now, tokens)] else log) &&
    (owner.limits.inputTokens.Some? && tokens > owner.limits.inputTokens.value ==> !d.allowed)
  }

  lemma AsksAsOwner(cfg: Log.Config, before: Memory.Store, log: seq<Log.Admission>, log': seq<Log.Admission>, req: Request, now: nat,
                    d: Log.Decision, owner: Registry.Tenant, user: string)
    requires d == Memory.CheckStep(cfg, before, Log.Call(Log.Ticket(owner.id, user, req.id), req.estimate, owner.limits, now)).1
    requires log' == if d.allowed then log + [Log.Admission(Log.Ticket(owner.id, user, req.id), now, Estimated(req))] else log
    ensures AskedAsOwner(cfg, before, log, log', req, now, d, owner, user)
  {
    var call := Log.Call(Log.Ticket(owner.id, user, req.id), req.estimate, owner.limits, now);
    if owner.limits.inputTokens.Some? && Estimated(req) > owner.limits.inputTokens.value {
      OverLimitIsRefused(cfg, before, call);
    }
  }

  class Gateway {
    const settings: Settings
    const registry: Option<Registry.Registry>
    const quota: Memory.InMemoryQuotaEnforcer?
    const ledger: BillingLedger

    /** Where every admitted request is, and the plain responses passed through. */
    ghost var accounts: Accounts
    ghost var passed: seq<Pass>

    /** What the ledger had accepted before. */
    ghost const earlier: seq<Entry>

    /** What the gateway relies on in the ledger. */
    ghost predicate LedgerValid()
      reads this, ledger, ledger.seen
    {
      ledger.Valid() && ledger.mode == settings.billing && AllBalanced(ledger.Contents().accepted) &&
      (settings.billing.Required() ==> Ledgered(passed, earlier, ledger.Contents().accepted))
    }

    /** What it relies on in the quota. */
    ghost predicate QuotaValid()
      reads this, quota
    {
      (quota == null ==> accounts == NO_ACCOUNTS) &&
      (quota != null ==> quota.Valid() && Balanced(quota.cfg, quota.Contents(), quota.log, quota.clock, accounts))
    }

    ghost predicate Valid()
      reads this, quota, ledger, ledger.seen
    {
      LedgerValid() && QuotaValid()
    }

    constructor (settings: Settings, registry: Option<Registry.Registry>, quota: Memory.InMemoryQuotaEnforcer?, ledger: BillingLedger)
      requires ledger.Valid() && ledger.mode == settings.billing && AllBalanced(ledger.Contents().accepted)
      requires quota != null ==> quota.Valid() && quota.Contents() == Memory.EMPTY_STORE && quota.log == []
      ensures Valid() && this.settings == settings && this.registry == registry && this.quota == quota && this.ledger == ledger
      ensures accounts == NO_ACCOUNTS && passed == [] && earlier == ledger.Contents().accepted
    {
      this.settings, this.registry, this.quota, this.ledger := settings, registry, quota, ledger;
      accounts, passed, earlier := NO_ACCOUNTS, [], ledger.Contents().accepted;
    }

    /** Asks the quota enforcer; an admitted request holds its slot from here on. */
    method Admit(call: Log.Call) returns (d: Log.Decision)
      requires Valid() && quota != null && quota.clock <= call.now
      modifies this`accounts, quota
      ensures Valid() && passed == old(passed) && quota.clock == call.now
      ensures (quota.Contents(), d) == Memory.CheckStep(quota.cfg, old(quota.Contents()), call)
      ensures quota.log == if d.allowed then old(quota.log) + [call.AsAdmission()] else old(quota.log)
      ensures accounts == if d.allowed then old(accounts).Take(call.ticket) else old(accounts)
    {
      ghost var before, log, clock := quota.Contents(), quota.log, quota.clock;
      d := quota.CheckAndRecord(call);
      if d.allowed {
        AdmittedKeepsBalance(quota.cfg, before, log, clock, accounts, call);
        accounts := accounts.Take(call.ticket);
      } else {
        DeniedKeepsBalance(quota.cfg, before, log, clock, accounts, call);
      }
    }

    /** The handler is left without its slot being given back: no effect at all, which is the point. */
    ghost method Abandon(t: Log.Ticket, recorded: bool)
      requires Valid() && recorded == (quota != null) && (recorded ==> t in accounts.held)
      modifies this`accounts
      ensures Valid() && accounts == if recorded then old(accounts).Leak(t) else old(accounts)
    {
      if recorded {
        LeakKeepsBalance(quota.cfg, quota.Contents(), quota.log, quota.clock, accounts, t);
        accounts := accounts.Leak(t);
      }
    }

    /** From admission to the call of the upstream: only malformed templates stop a request here. */
    method Prepare(req: Request, v: P.Verdict, recorded: bool) returns (stage: Stage)
      requires Valid() && v.Forward? && recorded == (quota != null) && (recorded ==> TicketOf(req, v) in accounts.held)
      modifies this`accounts
      ensures Valid() && passed == old(passed)
      ensures if H.TemplatesOk(v.tenant) then
                (stage.Forwarding? || stage.Opening?) && accounts == old(accounts) &&
                stage.pending == Pending(TicketOf(req, v), recorded) &&
                (stage.Opening? <==> req.content.Parsed? && req.content.stream) && CarriesOwn(req, v, stage.headers)
              else
                stage == Answered(Crashed) && accounts == if recorded then old(accounts).Leak(TicketOf(req, v)) else old(accounts)
    {
      var ticket := TicketOf(req, v);
      var outbound := H.BuildOutboundHeaders(req.headers, v.tenant, v.user, req.id);
      if outbound.None? {
        Abandon(ticket, recorded);
        return Answered(Crashed);
      }
      if req.content.Parsed? && req.content.stream {
        return Opening(Pending(ticket, recorded), outbound.value);
      }
      return Forwarding(Pending(ticket, recorded), outbound.value);
    }

    /**
      A request that passed the gates: one that the quota denies takes nothing, one on its way to the upstream
      holds exactly its own slot, and a slot is lost here exactly by an admitted request of a tenant with a
      malformed template.
     */
    method Proceed(req: Request, v: P.Verdict, now: nat) returns (stage: Stage, ghost asked: Option<Log.Decision>)
      requires Valid() && v.Forward? && (quota != null ==> quota.clock <= now)
      modifies this`accounts, quota
      ensures Valid() && passed == old(passed)
      ensures asked.Some? <==> quota != null
      ensures asked.Some? ==>
                var call := Log.Call(Log.Ticket(v.tenant.id, v.user, req.id), req.estimate, v.tenant.limits, now);
                (quota.Contents(), asked.value) == Memory.CheckStep(quota.cfg, old(quota.Contents()), call) &&
                quota.log == if asked.value.allowed
                             then old(quota.log) + [Log.Admission(Log.Ticket(v.tenant.id, v.user, req.id), now, Estimated(req))]
                             else old(quota.log)
      ensures asked.Some? && !asked.value.allowed ==> stage == Answered(Limited(asked.value)) && accounts == old(accounts)
      ensures asked.None? || asked.value.allowed ==>
                var taken := if quota != null then old(accounts).Take(TicketOf(req, v)) else old(accounts);
                if H.TemplatesOk(v.tenant) then
                  (stage.Forwarding? || stage.Opening?) && accounts == taken &&
                  stage.pending == Pending(TicketOf(req, v), quota != null) &&
                  (stage.Opening? <==> req.content.Parsed? && req.content.stream) && CarriesOwn(req, v, stage.headers)
                else
                  stage == Answered(Crashed) && accounts == if quota != null then taken.Leak(TicketOf(req, v)) else taken
    {
      asked := None;
      if quota != null {
        CallIsOwn(req, v, now);
        var d := Admit(CallOf(req, v, now));
        asked := Some(d);
        if !d.allowed {
          stage := Answered(Limited(d));
          return;
        }
      }
      stage := Prepare(req, v, quota != null);
    }

    /**
      The first part of the handler, up to the call of the upstream: nothing is asked or taken before every
      gate has passed, and a request the gates pass proceeds as itself.
     */
    method Begin(req: Request, now: nat) returns (stage: Stage, ghost asked: Option<Log.Decision>)
      requires Valid() && (quota != null ==> quota.clock <= now)
      modifies this`accounts, quota
      ensures Valid() && passed == old(passed)
      ensures var v := Gate(settings, registry, req);
              v.Refuse? ==>
                stage == Answered(Refused(v.status, v.reason)) && accounts == old(accounts) && asked.None? &&
                (quota != null ==> quota.log == old(quota.log) && quota.Contents() == old(quota.Contents()))
      ensures asked.Some? <==> Gate(settings, registry, req).Forward? && quota != null
      ensures asked.Some? && !asked.value.allowed ==> stage == Answered(Limited(asked.value)) && accounts == old(accounts)
      ensures asked.Some? ==>
                registry.Some? && req.auth.Verified? && Registry.ResolveByHost(registry.value, req.host).Some? &&
                AskedAsOwner(quota.cfg, old(quota.Contents()), old(quota.log), quota.log, req, now, asked.value,
                             Registry.ResolveByHost(registry.value, req.host).value, req.auth.principal.userId)
      ensures !stage.Answered? ==>
                var v := Gate(settings, registry, req);
                CarriesOwn(req, v, stage.headers) && stage.pending == Pending(TicketOf(req, v), quota != null) &&
                accounts == (if quota != null then old(accounts).Take(TicketOf(req, v)) else old(accounts)) &&
                (stage.Opening? <==> req.content.Parsed? && req.content.stream)
      ensures stage == Answered(Crashed) ==>
                var v := Gate(settings, registry, req);
                v.Forward? && !H.TemplatesOk(v.tenant) &&
                accounts == if quota != null then old(accounts).Take(TicketOf(req, v)).Leak(TicketOf(req, v)) else old(accounts)
      ensures Gate(settings, registry, req).Forward? && (asked.Some? ==> asked.value.allowed) ==>
                (stage == Answered(Crashed) <==> !H.TemplatesOk(Gate(settings, registry, req).tenant)) &&
                (stage.Answered? ==> stage == Answered(Crashed))
    {
      var v := Gate(settings, registry, req);
      if v.Refuse? {
        asked := None;
        stage := Answered(Refused(v.status, v.reason));
        return;
      }
      ForwardedAsOwner(settings, registry, req);
      ghost var before, log := if quota != null then quota.Contents() else Memory.EMPTY_STORE, if quota != null then quota.log else [];
      stage, asked := Proceed(req, v, now);
      if quota != null {
        AsksAsOwner(quota.cfg, before, log, quota.log, req, now, asked.value, v.tenant, v.user);
      }
    }

    /** Gives the slot of a pending request back, if it was given one. */
    method Finish(p: Pending)
      requires Valid() && p.recorded == (quota != null) && (p.recorded ==> p.ticket in accounts.held)
      modifies this`accounts, quota
      ensures Valid() && passed == old(passed)
      ensures accounts == if p.recorded then old(accounts).Release(p.ticket) else old(accounts)
      ensures quota != null ==> quota.Contents() == Memory.FinishStep(old(quota.Contents()), p.ticket) &&
                                quota.log == old(quota.log) && quota.clock == old(quota.clock)
    {
      if p.recorded && quota != null {
        ReleaseKeepsBalance(quota.cfg, quota.Contents(), quota.log, quota.clock, accounts, p.ticket);
        quota.FinishRequest(p.ticket);
        accounts := accounts.Release(p.ticket);
      }
    }

    /** Enters a response in the ledger and, unless the queue is full, passes it. */
    method Bill(p: Pending, e: Entry) returns (full: bool)
      requires Valid() && settings.billing.Required() && e.id == p.ticket.id && e.tenant == p.ticket.tenant && e.usage.Balanced()
      modifies this`passed, ledger, ledger.seen
      ensures Valid()
      ensures full <==> e.id !in old(ledger.seen.items) && |old(ledger.queue)| >= ledger.bounds.queueMax
      ensures passed == if full then old(passed) else old(passed) + [Pass(p.ticket, e.id !in old(ledger.seen.items))]
      ensures ledger.queue == if full || e.id in old(ledger.seen.items) then old(ledger.queue) else old(ledger.queue) + [e]
      ensures !full && ledger.seen.maxSize > 0 ==> e.id in ledger.seen.items
    {
      ghost var accepted, items := ledger.Contents().accepted, ledger.seen.items;
      var outcome := ledger.Append(e);
      Remembered(items, e.id, ledger.seen.maxSize);
      full := outcome.QueueFull?;
      ghost var after := ledger.Contents().accepted;
      assert after == if outcome.Queued? then accepted + [e] else accepted;
      if !full {
        ghost var pass := Pass(p.ticket, e.id !in items);
        PassedNow(passed, earlier, accepted, after, pass, e, items);
        passed := passed + [pass];
      }
    }

    /**
      The rest of a plain request's handler. Whatever the upstream and the ledger do, the slot is given back
      exactly once; and where billing is required a response passes only if its usage balances and its id is
      in the ledger, now or already.
     */
    method Resume(p: Pending, upstream: Upstream, hour: nat) returns (r: Response)
      requires Valid() && p.recorded == (quota != null) && (p.recorded ==> p.ticket in accounts.held)
      modifies this, quota, ledger, ledger.seen
      ensures Valid()
      ensures accounts == if p.recorded then old(accounts).Release(p.ticket) else old(accounts)
      ensures var billed := settings.billing.Required() && p.ticket.id !in old(ledger.seen.items);
              passed == if r.Passed? then old(passed) + [Pass(p.ticket, billed)] else old(passed)
      ensures r.Passed? && settings.billing.Required() && ledger.seen.maxSize > 0 ==> p.ticket.id in ledger.seen.items
      ensures upstream.Raised? ==> r == Crashed && ledger.queue == old(ledger.queue)
      ensures upstream.Replied? && !settings.billing.Required() ==>
                r == Passed(upstream.status, upstream.body) && ledger.queue == old(ledger.queue)
      ensures upstream.Replied? && settings.billing.Required() ==>
                var usage := RequireUsage(upstream.body);
                if usage.None? then
                  r == Refused(502, "billing_usage_missing") && ledger.queue == old(ledger.queue)
                else if p.ticket.id in old(ledger.seen.items) then
                  r == Passed(upstream.status, upstream.body) && ledger.queue == old(ledger.queue)
                else if |old(ledger.queue)| >= ledger.bounds.queueMax then
                  r == Refused(503, "billing_queue_full") && ledger.queue == old(ledger.queue)
                else
                  r == Passed(upstream.status, upstream.body) &&
                  ledger.queue == old(ledger.queue) + [Entry(p.ticket.id, p.ticket.tenant, hour, usage.value)]
    {
      Finish(p);
      if upstream.Raised? {
        return Crashed;
      }
      var usage := RequireUsage(upstream.body);
      if settings.billing.Required() {
        if usage.None? {
          return Refused(502, "billing_usage_missing");
        }
        var full := Bill(p, Entry(p.ticket.id, p.ticket.tenant, hour, usage.value));
        if full {
          return Refused(503, "billing_queue_full");
        }
        return Passed(upstream.status, upstream.body);
      }
      passed := passed + [Pass(p.ticket, false)];
      return Passed(upstream.status, upstream.body);
    }

    /**
      Two handlers that end one after the other, of different tenants whose clients sent the same request id: both
      responses pass, and only the first tenant is billed.
     */
    method ResumeBoth(p1: Pending, p2: Pending, u1: Upstream, u2: Upstream, hour: nat) returns (r1: Response, r2: Response)
      requires Valid() && settings.billing.Required() && p1.recorded == p2.recorded == (quota != null)
      requires p1.recorded ==> p1.ticket in accounts.held && p2.ticket in accounts.held
      requires p1.ticket.tenant != p2.ticket.tenant && p1.ticket.id == p2.ticket.id
      requires u1.Replied? && RequireUsage(u1.body).Some? && u2.Replied? && RequireUsage(u2.body).Some?
      requires p1.ticket.id !in ledger.seen.items && ledger.seen.maxSize > 0 && |ledger.queue| < ledger.bounds.queueMax
      modifies this, quota, ledger, ledger.seen
      ensures Valid() && r1 == Passed(u1.status, u1.body) && r2 == Passed(u2.status, u2.body)
      ensures passed == old(passed) + [Pass(p1.ticket, true)] + [Pass(p2.ticket, false)]
      ensures ledger.queue == old(ledger.queue) + [Entry(p1.ticket.id, p1.ticket.tenant, hour, RequireUsage(u1.body).value)]
    {
      r1 := Resume(p1, u1, hour);
      r2 := Resume(p2, u2, hour);
    }

    /** A step of one of the ledger's flushing threads, between any two steps of the handlers. */
    method LedgerStep(a: L.Action)
      requires Valid() && !a.Accept?
      modifies ledger
      ensures Valid() && ledger.Contents() == L.Step(ledger.bounds, old(ledger.Contents()), a)
    {
      ThreadsAcceptNothing(ledger.bounds, ledger.Contents(), a);
      ledger.ThreadStep(a);
    }

    /** Opens the upstream's stream. If that fails nobody gives the slot back. */
    method OpenStream(p: Pending, status: Option<nat>) returns (r: Response)
      requires Valid() && p.recorded == (quota != null) && (p.recorded ==> p.ticket in accounts.held)
      modifies this`accounts
      ensures Valid() && passed == old(passed)
      ensures r == if status.Some? then Streaming(status.value) else Crashed
      ensures accounts == if p.recorded && status.None? then old(accounts).Leak(p.ticket) else old(accounts)
    {
      if status.None? {
        Abandon(p.ticket, p.recorded);
        return Crashed;
      }
      return Streaming(status.value);
    }

    /** The end of a stream: however its iteration ends the slot is given back, but only if it ever began. */
    method EndStream(p: Pending, iterated: bool)
      requires Valid() && p.recorded == (quota != null) && (p.recorded ==> p.ticket in accounts.held)
      modifies this`accounts, quota
      ensures Valid() && passed == old(passed)
      ensures accounts == if !p.recorded then old(accounts)
                          else if iterated then old(accounts).Release(p.ticket) else old(accounts).Leak(p.ticket)
    {
      if iterated {
        Finish(p);
      } else {
        Abandon(p.ticket, p.recorded);
      }
    }
  }

  // ---------------------------------------------------------------- passed and billed

  lemma Remembered(items: S.Items, id: string, max: nat)
    requires S.Distinct(items) && |items| <= max
    ensures max > 0 ==> id in S.Submit(items, S.Submission(id, false), max)
  {
    if max > 0 {
      S.TouchSelf(items, id, max);
    }
  }

  lemma ThreadsAcceptNothing(b: L.Bounds, s: L.State, a: L.Action)
    requires !a.Accept?
    ensures L.Step(b, s, a).accepted == s.accepted
  {
  }

  /**
    End to end, in the local billing mode and whatever the flushing threads are doing: for every request id and
    tenant there are exactly as many entries in the file, in the queue, in the threads' hands and dropped when a
    failed batch met a full queue, taken together, as responses that were billed, apart from those the ledger had
    before; and a response that was passed unbilled repeats the id of an entry older than it.
   */
  lemma {:induction false} PassedExactlyAsBilled(g: Gateway)
    requires g.Valid() && g.settings.billing.LedgerRequired?
    ensures var l := g.ledger.Contents();
            multiset(Stamps(g.earlier)) + multiset(Bills(g.passed)) == multiset(Stamps(L.Everywhere(l)))
    ensures forall k :: 0 <= k < |g.passed| && !g.passed[k].billed ==>
              BilledBefore(g.passed[..k], g.earlier, g.passed[k].ticket.id)
  {
    var l := g.ledger.Contents();
    L.ConservationOverRuns(g.ledger.bounds, g.ledger.threadCount, g.ledger.acts);
    StampsOfBag(l.accepted, L.Everywhere(l));
  }

  /** A passed response's id was accepted by the ledger. */
  lemma PassedWasAccepted(g: Gateway, p: Pass)
    requires g.Valid() && g.settings.billing.Required() && p in g.passed
    ensures exists e: Entry :: e in g.ledger.Contents().accepted && e.id == p.ticket.id
  {
    var k :| 0 <= k < |g.passed| && g.passed[k] == p;
    assert BilledBefore(g.passed, g.earlier, p.ticket.id) by {
      if !p.billed {
        assert BilledBefore(g.passed[..k], g.earlier, p.ticket.id);
      }
    }
    HasEntry(g.passed, g.earlier, g.ledger.Contents().accepted, p.ticket.id);
  }

  /** In particular every plain response ever passed through has an entry with its id in one of these places. */
  lemma PassedResponsesAreBilled(g: Gateway, p: Pass)
    requires g.Valid() && g.settings.billing.LedgerRequired? && p in g.passed
    ensures exists e: Entry :: e.id == p.ticket.id && (e in g.ledger.written || e in g.ledger.queue ||
                                                       e in L.InFlight(g.ledger.threads) || e in g.ledger.Contents().dropped)
  {
    var l := g.ledger.Contents();
    PassedWasAccepted(g, p);
    var e: Entry :| e in l.accepted && e.id == p.ticket.id;
    L.ConservationOverRuns(g.ledger.bounds, g.ledger.threadCount, g.ledger.acts);
    assert e in multiset(l.accepted);
    assert e in L.Everywhere(l);
  }

  /**
    In the AWS billing mode accepted entries go into the shared protocol. Once the id of a passed response has left
    its memory, neither dropped nor lost in a crash, it is in some object if there is no table; and with the table it
    is in exactly one object if and only if it was never stranded. Which entry that is, this gateway's or another's,
    is decided by the first claim that was answered.
   */
  lemma {:induction false} PassedResponsesReachTheBucket(g: Gateway, p: Pass, cfg: LedgerProtocol.Config,
                                                         acts: seq<LedgerProtocol.Action>)
    requires g.Valid() && g.settings.billing.AwsNativeReference? && p in g.passed && !cfg.sink.LocalFile?
    requires forall e: Entry :: e in g.ledger.Contents().accepted ==> e.id in LedgerProtocol.Run(cfg, acts).accepted
    requires LedgerDuplicates.LeftMemory(LedgerProtocol.Run(cfg, acts), p.ticket.id)
    ensures var lines := LedgerProtocol.Occurrences(LedgerProtocol.Run(cfg, acts).chunks, p.ticket.id);
            if cfg.sink.GuardedBucket? then lines == 1 <==> !LedgerStranded.EverStranded(cfg, acts, p.ticket.id) else lines >= 1
    ensures cfg.sink.GuardedBucket? ==>
              forall e: Entry :: e.id == p.ticket.id ==>
                (LedgerWinners.Written(LedgerProtocol.Run(cfg, acts).chunks, e) <==>
                 LedgerWinners.Winner(cfg, acts, p.ticket.id) == Some(e) && !LedgerStranded.EverStranded(cfg, acts, p.ticket.id))
  {
    PassedWasAccepted(g, p);
    if cfg.sink.GuardedBucket? {
      LedgerStranded.WrittenExactlyUnlessStranded(cfg, acts, p.ticket.id);
      forall e: Entry | e.id == p.ticket.id
        ensures LedgerWinners.Written(LedgerProtocol.Run(cfg, acts).chunks, e) <==>
                LedgerWinners.Winner(cfg, acts, p.ticket.id) == Some(e) && !LedgerStranded.EverStranded(cfg, acts, p.ticket.id)
      {
        LedgerWinners.EntryWrittenExactly(cfg, acts, e);
      }
    } else {
      LedgerLoss.AtLeastOnce(cfg, acts, p.ticket.id);
    }
  }

  /** In every state of a gateway whose requests had fresh ids, who holds a slot: a request in it, or one it let go without returning it. */
  lemma LiveSlotsAreRequests(g: Gateway, scope: Log.Scope, now: nat, id: string)
    requires g.Valid() && g.quota != null && Log.UniqueIds(g.quota.log) && g.quota.clock <= now
    ensures MemoryRuns.Holds(g.quota.cfg, g.quota.Contents(), scope, id, now) <==>
            exists x :: x in g.quota.log && x.ticket.id == id && x.ticket.In(scope) &&
                        x.ticket in g.accounts.held + g.accounts.leaked && x.at > now - g.quota.cfg.SlotTtl()
  {
    SlotsAreHeldOrLeaked(g.quota.cfg, g.quota.Contents(), g.quota.log, g.quota.clock, g.accounts, scope, now, id);
  }

  /** Every line the ledger has written balances: what the upstream stated as prompt and completion is its total. */
  lemma EveryLineBalances(g: Gateway)
    requires g.Valid()
    ensures AllBalanced(g.ledger.written)
    ensures L.SplitTokens(g.ledger.written) == L.TotalTokens(g.ledger.written)
  {
    var l := g.ledger.Contents();
    L.ConservationOverRuns(g.ledger.bounds, g.ledger.threadCount, g.ledger.acts);
    L.WrittenWasAccepted(l);
    forall e | e in l.written ensures e.usage.Balanced() {
      assert e in l.accepted;
    }
    L.BalancedLines(l.written);
  }
}
