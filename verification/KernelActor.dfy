/** The interactive path of the kernel actor: turns, effects, approvals and configuration. */
module KernelActors {
  import opened Prelude
  import opened Configuration
  import opened KernelRequests
  import opened KernelTrace
  import opened KernelState
  import opened KernelRouting
  import opened KernelJournal
  import Port = AgentPort

  /** `Stopped` is the end of the kernel with the turn still running. */
  datatype Outcome = EndTurn | WaitingForApproval | Cancelled | TurnFailed | Failed | Stopped
  datatype Progress = Continue | Done(outcome: Outcome) | Fault

  predicate ActiveEventMatches(state: SessionState, event: Port.AgentEvent)
    requires state.active.Some?
  {
    var epoch := state.active.value.epoch;
    match event
    case ContextStarted(context) => state.provider == Some(context)
    case EpochStarted(context, e) => state.provider == Some(context) && e == epoch
    case ItemStarted(context, e, _) => state.provider == Some(context) && e == epoch
    case AssistantDelta(context, e) => state.provider == Some(context) && e == epoch
    case DiffUpdated(context, e) => state.provider == Some(context) && e == epoch
    case UsageUpdated(context, e) => state.provider == Some(context) && e == epoch
    case ItemCompleted(context, e, _) => state.provider == Some(context) && e == epoch
    case EpochCompleted(context, e) => state.provider == Some(context) && e == epoch
    case EffectRequested(request) => state.provider == Some(request.context) && request.epoch == epoch
    case CompactionStarted(context) => state.provider == Some(context)
    case CompactionCompleted(context) => state.provider == Some(context)
    case ProviderFailed(None, None) => true
    case ProviderFailed(Some(context), Some(e)) => state.provider == Some(context) && e == epoch
    case ProviderFailed(_, _) => false
  }

  /** The provider epoch an event speaks of, if it speaks of one. */
  function EventEpoch(event: Port.AgentEvent): Option<Port.EpochId> {
    match event
    case EffectRequested(request) => Some(request.epoch)
    case ProviderFailed(_, epoch) => epoch
    case ContextStarted(_) => None
    case CompactionStarted(_) => None
    case CompactionCompleted(_) => None
    case _ => Some(event.epoch)
  }

  /** The event speaks of another context than the session's, or of another epoch than the turn's. */
  predicate Stale(state: SessionState, event: Port.AgentEvent)
    requires state.active.Some?
  {
    || (EventContext(event).Some? && EventContext(event) != state.provider)
    || (EventEpoch(event).Some? && EventEpoch(event) != Some(state.active.value.epoch))
  }

  /** An event is the turn's own exactly when it speaks of nothing else, and a failure either of the
      whole provider or of a context and an epoch. */
  lemma MatchesExactly(state: SessionState, event: Port.AgentEvent)
    requires state.active.Some?
    ensures ActiveEventMatches(state, event) <==>
              !Stale(state, event) && (event.ProviderFailed? ==> EventContext(event).Some? == EventEpoch(event).Some?)
  {
  }

  /** The configuration a selection leads to, if the catalog allows it. */
  function Select(catalog: Catalog, base: SessionConfiguration, selection: ConfigSelection)
    : (r: Option<SessionConfiguration>)
    ensures base.Supported(catalog) && r.Some? ==> r.value.Supported(catalog)
  {
    var change := match selection
      case SelectModel(model) => base.SetModel(catalog, model)
      case SelectEffort(effort) => base.SetEffort(catalog, effort)
      case SelectMode(mode, remote) => base.SetMode(mode, if remote then RemoteConfirmed else LocalExplicit);
    if change.Applied? then Some(change.configuration) else None
  }

  /** What setting an option does to a session in memory; `None` is a refusal. While a turn is active
      the selection is only queued; a remote bypass only records that a code was issued. */
  function Configured(catalog: Catalog, state: SessionState, selection: ConfigSelection): (r: Option<SessionState>)
    ensures r.Some? ==> ConfiguredFrom(state, r.value)
    ensures r.Some? && state.configuration.Supported(catalog)
            && (state.pendingConfiguration.Some? ==> state.pendingConfiguration.value.Supported(catalog))
            ==> && r.value.configuration.Supported(catalog)
                && (r.value.pendingConfiguration.Some? ==> r.value.pendingConfiguration.value.Supported(catalog))
  {
    if selection == SelectMode(BypassPermissions, true) then
      if state.active.Some? then None else Some(state.(pendingBypass := true))
    else if selection.SelectMode? && selection.remote && Profile(selection.mode) == Unrestricted
            && !(state.frontend == Buzz && state.buzz.Some?) then
      None
    else
      match Select(catalog, state.Latest(), selection)
      case None => None
      case Some(selected) =>
        if state.active.Some? then Some(state.(pendingConfiguration := Some(selected)))
        else Some(state.(configuration := selected))
  }

  /** A configuration with the selected field replaced by the selected value, and no other. */
  function With(c: SessionConfiguration, selection: ConfigSelection): SessionConfiguration {
    match selection
    case SelectModel(model) => c.(model := model)
    case SelectEffort(effort) => c.(effort := effort)
    case SelectMode(mode, _) => c.(mode := mode)
  }

  /** Which selections are accepted, and to what they lead. A selection starts from the queued
      configuration where there is one, replaces the selected field and goes where the turn allows it. A
      remote bypass changes no configuration, and a remote client without a channel gets no
      unrestricted mode. */
  lemma SelectionExactly(catalog: Catalog, state: SessionState, selection: ConfigSelection)
    requires state.configuration.Supported(catalog)
    requires state.pendingConfiguration.Some? ==> state.pendingConfiguration.value.Supported(catalog)
    ensures var chosen := With(state.Latest(), selection);
            Configured(catalog, state, selection) ==
            if selection == SelectMode(BypassPermissions, true) then
              if state.active.Some? then None else Some(state.(pendingBypass := true))
            else if !chosen.Supported(catalog) then None
            else if selection.SelectMode? && selection.remote && selection.mode == FullAccess
                    && (state.frontend == Acp || state.buzz.None?) then None
            else if state.active.None? then Some(state.(configuration := chosen))
            else Some(state.(pendingConfiguration := Some(chosen)))
  {
  }

  /** The client asked for this selection, by a request or by a command in a prompt; a command asks for
      full access only where that is trusted. */
  ghost predicate Commanded(trace: Trace, session: SessionId, selection: ConfigSelection) {
    || Received(SetConfig(session, selection)) in trace
    || (selection == SelectMode(BypassPermissions, true) && Received(SendPrompt(session, RequestBypass)) in trace)
    || exists profile :: && selection == SelectMode(ModeOf(profile), false)
                         && Received(SendPrompt(session, SetPermissions(profile))) in trace
                         && (profile == Unrestricted ==> Trusted(trace, session))
  }

  /** A selection asked for never gives a session access that nobody entitled gave it. */
  lemma ConfiguredAccess(catalog: Catalog, trace: Trace, session: SessionId, state: SessionState,
                         selection: ConfigSelection)
    requires HasAccess(trace, session, state) && Commanded(trace, session, selection)
    ensures var after := Configured(catalog, state, selection);
            after.Some? ==> HasAccess(trace, session, after.value)
  {
    hide HasChannel, Trusted, BypassConfirmed, Admitted;
    var after := Configured(catalog, state, selection);
    if after.Some? && selection.SelectMode? && Profile(selection.mode) == Unrestricted
       && selection != SelectMode(BypassPermissions, true)
    {
      assert Grounded(trace, session, selection.mode);
    }
  }

  /** The turn is over and the queued configuration, if any, is effective. */
  function Settled(state: SessionState): SessionState {
    state.(configuration := state.Latest(), pendingConfiguration := None, active := None)
  }

  /** A confirmed bypass. */
  function Bypassed(state: SessionState): SessionState {
    state.(configuration := state.configuration.(mode := BypassPermissions), pendingBypass := false)
  }

  lemma ConfirmedAccess(trace: Trace, session: SessionId, state: SessionState)
    requires HasAccess(trace, session, state) && state.pendingBypass
    requires trace != [] && trace[|trace| - 1] == Received(SendPrompt(session, ConfirmBypass))
    ensures HasAccess(trace, session, Bypassed(state))
  {
    var last := |trace| - 1;
    assert forall entry :: entry in trace && entry != trace[last] ==> entry in trace[..last];
    assert BypassAsked(trace[..last], session);
    assert BypassConfirmed(trace, session);
  }

  /** What admitting a channel message does to a session; `None` is a refusal. */
  function Attached(state: SessionState, context: BuzzContext, started: Port.ContextId): Option<SessionState> {
    if state.frontend != Buzz || (state.active.Some? && state.active.value.pending.None?) then None
    else if state.buzz.Some? && state.buzz.value != context then None
    else
      var provider := if state.provider.None? then Some(started) else state.provider;
      var mode := if state.buzz.None? then FullAccess else state.configuration.mode;
      Some(state.(configuration := state.configuration.(mode := mode), provider := provider, buzz := Some(context)))
  }

  /** A channel session is admitted unless its turn is running or it belongs to another channel or actor.
      The channel never changes; the first admission, and only that, switches to full access; a provider
      context is kept. */
  lemma AttachedExactly(state: SessionState, context: BuzzContext, started: Port.ContextId)
    ensures var after := Attached(state, context, started);
            && (after.Some? <==>
                  && state.frontend == Buzz && state.buzz in {None, Some(context)}
                  && (state.active.Some? ==> state.active.value.pending.Some?))
            && (after.Some? ==>
                  && after.value.buzz == Some(context)
                  && after.value.provider == Some(if state.provider.Some? then state.provider.value else started)
                  && (state.buzz.Some? ==> after.value.configuration == state.configuration)
                  && (state.buzz.None? ==> after.value.configuration == state.configuration.(mode := FullAccess))
                  && after.value.(buzz := state.buzz, provider := state.provider, configuration := state.configuration)
                       == state)
  {
  }

  lemma AttachedOk(catalog: Catalog, trace: Trace, session: SessionId, state: SessionState, context: BuzzContext,
                   started: Port.ContextId)
    requires SessionOk(catalog, trace, session, state)
    requires Received(AttachBuzzContext(session, context)) in trace
    ensures var after := Attached(state, context, started);
            after.Some? ==>
              && SessionOk(catalog, trace, session, after.value)
              && after.value.active == state.active
              && after.value.provider == (if state.provider.None? then Some(started) else state.provider)
              && (state.active.Some? ==>
                    after.value.configuration == state.configuration && SameTurn(state, after.value))
  {
  }

  /** Configuration-side change: the turn, the provider and the channel stay, and while a turn is
      active so does the effective configuration. */
  predicate ConfiguredFrom(state: SessionState, after: SessionState) {
    && after.active == state.active && after.provider == state.provider
    && after.frontend == state.frontend && after.buzz == state.buzz
    && (state.active.Some? ==> after.configuration == state.configuration)
  }

  /** Only the holders of the context matter for the owner. */
  lemma OwnerByHolders(sessions: Sessions, j: Journal, event: Port.AgentEvent, holders: set<SessionId>)
    requires Bindings(sessions, j) && EventContext(event).Some?
    requires forall s :: s in holders <==> s in sessions && sessions[s].provider == EventContext(event)
    ensures holders == {} ==> OwnerAt(j, event) == Unowned
    ensures forall s :: s in holders ==> OwnerAt(j, event) == if holders == {s} then OwnedBy(s) else Unowned
  {
    OwnerHolds(j, event);
    assert forall s :: s in holders <==> ProviderIn(j, s) == EventContext(event);
    forall s | s in holders ensures SoleHolder(j, EventContext(event).value, s) <==> holders == {s} {
    }
    forall s | SoleHolder(j, EventContext(event).value, s) ensures s in holders {
    }
  }

  /** The approval of a paused turn is consumed, then exactly the decision of the client is sent. */
  function Decision(session: SessionId, active: ActiveTurn, allow: bool): Trace
    requires active.pending.Some?
  {
    var pending := active.pending.value;
    [ApprovalConsumed(session, pending.approval, pending.tool, allow)] +
    [if allow then Allowed(session, active.turn, pending.request.id, pending.request.item, pending.request.kind,
                           pending.tool, Approved(pending.approval))
     else Denied(pending.request.id)]
  }

  ghost predicate HeardOf(asked: seq<Request>, received: seq<Request>, requests: seq<Request>, closed: bool) {
    received + requests <= asked && (closed || received + requests == asked)
  }

  lemma HeardCut(asked: seq<Request>, received: seq<Request>, requests: seq<Request>, closed: bool,
                 fewer: seq<Request>, later: bool)
    requires HeardOf(asked, received, requests, closed) && fewer <= requests && (closed ==> later)
    requires fewer != requests ==> later
    ensures HeardOf(asked, received, fewer, later)
  {
  }

  // ---- what an event does to its turn ----

  /** A tool call for the requested effect, if its item is open with that kind. */
  function OpenTool(active: ActiveTurn, request: Port.EffectRequest): (tool: Option<ToolCallId>)
    ensures tool.Some? <==> request.item in active.items && active.items[request.item].1 == request.kind
    ensures tool.Some? ==> active.items[request.item] == (tool.value, request.kind)
  {
    if request.item in active.items && active.items[request.item].1 == request.kind
    then Some(active.items[request.item].0) else None
  }

  /** What an effect granted by full access leaves in the history. */
  ghost predicate Granted(before: Trace, after: Trace, session: SessionId, active: ActiveTurn,
                          request: Port.EffectRequest)
  {
    var tool := OpenTool(active, request);
    && tool.Some?
    && after == before + [Logged(session, Some(active.turn), ToolProposed(tool.value))]
                       + [Logged(session, Some(active.turn), ToolDispatchAuthorized(tool.value))]
                       + [Allowed(session, active.turn, request.id, request.item, request.kind, tool.value, Automatic)]
  }

  /** The effect was proposed and its approval requested, then perhaps delivered; the turn waits for it. */
  ghost predicate Asked(before: Trace, after: Trace, session: SessionId, active: ActiveTurn, paused: Option<ActiveTurn>,
                        request: Port.EffectRequest)
  {
    && paused.Some? && paused.value.pending.Some?
    && var pending := paused.value.pending.value;
       && pending.request == request && paused == Some(active.(pending := Some(pending)))
       && OpenTool(active, request) == Some(pending.tool)
       && var asked := before + [Logged(session, Some(active.turn), ToolProposed(pending.tool))]
                              + [Logged(session, Some(active.turn), ApprovalRequested(pending.approval, pending.tool))];
          after == asked || after == asked + [Logged(session, Some(active.turn), DeliveryTransitioned)]
  }

  ghost predicate ItemEffect(session: SessionId, event: Port.AgentEvent, before: ActiveTurn, after: ActiveTurn,
                             log: Trace, later: Trace)
    requires event.ItemStarted? || event.ItemCompleted?
  {
    var item, lifecycle := event.item, Logged(session, Some(before.turn), ProviderLifecycle);
    match item.kind
    case None => after == before && later == log + [lifecycle]
    case Some(kind) =>
      if event.ItemStarted? then
        && item.id !in before.items && item.id in after.items
        && after == before.(items := before.items[item.id := (after.items[item.id].0, kind)])
        && later == log + [ItemStarted(session, before.turn, item.id, kind)] + [lifecycle]
      else
        && item.terminal && item.id in before.items && before.items[item.id].1 == kind
        && after == before.(items := before.items - {item.id})
        && later == log + [ItemCompleted(session, before.turn, item.id)]
                        + [Logged(session, Some(before.turn), ToolCompleted(before.items[item.id].0))]
  }

  /** What is logged for an event that moves nothing; a diff is also published. */
  ghost predicate ProgressEffect(session: SessionId, event: Port.AgentEvent, turn: TurnId, log: Trace, later: Trace) {
    match event
    case ContextStarted(_) => later == log + [Logged(session, None, ProviderLifecycle)]
    case AssistantDelta(_, _) => later == log + [Logged(session, Some(turn), AssistantTextDelta)]
    case DiffUpdated(_, _) => log + [Logged(session, Some(turn), WorkspaceDiffUpdated)] <= later
    case EpochStarted(_, _) => later == log + [Logged(session, Some(turn), ProviderLifecycle)]
    case CompactionStarted(_) => later == log + [Logged(session, Some(turn), ProviderLifecycle)]
    case CompactionCompleted(_) => later == log + [Logged(session, Some(turn), ProviderLifecycle)]
    case _ => later == log
  }

  /** What handling an event of the turn did, unless it was a fault. An event that is not the turn's
      own is passed over. */
  ghost predicate Effect(session: SessionId, event: Port.AgentEvent, r: Progress, state: SessionState,
                         active: Option<ActiveTurn>, log: Trace, later: Trace)
    requires state.active.Some?
  {
    var before := state.active.value;
    if r == Fault then true
    else if !ActiveEventMatches(state, event) then r == Continue && active == state.active && later == log
    else
      match event
      case EffectRequested(request) =>
        if Profile(state.configuration.mode) == Unrestricted then
          r == Continue && active == state.active && Granted(log, later, session, before, request)
        else
          || (r == Done(WaitingForApproval) && Asked(log, later, session, before, active, request))
          || (r == Done(TurnFailed) && active.None?
              && later == log + [Denied(request.id)] + [Logged(session, Some(before.turn), TurnInterrupted)])
      case EpochCompleted(_, _) =>
        r == Done(EndTurn) && active.None? && Logged(session, Some(before.turn), TurnCompleted) in later
      case ProviderFailed(_, _) =>
        r == Done(TurnFailed) && active.None? && later == log + [Logged(session, Some(before.turn), TurnInterrupted)]
      case ItemStarted(_, _, _) =>
        r == Continue && active.Some? && ItemEffect(session, event, before, active.value, log, later)
      case ItemCompleted(_, _, _) =>
        r == Continue && active.Some? && ItemEffect(session, event, before, active.value, log, later)
      case _ =>
        r == Continue && active == state.active && ProgressEffect(session, event, before.turn, log, later)
  }

  lemma ItemIsEffect(session: SessionId, event: Port.AgentEvent, r: Progress, state: SessionState, active: ActiveTurn,
                     log: Trace, later: Trace)
    requires state.active.Some? && ActiveEventMatches(state, event) && (event.ItemStarted? || event.ItemCompleted?)
    requires r == Fault || (r == Continue && ItemEffect(session, event, state.active.value, active, log, later))
    ensures Effect(session, event, r, state, Some(active), log, later)
  {
    hide ActiveEventMatches, ItemEffect;
  }

  lemma ProgressIsEffect(session: SessionId, event: Port.AgentEvent, r: Progress, state: SessionState, log: Trace,
                         later: Trace)
    requires state.active.Some? && ActiveEventMatches(state, event)
    requires !event.ItemStarted? && !event.ItemCompleted? && !event.EffectRequested?
             && !event.EpochCompleted? && !event.ProviderFailed?
    requires r == Fault || (r == Continue && ProgressEffect(session, event, state.active.value.turn, log, later))
    ensures Effect(session, event, r, state, state.active, log, later)
  {
    hide ActiveEventMatches, ProgressEffect;
  }

  lemma EndIsEffect(session: SessionId, event: Port.AgentEvent, r: Progress, state: SessionState,
                    active: Option<ActiveTurn>, log: Trace, later: Trace)
    requires state.active.Some? && ActiveEventMatches(state, event) && (event.EpochCompleted? || event.ProviderFailed?)
    requires r == Fault || active.None?
    requires var turn := Some(state.active.value.turn);
             || r == Fault
             || (event.EpochCompleted? && r == Done(EndTurn) && Logged(session, turn, TurnCompleted) in later)
             || (event.ProviderFailed? && r == Done(TurnFailed)
                 && later == log + [Logged(session, turn, TurnInterrupted)])
    ensures Effect(session, event, r, state, active, log, later)
  {
    hide ActiveEventMatches;
  }

  class KernelActor {
    const catalog: Catalog
    const router: EventRouter<Port.AgentEvent>
    var sessions: Sessions
    var trace: Trace
    var nextSession: SessionId
    var nextTurn: TurnId
    var nextTool: ToolCallId
    var nextApproval: ApprovalId
    /** Approvals the store has consumed; it consumes each at most once. */
    var consumed: set<ApprovalId>
    /** Per session: the owned events its turns have handled, in order. */
    ghost var processed: map<SessionId, seq<Port.AgentEvent>>
    /** What the provider port will deliver (`None` is a port error), and what clients will ask. */
    var provided: seq<Option<Port.AgentEvent>>
    var requests: seq<Request>
    /** No more requests are accepted; those already sent may still be handled. */
    var closed: bool
    /** All that clients ask in the run, and what of it was received so far. */
    ghost const asked: seq<Request>
    ghost var received: seq<Request>
    /** All the provider port delivers in the run, and what became of it so far. */
    ghost const given: seq<Option<Port.AgentEvent>>
    ghost var journal: Journal

    ghost predicate Inv()
      reads `sessions, `trace, `nextTurn, `consumed, `journal, `nextSession, `received
    {
      && SessionsOk(catalog, trace, sessions, nextTurn) && TraceOk(trace, nextTurn, consumed)
      && Bindings(sessions, journal) && Inputs(trace) == received
      && (forall s :: s in sessions ==> s < nextSession)
    }

    /** The router is what the journal amounts to, and every element taken from the provider is accounted
        for. */
    ghost predicate Tracked()
      reads router, `journal, `provided
    {
      && router.Valid() && router.State() == Replay(journal)
      && Accounted(journal, given, provided, router.owned, router.overflowed)
    }

    /** Requests are received in order; only closing the receiver loses some, at the end. */
    ghost predicate Heard()
      reads `received, `requests, `closed
    {
      HeardOf(asked, received, requests, closed)
    }

    /** Besides, the turns have handled exactly the events handed over to them. */
    ghost predicate Routing()
      reads router, `processed, `journal, `provided, `received, `requests, `closed
    {
      Tracked() && processed == router.handled && Heard()
    }

    ghost predicate Active(session: SessionId)
      reads `sessions
    {
      session in sessions && sessions[session].active.Some?
    }

    constructor (catalog: Catalog, provided: seq<Option<Port.AgentEvent>>, requests: seq<Request>)
      ensures Inv() && Routing() && fresh(router) && !closed
      ensures this.catalog == catalog && this.provided == provided && this.requests == requests
      ensures sessions == map[] && trace == [] && given == provided && journal == []
      ensures asked == requests && received == []
    {
      this.catalog, this.provided, this.requests := catalog, provided, requests;
      given, journal, closed := provided, [], false;
      asked, received := requests, [];
      NothingTaken(provided);
      router := new EventRouter<Port.AgentEvent>();
      sessions, trace, consumed, processed := map[], [], {}, map[];
      nextSession, nextTurn, nextTool, nextApproval := 0, 0, 0, 0;
    }

    // ---- single steps ----

    /** Adds an entry that ends no turn and moves no item. */
    method Extend(entry: Entry)
      requires Inv() && Step(trace, entry) && Neutral(entry)
      requires entry.Logged? && entry.turn.Some? ==> entry.turn.value < nextTurn
      requires entry.EpochStarted? ==> entry.turnId < nextTurn
      requires entry.ApprovalConsumed? ==> entry.approval in consumed
      modifies `trace
      ensures Inv() && trace == old(trace) + [entry]
    {
      hide SessionsOk, TraceOk, Bindings, Step;
      SessionsKept(catalog, trace, entry, sessions, nextTurn);
      TraceKept(trace, entry, nextTurn, consumed);
      InputsAppended(trace, entry);
      trace := trace + [entry];
    }

    /** A request arrives. */
    method Receive(request: Request)
      requires Inv()
      modifies `trace, `received
      ensures Inv() && trace == old(trace) + [Received(request)] && received == old(received) + [request]
    {
      ghost var entry := Received(request);
      assert Step(trace, entry);
      hide SessionsOk, TraceOk, Bindings, Step;
      SessionsKept(catalog, trace, entry, sessions, nextTurn);
      TraceKept(trace, entry, nextTurn, consumed);
      InputsAppended(trace, entry);
      trace := trace + [Received(request)];
      received := received + [request];
    }

    /** Appends to the event log; the append is atomic and may fail. */
    method Append(session: SessionId, turn: Option<TurnId>, event: LogEvent) returns (ok: bool)
      requires Inv() && Neutral(Logged(session, turn, event))
      requires turn.Some? ==> turn.value < nextTurn && !Closed(trace, turn.value)
      modifies `trace
      ensures Inv()
      ensures trace == if ok then old(trace) + [Logged(session, turn, event)] else old(trace)
    {
      ok := *;
      if ok {
        Extend(Logged(session, turn, event));
      }
    }

    /** Appends to the log for the session's active turn. */
    method AppendActive(session: SessionId, event: LogEvent) returns (ok: bool)
      requires Inv() && Active(session) && Neutral(Logged(session, None, event))
      modifies `trace
      ensures Inv()
      ensures trace == if ok then old(trace) + [Logged(session, Some(sessions[session].active.value.turn), event)]
                       else old(trace)
    {
      ok := Append(session, Some(sessions[session].active.value.turn), event);
    }

    method SendDeny(request: string) returns (ok: bool)
      requires Inv()
      modifies `trace
      ensures Inv() && trace == old(trace) + [Denied(request)]
    {
      Extend(Denied(request));
      ok := *;
    }

    /** Ends the active turn with a terminal event, unless the append fails. */
    method CloseTurn(session: SessionId, event: LogEvent) returns (ok: bool)
      requires Inv() && Active(session) && (event.TurnCompleted? || event.TurnInterrupted?)
      modifies `trace, `sessions
      ensures Inv() && old(trace) <= trace && |trace| <= |old(trace)| + 1
      ensures sessions == if ok then old(sessions)[session := old(sessions)[session].(active := None)]
                          else old(sessions)
      ensures ok ==> trace == old(trace) + [Logged(session, Some(old(sessions)[session].active.value.turn), event)]
    {
      hide SessionsOk, TraceOk, Bindings, Step;
      ok := *;
      if ok {
        var entry := Logged(session, Some(sessions[session].active.value.turn), event);
        TurnOpen(session);
        EndStep(trace, entry);
        TurnEnded(catalog, trace, entry, sessions, nextTurn, session);
        TraceKept(trace, entry, nextTurn, consumed);
        InputsAppended(trace, entry);
        BindingsSame(sessions, journal, session, sessions[session].(active := None));
        trace := trace + [entry];
        sessions := sessions[session := sessions[session].(active := None)];
      }
    }

    lemma TurnOpen(session: SessionId)
      requires Inv() && Active(session)
      ensures sessions[session].active.value.turn < nextTurn && !Closed(trace, sessions[session].active.value.turn)
    {
    }

    lemma EndStep(before: Trace, entry: Entry)
      requires entry.Logged? && entry.turn.Some? && !Closed(before, entry.turn.value)
      ensures Step(before, entry)
    {
    }

    /** Replaces the state of a session; its provider context stays. */
    method Update(session: SessionId, state: SessionState)
      requires Inv() && SessionOk(catalog, trace, session, state)
      requires session in sessions || session < nextSession
      requires state.active.Some? ==> Active(session) && SameTurn(sessions[session], state)
      requires state.provider == if session in sessions then sessions[session].provider else None
      modifies `sessions
      ensures Inv() && sessions == old(sessions)[session := state]
    {
      hide SessionsOk, TraceOk, SessionOk, SameTurn;
      Replaceable(session, state);
      sessions := sessions[session := state];
    }

    lemma Replaceable(session: SessionId, state: SessionState)
      requires Inv() && SessionOk(catalog, trace, session, state)
      requires state.active.Some? ==> Active(session) && SameTurn(sessions[session], state)
      ensures SessionsOk(catalog, trace, sessions[session := state], nextTurn)
    {
      hide TraceOk, Bindings;
      SessionReplaced(catalog, trace, sessions, nextTurn, session, state);
    }

    /** Replaces the state of a session that gets its provider context now. */
    method Bind(session: SessionId, state: SessionState)
      requires Inv() && Tracked() && SessionOk(catalog, trace, session, state) && state.provider.Some?
      requires session in sessions || session < nextSession
      requires state.active.Some? ==> Active(session) && SameTurn(sessions[session], state)
      modifies `sessions, `journal
      ensures Inv() && Tracked() && sessions == old(sessions)[session := state]
      ensures journal == old(journal) + [Bound(session, state.provider.value)]
      ensures TakenIn(journal) == TakenIn(old(journal))
    {
      hide SessionsOk, TraceOk, Accounted, Replay, EventRouter.Valid, TakenIn, Bindings, SessionOk, SameTurn;
      Replaceable(session, state);
      ghost var step := Bound(session, state.provider.value);
      BindingsBound(sessions, journal, session, state);
      QuietStep(journal, step, given, provided, router.owned, router.overflowed);
      BoundStep(journal, session, state.provider.value);
      sessions := sessions[session := state];
      journal := journal + [step];
    }

    /** Adds an entry that binds no context. */
    ghost method Note(step: JournalEntry)
      requires Inv() && !step.Bound?
      modifies `journal
      ensures Inv() && journal == old(journal) + [step]
    {
      BindingsKept(sessions, journal, step);
      hide SessionsOk, TraceOk, Bindings;
      journal := journal + [step];
    }

    /** Drops the active turn, trying to log why. */
    method FailActiveTurn(session: SessionId)
      requires Inv() && session in sessions
      modifies `trace, `sessions
      ensures Inv() && old(trace) <= trace && |trace| <= |old(trace)| + 1
      ensures sessions == old(sessions)[session := old(sessions)[session].(active := None)]
    {
      var closed := false;
      if sessions[session].active.Some? {
        closed := CloseTurn(session, TurnInterrupted);
      }
      if !closed {
        Update(session, sessions[session].(active := None));
      }
    }

    /** No other session changes. */
    twostate predicate OnlyThis(session: SessionId)
      reads `sessions
    {
      session in sessions && sessions == old(sessions)[session := sessions[session]]
    }

    // ---- publication ----

    /** Publishes to the frontend channel and logs the delivery; any step may fail. */
    method Publish(session: SessionId) returns (ok: bool)
      requires Inv() && Active(session)
      modifies `trace
      ensures Inv() && old(trace) <= trace
      ensures trace == old(trace) ||
              trace == old(trace) + [Logged(session, Some(sessions[session].active.value.turn), DeliveryTransitioned)]
    {
      ok := *;
      var attempted: bool := *;
      if !attempted {
        return;
      }
      var logged := AppendActive(session, DeliveryTransitioned);
      ok := ok && logged;
    }

    // ---- items ----

    /** Records a started tool item under a new tool call. */
    method StartItem(session: SessionId, item: string, kind: EffectKind) returns (duplicate: bool)
      requires Inv() && Driving(session)
      modifies `trace, `sessions, `nextTool
      ensures Inv() && old(trace) <= trace && Driving(session)
      ensures OnlyThis(session)
      ensures duplicate == (item in old(sessions)[session].active.value.items)
      ensures var active := old(sessions)[session].active.value;
              sessions[session].active.value == active.(items := active.items[item := (old(nextTool), kind)])
      ensures trace == old(trace) + [ItemStarted(session, old(sessions)[session].active.value.turn, item, kind)]
    {
      hide SessionsOk, TraceOk, SessionOk, TurnOk, Bindings, Step, ItemOpen, Inputs;
      var active := sessions[session].active.value;
      duplicate := item in active.items;
      var entry := ItemStarted(session, active.turn, item, kind);
      var items := active.items[item := (nextTool, kind)];
      TurnIs(session);
      ItemStep(trace, entry);
      ItemStartedOpen(trace, session, active, sessions[session].configuration, item, kind, nextTool);
      ItemsMoved(catalog, trace, entry, sessions, nextTurn, session, items);
      TraceKept(trace, entry, nextTurn, consumed);
      InputsAppended(trace, entry);
      nextTool := nextTool + 1;
      trace := trace + [entry];
      BindingsSame(sessions, journal, session, sessions[session].(active := Some(active.(items := items))));
      sessions := sessions[session := sessions[session].(active := Some(active.(items := items)))];
    }

    /** Takes a completed tool item out of the table. */
    method CompleteItem(session: SessionId, item: string) returns (started: Option<(ToolCallId, EffectKind)>)
      requires Inv() && Driving(session)
      modifies `trace, `sessions
      ensures Inv() && old(trace) <= trace && Driving(session)
      ensures OnlyThis(session)
      ensures var active := old(sessions)[session].active.value;
              && started == (if item in active.items then Some(active.items[item]) else None)
              && sessions[session].active.value == active.(items := active.items - {item})
      ensures trace == old(trace) + [ItemCompleted(session, old(sessions)[session].active.value.turn, item)]
    {
      hide SessionsOk, TraceOk, SessionOk, TurnOk, Bindings, Step, ItemOpen, Inputs;
      var active := sessions[session].active.value;
      started := if item in active.items then Some(active.items[item]) else None;
      var entry := ItemCompleted(session, active.turn, item);
      var items := active.items - {item};
      TurnIs(session);
      ItemStep(trace, entry);
      ItemCompletedOpen(trace, session, active, sessions[session].configuration, item);
      ItemsMoved(catalog, trace, entry, sessions, nextTurn, session, items);
      TraceKept(trace, entry, nextTurn, consumed);
      InputsAppended(trace, entry);
      trace := trace + [entry];
      BindingsSame(sessions, journal, session, sessions[session].(active := Some(active.(items := items))));
      sessions := sessions[session := sessions[session].(active := Some(active.(items := items)))];
    }

    lemma TurnIs(session: SessionId)
      requires Inv() && Active(session)
      ensures TurnOk(trace, session, sessions[session].active.value, sessions[session].configuration)
    {
    }

    lemma ItemStep(before: Trace, entry: Entry)
      requires entry.ItemStarted? || entry.ItemCompleted?
      ensures Step(before, entry)
    {
    }

    /** The session's turn is active and not paused on an approval. */
    ghost predicate Driving(session: SessionId)
      reads `sessions
    {
      Active(session) && sessions[session].active.value.pending.None?
    }

    // ---- effects ----

    method AuthorizeFullAccessEffect(session: SessionId, request: Port.EffectRequest) returns (ok: bool)
      requires Inv() && Driving(session)
      requires Profile(sessions[session].configuration.mode) == Unrestricted
      modifies `trace
      ensures Inv() && old(trace) <= trace
      ensures ok ==> Granted(old(trace), trace, session, sessions[session].active.value, request)
      ensures request.kind in {Network, External} || OpenTool(sessions[session].active.value, request).None? ==>
                !ok && trace == old(trace) + [Denied(request.id)]
    {
      hide Inv;
      if request.kind == Network || request.kind == External {
        var _ := SendDeny(request.id);
        return false;
      }
      var tool := OpenTool(sessions[session].active.value, request);
      var secret: bool := *;
      if tool.None? || secret {
        var _ := SendDeny(request.id);
        return false;
      }
      ok := AllowAutomatically(session, request, tool.value);
    }

    /** Logs the proposal and the authorization, then sends the `Allow`. */
    method AllowAutomatically(session: SessionId, request: Port.EffectRequest, tool: ToolCallId) returns (ok: bool)
      requires Inv() && Driving(session) && OpenTool(sessions[session].active.value, request) == Some(tool)
      requires request.kind == Command || request.kind == FileChange
      requires Profile(sessions[session].configuration.mode) == Unrestricted
      modifies `trace
      ensures Inv() && old(trace) <= trace
      ensures ok ==> Granted(old(trace), trace, session, sessions[session].active.value, request)
    {
      hide Inv, Step, TurnOk;
      var active := sessions[session].active.value;
      TurnIs(session);
      AutomaticAllow(trace, session, active, sessions[session].configuration,
                     request.id, request.item, request.kind, tool);
      ok := LogAuthorization(session, tool);
      if !ok { return; }
      Extend(Allowed(session, active.turn, request.id, request.item, request.kind, tool, Automatic));
      ok := *;
    }

    method LogAuthorization(session: SessionId, tool: ToolCallId) returns (ok: bool)
      requires Inv() && Active(session)
      modifies `trace
      ensures Inv() && old(trace) <= trace
      ensures var turn := Some(sessions[session].active.value.turn);
              ok ==> trace == old(trace) + [Logged(session, turn, ToolProposed(tool))]
                                         + [Logged(session, turn, ToolDispatchAuthorized(tool))]
    {
      hide Inv;
      ok := AppendActive(session, ToolProposed(tool));
      if !ok { return; }
      ok := AppendActive(session, ToolDispatchAuthorized(tool));
    }

    /** Proposes the effect, asks for approval and pauses the turn. */
    method PauseForApproval(session: SessionId, request: Port.EffectRequest) returns (r: Progress)
      requires Inv() && Driving(session)
      modifies `trace, `sessions, `nextApproval
      ensures Inv() && old(trace) <= trace && OnlyThis(session)
      ensures r == Done(WaitingForApproval) ==>
                Asked(old(trace), trace, session, old(sessions)[session].active.value, sessions[session].active,
                      request)
      ensures r == Done(TurnFailed) ==>
                && !Active(session)
                && trace == old(trace) + [Denied(request.id)] +
                            [Logged(session, Some(old(sessions)[session].active.value.turn), TurnInterrupted)]
      ensures r == Fault || r == Done(WaitingForApproval) || r == Done(TurnFailed)
    {
      hide Inv;
      if request.kind == Network || request.kind == External {
        var _ := SendDeny(request.id);
        return Fault;
      }
      var secret: bool := *;
      if secret {
        var denied := SendDeny(request.id);
        if !denied { return Fault; }
        var closed := CloseTurn(session, TurnInterrupted);
        return if closed then Done(TurnFailed) else Fault;
      }
      var tool := OpenTool(sessions[session].active.value, request);
      if tool.None? {
        var _ := SendDeny(request.id);
        return Fault;
      }
      var bound: bool := *;
      if !bound { return Fault; }
      r := RequestApproval(session, request, tool.value);
    }

    method RequestApproval(session: SessionId, request: Port.EffectRequest, tool: ToolCallId) returns (r: Progress)
      requires Inv() && Driving(session) && OpenTool(sessions[session].active.value, request) == Some(tool)
      requires request.kind == Command || request.kind == FileChange
      modifies `trace, `sessions, `nextApproval
      ensures Inv() && old(trace) <= trace && OnlyThis(session)
      ensures r == Done(WaitingForApproval) ==>
                Asked(old(trace), trace, session, old(sessions)[session].active.value, sessions[session].active,
                      request)
      ensures r == Fault ==>
                sessions == old(sessions) || (!Active(session) && Denied(request.id) in trace)
      ensures r == Fault || r == Done(WaitingForApproval)
    {
      hide Inv;
      ghost var active := sessions[session].active.value;
      var approval := nextApproval;
      nextApproval := nextApproval + 1;
      var ok := LogApprovalRequest(session, approval, tool);
      if !ok { return Fault; }
      ok := *;
      if !ok { return Fault; }
      assert Logged(session, Some(active.turn), ApprovalRequested(approval, tool)) == trace[|trace| - 1];
      assert Logged(session, Some(active.turn), ToolProposed(tool)) == trace[|trace| - 2];
      Pause(session, PendingApproval(request, approval, tool));
      ok := Announce(session, request.id);
      return if ok then Done(WaitingForApproval) else Fault;
    }

    method LogApprovalRequest(session: SessionId, approval: ApprovalId, tool: ToolCallId) returns (ok: bool)
      requires Inv() && Active(session)
      modifies `trace
      ensures Inv() && old(trace) <= trace
      ensures var turn := Some(sessions[session].active.value.turn);
              ok ==> trace == old(trace) + [Logged(session, turn, ToolProposed(tool))]
                                         + [Logged(session, turn, ApprovalRequested(approval, tool))]
    {
      hide Inv;
      ok := AppendActive(session, ToolProposed(tool));
      if !ok { return; }
      ok := *;
      if !ok { return; }
      ok := AppendActive(session, ApprovalRequested(approval, tool));
    }

    /** Publishes the request; if that fails the effect is denied and the turn fails. */
    method Announce(session: SessionId, request: string) returns (ok: bool)
      requires Inv() && Active(session)
      modifies `trace, `sessions
      ensures Inv() && old(trace) <= trace && OnlyThis(session)
      ensures ok ==> sessions == old(sessions)
      ensures ok ==> (trace == old(trace) || trace ==
                      old(trace) + [Logged(session, Some(sessions[session].active.value.turn), DeliveryTransitioned)])
      ensures !ok ==> !Active(session) && Denied(request) in trace
    {
      hide Inv;
      ok := Publish(session);
      if !ok {
        var _ := SendDeny(request);
        assert trace[|trace| - 1] == Denied(request);
        FailActiveTurn(session);
      }
    }

    method Pause(session: SessionId, pending: PendingApproval)
      requires Inv() && Driving(session)
      requires OpenTool(sessions[session].active.value, pending.request) == Some(pending.tool)
      requires pending.request.kind == Command || pending.request.kind == FileChange
      requires Logged(session, Some(sessions[session].active.value.turn), ToolProposed(pending.tool)) in trace
      requires Logged(session, Some(sessions[session].active.value.turn),
                      ApprovalRequested(pending.approval, pending.tool)) in trace
      modifies `sessions
      ensures Inv() && OnlyThis(session)
      ensures sessions[session].active == Some(old(sessions)[session].active.value.(pending := Some(pending)))
    {
      var state := sessions[session];
      var paused := state.(active := Some(state.active.value.(pending := Some(pending))));
      assert SessionOk(catalog, trace, session, state);
      assert TurnOk(trace, session, paused.active.value, paused.configuration);
      hide Inv;
      Update(session, paused);
    }

    // ---- configuration ----

    /** Only this session changes, and neither its turn nor - while a turn is active - its configuration. */
    twostate predicate Reconfigured(session: SessionId)
      reads `sessions
    {
      && sessions.Keys == old(sessions.Keys)
      && (forall s :: s in sessions && s != session ==> sessions[s] == old(sessions[s]))
      && (session in sessions ==>
            && sessions[session].active == old(sessions[session].active)
            && (sessions[session].active.Some? ==>
                 sessions[session].configuration == old(sessions[session].configuration)))
    }

    method PersistConfiguration(session: SessionId) returns (ok: bool)
      requires Inv()
      modifies `trace
      ensures Inv() && old(trace) <= trace
    {
      ok := *;
      if ok {
        ok := Append(session, None, FrontendPermissionChanged);
      }
    }

    /** Replaces configuration-side fields of a session. */
    method Reconfigure(session: SessionId, state: SessionState)
      requires Inv() && session in sessions && ConfiguredFrom(sessions[session], state)
      requires state.configuration.Supported(catalog)
      requires state.pendingConfiguration.Some? ==> state.pendingConfiguration.value.Supported(catalog)
      requires HasAccess(trace, session, state)
      modifies `sessions
      ensures Inv() && Reconfigured(session) && sessions == old(sessions)[session := state]
    {
      Requery(session);
      hide Inv;
      Update(session, state);
    }

    lemma Requery(session: SessionId)
      requires Inv() && session in sessions
      ensures SessionOk(catalog, trace, session, sessions[session])
    {
    }

    method SetConfig(session: SessionId, selection: ConfigSelection) returns (r: Option<SessionConfiguration>)
      requires Inv() && Commanded(trace, session, selection)
      modifies `sessions, `trace
      ensures Inv() && old(trace) <= trace && Reconfigured(session)
      ensures sessions == old(sessions) ||
              (session in sessions && Configured(catalog, old(sessions)[session], selection) == Some(sessions[session]))
      ensures r.Some? ==>
                session in sessions && Configured(catalog, old(sessions)[session], selection) == Some(sessions[session])
      ensures session in old(sessions) && Configured(catalog, old(sessions)[session], selection).None? ==>
                r.None? && sessions == old(sessions)
    {
      var codeOk: bool := *;
      if session !in sessions || (selection == SelectMode(BypassPermissions, true) && !codeOk) { return None; }
      Requery(session);
      var state := Configured(catalog, sessions[session], selection);
      if state.None? { return None; }
      ConfiguredAccess(catalog, trace, session, sessions[session], selection);
      hide Inv, Configured, ConfiguredFrom, Reconfigured, SessionOk, HasAccess;
      Reconfigure(session, state.value);
      var persisted := true;
      if state.value.active.None? && selection != SelectMode(BypassPermissions, true) {
        persisted := PersistConfiguration(session);
      }
      r := if persisted then Some(state.value.configuration) else None;
    }

    method ApplyPendingConfiguration(session: SessionId) returns (ok: bool)
      requires Inv() && session in sessions && !Active(session)
      modifies `sessions, `trace
      ensures Inv() && old(trace) <= trace && Reconfigured(session)
      ensures session in sessions && sessions[session] == Settled(old(sessions)[session])
      ensures var state := old(sessions)[session];
              sessions[session] ==
                if state.pendingConfiguration.None? then state
                else state.(configuration := state.pendingConfiguration.value, pendingConfiguration := None)
    {
      var state := sessions[session];
      if state.pendingConfiguration.None? { return true; }
      Requery(session);
      hide Inv, Reconfigured;
      Reconfigure(session, Settled(state));
      ok := PersistConfiguration(session);
    }

    method ConfirmBypass(session: SessionId) returns (ok: bool)
      requires Inv() && session in sessions && !Active(session)
      requires trace != [] && trace[|trace| - 1] == Received(SendPrompt(session, Prompt.ConfirmBypass))
      modifies `sessions, `trace
      ensures Inv() && old(trace) <= trace && Reconfigured(session)
      ensures sessions == old(sessions) ||
              (old(sessions)[session].pendingBypass && session in sessions &&
               sessions[session] == Bypassed(old(sessions)[session]))
      ensures ok ==>
                && old(sessions)[session].pendingBypass && session in sessions && !sessions[session].pendingBypass
                && sessions[session].configuration == old(sessions)[session].configuration.(mode := BypassPermissions)
      ensures !old(sessions)[session].pendingBypass ==> !ok && sessions == old(sessions)
    {
      var state := sessions[session];
      ok := *;
      if !state.pendingBypass || !ok { return false; }
      Requery(session);
      ConfirmedAccess(trace, session, state);
      hide Inv, Reconfigured, HasAccess;
      var change := state.configuration.SetMode(BypassPermissions, RemoteConfirmed);
      Reconfigure(session, state.(configuration := change.configuration, pendingBypass := false));
      ok := PersistConfiguration(session);
    }

    /** Admits a channel message. A first admission switches to full access - never during a turn,
        because a session with a provider context already has its channel. */
    method AttachBuzz(session: SessionId, context: BuzzContext) returns (ok: bool, started: Port.ContextId)
      requires Inv() && Routing() && Received(AttachBuzzContext(session, context)) in trace
      modifies `sessions, `journal
      ensures Inv() && Routing() && Reconfigured(session) && old(journal) <= journal
      ensures TakenIn(journal) == TakenIn(old(journal))
      ensures ok ==>
                session in sessions && Attached(old(sessions)[session], context, started) == Some(sessions[session])
      ensures !ok ==> sessions == old(sessions)
    {
      hide Inv, Attached, Routing, TakenIn, SessionOk, SameTurn;
      var admitted: bool := *;
      started := *;
      ok := false;
      if session !in sessions || !admitted { return; }
      Requery(session);
      AttachedOk(catalog, trace, session, sessions[session], context, started);
      var state := Attached(sessions[session], context, started);
      if state.None? { return; }
      Admit(session, state.value);
      ok := true;
    }

    /** Keeps the provider context, or takes the first one. */
    method Admit(session: SessionId, state: SessionState)
      requires Inv() && Routing() && session in sessions && SessionOk(catalog, trace, session, state)
      requires state.active.Some? ==> Active(session) && SameTurn(sessions[session], state)
      requires if sessions[session].provider.None? then state.provider.Some?
               else state.provider == sessions[session].provider
      modifies `sessions, `journal
      ensures Inv() && Routing() && sessions == old(sessions)[session := state]
      ensures old(journal) <= journal && TakenIn(journal) == TakenIn(old(journal))
    {
      hide Inv, Tracked, TakenIn, SessionOk, SameTurn;
      if sessions[session].provider.None? {
        Bind(session, state);
      } else {
        Update(session, state);
      }
    }

    // ---- turn control ----

    method CancelSession(session: SessionId) returns (ok: bool)
      requires Inv()
      modifies `trace, `sessions
      ensures Inv() && old(trace) <= trace
      ensures ok ==>
                && session in old(sessions) && old(sessions)[session].active.Some?
                && sessions == old(sessions)[session := old(sessions)[session].(active := None)]
                && trace == old(trace) +
                            [Logged(session, Some(old(sessions)[session].active.value.turn), TurnInterrupted)]
      ensures !ok ==> sessions == old(sessions)
    {
      if session !in sessions || sessions[session].active.None? || sessions[session].provider.None? { return false; }
      var interrupted: bool := *;
      if !interrupted { return false; }
      hide Inv;
      ok := CloseTurn(session, TurnInterrupted);
    }

    method SteerSession(session: SessionId) returns (ok: bool)
      requires Inv()
      modifies `trace
      ensures Inv() && old(trace) <= trace
      ensures ok ==>
                && Driving(session)
                && trace == old(trace) + [Logged(session, Some(sessions[session].active.value.turn), UserInput)]
    {
      var accepted: bool := *;
      if !accepted || session !in sessions || sessions[session].active.None?
         || sessions[session].active.value.pending.Some? || sessions[session].provider.None? { return false; }
      hide Inv;
      ok := AppendActive(session, UserInput);
      if ok { ok := *; }
    }

    // ---- provider events ----

    /** A turn ends with the epoch: publish, log, apply the queued configuration. */
    method CompleteEpoch(session: SessionId) returns (r: Progress)
      requires Inv() && Driving(session)
      modifies `trace, `sessions
      ensures Inv() && old(trace) <= trace && OnlyThis(session)
      ensures r == Fault || (r == Done(EndTurn) && !Active(session) &&
                             Logged(session, Some(old(sessions)[session].active.value.turn), TurnCompleted) in trace)
    {
      hide Inv, Reconfigured;
      var published := Publish(session);
      if !published {
        FailActiveTurn(session);
        return Fault;
      }
      var closed := CloseTurn(session, TurnCompleted);
      if !closed { return Fault; }
      ghost var end := |trace| - 1;
      assert trace[end] == Logged(session, Some(old(sessions)[session].active.value.turn), TurnCompleted);
      var applied := ApplyAfterTurn(session);
      return if applied then Done(EndTurn) else Fault;
    }

    method ApplyAfterTurn(session: SessionId) returns (ok: bool)
      requires Inv() && session in sessions && !Active(session)
      modifies `trace, `sessions
      ensures Inv() && old(trace) <= trace && OnlyThis(session) && !Active(session)
      ensures sessions[session] == Settled(old(sessions)[session])
    {
      hide Inv;
      ok := ApplyPendingConfiguration(session);
    }

    method ItemEvent(session: SessionId, event: Port.AgentEvent) returns (r: Progress)
      requires Inv() && Driving(session) && (event.ItemStarted? || event.ItemCompleted?)
      modifies `trace, `sessions, `nextTool
      ensures Inv() && old(trace) <= trace && OnlyThis(session) && Driving(session)
      ensures r == Fault || (r == Continue &&
                             ItemEffect(session, event, old(sessions)[session].active.value,
                                        sessions[session].active.value, old(trace), trace))
    {
      hide Inv;
      var ok := true;
      if event.ItemStarted? {
        if event.item.kind.Some? {
          var duplicate := StartItem(session, event.item.id, event.item.kind.value);
          if duplicate { return Fault; }
        }
        ok := LogActive(session, ProviderLifecycle);
        return if ok then Continue else Fault;
      }
      if event.item.kind.None? {
        ok := LogActive(session, ProviderLifecycle);
        return if ok then Continue else Fault;
      }
      if !event.item.terminal { return Fault; }
      var started := CompleteItem(session, event.item.id);
      if started.None? || started.value.1 != event.item.kind.value { return Fault; }
      ok := LogActive(session, ToolCompleted(started.value.0));
      return if ok then Continue else Fault;
    }

    method LogActive(session: SessionId, event: LogEvent) returns (ok: bool)
      requires Inv() && Driving(session) && Neutral(Logged(session, None, event))
      modifies `trace
      ensures Inv() && old(trace) <= trace && Driving(session)
      ensures ok ==> trace == old(trace) + [Logged(session, Some(sessions[session].active.value.turn), event)]
    {
      ok := AppendActive(session, event);
    }

    /** Events that are only logged. */
    method ProgressEvent(session: SessionId, event: Port.AgentEvent) returns (r: Progress)
      requires Inv() && Driving(session)
      modifies `trace
      ensures Inv() && old(trace) <= trace && Driving(session)
      ensures r == Fault || (r == Continue &&
                             ProgressEffect(session, event, sessions[session].active.value.turn, old(trace), trace))
    {
      hide Inv;
      var ok := true;
      if event.ContextStarted? {
        ok := Append(session, None, ProviderLifecycle);
      } else if event.AssistantDelta? {
        ok := *;
        if ok { ok := LogActive(session, AssistantTextDelta); }
      } else if event.DiffUpdated? {
        ok := *;
        if ok { ok := LogActive(session, WorkspaceDiffUpdated); }
        if ok { ok := Publish(session); }
      } else if event.EpochStarted? || event.CompactionStarted? || event.CompactionCompleted? {
        ok := LogActive(session, ProviderLifecycle);
      }
      r := if ok then Continue else Fault;
    }

    method EffectEvent(session: SessionId, request: Port.EffectRequest) returns (r: Progress)
      requires Inv() && Driving(session) && ActiveEventMatches(sessions[session], Port.EffectRequested(request))
      modifies `trace, `sessions, `nextApproval
      ensures Inv() && old(trace) <= trace && OnlyThis(session)
      ensures Effect(session, Port.EffectRequested(request), r, old(sessions)[session], sessions[session].active,
                     old(trace), trace)
      ensures r == Continue ==> Driving(session)
    {
      hide Inv;
      if Profile(sessions[session].configuration.mode) == Unrestricted {
        var ok := AuthorizeFullAccessEffect(session, request);
        r := if ok then Continue else Fault;
      } else {
        r := PauseForApproval(session, request);
      }
    }

    /** Handles one provider event in the session's turn. */
    method ProcessProviderEvent(session: SessionId, event: Port.AgentEvent) returns (r: Progress)
      requires Inv() && Driving(session)
      modifies `trace, `sessions, `nextTool, `nextApproval
      ensures Inv() && old(trace) <= trace && OnlyThis(session)
      ensures Effect(session, event, r, old(sessions)[session], sessions[session].active, old(trace), trace)
      ensures Stale(old(sessions)[session], event) ==> r == Continue && trace == old(trace) && sessions == old(sessions)
      ensures r == Continue ==> Driving(session)
    {
      hide Inv, Stale;
      MatchesExactly(sessions[session], event);
      if !ActiveEventMatches(sessions[session], event) { return Continue; }
      var valid: bool := *;
      if !valid { return Fault; }
      hide ActiveEventMatches, Effect;
      if event.ItemStarted? || event.ItemCompleted? {
        r := ItemEvent(session, event);
        ItemIsEffect(session, event, r, old(sessions)[session], sessions[session].active.value, old(trace), trace);
      } else if event.EffectRequested? {
        r := EffectEvent(session, event.request);
      } else if event.EpochCompleted? || event.ProviderFailed? {
        r := EndEvent(session, event);
      } else {
        r := ProgressEvent(session, event);
        ProgressIsEffect(session, event, r, old(sessions)[session], old(trace), trace);
      }
    }

    /** The epoch is over, or the provider failed. */
    method EndEvent(session: SessionId, event: Port.AgentEvent) returns (r: Progress)
      requires Inv() && Driving(session) && ActiveEventMatches(sessions[session], event)
      requires event.EpochCompleted? || event.ProviderFailed?
      modifies `trace, `sessions
      ensures Inv() && old(trace) <= trace && OnlyThis(session) && r != Continue
      ensures Effect(session, event, r, old(sessions)[session], sessions[session].active, old(trace), trace)
    {
      hide Inv, ActiveEventMatches, Effect;
      var secret: bool := *;
      if event.EpochCompleted? && secret {
        r := Fault;
      } else if event.EpochCompleted? {
        r := CompleteEpoch(session);
      } else {
        var closed := CloseTurn(session, TurnInterrupted);
        r := if closed then Done(TurnFailed) else Fault;
      }
      EndIsEffect(session, event, r, old(sessions)[session], sessions[session].active, old(trace), trace);
    }

    // ---- routing ----

    /** The single session holding the event's context, if there is exactly one. */
    method EventOwner(event: Port.AgentEvent) returns (owner: Owner)
      requires Inv()
      ensures owner == OwnerAt(journal, event)
    {
      hide SessionsOk, TraceOk;
      if event == Port.ProviderFailed(None, None) { return Global; }
      var context := EventContext(event);
      if context.None? { return Unowned; }
      var rest, holders := sessions.Keys, {};
      while rest != {}
        invariant rest <= sessions.Keys
        invariant holders <= sessions.Keys - rest
        invariant forall s :: s in sessions && s !in rest ==> (s in holders <==> sessions[s].provider == context)
      {
        var s :| s in rest;
        rest := rest - {s};
        if sessions[s].provider == context { holders := holders + {s}; }
      }
      OwnerByHolders(sessions, journal, event, holders);
      if holders == {} { return Unowned; }
      var found :| found in holders;
      return if holders == {found} then OwnedBy(found) else Unowned;
    }

    ghost predicate Paused(session: SessionId)
      reads `sessions
    {
      Active(session) && sessions[session].active.value.pending.Some?
    }

    /** Queues an event for another session. An overflow drops that session's backlog, fails its turn
        and denies the effect it was paused on. */
    method RouteEvent(session: SessionId, event: Port.AgentEvent)
      requires Inv() && router.Valid() && session in sessions
      modifies `trace, `sessions, router
      ensures Inv() && router.Valid() && old(trace) <= trace
      ensures router.State() == Routed(old(router.State()), session, event)
      ensures router.owned == old(router.owned)[session := Get(old(router.owned), session) + [event]]
      ensures router.handled == old(router.handled)
      ensures var overflow := Full(old(router.State()), session);
              && router.overflowed == (if overflow then old(router.overflowed) + {session} else old(router.overflowed))
              && sessions == (if overflow then old(sessions)[session := old(sessions)[session].(active := None)]
                              else old(sessions))
              && (overflow && old(Paused(session)) ==>
                    Denied(old(sessions)[session].active.value.pending.value.request.id) in trace)
    {
      hide Inv, EventRouter.Valid, SameElsewhere, Get, Full, Routed;
      var overflow := router.RouteEvent(session, event);
      if overflow {
        var before := sessions[session].active;
        FailActiveTurn(session);
        if before.Some? && before.value.pending.Some? {
          var _ := SendDeny(before.value.pending.value.request.id);
        }
      }
    }

    // ---- driving a turn ----

    /** What a request served during the turn may have done to its session. */
    ghost predicate Served(session: SessionId, request: Request, r: Progress, before: SessionState, after: SessionState)
      requires before.active.Some?
    {
      match request
      case Cancel(target) =>
        if r == Continue || target != session then after == before && r == Continue
        else after == before.(active := None) || after == Settled(before)
      case SetConfig(target, selection) =>
        r == Continue &&
        (after == before || (target == session && Configured(catalog, before, selection) == Some(after)))
      case Shutdown => r == Done(Cancelled) && (after == before || after == before.(active := None))
      case _ => r == Continue && after == before
    }

    /** A request that arrives while the session's turn runs. A shutdown closes the receiver: the requests
        already sent, some first part of those to come, are still handled. */
    method RequestDuringTurn(session: SessionId, request: Request) returns (r: Progress)
      requires Inv() && Driving(session) && Received(request) in trace
      modifies `trace, `sessions, `requests, `closed
      ensures Inv() && old(trace) <= trace && OnlyThis(session)
      ensures requests <= old(requests) && (old(closed) ==> closed)
      ensures requests != old(requests) ==> closed
      ensures Served(session, request, r, old(sessions)[session], sessions[session])
      ensures r == Done(Cancelled) && Active(session) ==> closed
      ensures Ended(session, r)
    {
      hide Inv, Configured;
      match request {
        case Cancel(target) =>
          if target == session {
            var cancelled := CancelSession(session);
            if cancelled {
              var applied := ApplyAfterTurn(session);
              return if applied then Done(Cancelled) else Done(Failed);
            }
          }
        case Steer(target) =>
          if target == session {
            var _ := SteerSession(session);
          }
        case SetConfig(target, selection) =>
          if target == session {
            var _ := SetConfig(session, selection);
          }
        case Shutdown =>
          var _ := CancelSession(session);
          var sent: nat := *;
          closed := true;
          if 0 <= sent < |requests| { requests := requests[..sent]; }
          return Done(Cancelled);
        case _ =>
      }
      return Continue;
    }

    /** Handles an event of this turn, its own or a global one; an error fails the turn. */
    method HandleEvent(session: SessionId, event: Port.AgentEvent, ghost owned: bool) returns (r: Progress)
      requires Inv() && Driving(session)
      modifies `trace, `sessions, `nextTool, `nextApproval, `processed
      ensures Inv() && old(trace) <= trace && OnlyThis(session)
      ensures processed == if owned then old(processed)[session := Get(old(processed), session) + [event]]
                           else old(processed)
      ensures r == Done(Failed) ||
              Effect(session, event, r, old(sessions)[session], sessions[session].active, old(trace), trace)
      ensures Stale(old(sessions)[session], event) ==> r == Continue && trace == old(trace) && sessions == old(sessions)
      ensures Ended(session, r)
    {
      hide Inv, ActiveEventMatches, ItemEffect, ProgressEffect, Granted, Stale;
      if owned {
        processed := processed[session := Get(processed, session) + [event]];
      }
      r := ProcessProviderEvent(session, event);
      if r == Fault {
        FailActiveTurn(session);
        r := Done(Failed);
      }
    }

    /** What a step promises about the session's turn: it runs on, waits for an approval, or is over; only
        the end of the kernel may leave it running: a shutdown whose cancellation failed, or no request
        being left to come. */
    ghost predicate Ended(session: SessionId, r: Progress)
      reads `sessions, `requests, `closed
    {
      match r
      case Continue => Driving(session)
      case Fault => false
      case Done(WaitingForApproval) => Active(session) && sessions[session].active.value.pending.Some?
      case Done(Cancelled) => !Active(session) || closed
      case Done(Stopped) => requests == []
      case Done(_) => !Active(session)
    }

    /** The other sessions after a part of a run: unchanged, or failed by an overflow in that part. */
    ghost predicate OthersKept(before: Sessions, after: Sessions, session: SessionId, j: Journal, from: nat) {
      && after.Keys == before.Keys
      && forall s :: s in before && s != session ==>
           || after[s] == before[s]
           || (after[s] == before[s].(active := None) && exists k :: k >= from && OverflowAt(j, k, s))
    }

    /** Only this turn was driven. */
    ghost predicate DrivenBy(session: SessionId, j: Journal, from: nat) {
      forall k :: from <= k < |j| && j[k].Taken? ==> j[k].driven == session
    }

    lemma OthersChain(s0: Sessions, s1: Sessions, s2: Sessions, session: SessionId, j1: Journal, j2: Journal,
                      from: nat, middle: nat)
      requires OthersKept(s0, s1, session, j1, from) && OthersKept(s1, s2, session, j2, middle)
      requires j1 <= j2 && from <= middle
      ensures OthersKept(s0, s2, session, j2, from)
    {
      forall s | s in s0 && s != session
        ensures || s2[s] == s0[s]
                || (s2[s] == s0[s].(active := None) && exists k :: k >= from && OverflowAt(j2, k, s))
      {
        if s1[s] != s0[s] {
          var k :| k >= from && OverflowAt(j1, k, s);
          assert j2[..k] == j1[..k] && j2[k] == j1[k];
          assert OverflowAt(j2, k, s);
        }
      }
    }

    lemma OthersAlone(before: Sessions, session: SessionId, j: Journal, longer: Journal)
      requires session in before && session in sessions && sessions == before[session := sessions[session]]
      ensures OthersKept(before, sessions, session, longer, |j|)
    {
    }

    /** The next provider event: handled here, queued for its owner, or dropped. */
    method ProviderStep(session: SessionId) returns (r: Progress)
      requires Inv() && Routing() && Driving(session) && Get(router.queues, session) == [] && provided != []
      modifies `trace, `sessions, `nextTool, `nextApproval, `processed, `provided, `journal, router
      ensures Inv() && Routing() && old(trace) <= trace
      ensures provided == old(provided)[1..] && journal == old(journal) + [Taken(old(provided)[0], session)]
      ensures TakenEffect(session, old(provided)[0], r, old(journal), old(sessions), old(trace))
      ensures OthersKept(old(sessions), sessions, session, journal, |old(journal)|)
      ensures Ended(session, r)
    {
      hide Inv, Tracked, OwnerAt, OthersKept, Effect, HeardOf, Stale;
      var event := provided[0];
      if event.None? {
        TakePortError(session);
        FailActiveTurn(session);
        OthersAlone(old(sessions), session, old(journal), journal);
        return Done(Failed);
      }
      var mine := TakeEvent(session, event.value);
      if !mine { return Continue; }
      OthersAlone(old(sessions), session, old(journal), journal);
      hide Driving, Ended;
      r := HandleEvent(session, event.value, event.value != Port.ProviderFailed(None, None));
      OthersAlone(old(sessions), session, old(journal), journal);
    }

    method TakePortError(session: SessionId)
      requires Inv() && Tracked() && provided != [] && provided[0].None?
      modifies `provided, `journal
      ensures Inv() && Tracked() && provided == old(provided)[1..]
      ensures journal == old(journal) + [Taken(None, session)]
    {
      hide Inv, EventRouter.Valid, Accounted, OwnerAt, Replay;
      var step := Taken(None, session);
      TakenStep(journal, step, given, provided, router.owned, router.overflowed);
      Extended(journal, step);
      provided := provided[1..];
      Note(step);
    }

    /** Takes an event from the provider: it is this turn's, or queued for its owner, or nobody's. */
    method TakeEvent(session: SessionId, event: Port.AgentEvent) returns (mine: bool)
      requires Inv() && Tracked() && Driving(session) && Get(router.queues, session) == []
      requires provided != [] && provided[0] == Some(event)
      modifies `trace, `sessions, `provided, `journal, router
      ensures Inv() && Tracked() && Driving(session) && old(trace) <= trace
      ensures provided == old(provided)[1..] && journal == old(journal) + [Taken(Some(event), session)]
      ensures mine <==> OwnerAt(old(journal), event) in {Global, OwnedBy(session)}
      ensures mine ==> trace == old(trace) && sessions == old(sessions)
      ensures router.handled == if mine && event != Port.ProviderFailed(None, None)
                                then old(router.handled)[session := Get(old(router.handled), session) + [event]]
                                else old(router.handled)
      ensures session in sessions && sessions[session] == old(sessions)[session]
      ensures OthersKept(old(sessions), sessions, session, journal, |old(journal)|)
    {
      hide Inv, EventRouter.Valid, Accounted, OwnerAt, Replay, Full, Effected, OwnedAfter, OverflowedAfter, Overflows;
      ghost var step := Taken(Some(event), session);
      TakenStep(journal, step, given, provided, router.owned, router.overflowed);
      Extended(journal, step);
      mine := TakeOrRoute(session, event);
      provided := provided[1..];
      Note(step);
      OverflowLast(old(journal), step);
      hide OverflowAt;
    }

    lemma OverflowLast(j: Journal, step: JournalEntry)
      ensures forall s :: Overflows(j, step, s) ==> OverflowAt(j + [step], |j|, s)
    {
      assert (j + [step])[..|j|] == j && (j + [step])[|j|] == step;
    }

    /** An own or global event has its effect on the turn or fails it; any other leaves the turn alone. */
    ghost predicate TakenEffect(session: SessionId, event: Option<Port.AgentEvent>, r: Progress, j: Journal,
                                before: Sessions, log: Trace)
      requires session in before && before[session].active.Some?
      reads `sessions, `trace
    {
      && session in sessions
      && (event.None? ==> r == Done(Failed))
      && (event.Some? ==>
            if OwnerAt(j, event.value) in {Global, OwnedBy(session)} then
              || r == Done(Failed)
              || Effect(session, event.value, r, before[session], sessions[session].active, log, trace)
            else r == Continue && sessions[session] == before[session])
    }

    /** Reports an overflow of the session, once. */
    method ReportOverflow(session: SessionId) returns (failed: bool)
      requires Inv() && Routing()
      modifies router, `journal
      ensures Inv() && Routing() && failed == (session in old(router.failures))
      ensures journal == if failed then old(journal) + [Reported(session)] else old(journal)
      ensures !failed ==> router.State() == old(router.State())
    {
      hide Inv, EventRouter.Valid, Accounted, Replay;
      failed := router.ClearFailure(session);
      if failed {
        QuietStep(journal, Reported(session), given, provided, router.owned, router.overflowed);
        Extended(journal, Reported(session));
        Note(Reported(session));
      } else {
        assert old(router.failures) - {session} == old(router.failures);
      }
    }

    /** The oldest queued event of the session. */
    method TakeQueued(session: SessionId) returns (event: Option<Port.AgentEvent>)
      requires Inv() && Tracked()
      modifies router, `journal
      ensures Inv() && Tracked()
      ensures event.None? <==> Get(old(router.queues), session) == []
      ensures event.None? ==> router.State() == old(router.State()) && router.handled == old(router.handled)
      ensures event.Some? ==>
                && [event.value] + Get(router.queues, session) == Get(old(router.queues), session)
                && router.handled == old(router.handled)[session := Get(old(router.handled), session) + [event.value]]
      ensures journal == if event.Some? then old(journal) + [HandedOver(session)] else old(journal)
    {
      hide Inv, EventRouter.Valid, Accounted, Replay, SameElsewhere;
      event := router.TakeRoutedEvent(session);
      if event.Some? {
        QuietStep(journal, HandedOver(session), given, provided, router.owned, router.overflowed);
        Extended(journal, HandedOver(session));
        Note(HandedOver(session));
      }
    }

    /** What one iteration did, told by the journal: an overflow was reported and failed the turn, the
        oldest queued event was handled, a provider event was taken, or a request was served. */
    twostate predicate Stepped(session: SessionId, r: Progress)
      requires session in old(sessions) && old(sessions)[session].active.Some?
      reads this, router
    {
      if session in old(router.failures) then
        journal == old(journal) + [Reported(session)] && r == Done(Failed) && provided == old(provided)
      else if Get(old(router.queues), session) != [] then
        && journal == old(journal) + [HandedOver(session)] && provided == old(provided)
        && TakenHandled(session, Get(old(router.queues), session)[0], r, old(sessions)[session], old(trace))
      else if journal == old(journal) then provided == old(provided)
      else
        && old(provided) != [] && provided == old(provided)[1..]
        && journal == old(journal) + [Taken(old(provided)[0], session)]
        && TakenEffect(session, old(provided)[0], r, old(journal), old(sessions), old(trace))
    }

    ghost predicate TakenHandled(session: SessionId, event: Port.AgentEvent, r: Progress, before: SessionState,
                                 log: Trace)
      requires before.active.Some?
      reads `sessions, `trace
    {
      session in sessions &&
      (r == Done(Failed) || Effect(session, event, r, before, sessions[session].active, log, trace))
    }

    /** One iteration: an overflow report, a backlog event, a provider event or a request. */
    method DriveStep(session: SessionId) returns (r: Progress)
      requires Inv() && Routing() && Driving(session)
      modifies `trace, `sessions, `nextTool, `nextApproval, `processed, `provided, `requests, `closed
      modifies `received, `journal, router
      ensures Inv() && Routing() && old(trace) <= trace && old(journal) <= journal
      ensures |provided| + |requests| <= |old(provided)| + |old(requests)| && (old(closed) ==> closed)
      ensures r == Continue && |provided| + |requests| == |old(provided)| + |old(requests)| ==>
                |Get(router.queues, session)| < |Get(old(router.queues), session)|
      ensures Stepped(session, r)
      ensures OthersKept(old(sessions), sessions, session, journal, |old(journal)|)
      ensures DrivenBy(session, journal, |old(journal)|)
      ensures Ended(session, r)
    {
      hide Inv, Tracked, TakenEffect, TakenHandled, OthersKept, Get, Popped, Cleared, Ended, HeardOf;
      var overflowed := ReportOverflow(session);
      if overflowed {
        FailActiveTurn(session);
        OthersAlone(old(sessions), session, old(journal), journal);
        FailedEnds(session);
        return Done(Failed);
      }
      var fromProvider: bool := *;
      if Get(router.queues, session) != [] {
        r := HandleQueued(session);
        OthersAlone(old(sessions), session, old(journal), journal);
      } else if provided != [] && fromProvider {
        r := ProviderStep(session);
      } else if requests != [] {
        r := ServeRequest(session);
        OthersAlone(old(sessions), session, old(journal), journal);
      } else {
        r := Done(Stopped);
        StoppedEnds(session);
        OthersAlone(old(sessions), session, old(journal), journal);
      }
    }

    /** Handles the oldest queued event of the session. */
    method HandleQueued(session: SessionId) returns (r: Progress)
      requires Inv() && Routing() && Driving(session) && Get(router.queues, session) != []
      modifies `trace, `sessions, `nextTool, `nextApproval, `processed, `journal, router
      ensures Inv() && Routing() && old(trace) <= trace && OnlyThis(session)
      ensures journal == old(journal) + [HandedOver(session)]
      ensures Get(router.queues, session) == Get(old(router.queues), session)[1..]
      ensures TakenHandled(session, Get(old(router.queues), session)[0], r, old(sessions)[session], old(trace))
      ensures Ended(session, r)
    {
      hide Inv, Tracked, Heard, Get, Driving, Ended, Effect, Stale;
      var queued := TakeQueued(session);
      r := HandleEvent(session, queued.value, true);
    }

    /** Takes the next request and serves it beside the turn. */
    method ServeRequest(session: SessionId) returns (r: Progress)
      requires Inv() && Heard() && Driving(session) && requests != []
      modifies `trace, `sessions, `requests, `closed, `received
      ensures Inv() && Heard() && old(trace) <= trace && OnlyThis(session)
      ensures |requests| < |old(requests)| && (old(closed) ==> closed)
      ensures received == old(received) + [old(requests)[0]]
      ensures Served(session, old(requests)[0], r, old(sessions)[session], sessions[session])
      ensures Ended(session, r)
    {
      hide Inv, HeardOf, Served;
      var request := NextRequest();
      ghost var rest, over := requests, closed;
      r := RequestDuringTurn(session, request);
      HeardCut(asked, received, rest, over, requests, closed);
    }

    /** Takes the next request. */
    method NextRequest() returns (request: Request)
      requires Inv() && Heard() && requests != []
      modifies `trace, `requests, `received
      ensures Inv() && Heard() && request == old(requests)[0] && requests == old(requests)[1..]
      ensures trace == old(trace) + [Received(request)] && received == old(received) + [request]
    {
      hide Inv;
      request := requests[0];
      assert received + requests == (received + [request]) + requests[1..];
      requests := requests[1..];
      Receive(request);
    }

    lemma FailedEnds(session: SessionId)
      requires !Active(session)
      ensures Ended(session, Done(Failed))
    {
    }

    lemma StoppedEnds(session: SessionId)
      requires requests == []
      ensures Ended(session, Done(Stopped))
    {
    }

    /** Runs the session's turn until it ends, pauses or fails. */
    method DriveTurn(session: SessionId) returns (outcome: Outcome)
      requires Inv() && Routing() && Driving(session)
      modifies `trace, `sessions, `nextTool, `nextApproval, `processed, `provided, `requests, `closed
      modifies `received, `journal, router
      ensures Inv() && Routing() && old(trace) <= trace && old(journal) <= journal
      ensures |provided| + |requests| <= |old(provided)| + |old(requests)| && (old(closed) ==> closed)
      ensures OthersKept(old(sessions), sessions, session, journal, |old(journal)|)
      ensures DrivenBy(session, journal, |old(journal)|)
      ensures Ended(session, Done(outcome))
    {
      hide Inv, Routing, Active, OthersKept, Stepped;
      var r := Continue;
      NothingChanged(session);
      while r == Continue
        invariant Inv() && Routing() && old(trace) <= trace && old(journal) <= journal
        invariant |provided| + |requests| <= |old(provided)| + |old(requests)| && (old(closed) ==> closed)
        invariant OthersKept(old(sessions), sessions, session, journal, |old(journal)|)
        invariant DrivenBy(session, journal, |old(journal)|)
        invariant Ended(session, r)
        decreases r == Continue, |provided| + |requests|, |Get(router.queues, session)|
      {
        ghost var before, so := sessions, journal;
        r := DriveStep(session);
        OthersChain(old(sessions), before, sessions, session, so, journal, |old(journal)|, |so|);
      }
      outcome := r.outcome;
    }

    lemma NothingChanged(session: SessionId)
      ensures OthersKept(sessions, sessions, session, journal, |journal|)
    {
    }

    /** Decides what to do with a fresh provider event: handle it in this turn, queue it for the one
        session that holds its context, or drop it. */
    method TakeOrRoute(session: SessionId, event: Port.AgentEvent) returns (mine: bool)
      requires Inv() && Tracked() && Driving(session) && Get(router.queues, session) == []
      modifies `trace, `sessions, router
      ensures Inv() && router.Valid() && Driving(session) && old(trace) <= trace
      ensures router.handled == if mine && event != Port.ProviderFailed(None, None)
                                then old(router.handled)[session := Get(old(router.handled), session) + [event]]
                                else old(router.handled)
      ensures var step := Taken(Some(event), session);
              && router.State() == Effected(old(router.State()), journal, step)
              && router.owned == OwnedAfter(old(router.owned), journal, step)
              && router.overflowed == OverflowedAfter(old(router.overflowed), journal, step)
              && (forall s :: s in old(sessions) && s != session ==>
                    s in sessions && sessions[s] ==
                    if Overflows(journal, step, s) then old(sessions)[s].(active := None) else old(sessions)[s])
      ensures mine <==> OwnerAt(journal, event) in {Global, OwnedBy(session)}
      ensures mine ==> trace == old(trace) && sessions == old(sessions)
      ensures session in sessions && sessions[session] == old(sessions)[session] && sessions.Keys == old(sessions.Keys)
    {
      hide SessionsOk, TraceOk, EventRouter.Valid, SameElsewhere, OwnerAt, Get, Accounted, Full, Replay;
      var owner := EventOwner(event);
      OwnerHolds(journal, event);
      match owner {
        case Unowned => return false;
        case Global => return true;
        case OwnedBy(other) =>
          if other != session {
            RouteEvent(other, event);
            return false;
          }
          router.TakeDirectly(session, event);
          return true;
      }
    }

    // ---- approvals ----

    /** The store consumes the pending approval, once; the decision goes to the provider. */
    method ConsumeAndSend(session: SessionId, allow: bool)
      requires Inv() && Active(session) && sessions[session].active.value.pending.Some?
      requires sessions[session].active.value.pending.value.approval !in consumed
      requires trace != [] && trace[|trace| - 1] == Received(SendPrompt(session, if allow then Approve else Deny))
      modifies `trace, `consumed
      ensures Inv() && old(trace) <= trace
      ensures var active := sessions[session].active.value;
              && consumed == old(consumed) + {active.pending.value.approval}
              && trace == old(trace) + Decision(session, active, allow)
    {
      hide Inv, TurnOk, Step;
      var active := sessions[session].active.value;
      var pending := active.pending.value;
      Requery(session);
      Consume(pending.approval);
      if allow {
        ApprovedAllow(trace, session, active, sessions[session].configuration);
      }
      DecisionStep(trace, ApprovalConsumed(session, pending.approval, pending.tool, allow));
      Extend(ApprovalConsumed(session, pending.approval, pending.tool, allow));
      if allow {
        Extend(Allowed(session, active.turn, pending.request.id, pending.request.item, pending.request.kind,
                       pending.tool, Approved(pending.approval)));
      } else {
        var _ := SendDeny(pending.request.id);
      }
    }

    method Consume(approval: ApprovalId)
      requires Inv() && approval !in consumed
      modifies `consumed
      ensures Inv() && consumed == old(consumed) + {approval} && !Spent(trace, approval)
    {
      hide SessionsOk, Bindings, Acceptable, Spent;
      consumed := consumed + {approval};
    }

    lemma DecisionStep(before: Trace, entry: Entry)
      requires entry.ApprovalConsumed? && Decided(before, entry)
      ensures Step(before, entry)
    {
    }

    method ResumeApproval(session: SessionId, allow: bool) returns (outcome: Outcome)
      requires Inv() && Routing() && Active(session) && sessions[session].active.value.pending.Some?
      requires trace != [] && trace[|trace| - 1] == Received(SendPrompt(session, if allow then Approve else Deny))
      modifies `trace, `sessions, `nextTool, `nextApproval, `consumed, `processed, `provided, `requests, `closed
      modifies `received, `journal, router
      ensures Inv() && Routing() && old(trace) <= trace && old(journal) <= journal && (old(closed) ==> closed)
      ensures |provided| + |requests| <= |old(provided)| + |old(requests)|
      ensures OthersKept(old(sessions), sessions, session, journal, |old(journal)|)
      ensures DrivenBy(session, journal, |old(journal)|)
      ensures old(sessions)[session].active.value.pending.value.approval in old(consumed) ==>
                outcome == Failed && trace == old(trace) && sessions == old(sessions)
      ensures var active := old(sessions)[session].active.value;
              if consumed == old(consumed) then trace == old(trace) && sessions == old(sessions)
              else && consumed == old(consumed) + {active.pending.value.approval}
                   && old(trace) + Decision(session, active, allow) <= trace
    {
      hide Inv, Routing, OthersKept, Decision;
      NothingChanged(session);
      var claimed: bool := *;
      if !claimed || sessions[session].active.value.pending.value.approval in consumed { return Failed; }
      ConsumeAndSend(session, allow);
      var resumed := Resume(session);
      if !resumed { return Failed; }
      OthersAlone(old(sessions), session, old(journal), journal);
      ghost var running := sessions;
      outcome := DriveTurn(session);
      OthersChain(old(sessions), running, sessions, session, old(journal), journal, |old(journal)|, |old(journal)|);
    }

    /** The provider took the decision and it is logged, so the turn runs on; or the turn stays paused. */
    method Resume(session: SessionId) returns (ok: bool)
      requires Inv() && Active(session)
      modifies `trace, `sessions
      ensures Inv() && old(trace) <= trace && OnlyThis(session)
      ensures if ok then Driving(session) else sessions == old(sessions)
    {
      hide Inv;
      var resolved: bool := *;
      if !resolved { return false; }
      ok := AppendActive(session, UserInput);
      if ok { Unpause(session); }
    }

    method Unpause(session: SessionId)
      requires Inv() && Active(session)
      modifies `sessions
      ensures Inv() && Driving(session) && OnlyThis(session)
    {
      Requery(session);
      var state := sessions[session];
      var running := state.(active := Some(state.active.value.(pending := None)));
      assert SessionOk(catalog, trace, session, running);
      hide Inv;
      Update(session, running);
    }

    // ---- prompts and requests ----

    /** A new turn id: larger than any in use. */
    method NewTurn() returns (turn: TurnId)
      requires Inv()
      modifies `nextTurn
      ensures Inv() && turn < nextTurn && !Closed(trace, turn) && !Started(trace, turn)
      ensures forall s :: s in sessions && sessions[s].active.Some? ==> sessions[s].active.value.turn != turn
    {
      turn := nextTurn;
      nextTurn := nextTurn + 1;
    }

    /** Starts the provider epoch with the session's configuration and makes the turn active. */
    method Activate(session: SessionId, turn: TurnId, epoch: Port.EpochId)
      requires Inv() && session in sessions && sessions[session].active.None? && sessions[session].provider.Some?
      requires turn < nextTurn && !Closed(trace, turn) && !Started(trace, turn)
      requires forall s :: s in sessions && sessions[s].active.Some? ==> sessions[s].active.value.turn != turn
      modifies `trace, `sessions
      ensures Inv() && Driving(session) && OnlyThis(session)
      ensures trace == old(trace) + [EpochStarted(session, turn, old(sessions)[session].configuration)]
    {
      hide SessionsOk, TraceOk, SessionOk, Bindings, Step, Closed, Started, HasAccess;
      var state := sessions[session];
      var entry := EpochStarted(session, turn, state.configuration);
      Requery(session);
      EpochStep(catalog, trace, session, turn, state);
      Extend(entry);
      var running := state.(active := Some(ActiveTurn(turn, epoch, None, map[])));
      Requery(session);
      RunningOk(catalog, old(trace), session, state, running.active.value);
      SessionReplaced(catalog, trace, sessions, nextTurn, session, running);
      BindingsSame(sessions, journal, session, running);
      sessions := sessions[session := running];
    }

    lemma EpochStep(catalog: Catalog, before: Trace, session: SessionId, turn: TurnId, state: SessionState)
      requires SessionOk(catalog, before, session, state) && !Started(before, turn)
      ensures Step(before, EpochStarted(session, turn, state.configuration))
    {
      hide Grounded, TurnOk;
    }

    lemma RunningOk(catalog: Catalog, before: Trace, session: SessionId, state: SessionState, active: ActiveTurn)
      requires state.active.None? && state.provider.Some? && active.items == map[] && active.pending.None?
      requires !Closed(before, active.turn)
      requires var after := before + [EpochStarted(session, active.turn, state.configuration)];
               SessionOk(catalog, after, session, state)
      ensures var after := before + [EpochStarted(session, active.turn, state.configuration)];
              SessionOk(catalog, after, session, state.(active := Some(active)))
    {
      hide AccessOk;
      Appended(before, EpochStarted(session, active.turn, state.configuration));
    }

    /** An ordinary prompt: log it, start the epoch, drive the turn. */
    method StartTurn(session: SessionId) returns (outcome: Outcome, ghost turn: TurnId)
      requires Inv() && Routing() && session in sessions && sessions[session].active.None?
      modifies `trace, `sessions, `nextTurn, `nextTool, `nextApproval, `processed, `provided, `requests, `closed
      modifies `received, `journal, router
      ensures Inv() && Routing() && old(trace) <= trace && old(journal) <= journal && (old(closed) ==> closed)
      ensures |provided| + |requests| <= |old(provided)| + |old(requests)|
      ensures OthersKept(old(sessions), sessions, session, journal, |old(journal)|)
      ensures DrivenBy(session, journal, |old(journal)|)
      ensures session in sessions
      ensures || (outcome == Failed && sessions == old(sessions) && journal == old(journal))
              || Begun(session, turn, old(sessions)[session].configuration, old(trace), trace)
    {
      hide Inv, Routing, Closed, Started, OthersKept;
      NothingChanged(session);
      var id := NewTurn();
      turn := id;
      outcome := Failed;
      var logged := LogPrompt(session, id);
      if !logged || sessions[session].provider.None? { return; }
      var epoch: Port.EpochId := *;
      var started: bool := *;
      if !started { return; }
      Activate(session, id, epoch);
      OthersAlone(old(sessions), session, old(journal), journal);
      ghost var running := sessions;
      outcome := DriveTurn(session);
      OthersChain(old(sessions), running, sessions, session, old(journal), journal, |old(journal)|, |old(journal)|);
      assert session in sessions by { OthersIn(old(sessions), sessions, session, journal, |old(journal)|); }
    }

    lemma OthersIn(before: Sessions, after: Sessions, session: SessionId, j: Journal, from: nat)
      requires OthersKept(before, after, session, j, from)
      ensures after.Keys == before.Keys
    {
    }

    /** The prompt was logged and the epoch started with this configuration, under a turn id new to the
        history. */
    ghost predicate Begun(session: SessionId, turn: TurnId, configuration: SessionConfiguration, before: Trace,
                          after: Trace)
    {
      && !Started(before, turn) && !Closed(before, turn)
      && before + [Logged(session, Some(turn), UserInput)] + [EpochStarted(session, turn, configuration)] <= after
    }

    method LogPrompt(session: SessionId, turn: TurnId) returns (ok: bool)
      requires Inv() && turn < nextTurn && !Closed(trace, turn) && !Started(trace, turn)
      modifies `trace
      ensures Inv() && old(trace) <= trace && !Closed(trace, turn) && !Started(trace, turn)
      ensures ok ==> trace == old(trace) + [Logged(session, Some(turn), UserInput)]
    {
      Appended(trace, Logged(session, Some(turn), UserInput));
      hide Inv;
      ok := Append(session, Some(turn), UserInput);
    }

    /** What a command to an idle session did to it. */
    ghost predicate Idled(prompt: Prompt, before: SessionState, after: SessionState) {
      match prompt
      case ConfirmBypass => after == before || (before.pendingBypass && after == Bypassed(before))
      case RequestBypass => after == before || after == before.(pendingBypass := true)
      case SetPermissions(profile) =>
        || after == before
        || (Configured(catalog, before, SelectMode(ModeOf(profile), false)) == Some(after)
            && (profile == Unrestricted ==> before.frontend == Acp || before.buzz.Some?))
      case _ => after == before
    }

    /** What a prompt did to an idle session: ordinary text starts a turn, a command has its effect. */
    ghost predicate Prompted(session: SessionId, prompt: Prompt, before: SessionState, log: Trace)
      reads `sessions, `trace
    {
      && session in sessions
      && (prompt == Text ==>
            sessions[session] == before || exists turn :: Begun(session, turn, before.configuration, log, trace))
      && (prompt != Text ==> Idled(prompt, before, sessions[session]))
    }

    /** What a prompt did to a paused session: nothing, or exactly the decision of the client was sent for
        the pending approval, which is used up by it. A refused effect is not allowed later either. */
    twostate predicate Resumed(session: SessionId, prompt: Prompt, active: ActiveTurn)
      requires active.pending.Some?
      reads `sessions, `trace, `consumed
    {
      && (if consumed == old(consumed) then trace == old(trace) && sessions == old(sessions)
          else && (prompt == Approve || prompt == Deny)
               && consumed == old(consumed) + {active.pending.value.approval}
               && old(trace) + Decision(session, active, prompt == Approve) <= trace)
      && (prompt != Approve ==>
            forall k :: |old(trace)| <= k < |trace| && trace[k].Allowed? ==>
              trace[k].grounds != Approved(active.pending.value.approval))
    }

    /** A prompt: a decision for a paused turn, a new turn, or a command to an idle session. Everything else
        is refused and changes nothing; an overflow is reported first. */
    method BeginPrompt(session: SessionId, prompt: Prompt) returns (outcome: Outcome)
      requires Inv() && Routing()
      requires trace != [] && trace[|trace| - 1] == Received(SendPrompt(session, prompt))
      modifies this, router
      ensures Inv() && Routing() && old(trace) <= trace && old(journal) <= journal && (old(closed) ==> closed)
      ensures |provided| + |requests| <= |old(provided)| + |old(requests)|
      ensures OthersKept(old(sessions), sessions, session, journal, |old(journal)|)
      ensures DrivenBy(session, journal, |old(journal)|)
      ensures || session !in old(sessions) || session in old(router.failures)
              || old(Active(session) && !Paused(session))
              || (old(Active(session)) && prompt != Approve && prompt != Deny) ==>
                outcome == Failed && trace == old(trace) && sessions == old(sessions)
      ensures old(Paused(session)) ==> Resumed(session, prompt, old(sessions)[session].active.value)
      ensures !old(Paused(session)) ==> consumed == old(consumed)
      ensures session in old(sessions) && !old(Active(session)) ==>
                Prompted(session, prompt, old(sessions)[session], old(trace))
    {
      hide Inv, Routing, OthersKept, Begun, Idled;
      NothingChanged(session);
      if session in sessions { NotPrompted(session, prompt); }
      var actorOk: bool := *;
      if session !in sessions || !actorOk { return Failed; }
      var overflowed := ReportOverflow(session);
      NothingChanged(session);
      if overflowed {
        OthersAlone(old(sessions), session, old(journal), journal);
        return Failed;
      }
      if sessions[session].active.Some? {
        if sessions[session].active.value.pending.Some? && (prompt == Approve || prompt == Deny) {
          ghost var active := sessions[session].active.value;
          outcome := ResumeApproval(session, prompt == Approve);
          if prompt == Deny {
            NotAllowedLater(session, active, old(trace), old(consumed));
          }
        } else {
          outcome := Failed;
        }
        return;
      }
      if prompt == Text {
        var secret: bool := *;
        if secret { return Failed; }
        ghost var turn;
        outcome, turn := StartTurn(session);
        assert sessions[session] == old(sessions)[session] ||
               Begun(session, turn, old(sessions)[session].configuration, old(trace), trace);
      } else {
        outcome := IdleCommand(session, prompt);
        OthersAlone(old(sessions), session, old(journal), journal);
      }
    }

    lemma NotPrompted(session: SessionId, prompt: Prompt)
      requires session in sessions
      ensures Prompted(session, prompt, sessions[session], trace)
    {
    }

    lemma NotAllowedLater(session: SessionId, active: ActiveTurn, before: Trace, spent: set<ApprovalId>)
      requires Inv() && before <= trace && active.pending.Some?
      requires consumed == spent ==> trace == before
      requires consumed != spent ==> before + Decision(session, active, false) <= trace
      ensures forall k :: |before| <= k < |trace| && trace[k].Allowed? ==>
                trace[k].grounds != Approved(active.pending.value.approval)
    {
      if consumed != spent {
        var n := |before|;
        assert trace[n] == (before + Decision(session, active, false))[n];
        forall k | n <= k < |trace| && trace[k].Allowed?
          ensures trace[k].grounds != Approved(active.pending.value.approval)
        {
          RefusedNeverAllowed(trace, n, k);
        }
      }
    }

    /** A slash command to an idle session. */
    method IdleCommand(session: SessionId, prompt: Prompt) returns (outcome: Outcome)
      requires Inv() && session in sessions && !Active(session) && prompt != Text
      requires trace != [] && trace[|trace| - 1] == Received(SendPrompt(session, prompt))
      modifies `sessions, `trace
      ensures Inv() && old(trace) <= trace && OnlyThis(session)
      ensures Idled(prompt, old(sessions)[session], sessions[session])
    {
      hide Inv, Configured, Bypassed;
      match prompt {
        case ConfirmBypass =>
          var ok := ConfirmBypass(session);
          outcome := if ok then EndTurn else Failed;
        case RequestBypass => outcome := BypassCommand(session);
        case SetPermissions(profile) => outcome := PermissionsCommand(session, profile);
        case TaskQuery => outcome := *;
        case _ => outcome := Failed;
      }
    }

    method BypassCommand(session: SessionId) returns (outcome: Outcome)
      requires Inv() && session in sessions && Received(SendPrompt(session, RequestBypass)) in trace
      modifies `sessions, `trace
      ensures Inv() && old(trace) <= trace && OnlyThis(session)
      ensures Idled(RequestBypass, old(sessions)[session], sessions[session])
    {
      hide Inv;
      var r := SetConfig(session, SelectMode(BypassPermissions, true));
      outcome := if r.Some? then EndTurn else Failed;
    }

    method PermissionsCommand(session: SessionId, profile: PermissionProfile) returns (outcome: Outcome)
      requires Inv() && session in sessions && Received(SendPrompt(session, SetPermissions(profile))) in trace
      modifies `sessions, `trace
      ensures Inv() && old(trace) <= trace && OnlyThis(session)
      ensures Idled(SetPermissions(profile), old(sessions)[session], sessions[session])
    {
      hide Inv, Configured, Commanded;
      var state := sessions[session];
      if profile == Unrestricted && state.frontend != Acp && state.buzz.None? { return Failed; }
      TrustedCommand(session, profile);
      var r := SetConfig(session, SelectMode(ModeOf(profile), false));
      outcome := if r.Some? then EndTurn else Failed;
    }

    lemma TrustedCommand(session: SessionId, profile: PermissionProfile)
      requires Inv() && session in sessions && Received(SendPrompt(session, SetPermissions(profile))) in trace
      requires profile != Unrestricted || sessions[session].frontend == Acp || sessions[session].buzz.Some?
      ensures Commanded(trace, session, SelectMode(ModeOf(profile), false))
    {
      Requery(session);
    }

    /** An idle session as requested, with the first model and its first effort where none is named. A
        channel session without its channel has no provider context yet. */
    ghost predicate NewlyMade(request: Request, state: SessionState)
      requires request.NewSession?
    {
      && state.frontend == request.frontend && state.buzz == request.buzz && state.active.None?
      && state.pendingConfiguration.None? && !state.pendingBypass
      && (state.provider.None? <==> request.frontend == Buzz && request.buzz.None?)
      && Requested(request, state.configuration)
    }

    ghost predicate Requested(request: Request, configuration: SessionConfiguration)
      requires request.NewSession?
    {
      && configuration.mode == request.mode && configuration.Supported(catalog) && catalog != []
      && configuration.model == (if request.model.Some? then request.model.value else catalog[0].id)
      && var efforts := Find(catalog, configuration.model).value.efforts;
         && efforts != []
         && configuration.effort == if request.effort.Some? then request.effort.value else efforts[0]
    }

    /** The configuration of a new session; `None` exactly when the catalog has none as requested. */
    method FirstConfiguration(request: Request) returns (r: Option<SessionConfiguration>)
      requires request.NewSession?
      ensures r.Some? ==> r.value.mode == request.mode && r.value.Supported(catalog) && Requested(request, r.value)
      ensures r.None? ==> forall c :: !Requested(request, c)
    {
      if catalog == [] { return None; }
      var model := if request.model.Some? then request.model.value else catalog[0].id;
      var descriptor := Find(catalog, model);
      if descriptor.None? || descriptor.value.efforts == [] { return None; }
      var effort := if request.effort.Some? then request.effort.value else descriptor.value.efforts[0];
      var change := SessionConfiguration.Create(catalog, model, effort, request.mode);
      r := if change.Applied? then Some(change.configuration) else None;
    }

    /** A new session id: larger than any in use. */
    method NewSessionId() returns (id: SessionId)
      requires Inv()
      modifies `nextSession
      ensures Inv() && id !in sessions && id < nextSession
    {
      id := nextSession;
      nextSession := nextSession + 1;
    }

    method NewSession(request: Request) returns (created: Option<SessionId>)
      requires Inv() && Routing() && request.NewSession? && trace != [] && trace[|trace| - 1] == Received(request)
      modifies `sessions, `trace, `nextSession, `journal
      ensures Inv() && Routing() && old(trace) <= trace
      ensures old(journal) <= journal && TakenIn(journal) == TakenIn(old(journal))
      ensures created.None? ==> sessions == old(sessions)
      ensures created.Some? ==>
                && created.value !in old(sessions) && created.value in sessions
                && sessions == old(sessions)[created.value := sessions[created.value]]
                && NewlyMade(request, sessions[created.value])
    {
      hide Inv, Tracked, TakenIn, SessionOk, Heard, Requested, SessionConfiguration.Supported;
      var configuration := FirstConfiguration(request);
      var stored: bool := *;
      if configuration.None? || (request.buzz.Some? && request.frontend != Buzz) || !stored { return None; }
      var id := NewSessionId();
      var bound := Append(id, None, FrontendSessionBound);
      if !bound { return None; }
      var state := SessionState(request.frontend, request.buzz, None, configuration.value, None, false, None);
      if request.frontend == Buzz && request.buzz.None? {
        CreatedOk(old(trace), id, request, state);
        Update(id, state);
        return Some(id);
      }
      var context: Port.ContextId := *;
      var started: bool := *;
      if !started { return None; }
      CreatedOk(old(trace), id, request, state.(provider := Some(context)));
      Bind(id, state.(provider := Some(context)));
      return Some(id);
    }

    /** A session made for the request just received is in order. */
    lemma CreatedOk(before: Trace, id: SessionId, request: Request, state: SessionState)
      requires request.NewSession? && before != [] && before[|before| - 1] == Received(request)
      requires state.frontend == request.frontend && state.buzz == request.buzz && !state.pendingBypass
      requires state.configuration.mode == request.mode && state.pendingConfiguration.None? && state.active.None?
      requires state.configuration.Supported(catalog)
      requires state.frontend == Buzz && state.provider.Some? ==> state.buzz.Some?
      ensures SessionOk(catalog, before + [Logged(id, None, FrontendSessionBound)], id, state)
    {
      var trace := before + [Logged(id, None, FrontendSessionBound)];
      assert trace[|before|] == Logged(id, None, FrontendSessionBound) && trace[|before| - 1] == Received(request);
      assert Created(trace, id, request);
    }

    /** What a request may have done to the sessions; a prompt only to its own, unless by an overflow. */
    twostate predicate Handled(request: Request)
      reads `sessions, `journal
    {
      match request
      case NewSession(_, _, _, _, _) =>
        || sessions == old(sessions)
        || exists id :: id !in old(sessions) && id in sessions && NewlyMade(request, sessions[id])
                        && sessions == old(sessions)[id := sessions[id]]
      case SendPrompt(session, _) => OthersKept(old(sessions), sessions, session, journal, |old(journal)|)
      case SetConfig(session, selection) =>
        || sessions == old(sessions)
        || (session in old(sessions) && session in sessions && Reconfigured(session)
            && Configured(catalog, old(sessions)[session], selection) == Some(sessions[session]))
      case AttachBuzzContext(session, context) =>
        || sessions == old(sessions)
        || (session in old(sessions) && session in sessions && Reconfigured(session)
            && exists started :: Attached(old(sessions)[session], context, started) == Some(sessions[session]))
      case Cancel(session) =>
        || sessions == old(sessions)
        || (session in old(sessions)
            && sessions == old(sessions)[session := old(sessions)[session].(active := None)])
      case _ => sessions == old(sessions)
    }

    method HandleRequest(request: Request) returns (stop: bool)
      requires Inv() && Routing() && trace != [] && trace[|trace| - 1] == Received(request)
      modifies this, router
      ensures Inv() && Routing() && old(trace) <= trace && old(journal) <= journal
      ensures |provided| + |requests| <= |old(provided)| + |old(requests)| && (old(closed) ==> closed)
      ensures TakenIn(journal) != TakenIn(old(journal)) ==>
                request.SendPrompt? && DrivenBy(request.session, journal, |old(journal)|)
      ensures Handled(request) && (stop <==> request.Shutdown?)
    {
      hide Inv, Routing, OthersKept, TakenIn, Configured, Attached, NewlyMade, Prompted, Resumed;
      stop := false;
      match request {
        case NewSession(_, _, _, _, _) => var _ := NewSession(request);
        case SendPrompt(session, prompt) => var _ := BeginPrompt(session, prompt);
        case SetConfig(session, selection) => var _ := SetConfig(session, selection);
        case AttachBuzzContext(session, context) => var _, _ := AttachBuzz(session, context);
        case Cancel(session) => var _ := CancelSession(session);
        case Steer(session) => var _ := SteerSession(session);
        case ReadOnlyTaskRequest =>
        case Shutdown => stop := true;
      }
    }

    /** The whole run: whatever the provider delivers, whatever the clients ask, whichever system call
        fails, the history stays acceptable and every session stays consistent with it. Requests are
        received in order, and only a shutdown loses some, at the end. No session has unrestricted access,
        now or queued, that nobody entitled gave it. Every element the provider gives is taken once, in
        order. The contexts the sessions hold are those of the journal, so the owner of an event is the one
        session that held its context when it was taken; and for each session that never overflowed, what
        its turns handled followed by what is queued is exactly the events it owned, once each and in
        provider order. */
    method Run()
      requires Inv() && Routing()
      modifies this, router
      ensures Inv() && Routing() && old(trace) <= trace && old(journal) <= journal
      ensures Acceptable(trace) && Inputs(trace) + requests <= asked
      ensures forall s :: s in sessions ==> HasAccess(trace, s, sessions[s])
      ensures Bindings(sessions, journal) && TakenIn(journal) + provided == given
      ensures router.State() == Replay(journal)
      ensures forall s :: !Overflowed(journal, s) ==>
                Get(processed, s) + Get(router.queues, s) == Projection(journal, s)
    {
      hide Inv, Tracked, Heard;
      var stop := false;
      while !stop && requests != []
        invariant Inv() && Routing() && old(trace) <= trace && old(journal) <= journal
        decreases |provided| + |requests|
      {
        var request := NextRequest();
        stop := HandleRequest(request);
      }
      RoutingMeans();
      InvMeans();
    }

    /** Every session that never overflowed processes exactly the events it owns. */
    lemma RoutingMeans()
      requires Inv() && Routing()
      ensures Bindings(sessions, journal) && TakenIn(journal) + provided == given
      ensures router.State() == Replay(journal)
      ensures forall s :: !Overflowed(journal, s) ==>
                Get(processed, s) + Get(router.queues, s) == Projection(journal, s)
    {
      hide SessionsOk, TraceOk, Replay, Accounted, Overflowed, Projection, ProviderIn;
      HandledIsDelivered(journal, given, provided, router.owned, router.handled, router.overflowed);
    }

    lemma InvMeans()
      requires Inv() && Routing()
      ensures Acceptable(trace) && Inputs(trace) + requests <= asked
      ensures forall s :: s in sessions ==> HasAccess(trace, s, sessions[s])
    {
      hide Bindings, Tracked, Acceptable, AccessOk, TurnOk;
    }
  }
}
