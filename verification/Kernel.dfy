/** Events the provider port delivers. */
module AgentPort {
  import opened Prelude
  import opened KernelTrace

  type ContextId = string
  type EpochId = string

  /** `kind` is `None` for items that are not tool calls; `terminal` says the status ends the item. */
  datatype AgentItem = AgentItem(id: string, kind: Option<EffectKind>, terminal: bool)
  datatype EffectRequest = EffectRequest(context: ContextId, epoch: EpochId, id: string, item: string, kind: EffectKind)

  datatype AgentEvent =
    | ContextStarted(context: ContextId)
    | EpochStarted(context: ContextId, epoch: EpochId)
    | ItemStarted(context: ContextId, epoch: EpochId, item: AgentItem)
    | AssistantDelta(context: ContextId, epoch: EpochId)
    | DiffUpdated(context: ContextId, epoch: EpochId)
    | UsageUpdated(context: ContextId, epoch: EpochId)
    | EffectRequested(request: EffectRequest)
    | ItemCompleted(context: ContextId, epoch: EpochId, item: AgentItem)
    | CompactionStarted(context: ContextId)
    | CompactionCompleted(context: ContextId)
    | EpochCompleted(context: ContextId, epoch: EpochId)
    | ProviderFailed(failedContext: Option<ContextId>, failedEpoch: Option<EpochId>)
}

/** The per-session state of the kernel and the invariant that ties it to the history. */
module KernelState {
  import opened Prelude
  import opened Configuration
  import opened KernelRequests
  import opened KernelTrace
  import Port = AgentPort

  datatype PendingApproval = PendingApproval(request: Port.EffectRequest, approval: ApprovalId, tool: ToolCallId)
  datatype ActiveTurn = ActiveTurn(
    turn: TurnId,
    epoch: Port.EpochId,
    pending: Option<PendingApproval>,
    items: map<string, (ToolCallId, EffectKind)>)
  datatype SessionState = SessionState(
    frontend: Frontend,
    buzz: Option<BuzzContext>,
    provider: Option<Port.ContextId>,
    configuration: SessionConfiguration,
    pendingConfiguration: Option<SessionConfiguration>,
    pendingBypass: bool,
    active: Option<ActiveTurn>)
  {
    /** The configuration last selected: the queued one, where there is one. */
    function Latest(): SessionConfiguration {
      if pendingConfiguration.Some? then pendingConfiguration.value else configuration
    }
  }

  type Sessions = map<SessionId, SessionState>

  ghost predicate PendingOk(trace: Trace, session: SessionId, active: ActiveTurn) {
    active.pending.Some? ==>
      var pending := active.pending.value;
      && (pending.request.kind == Command || pending.request.kind == FileChange)
      && pending.request.item in active.items
      && active.items[pending.request.item] == (pending.tool, pending.request.kind)
      && Logged(session, Some(active.turn), ToolProposed(pending.tool)) in trace
      && Logged(session, Some(active.turn), ApprovalRequested(pending.approval, pending.tool)) in trace
  }

  /** An active turn is open, was started with the session's present configuration, and its item
      table lists only items that are open in the history. */
  ghost predicate TurnOk(trace: Trace, session: SessionId, active: ActiveTurn, configuration: SessionConfiguration) {
    && !Closed(trace, active.turn)
    && EpochStarted(session, active.turn, configuration) in trace
    && (forall item :: item in active.items ==> ItemOpen(trace, session, active.turn, item, active.items[item].1))
    && PendingOk(trace, session, active)
  }

  /** Whoever gave the session unrestricted access, now or for later, is in the history; so is who asked
      for a bypass, who made the session and who brought its channel. */
  ghost predicate AccessOk(trace: Trace, session: SessionId, configuration: SessionConfiguration,
                           queued: Option<SessionConfiguration>, bypass: bool, frontend: Frontend,
                           buzz: Option<BuzzContext>)
  {
    && (Profile(configuration.mode) == Unrestricted ==> Grounded(trace, session, configuration.mode))
    && (queued.Some? && Profile(queued.value.mode) == Unrestricted ==> Grounded(trace, session, queued.value.mode))
    && (bypass ==> BypassAsked(trace, session))
    && (frontend == Acp ==> Trusted(trace, session))
    && (buzz.Some? ==> HasChannel(trace, session))
  }

  ghost predicate HasAccess(trace: Trace, session: SessionId, state: SessionState) {
    AccessOk(trace, session, state.configuration, state.pendingConfiguration, state.pendingBypass, state.frontend,
             state.buzz)
  }

  lemma AccessKept(trace: Trace, later: Trace, session: SessionId, state: SessionState)
    requires HasAccess(trace, session, state) && trace <= later
    ensures HasAccess(later, session, state)
  {
    hide Grounded, HasChannel, Trusted;
    if Profile(state.configuration.mode) == Unrestricted {
      GroundedLater(trace, later, session, state.configuration.mode);
    }
    if state.pendingConfiguration.Some? && Profile(state.pendingConfiguration.value.mode) == Unrestricted {
      GroundedLater(trace, later, session, state.pendingConfiguration.value.mode);
    }
    if state.frontend == Acp {
      TrustedLater(trace, later, session);
    }
    if state.buzz.Some? {
      HasChannelLater(trace, later, session);
    }
  }

  ghost predicate SessionOk(catalog: Catalog, trace: Trace, session: SessionId, state: SessionState) {
    && state.configuration.Supported(catalog)
    && (state.pendingConfiguration.Some? ==> state.pendingConfiguration.value.Supported(catalog))
    && (state.frontend == Buzz && state.provider.Some? ==> state.buzz.Some?)
    && (state.active.Some? ==>
          state.provider.Some? && TurnOk(trace, session, state.active.value, state.configuration))
    && HasAccess(trace, session, state)
  }

  predicate SameTurn(a: SessionState, b: SessionState) {
    a.active.Some? && b.active.Some? && a.active.value.turn == b.active.value.turn
  }

  ghost predicate SessionsOk(catalog: Catalog, trace: Trace, sessions: Sessions, nextTurn: TurnId) {
    && (forall s :: s in sessions ==> SessionOk(catalog, trace, s, sessions[s]))
    && (forall s :: s in sessions && sessions[s].active.Some? ==> sessions[s].active.value.turn < nextTurn)
    && (forall s, t :: s in sessions && t in sessions && s != t ==> !SameTurn(sessions[s], sessions[t]))
  }

  ghost predicate TraceOk(trace: Trace, nextTurn: TurnId, consumed: set<ApprovalId>) {
    && Acceptable(trace)
    && (forall turn :: turn >= nextTurn ==> !Closed(trace, turn) && !Started(trace, turn))
    && (forall approval :: Spent(trace, approval) ==> approval in consumed)
  }

  // ---- appending one entry ----

  lemma Appended(trace: Trace, entry: Entry)
    ensures Acceptable(trace + [entry]) <==> Acceptable(trace) && Step(trace, entry)
    ensures forall turn :: Closed(trace + [entry], turn) <==> Closed(trace, turn) || Closes(entry, turn)
    ensures forall turn :: Started(trace + [entry], turn) <==>
              Started(trace, turn) || (entry.EpochStarted? && entry.turnId == turn)
    ensures forall approval :: Spent(trace + [entry], approval) <==>
              Spent(trace, approval) || (entry.ApprovalConsumed? && entry.approval == approval)
    ensures forall s, turn, item, kind :: ItemOpen(trace + [entry], s, turn, item, kind) ==
              if entry.ItemStarted? && entry.session == s && entry.turnId == turn && entry.item == item
              then entry.kind == kind
              else entry != ItemCompleted(s, turn, item) && ItemOpen(trace, s, turn, item, kind)
  {
    assert (trace + [entry])[..|trace|] == trace;
  }

  /** An entry that ends no turn and moves no item. */
  predicate Neutral(entry: Entry) {
    && !entry.ItemStarted? && !entry.ItemCompleted? && !entry.Received?
    && !(entry.Logged? && (entry.event.TurnCompleted? || entry.event.TurnInterrupted?))
  }

  predicate Touches(entry: Entry, session: SessionId, active: ActiveTurn) {
    || Closes(entry, active.turn)
    || (entry.ItemStarted? && entry.session == session && entry.turnId == active.turn)
    || (entry.ItemCompleted? && entry.session == session && entry.turnId == active.turn)
  }

  lemma TurnKept(trace: Trace, entry: Entry, session: SessionId, active: ActiveTurn,
                 configuration: SessionConfiguration)
    requires TurnOk(trace, session, active, configuration) && !Touches(entry, session, active)
    ensures TurnOk(trace + [entry], session, active, configuration)
  {
    Appended(trace, entry);
  }

  lemma SessionsKept(catalog: Catalog, trace: Trace, entry: Entry, sessions: Sessions, nextTurn: TurnId)
    requires SessionsOk(catalog, trace, sessions, nextTurn)
    requires forall s :: s in sessions && sessions[s].active.Some? ==> !Touches(entry, s, sessions[s].active.value)
    ensures SessionsOk(catalog, trace + [entry], sessions, nextTurn)
  {
    forall s | s in sessions ensures SessionOk(catalog, trace + [entry], s, sessions[s]) {
      if sessions[s].active.Some? {
        TurnKept(trace, entry, s, sessions[s].active.value, sessions[s].configuration);
      }
      AccessKept(trace, trace + [entry], s, sessions[s]);
    }
  }

  lemma TraceKept(trace: Trace, entry: Entry, nextTurn: TurnId, consumed: set<ApprovalId>)
    requires TraceOk(trace, nextTurn, consumed) && Step(trace, entry)
    requires entry.Logged? && entry.turn.Some? ==> entry.turn.value < nextTurn
    requires entry.EpochStarted? ==> entry.turnId < nextTurn
    requires entry.ApprovalConsumed? ==> entry.approval in consumed
    ensures TraceOk(trace + [entry], nextTurn, consumed)
  {
    Appended(trace, entry);
  }

  /** Replacing one session by an acceptable one. */
  lemma SessionReplaced(catalog: Catalog, trace: Trace, sessions: Sessions, nextTurn: TurnId, session: SessionId,
                        state: SessionState)
    requires SessionsOk(catalog, trace, sessions, nextTurn)
    requires SessionOk(catalog, trace, session, state)
    requires state.active.Some? ==>
               && state.active.value.turn < nextTurn
               && (forall s :: s in sessions && s != session ==> !SameTurn(sessions[s], state))
    ensures SessionsOk(catalog, trace, sessions[session := state], nextTurn)
  {
  }

  /** Ending the turn of one session, whatever entry ends it. */
  lemma TurnEnded(catalog: Catalog, trace: Trace, entry: Entry, sessions: Sessions, nextTurn: TurnId,
                  session: SessionId)
    requires SessionsOk(catalog, trace, sessions, nextTurn)
    requires session in sessions && sessions[session].active.Some?
    requires entry.Logged? && entry.turn == Some(sessions[session].active.value.turn)
    ensures SessionsOk(catalog, trace + [entry], sessions[session := sessions[session].(active := None)], nextTurn)
  {
    var ended := sessions[session := sessions[session].(active := None)];
    SessionReplaced(catalog, trace, sessions, nextTurn, session, sessions[session].(active := None));
    forall s | s in ended && ended[s].active.Some? ensures !Touches(entry, s, ended[s].active.value) {
      assert s in sessions && s != session && !SameTurn(sessions[s], sessions[session]);
    }
    SessionsKept(catalog, trace, entry, ended, nextTurn);
  }

  lemma ItemStartedOpen(trace: Trace, session: SessionId, active: ActiveTurn, configuration: SessionConfiguration,
                        item: string, kind: EffectKind, tool: ToolCallId)
    requires TurnOk(trace, session, active, configuration)
    ensures var items := active.items[item := (tool, kind)];
            forall i :: i in items ==>
              ItemOpen(trace + [ItemStarted(session, active.turn, item, kind)], session, active.turn, i, items[i].1)
  {
    Appended(trace, ItemStarted(session, active.turn, item, kind));
  }

  lemma ItemCompletedOpen(trace: Trace, session: SessionId, active: ActiveTurn, configuration: SessionConfiguration,
                          item: string)
    requires TurnOk(trace, session, active, configuration)
    ensures var items := active.items - {item};
            forall i :: i in items ==>
              ItemOpen(trace + [ItemCompleted(session, active.turn, item)], session, active.turn, i, items[i].1)
  {
    Appended(trace, ItemCompleted(session, active.turn, item));
  }

  lemma MovedOk(catalog: Catalog, trace: Trace, entry: Entry, session: SessionId, state: SessionState,
                items: map<string, (ToolCallId, EffectKind)>)
    requires SessionOk(catalog, trace, session, state) && state.active.Some? && state.active.value.pending.None?
    requires entry.ItemStarted? || entry.ItemCompleted?
    requires forall item :: item in items ==>
               ItemOpen(trace + [entry], session, state.active.value.turn, item, items[item].1)
    ensures SessionOk(catalog, trace + [entry], session, state.(active := Some(state.active.value.(items := items))))
  {
    hide AccessOk;
    AccessKept(trace, trace + [entry], session, state);
    Appended(trace, entry);
  }

  /** Starting or completing an item of the driven turn, with the table updated to match. */
  lemma ItemsMoved(catalog: Catalog, trace: Trace, entry: Entry, sessions: Sessions, nextTurn: TurnId,
                   session: SessionId, items: map<string, (ToolCallId, EffectKind)>)
    requires SessionsOk(catalog, trace, sessions, nextTurn)
    requires session in sessions && sessions[session].active.Some? && sessions[session].active.value.pending.None?
    requires entry.ItemStarted? || entry.ItemCompleted?
    requires entry.session == session && entry.turnId == sessions[session].active.value.turn
    requires forall item :: item in items ==>
               ItemOpen(trace + [entry], session, sessions[session].active.value.turn, item, items[item].1)
    ensures var state := sessions[session];
            var moved := state.(active := Some(state.active.value.(items := items)));
            SessionsOk(catalog, trace + [entry], sessions[session := moved], nextTurn)
  {
    hide AccessOk, TurnOk, ItemOpen;
    var state := sessions[session];
    var paused := sessions[session := state.(active := None)];
    SessionReplaced(catalog, trace, sessions, nextTurn, session, state.(active := None));
    var moved := state.(active := Some(state.active.value.(items := items)));
    MovedOk(catalog, trace, entry, session, state, items);
    forall s | s in paused && s != session
      ensures !SameTurn(paused[s], moved)
      ensures paused[s].active.Some? ==> !Touches(entry, s, paused[s].active.value)
    {
      assert s in sessions && !SameTurn(sessions[s], sessions[session]);
    }
    SessionsKept(catalog, trace, entry, paused, nextTurn);
    hide SessionOk;
    SessionReplaced(catalog, trace + [entry], paused, nextTurn, session, moved);
    assert paused[session := moved] == sessions[session := moved];
  }

  /** After the proposal and the authorization are logged, the automatic `Allow` is accounted for. */
  lemma AutomaticAllow(trace: Trace, session: SessionId, active: ActiveTurn, configuration: SessionConfiguration,
                       request: string, item: string, kind: EffectKind, tool: ToolCallId)
    requires TurnOk(trace, session, active, configuration) && Profile(configuration.mode) == Unrestricted
    requires item in active.items && active.items[item] == (tool, kind) && (kind == Command || kind == FileChange)
    ensures var proposed := Logged(session, Some(active.turn), ToolProposed(tool));
            var authorized := Logged(session, Some(active.turn), ToolDispatchAuthorized(tool));
            Step(trace + [proposed] + [authorized], Allowed(session, active.turn, request, item, kind, tool, Automatic))
  {
    var proposed := Logged(session, Some(active.turn), ToolProposed(tool));
    var authorized := Logged(session, Some(active.turn), ToolDispatchAuthorized(tool));
    TurnKept(trace, proposed, session, active, configuration);
    TurnKept(trace + [proposed], authorized, session, active, configuration);
    var before := trace + [proposed] + [authorized];
    assert before[..|before| - 1] == trace + [proposed];
    assert before[|before| - 1] == authorized;
  }

  /** Right after the store consumed the pending approval, the `Allow` it grounds is accounted for. */
  lemma ApprovedAllow(trace: Trace, session: SessionId, active: ActiveTurn, configuration: SessionConfiguration)
    requires TurnOk(trace, session, active, configuration) && active.pending.Some?
    ensures var pending := active.pending.value;
            Step(trace + [ApprovalConsumed(session, pending.approval, pending.tool, true)],
                 Allowed(session, active.turn, pending.request.id, pending.request.item, pending.request.kind,
                         pending.tool, Approved(pending.approval)))
  {
    var pending := active.pending.value;
    var consumed := ApprovalConsumed(session, pending.approval, pending.tool, true);
    TurnKept(trace, consumed, session, active, configuration);
    assert (trace + [consumed])[..|trace|] == trace;
  }

  // ---- what the invariant means ----

  /** While a turn stays active its configuration stays the one its epoch was started with. */
  lemma ConfigurationStable(catalog: Catalog, before: Trace, after: Trace, session: SessionId, first: SessionState,
                            later: SessionState)
    requires Acceptable(after) && before <= after
    requires SessionOk(catalog, before, session, first) && SessionOk(catalog, after, session, later)
    requires SameTurn(first, later)
    ensures later.configuration == first.configuration
  {
    var turn := first.active.value.turn;
    var started := EpochStarted(session, turn, first.configuration);
    var k :| 0 <= k < |before| && before[k] == started;
    assert after[k] == before[k];
    OneConfigurationPerTurn(after, started, EpochStarted(session, turn, later.configuration));
  }
}
