/**
 The observable history of the kernel: what clients asked, what it appended to the event log, what it
 told the provider to do, which approvals the store consumed, and which item events it accepted.
 */
module KernelTrace {
  import opened Prelude
  import opened Configuration
  import opened KernelRequests

  type TurnId = nat
  type ToolCallId = nat
  type ApprovalId = nat

  datatype EffectKind = Command | FileChange | Network | External
  datatype LogEvent =
    | UserInput | ProviderLifecycle | AssistantTextDelta | WorkspaceDiffUpdated
    | ToolProposed(tool: ToolCallId)
    | ToolDispatchAuthorized(tool: ToolCallId)
    | ApprovalRequested(approval: ApprovalId, tool: ToolCallId)
    | ToolCompleted(tool: ToolCallId)
    | DeliveryTransitioned | FrontendSessionBound | FrontendPermissionChanged
    | TurnCompleted | TurnInterrupted

  /** What an `Allow` rests on: the session's full access, or one consumed approval. */
  datatype Grounds = Automatic | Approved(approval: ApprovalId)

  datatype Entry =
    | Received(input: Request)
    | Logged(session: SessionId, turn: Option<TurnId>, event: LogEvent)
    | EpochStarted(session: SessionId, turnId: TurnId, configuration: SessionConfiguration)
    | ItemStarted(session: SessionId, turnId: TurnId, item: string, kind: EffectKind)
    | ItemCompleted(session: SessionId, turnId: TurnId, item: string)
    | ApprovalConsumed(session: SessionId, approval: ApprovalId, tool: ToolCallId, allow: bool)
    | Denied(request: string)
    | Allowed(session: SessionId, turnId: TurnId, request: string, item: string, kind: EffectKind,
              tool: ToolCallId, grounds: Grounds)

  type Trace = seq<Entry>

  predicate Closes(entry: Entry, turn: TurnId) {
    entry.Logged? && entry.turn == Some(turn) && (entry.event.TurnCompleted? || entry.event.TurnInterrupted?)
  }

  predicate LoggedFor(entry: Entry, turn: TurnId) {
    entry.Logged? && entry.turn == Some(turn)
  }

  // ---- the history so far, read from its end ----

  predicate Closed(trace: Trace, turn: TurnId) {
    trace != [] && (Closes(trace[|trace| - 1], turn) || Closed(trace[..|trace| - 1], turn))
  }

  predicate Started(trace: Trace, turn: TurnId) {
    trace != []
    && ((trace[|trace| - 1].EpochStarted? && trace[|trace| - 1].turnId == turn)
        || Started(trace[..|trace| - 1], turn))
  }

  /** The latest start or completion of the item in this turn is a start of this kind. */
  predicate ItemOpen(trace: Trace, session: SessionId, turn: TurnId, item: string, kind: EffectKind) {
    trace != [] &&
    var last := trace[|trace| - 1];
    if last.ItemStarted? && last.session == session && last.turnId == turn && last.item == item then last.kind == kind
    else if last == ItemCompleted(session, turn, item) then false
    else ItemOpen(trace[..|trace| - 1], session, turn, item, kind)
  }

  predicate Spent(trace: Trace, approval: ApprovalId) {
    trace != []
    && ((trace[|trace| - 1].ApprovalConsumed? && trace[|trace| - 1].approval == approval)
        || Spent(trace[..|trace| - 1], approval))
  }

  /** The requests, in the order they were received. */
  function Inputs(trace: Trace): seq<Request> {
    if trace == [] then []
    else Inputs(trace[..|trace| - 1]) + if trace[|trace| - 1].Received? then [trace[|trace| - 1].input] else []
  }

  lemma InputsAppended(trace: Trace, entry: Entry)
    ensures Inputs(trace + [entry]) == if entry.Received? then Inputs(trace) + [entry.input] else Inputs(trace)
  {
    assert (trace + [entry])[..|trace|] == trace;
  }

  // ---- what unrestricted access rests on ----

  /** The session was made for this request. */
  ghost predicate Created(trace: Trace, session: SessionId, request: Request) {
    exists k :: 0 < k < |trace|
      && trace[k] == Logged(session, None, FrontendSessionBound) && trace[k - 1] == Received(request)
  }

  predicate BypassAsked(trace: Trace, session: SessionId) {
    || Received(SendPrompt(session, RequestBypass)) in trace
    || Received(SetConfig(session, SelectMode(BypassPermissions, true))) in trace
  }

  ghost predicate BypassConfirmed(trace: Trace, session: SessionId) {
    exists k :: 0 <= k < |trace|
      && trace[k] == Received(SendPrompt(session, ConfirmBypass)) && BypassAsked(trace[..k], session)
  }

  ghost predicate Admitted(trace: Trace, session: SessionId) {
    exists context :: Received(AttachBuzzContext(session, context)) in trace
  }

  ghost predicate HasChannel(trace: Trace, session: SessionId) {
    Admitted(trace, session) ||
    exists request: Request :: request.NewSession? && request.buzz.Some? && Created(trace, session, request)
  }

  /** Where a local command may ask for full access: a local client, or a channel. */
  ghost predicate Trusted(trace: Trace, session: SessionId) {
    HasChannel(trace, session) ||
    exists request: Request :: request.NewSession? && request.frontend == Acp && Created(trace, session, request)
  }

  /** Somebody entitled to it gave the session this mode: it was created with it, selected locally, a
      bypass was asked for and then confirmed, a channel was admitted, or the channel of the session
      selected it. */
  ghost predicate Grounded(trace: Trace, session: SessionId, mode: PermissionMode) {
    || (exists request: Request :: request.NewSession? && request.mode == mode && Created(trace, session, request))
    || Received(SetConfig(session, SelectMode(mode, false))) in trace
    || (mode == FullAccess
        && Received(SendPrompt(session, SetPermissions(Unrestricted))) in trace && Trusted(trace, session))
    || (mode == BypassPermissions && BypassConfirmed(trace, session))
    || (mode == FullAccess && Admitted(trace, session))
    || (mode != BypassPermissions
        && Received(SetConfig(session, SelectMode(mode, true))) in trace && HasChannel(trace, session))
  }

  lemma CreatedLater(trace: Trace, later: Trace, session: SessionId, request: Request)
    requires trace <= later && Created(trace, session, request)
    ensures Created(later, session, request)
  {
    var k :| 0 < k < |trace|
             && trace[k] == Logged(session, None, FrontendSessionBound) && trace[k - 1] == Received(request);
    assert later[k] == trace[k] && later[k - 1] == trace[k - 1];
  }

  lemma HasChannelLater(trace: Trace, later: Trace, session: SessionId)
    requires trace <= later && HasChannel(trace, session)
    ensures HasChannel(later, session)
  {
    if !Admitted(trace, session) {
      var request: Request :| request.NewSession? && request.buzz.Some? && Created(trace, session, request);
      CreatedLater(trace, later, session, request);
    }
  }

  lemma TrustedLater(trace: Trace, later: Trace, session: SessionId)
    requires trace <= later && Trusted(trace, session)
    ensures Trusted(later, session)
  {
    if HasChannel(trace, session) {
      HasChannelLater(trace, later, session);
    } else {
      var request: Request :| request.NewSession? && request.frontend == Acp && Created(trace, session, request);
      CreatedLater(trace, later, session, request);
    }
  }

  /** Grounds are never lost. */
  lemma GroundedLater(trace: Trace, later: Trace, session: SessionId, mode: PermissionMode)
    requires trace <= later && Grounded(trace, session, mode)
    ensures Grounded(later, session, mode)
  {
    if request: Request :| request.NewSession? && request.mode == mode && Created(trace, session, request) {
      CreatedLater(trace, later, session, request);
    } else if BypassConfirmed(trace, session) && mode == BypassPermissions {
      var k :| 0 <= k < |trace|
               && trace[k] == Received(SendPrompt(session, ConfirmBypass)) && BypassAsked(trace[..k], session);
      assert later[k] == trace[k] && later[..k] == trace[..k];
    } else {
      if HasChannel(trace, session) { HasChannelLater(trace, later, session); }
      if Trusted(trace, session) { TrustedLater(trace, later, session); }
    }
  }

  // ---- what every history satisfies ----

  /** An `Allow` comes right after its authorization, which comes after the proposal of the same tool
      call, for a command or file change whose item is open in that turn. */
  ghost predicate Justified(before: Trace, entry: Entry)
    requires entry.Allowed?
  {
    && (entry.kind == Command || entry.kind == FileChange)
    && !Closed(before, entry.turnId)
    && ItemOpen(before, entry.session, entry.turnId, entry.item, entry.kind)
    && before != []
    && Logged(entry.session, Some(entry.turnId), ToolProposed(entry.tool)) in before[..|before| - 1]
    && match entry.grounds
       case Automatic =>
         && before[|before| - 1] == Logged(entry.session, Some(entry.turnId), ToolDispatchAuthorized(entry.tool))
         && exists c :: EpochStarted(entry.session, entry.turnId, c) in before && Profile(c.mode) == Unrestricted
       case Approved(approval) =>
         && Logged(entry.session, Some(entry.turnId), ApprovalRequested(approval, entry.tool)) in before[..|before| - 1]
         && before[|before| - 1] == ApprovalConsumed(entry.session, approval, entry.tool, true)
  }

  /** The store consumes an approval once, right after the client of the session decided. */
  ghost predicate Decided(before: Trace, entry: Entry)
    requires entry.ApprovalConsumed?
  {
    && !Spent(before, entry.approval)
    && before != []
    && before[|before| - 1] == Received(SendPrompt(entry.session, if entry.allow then Approve else Deny))
  }

  /** One entry is acceptable after a history. */
  ghost predicate Step(before: Trace, entry: Entry) {
    && (entry.Logged? && entry.turn.Some? ==> !Closed(before, entry.turn.value))
    && (entry.EpochStarted? ==>
          && !Started(before, entry.turnId)
          && (Profile(entry.configuration.mode) == Unrestricted ==>
                Grounded(before, entry.session, entry.configuration.mode)))
    && (entry.ApprovalConsumed? ==> Decided(before, entry))
    && (entry.Allowed? ==> Justified(before, entry))
  }

  ghost predicate Acceptable(trace: Trace) {
    trace == [] || (Acceptable(trace[..|trace| - 1]) && Step(trace[..|trace| - 1], trace[|trace| - 1]))
  }

  // ---- what that means, index by index ----

  lemma {:induction false} AcceptableAt(trace: Trace, k: nat)
    requires Acceptable(trace) && k < |trace|
    ensures Acceptable(trace[..k]) && Step(trace[..k], trace[k])
  {
    if k < |trace| - 1 {
      AcceptableAt(trace[..|trace| - 1], k);
      assert trace[..|trace| - 1][..k] == trace[..k];
    }
  }

  lemma {:induction false} ClosedAt(trace: Trace, turn: TurnId, k: nat)
    requires k < |trace| && Closes(trace[k], turn)
    ensures Closed(trace, turn)
  {
    if k < |trace| - 1 {
      ClosedAt(trace[..|trace| - 1], turn, k);
    }
  }

  lemma {:induction false} StartedAt(trace: Trace, turn: TurnId, k: nat)
    requires k < |trace| && trace[k].EpochStarted? && trace[k].turnId == turn
    ensures Started(trace, turn)
  {
    if k < |trace| - 1 {
      StartedAt(trace[..|trace| - 1], turn, k);
    }
  }

  lemma {:induction false} SpentAt(trace: Trace, approval: ApprovalId, k: nat)
    requires k < |trace| && trace[k].ApprovalConsumed? && trace[k].approval == approval
    ensures Spent(trace, approval)
  {
    if k < |trace| - 1 {
      SpentAt(trace[..|trace| - 1], approval, k);
    }
  }

  /** `ItemOpen` is a start with that kind and no later start or completion of the item. */
  lemma {:induction false} ItemOpenAt(trace: Trace, session: SessionId, turn: TurnId, item: string, kind: EffectKind)
    requires ItemOpen(trace, session, turn, item, kind)
    ensures exists i :: 0 <= i < |trace| && trace[i] == ItemStarted(session, turn, item, kind)
              && forall j :: i < j < |trace| ==> trace[j] != ItemCompleted(session, turn, item)
  {
    var last := trace[|trace| - 1];
    if last.ItemStarted? && last.session == session && last.turnId == turn && last.item == item {
      assert trace[|trace| - 1] == ItemStarted(session, turn, item, kind);
    } else {
      var rest := trace[..|trace| - 1];
      ItemOpenAt(rest, session, turn, item, kind);
      var i :| 0 <= i < |rest| && rest[i] == ItemStarted(session, turn, item, kind)
               && forall j :: i < j < |rest| ==> rest[j] != ItemCompleted(session, turn, item);
      assert trace[i] == ItemStarted(session, turn, item, kind);
      forall j | i < j < |trace| ensures trace[j] != ItemCompleted(session, turn, item) {
        if j < |rest| {
          assert rest[j] == trace[j];
        }
      }
    }
  }

  /** A turn is closed at most once, and nothing is logged for it afterwards. */
  lemma NothingAfterTheEnd(trace: Trace, turn: TurnId, i: nat, j: nat)
    requires Acceptable(trace) && i < j < |trace| && Closes(trace[i], turn)
    ensures !LoggedFor(trace[j], turn)
  {
    AcceptableAt(trace, j);
    ClosedAt(trace[..j], turn, i);
  }

  /** An approval is decided at most once. */
  lemma DecidedOnce(trace: Trace, i: nat, j: nat)
    requires Acceptable(trace) && i < j < |trace| && trace[i].ApprovalConsumed? && trace[j].ApprovalConsumed?
    ensures trace[i].approval != trace[j].approval
  {
    AcceptableAt(trace, j);
    if trace[i].approval == trace[j].approval {
      SpentAt(trace[..j], trace[i].approval, i);
    }
  }

  /** One approval yields at most one `Allow`. */
  lemma OneAllowPerApproval(trace: Trace, i: nat, j: nat)
    requires Acceptable(trace) && i < j < |trace| && trace[i].Allowed? && trace[j].Allowed?
    requires trace[i].grounds.Approved?
    ensures trace[j].grounds != trace[i].grounds
  {
    AcceptableAt(trace, i);
    AcceptableAt(trace, j);
    if trace[j].grounds == trace[i].grounds {
      assert trace[i - 1] == trace[..i][i - 1] && trace[j - 1] == trace[..j][j - 1];
      DecidedOnce(trace, i - 1, j - 1);
    }
  }

  /** What a client refused is never allowed, neither before nor after. */
  lemma RefusedNeverAllowed(trace: Trace, i: nat, k: nat)
    requires Acceptable(trace) && i < |trace| && k < |trace|
    requires trace[i].ApprovalConsumed? && !trace[i].allow && trace[k].Allowed?
    ensures trace[k].grounds != Approved(trace[i].approval)
  {
    AcceptableAt(trace, k);
    if trace[k].grounds == Approved(trace[i].approval) {
      assert trace[k - 1] == trace[..k][k - 1];
      if i < k - 1 {
        DecidedOnce(trace, i, k - 1);
      } else if k - 1 < i {
        DecidedOnce(trace, k - 1, i);
      }
    }
  }

  /** A decision is the one the client of the session had just sent. */
  lemma DecisionFollowsPrompt(trace: Trace, k: nat)
    requires Acceptable(trace) && k < |trace| && trace[k].ApprovalConsumed?
    ensures k > 0
    ensures trace[k - 1] == Received(SendPrompt(trace[k].session, if trace[k].allow then Approve else Deny))
  {
    AcceptableAt(trace, k);
    assert trace[k - 1] == trace[..k][k - 1];
  }

  /** A turn with unrestricted access was given it before it started. */
  lemma UnrestrictedTurnGrounded(trace: Trace, k: nat)
    requires Acceptable(trace) && k < |trace| && trace[k].EpochStarted?
    requires Profile(trace[k].configuration.mode) == Unrestricted
    ensures Grounded(trace[..k], trace[k].session, trace[k].configuration.mode)
  {
    AcceptableAt(trace, k);
  }

  /** A turn's epoch is started with one configuration. */
  lemma OneConfigurationPerTurn(trace: Trace, first: Entry, second: Entry)
    requires Acceptable(trace) && first in trace && second in trace
    requires first.EpochStarted? && second.EpochStarted? && first.turnId == second.turnId
    ensures first == second
  {
    var i :| 0 <= i < |trace| && trace[i] == first;
    var j :| 0 <= j < |trace| && trace[j] == second;
    if i < j {
      AcceptableAt(trace, j);
      StartedAt(trace[..j], first.turnId, i);
    } else if j < i {
      AcceptableAt(trace, i);
      StartedAt(trace[..i], first.turnId, j);
    }
  }

  /** An `Allow` is for a command or file change whose item is open, in a turn not ended. */
  lemma AllowIsOpen(trace: Trace, k: nat)
    requires Acceptable(trace) && k < |trace| && trace[k].Allowed?
    ensures var allow := trace[k];
            && allow.kind in {Command, FileChange}
            && (exists i :: 0 <= i < k && trace[i] == ItemStarted(allow.session, allow.turnId, allow.item, allow.kind)
                  && forall j :: i < j < k ==> trace[j] != ItemCompleted(allow.session, allow.turnId, allow.item))
            && (forall i :: 0 <= i < k ==> !Closes(trace[i], allow.turnId))
  {
    AcceptableAt(trace, k);
    var before, allow := trace[..k], trace[k];
    ItemOpenAt(before, allow.session, allow.turnId, allow.item, allow.kind);
    var i :| 0 <= i < |before| && before[i] == ItemStarted(allow.session, allow.turnId, allow.item, allow.kind)
             && forall j :: i < j < |before| ==> before[j] != ItemCompleted(allow.session, allow.turnId, allow.item);
    assert trace[i] == before[i];
    forall j | i < j < k ensures trace[j] != ItemCompleted(allow.session, allow.turnId, allow.item) {
      assert before[j] == trace[j];
    }
    forall c | 0 <= c < k && Closes(trace[c], allow.turnId) ensures false {
      ClosedAt(before, allow.turnId, c);
    }
  }

  /** An `Allow` that rests on an approval: the client of the session had just approved, and the approval
      was requested before, in that turn and for that tool call. */
  lemma AllowIsApproved(trace: Trace, k: nat)
    requires Acceptable(trace) && k < |trace| && trace[k].Allowed? && trace[k].grounds.Approved?
    ensures var allow := trace[k];
            && k > 1 && trace[k - 2] == Received(SendPrompt(allow.session, Approve))
            && trace[k - 1] == ApprovalConsumed(allow.session, allow.grounds.approval, allow.tool, true)
            && exists i :: 0 <= i < k - 1 && trace[i] ==
                 Logged(allow.session, Some(allow.turnId), ApprovalRequested(allow.grounds.approval, allow.tool))
  {
    AcceptableAt(trace, k);
    var before, allow := trace[..k], trace[k];
    var asked := Logged(allow.session, Some(allow.turnId), ApprovalRequested(allow.grounds.approval, allow.tool));
    var i :| 0 <= i < |before[..k - 1]| && before[..k - 1][i] == asked;
    assert trace[i] == asked && trace[k - 1] == before[k - 1];
    DecisionFollowsPrompt(trace, k - 1);
  }

  /** Any other `Allow`: the turn was started with unrestricted access, and that was given before. */
  lemma AllowIsGrounded(trace: Trace, k: nat)
    requires Acceptable(trace) && k < |trace| && trace[k].Allowed? && trace[k].grounds.Automatic?
    ensures var allow := trace[k];
            && k > 0
            && trace[k - 1] == Logged(allow.session, Some(allow.turnId), ToolDispatchAuthorized(allow.tool))
            && exists i :: 0 <= i < k && trace[i].EpochStarted?
                 && trace[i].session == allow.session && trace[i].turnId == allow.turnId
                 && trace[i].configuration.mode in {FullAccess, BypassPermissions}
                 && Grounded(trace[..i], allow.session, trace[i].configuration.mode)
  {
    AcceptableAt(trace, k);
    var before, allow := trace[..k], trace[k];
    assert trace[k - 1] == before[k - 1];
    var c :| EpochStarted(allow.session, allow.turnId, c) in before && Profile(c.mode) == Unrestricted;
    var i :| 0 <= i < |before| && before[i] == EpochStarted(allow.session, allow.turnId, c);
    assert trace[i] == before[i];
    UnrestrictedTurnGrounded(trace, i);
  }

  /** The full account behind every `Allow` in an acceptable history. */
  lemma EveryAllowAccounted(trace: Trace, k: nat)
    requires Acceptable(trace) && k < |trace| && trace[k].Allowed?
    ensures var allow := trace[k];
            && allow.kind in {Command, FileChange}
            && (exists i :: 0 <= i < k && trace[i] == ItemStarted(allow.session, allow.turnId, allow.item, allow.kind)
                  && forall j :: i < j < k ==> trace[j] != ItemCompleted(allow.session, allow.turnId, allow.item))
            && (exists i :: 0 <= i < k - 1
                  && trace[i] == Logged(allow.session, Some(allow.turnId), ToolProposed(allow.tool)))
            && (forall i :: 0 <= i < k ==> !Closes(trace[i], allow.turnId))
            && match allow.grounds
               case Automatic =>
                 && trace[k - 1] == Logged(allow.session, Some(allow.turnId), ToolDispatchAuthorized(allow.tool))
                 && exists i :: 0 <= i < k && trace[i].EpochStarted?
                      && trace[i].session == allow.session && trace[i].turnId == allow.turnId
                      && trace[i].configuration.mode in {FullAccess, BypassPermissions}
                      && Grounded(trace[..i], allow.session, trace[i].configuration.mode)
               case Approved(approval) =>
                 && k > 1 && trace[k - 2] == Received(SendPrompt(allow.session, Approve))
                 && trace[k - 1] == ApprovalConsumed(allow.session, approval, allow.tool, true)
                 && exists i :: 0 <= i < k - 1
                      && trace[i] == Logged(allow.session, Some(allow.turnId), ApprovalRequested(approval, allow.tool))
  {
    hide Acceptable, Grounded;
    AllowIsOpen(trace, k);
    AllowIsProposed(trace, k);
    if trace[k].grounds.Approved? {
      AllowIsApproved(trace, k);
    } else {
      AllowIsGrounded(trace, k);
    }
  }

  lemma AllowIsProposed(trace: Trace, k: nat)
    requires Acceptable(trace) && k < |trace| && trace[k].Allowed?
    ensures var allow := trace[k];
            exists i :: 0 <= i < k - 1
              && trace[i] == Logged(allow.session, Some(allow.turnId), ToolProposed(allow.tool))
  {
    AcceptableAt(trace, k);
    var proposed := Logged(trace[k].session, Some(trace[k].turnId), ToolProposed(trace[k].tool));
    var i :| 0 <= i < |trace[..k][..k - 1]| && trace[..k][..k - 1][i] == proposed;
    assert trace[i] == proposed;
  }
}
