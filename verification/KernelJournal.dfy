/**
 What the kernel took from the provider, and what became of it.

 The journal records which session got which provider context, each element taken from the provider
 port with the session whose turn was running, each queued event handed to a turn and each overflow
 reported. Who owned an event, and how long the queues were, is read off the journal before it.
 */
module KernelJournal {
  import opened Prelude
  import opened KernelRequests
  import opened KernelTrace
  import opened KernelState
  import opened KernelRouting
  import Port = AgentPort

  datatype Owner = Global | OwnedBy(session: SessionId) | Unowned

  /** `Taken` holds `None` for an error of the port. */
  datatype JournalEntry =
    | Bound(session: SessionId, context: Port.ContextId)
    | Taken(event: Option<Port.AgentEvent>, driven: SessionId)
    | HandedOver(session: SessionId)
    | Reported(session: SessionId)

  type Journal = seq<JournalEntry>

  function EventContext(event: Port.AgentEvent): Option<Port.ContextId> {
    match event
    case EffectRequested(request) => Some(request.context)
    case ProviderFailed(context, _) => context
    case _ => Some(event.context)
  }

  // ---- owners ----

  /** The provider context of a session after the journal. */
  function ProviderIn(j: Journal, session: SessionId): Option<Port.ContextId> {
    if j == [] then None
    else
      var last := j[|j| - 1];
      if last.Bound? && last.session == session then Some(last.context) else ProviderIn(j[..|j| - 1], session)
  }

  /** Exactly this session holds the context. */
  ghost predicate SoleHolder(j: Journal, context: Port.ContextId, session: SessionId) {
    && ProviderIn(j, session) == Some(context)
    && forall other :: ProviderIn(j, other) == Some(context) ==> other == session
  }

  /** Whose event this is: a failure of the whole provider is everyone's, other events belong to the one
      session that holds their context. */
  ghost function OwnerAt(j: Journal, event: Port.AgentEvent): Owner {
    var context := EventContext(event);
    if event == Port.ProviderFailed(None, None) then Global
    else if context.Some? && exists s :: SoleHolder(j, context.value, s) then
      var s :| SoleHolder(j, context.value, s);
      OwnedBy(s)
    else Unowned
  }

  /** An event is owned by a session exactly when that session alone holds its context. */
  lemma OwnerHolds(j: Journal, event: Port.AgentEvent)
    ensures OwnerAt(j, event).Global? <==> event == Port.ProviderFailed(None, None)
    ensures forall s :: OwnerAt(j, event) == OwnedBy(s) <==>
              EventContext(event).Some? && SoleHolder(j, EventContext(event).value, s)
  {
    var context := EventContext(event);
    if context.Some? {
      forall s, other | SoleHolder(j, context.value, s) && SoleHolder(j, context.value, other) ensures s == other {
      }
    }
  }

  /** The journal says which context each session of the kernel holds. */
  ghost predicate Bindings(sessions: Sessions, j: Journal) {
    forall s :: ProviderIn(j, s) == if s in sessions then sessions[s].provider else None
  }

  /** The owner an element had when it was taken. */
  ghost function OwnerOf(before: Journal, step: JournalEntry): Owner {
    if step.Taken? && step.event.Some? then OwnerAt(before, step.event.value) else Unowned
  }

  // ---- what the journal amounts to ----

  function TakenIn(j: Journal): seq<Option<Port.AgentEvent>> {
    if j == [] then []
    else TakenIn(j[..|j| - 1]) + if j[|j| - 1].Taken? then [j[|j| - 1].event] else []
  }

  /** The events of one session, in the order the provider delivered them. */
  ghost function Projection(j: Journal, session: SessionId): seq<Port.AgentEvent> {
    if j == [] then []
    else
      var front, last := j[..|j| - 1], j[|j| - 1];
      Projection(front, session) + if OwnerOf(front, last) == OwnedBy(session) then [last.event.value] else []
  }

  /** What a step does to the backlog: an event of another session than the driven one is queued. */
  ghost function Effected(b: Backlog<Port.AgentEvent>, before: Journal, step: JournalEntry): Backlog<Port.AgentEvent> {
    match step
    case Bound(_, _) => b
    case HandedOver(s) => Popped(b, s)
    case Reported(s) => Cleared(b, s)
    case Taken(event, driven) =>
      var owner := OwnerOf(before, step);
      if owner.OwnedBy? && owner.session != driven then Routed(b, owner.session, event.value) else b
  }

  /** The queues, rebuilt from the journal alone. */
  ghost function Replay(j: Journal): Backlog<Port.AgentEvent> {
    if j == [] then Backlog(map[], 0, {})
    else Effected(Replay(j[..|j| - 1]), j[..|j| - 1], j[|j| - 1])
  }

  /** Taking the step, the session's event found no room. */
  ghost predicate Overflows(before: Journal, step: JournalEntry, session: SessionId) {
    OwnerOf(before, step) == OwnedBy(session) && session != step.driven && Full(Replay(before), session)
  }

  ghost predicate OverflowAt(j: Journal, k: int, session: SessionId) {
    0 <= k < |j| && Overflows(j[..k], j[k], session)
  }

  ghost predicate Overflowed(j: Journal, session: SessionId) {
    exists k :: OverflowAt(j, k, session)
  }

  /** The journal accounts for everything given so far, session by session, and for every overflow. */
  ghost predicate Accounted(j: Journal, given: seq<Option<Port.AgentEvent>>, left: seq<Option<Port.AgentEvent>>,
                            owned: map<nat, seq<Port.AgentEvent>>, overflowed: set<nat>)
  {
    && TakenIn(j) + left == given
    && (forall s :: Get(owned, s) == Projection(j, s))
    && (forall s :: s in overflowed <==> Overflowed(j, s))
  }

  // ---- one more step ----

  lemma Extended(j: Journal, step: JournalEntry)
    ensures TakenIn(j + [step]) == TakenIn(j) + if step.Taken? then [step.event] else []
    ensures Replay(j + [step]) == Effected(Replay(j), j, step)
    ensures forall s :: ProviderIn(j + [step], s) ==
              if step.Bound? && step.session == s then Some(step.context) else ProviderIn(j, s)
    ensures forall s :: Projection(j + [step], s) ==
              Projection(j, s) + if OwnerOf(j, step) == OwnedBy(s) then [step.event.value] else []
  {
    assert (j + [step])[..|j|] == j;
  }

  /** Binding a context moves no event. */
  lemma BoundStep(j: Journal, session: SessionId, context: Port.ContextId)
    ensures Replay(j + [Bound(session, context)]) == Replay(j) && TakenIn(j + [Bound(session, context)]) == TakenIn(j)
  {
    Extended(j, Bound(session, context));
  }

  lemma BindingsBound(sessions: Sessions, j: Journal, session: SessionId, state: SessionState)
    requires Bindings(sessions, j) && state.provider.Some?
    ensures Bindings(sessions[session := state], j + [Bound(session, state.provider.value)])
  {
    Extended(j, Bound(session, state.provider.value));
  }

  lemma BindingsSame(sessions: Sessions, j: Journal, session: SessionId, state: SessionState)
    requires Bindings(sessions, j) && session in sessions && state.provider == sessions[session].provider
    ensures Bindings(sessions[session := state], j)
  {
  }

  lemma BindingsKept(sessions: Sessions, j: Journal, step: JournalEntry)
    requires Bindings(sessions, j) && !step.Bound?
    ensures Bindings(sessions, j + [step])
  {
    Extended(j, step);
  }

  lemma OverflowedExtended(j: Journal, step: JournalEntry, session: SessionId)
    ensures Overflowed(j + [step], session) <==> Overflowed(j, session) || Overflows(j, step, session)
  {
    hide Overflows;
    var longer := j + [step];
    assert longer[..|j|] == j && longer[|j|] == step;
    if Overflowed(j, session) {
      var k :| OverflowAt(j, k, session);
      assert longer[..k] == j[..k] && longer[k] == j[k];
      assert OverflowAt(longer, k, session);
    }
    if Overflows(j, step, session) {
      assert OverflowAt(longer, |j|, session);
    }
    if Overflowed(longer, session) {
      var k :| OverflowAt(longer, k, session);
      if k < |j| {
        assert longer[..k] == j[..k] && longer[k] == j[k];
        assert OverflowAt(j, k, session);
      }
    }
  }

  /** A step that takes nothing leaves the account as it is. */
  lemma QuietStep(j: Journal, step: JournalEntry, given: seq<Option<Port.AgentEvent>>,
                  left: seq<Option<Port.AgentEvent>>, owned: map<nat, seq<Port.AgentEvent>>, overflowed: set<nat>)
    requires Accounted(j, given, left, owned, overflowed) && !step.Taken?
    ensures Accounted(j + [step], given, left, owned, overflowed)
  {
    Extended(j, step);
    forall s ensures Overflowed(j + [step], s) <==> Overflowed(j, s) {
      OverflowedExtended(j, step, s);
    }
    assert TakenIn(j) + [] == TakenIn(j);
    assert forall s :: Projection(j, s) + [] == Projection(j, s);
  }

  ghost function OwnedAfter(owned: map<nat, seq<Port.AgentEvent>>, before: Journal, step: JournalEntry)
    : map<nat, seq<Port.AgentEvent>>
  {
    var owner := OwnerOf(before, step);
    if owner.OwnedBy? then owned[owner.session := Get(owned, owner.session) + [step.event.value]] else owned
  }

  ghost function OverflowedAfter(overflowed: set<nat>, before: Journal, step: JournalEntry): set<nat> {
    var owner := OwnerOf(before, step);
    if owner.OwnedBy? && Overflows(before, step, owner.session) then overflowed + {owner.session} else overflowed
  }

  /** One more element taken extends the events of its owner by it, and marks an overflow exactly at a
      limit. */
  lemma TakenStep(j: Journal, step: JournalEntry, given: seq<Option<Port.AgentEvent>>,
                  left: seq<Option<Port.AgentEvent>>, owned: map<nat, seq<Port.AgentEvent>>, overflowed: set<nat>)
    requires Accounted(j, given, left, owned, overflowed) && left != [] && step.Taken? && step.event == left[0]
    ensures Accounted(j + [step], given, left[1..], OwnedAfter(owned, j, step), OverflowedAfter(overflowed, j, step))
  {
    hide Replay, Full, ProviderIn, TakenIn, Projection, OwnerOf, Overflowed;
    Extended(j, step);
    assert left == [left[0]] + left[1..];
    assert TakenIn(j + [step]) + left[1..] == TakenIn(j) + left;
    forall s ensures Overflowed(j + [step], s) <==> s in OverflowedAfter(overflowed, j, step) {
      OverflowedExtended(j, step, s);
    }
    assert forall s :: Projection(j, s) + [] == Projection(j, s);
  }

  lemma NothingTaken(given: seq<Option<Port.AgentEvent>>)
    ensures Accounted([], given, given, map[], {}) && Replay([]) == Backlog(map[], 0, {})
  {
    assert TakenIn([]) + given == given;
  }

  /** For a session that never overflowed: what its turns handled, then what is queued, is what the
      provider delivered for it, once each and in that order. */
  lemma HandledIsDelivered(j: Journal, given: seq<Option<Port.AgentEvent>>, left: seq<Option<Port.AgentEvent>>,
                           owned: map<nat, seq<Port.AgentEvent>>, handled: map<nat, seq<Port.AgentEvent>>,
                           overflowed: set<nat>)
    requires Accounted(j, given, left, owned, overflowed) && InOrder(owned, handled, Replay(j).queues, overflowed)
    ensures TakenIn(j) + left == given
    ensures forall s :: !Overflowed(j, s) ==>
              Get(handled, s) + Get(Replay(j).queues, s) == Projection(j, s)
  {
  }
}
