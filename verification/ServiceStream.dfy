/** Delivery of a session's durable events by successive pollers. The pollers share one binding, which
    holds a stream generation and the cursor of the last delivered event; they interleave freely and
    are serialised only by the lock on the binding, so each locked section is one step. */
module ServiceStream {
  import opened Prelude

  const MAX_GENERATION: nat := 0xFFFF_FFFF_FFFF_FFFF

  type Generation = g: nat | g <= MAX_GENERATION
  type Cursor = Option<nat>

  /** `visible` says whether the event renders to a notification. */
  datatype Event = Event(sequence: nat, visible: bool)

  datatype Binding = Binding(generation: Generation, cursor: Cursor)

  datatype Kind = Prompt | Replay
  datatype Phase = Connecting | Head | Requesting | Delivering | Locking | Polling | Checking | Finishing | Done

  /** `batch` is what is left of the last reply. */
  datatype Poller = Poller(kind: Kind, generation: Generation, cursor: Cursor, batch: seq<Event>, phase: Phase)

  /** `emitted` lists the sequence numbers of the notifications put on the output. */
  datatype State = State(binding: Binding, pollers: seq<Poller>, cancelled: bool, emitted: seq<nat>)

  datatype LiveOutcome = LiveFailed | LiveUnsent | ApprovalPending | LiveSent
  datatype Status = StatusFailed | Stopped | Running

  /** Everything the environment decides is in the action: replies, failures and scheduling. */
  datatype Action =
    | StartReplay(hasTask: bool)
    | StartPrompt
    | Cancel
    | Connect(poller: nat, ok: bool)
    | Begin(poller: nat)
    | Reply(poller: nat, events: Option<seq<Event>>)
    | Inspect(poller: nat)
    | Deliver(poller: nat, framed: bool, sent: bool)
    | PollLive(poller: nat, live: LiveOutcome)
    | ReadStatus(poller: nat, status: Status)
    | Finish(poller: nat)

  // ---- steps ----

  function Bumped(b: Binding): Binding {
    b.(generation := if b.generation < MAX_GENERATION then b.generation + 1 else MAX_GENERATION)
  }

  /** A new poller takes the bumped generation and the current cursor, under one lock. */
  function HandOver(s: State, kind: Kind): State {
    var b := Bumped(s.binding);
    s.(binding := b, pollers := s.pollers + [Poller(kind, b.generation, b.cursor, [], Connecting)])
  }

  predicate Delivered(cursor: Cursor, sequence: nat) {
    cursor.Some? && sequence <= cursor.value
  }

  function Put(s: State, i: nat, p: Poller): State
    requires i < |s.pollers|
  {
    s.(pollers := s.pollers[i := p])
  }

  function Stop(s: State, i: nat): State
    requires i < |s.pollers|
  {
    Put(s, i, s.pollers[i].(phase := Done))
  }

  function Goto(s: State, i: nat, phase: Phase): State
    requires i < |s.pollers|
  {
    Put(s, i, s.pollers[i].(phase := phase))
  }

  /** The local checks on the next event: a prompt skips what it has delivered, a replay gives up. */
  function InspectStep(s: State, i: nat): State
    requires i < |s.pollers| && s.pollers[i].phase == Delivering
  {
    var p := s.pollers[i];
    if p.batch == [] then Goto(s, i, Polling)
    else if p.kind == Replay && s.cancelled then Stop(s, i)
    else if Delivered(p.cursor, p.batch[0].sequence) then
      if p.kind == Replay then Stop(s, i) else Put(s, i, p.(batch := p.batch[1..]))
    else Goto(s, i, Locking)
  }

  /** Under the lock: still the owner, render, enqueue, then advance both cursors. */
  function DeliverStep(s: State, i: nat, framed: bool, sent: bool): State
    requires i < |s.pollers| && s.pollers[i].phase == Locking && s.pollers[i].batch != []
  {
    var p := s.pollers[i];
    var e := p.batch[0];
    if p.generation != s.binding.generation || (e.visible && !framed) then Stop(s, i)
    else if e.visible && !sent then Stop(s, i).(cancelled := true)
    else
      var cursor := Some(e.sequence);
      Put(s, i, p.(cursor := cursor, batch := p.batch[1..], phase := Delivering))
      .(binding := s.binding.(cursor := cursor),
        emitted := if e.visible then s.emitted + [e.sequence] else s.emitted)
  }

  function LiveStep(s: State, i: nat, live: LiveOutcome): State
    requires i < |s.pollers| && s.pollers[i].phase == Polling
  {
    var p := s.pollers[i];
    if live == LiveFailed || p.generation != s.binding.generation then Stop(s, i)
    else if live == LiveUnsent then Stop(s, i).(cancelled := true)
    else
      var next := Goto(s, i, if live == ApprovalPending then Done else Checking);
      if p.kind == Replay then next.(binding := s.binding.(cursor := p.cursor)) else next
  }

  function StatusStep(s: State, i: nat, status: Status): State
    requires i < |s.pollers| && s.pollers[i].phase == Checking
  {
    match status
    case StatusFailed => Stop(s, i)
    case Stopped => Goto(s, i, if s.pollers[i].kind == Prompt then Finishing else Done)
    case Running => Goto(s, i, Head)
  }

  function FinishStep(s: State, i: nat): State
    requires i < |s.pollers|
  {
    var p := s.pollers[i];
    var next := Stop(s, i);
    if p.generation == s.binding.generation then next.(binding := s.binding.(cursor := p.cursor)) else next
  }

  predicate At(s: State, i: nat, phase: Phase) {
    i < |s.pollers| && s.pollers[i].phase == phase
  }

  /** An action that does not fit the state changes nothing. */
  function Step(s: State, a: Action): State {
    match a
    case StartReplay(hasTask) => if hasTask then HandOver(s, Replay) else s.(binding := Bumped(s.binding))
    case StartPrompt => HandOver(s, Prompt)
    case Cancel => s.(cancelled := true)
    case Connect(i, ok) => if At(s, i, Connecting) then Goto(s, i, if ok then Head else Done) else s
    case Begin(i) =>
      if !At(s, i, Head) then s
      else if s.cancelled || s.pollers[i].generation != s.binding.generation then Stop(s, i)
      else Goto(s, i, Requesting)
    case Reply(i, events) =>
      if !At(s, i, Requesting) then s
      else if events.None? then Stop(s, i)
      else Put(s, i, s.pollers[i].(batch := events.value, phase := Delivering))
    case Inspect(i) => if At(s, i, Delivering) then InspectStep(s, i) else s
    case Deliver(i, framed, sent) =>
      if At(s, i, Locking) && s.pollers[i].batch != [] then DeliverStep(s, i, framed, sent) else s
    case PollLive(i, live) => if At(s, i, Polling) then LiveStep(s, i, live) else s
    case ReadStatus(i, status) => if At(s, i, Checking) then StatusStep(s, i, status) else s
    case Finish(i) => if At(s, i, Finishing) then FinishStep(s, i) else s
  }

  function Run(s: State, actions: seq<Action>): State
    decreases |actions|
  {
    if actions == [] then s else Run(Step(s, actions[0]), actions[1..])
  }

  function HandOvers(actions: seq<Action>): nat {
    if actions == [] then 0
    else HandOvers(actions[1..]) + if actions[0].StartReplay? || actions[0].StartPrompt? then 1 else 0
  }

  // ---- nothing is repeated ----

  /** Strictly increasing, and beyond where the session stood at the start. */
  ghost predicate InOrder(start: Cursor, emitted: seq<nat>) {
    && (forall i, j :: 0 <= i < j < |emitted| ==> emitted[i] < emitted[j])
    && (forall i :: 0 <= i < |emitted| ==> !Delivered(start, emitted[i]))
  }

  ghost predicate PollerOk(b: Binding, p: Poller) {
    && p.generation <= b.generation
    && (p.generation == b.generation && p.phase != Done ==> p.cursor == b.cursor)
    && (p.phase == Locking ==> p.batch != [] && !Delivered(p.cursor, p.batch[0].sequence))
  }

  ghost predicate PollersOk(b: Binding, pollers: seq<Poller>) {
    && (forall i :: 0 <= i < |pollers| ==> PollerOk(b, pollers[i]))
    && (forall i, j :: 0 <= i < j < |pollers| ==> pollers[i].generation < pollers[j].generation)
  }

  /** The cursor covers everything emitted, and only the newest poller can own the stream. */
  ghost predicate Inv(start: Cursor, s: State) {
    && InOrder(start, s.emitted)
    && (forall i :: 0 <= i < |s.emitted| ==> Delivered(s.binding.cursor, s.emitted[i]))
    && (start.Some? ==> Delivered(s.binding.cursor, start.value))
    && PollersOk(s.binding, s.pollers)
  }

  /** How many more hand-overs have a generation of their own. */
  function Allowance(s: State): nat {
    if s.pollers == [] && s.binding.generation == MAX_GENERATION then 1 else MAX_GENERATION - s.binding.generation
  }

  lemma PutKeeps(start: Cursor, s: State, i: nat, p: Poller)
    requires Inv(start, s) && i < |s.pollers|
    requires p.generation == s.pollers[i].generation && PollerOk(s.binding, p)
    ensures Inv(start, Put(s, i, p))
  {
  }

  lemma HandOverKeeps(start: Cursor, s: State, kind: Kind)
    requires Inv(start, s) && Allowance(s) > 0
    ensures Inv(start, HandOver(s, kind)) && Allowance(HandOver(s, kind)) >= Allowance(s) - 1
  {
  }

  lemma DeliverKeeps(start: Cursor, s: State, i: nat, framed: bool, sent: bool)
    requires Inv(start, s) && At(s, i, Locking) && s.pollers[i].batch != []
    ensures Inv(start, DeliverStep(s, i, framed, sent))
  {
    var p := s.pollers[i];
    var e := p.batch[0];
    var next := DeliverStep(s, i, framed, sent);
    if p.generation != s.binding.generation || (e.visible && !(framed && sent)) {
      PutKeeps(start, s, i, p.(phase := Done));
    } else {
      OwnerIsLast(s, i);
      forall j | 0 <= j < |next.pollers| ensures PollerOk(next.binding, next.pollers[j]) {
      }
    }
  }

  lemma OwnerIsLast(s: State, i: nat)
    requires PollersOk(s.binding, s.pollers) && i < |s.pollers| && s.pollers[i].generation == s.binding.generation
    ensures forall j :: 0 <= j < |s.pollers| && j != i ==> s.pollers[j].generation < s.binding.generation
  {
  }

  lemma LiveKeeps(start: Cursor, s: State, i: nat, live: LiveOutcome)
    requires Inv(start, s) && At(s, i, Polling)
    ensures Inv(start, LiveStep(s, i, live))
  {
    var p := s.pollers[i];
    PutKeeps(start, s, i, p.(phase := Done));
    PutKeeps(start, s, i, p.(phase := Checking));
  }

  lemma FinishKeeps(start: Cursor, s: State, i: nat)
    requires Inv(start, s) && At(s, i, Finishing)
    ensures Inv(start, FinishStep(s, i))
  {
    PutKeeps(start, s, i, s.pollers[i].(phase := Done));
  }

  lemma InspectKeeps(start: Cursor, s: State, i: nat)
    requires Inv(start, s) && At(s, i, Delivering)
    ensures Inv(start, InspectStep(s, i))
  {
    var p := s.pollers[i];
    PutKeeps(start, s, i, p.(phase := Done));
    PutKeeps(start, s, i, p.(phase := Polling));
    if p.batch != [] {
      PutKeeps(start, s, i, p.(batch := p.batch[1..]));
      if !Delivered(p.cursor, p.batch[0].sequence) {
        PutKeeps(start, s, i, p.(phase := Locking));
      }
    }
  }

  ghost predicate IsHandOver(a: Action) {
    a.StartReplay? || a.StartPrompt?
  }

  /** Every step of every poller keeps the invariant; a hand-over does while a generation is left. */
  lemma StepKeeps(start: Cursor, s: State, a: Action)
    requires Inv(start, s) && (IsHandOver(a) ==> Allowance(s) > 0)
    ensures Inv(start, Step(s, a))
    ensures Allowance(Step(s, a)) >= Allowance(s) - if IsHandOver(a) then 1 else 0
  {
    hide Inv, PollerOk;
    match a
    case StartReplay(hasTask) =>
      if hasTask { HandOverKeeps(start, s, Replay); } else { BumpKeeps(start, s); }
    case StartPrompt => HandOverKeeps(start, s, Prompt);
    case Cancel => CancelKeeps(start, s);
    case Connect(i, ok) => if At(s, i, Connecting) { LocalKeeps(start, s, a); }
    case Begin(i) => if At(s, i, Head) { LocalKeeps(start, s, a); }
    case Reply(i, events) => if At(s, i, Requesting) { LocalKeeps(start, s, a); }
    case Inspect(i) => if At(s, i, Delivering) { InspectKeeps(start, s, i); }
    case Deliver(i, framed, sent) =>
      if At(s, i, Locking) && s.pollers[i].batch != [] { DeliverKeeps(start, s, i, framed, sent); }
    case PollLive(i, live) => if At(s, i, Polling) { LiveKeeps(start, s, i, live); }
    case ReadStatus(i, status) => if At(s, i, Checking) { LocalKeeps(start, s, a); }
    case Finish(i) => if At(s, i, Finishing) { FinishKeeps(start, s, i); }
  }

  lemma BumpKeeps(start: Cursor, s: State)
    requires Inv(start, s) && Allowance(s) > 0
    ensures Inv(start, s.(binding := Bumped(s.binding)))
    ensures Allowance(s.(binding := Bumped(s.binding))) >= Allowance(s) - 1
  {
  }

  lemma CancelKeeps(start: Cursor, s: State)
    requires Inv(start, s)
    ensures Inv(start, s.(cancelled := true))
  {
  }

  /** Steps that only move the poller. */
  lemma LocalKeeps(start: Cursor, s: State, a: Action)
    requires Inv(start, s) && (a.Connect? || a.Begin? || a.Reply? || a.ReadStatus?) && a.poller < |s.pollers|
    requires s.pollers[a.poller].phase != Locking
    ensures Inv(start, Step(s, a))
  {
    hide Inv, PollerOk, PollersOk;
    PollerAt(start, s, a.poller);
    var p, next := s.pollers[a.poller], Step(s, a);
    if next != s {
      var q := next.pollers[a.poller];
      assert next == Put(s, a.poller, q) && q.phase != Locking;
      MovedOk(s.binding, p, q);
      PutKeeps(start, s, a.poller, q);
    }
  }

  lemma MovedOk(b: Binding, p: Poller, q: Poller)
    requires PollerOk(b, p) && p.phase != Done
    requires q.generation == p.generation && q.cursor == p.cursor && q.phase != Locking
    ensures PollerOk(b, q)
  {
  }

  lemma PollerAt(start: Cursor, s: State, i: nat)
    requires Inv(start, s) && i < |s.pollers|
    ensures PollerOk(s.binding, s.pollers[i])
  {
  }

  /** Safety over whole runs, for arbitrary replies and every interleaving. */
  lemma {:induction false} RunKeeps(start: Cursor, s: State, actions: seq<Action>)
    requires Inv(start, s) && HandOvers(actions) <= Allowance(s)
    ensures Inv(start, Run(s, actions))
    decreases |actions|
  {
    hide Inv, Step, Allowance;
    if actions != [] {
      StepKeeps(start, s, actions[0]);
      RunKeeps(start, Step(s, actions[0]), actions[1..]);
    }
  }

  /** A session before its first poller. */
  ghost predicate Fresh(s: State) {
    s.pollers == [] && !s.cancelled && s.emitted == []
  }

  // ---- and the bound is exact ----

  function Repeat(n: nat): (actions: seq<Action>)
    ensures |actions| == n && forall i :: 0 <= i < n ==> actions[i] == StartReplay(false)
  {
    seq(n, _ => StartReplay(false))
  }

  lemma {:induction false} RunConcat(s: State, a: seq<Action>, b: seq<Action>)
    ensures Run(s, a + b) == Run(Run(s, a), b) && HandOvers(a + b) == HandOvers(a) + HandOvers(b)
    decreases |a|
  {
    hide Step;
    if a == [] {
      assert a + b == b;
    } else {
      RunConcat(Step(s, a[0]), a[1..], b);
      assert (a + b)[1..] == a[1..] + b;
    }
  }

  lemma {:induction false} RepeatBumps(s: State, n: nat)
    requires s.binding.generation + n <= MAX_GENERATION
    ensures Run(s, Repeat(n)) == s.(binding := s.binding.(generation := s.binding.generation + n))
    ensures HandOvers(Repeat(n)) == n
    decreases n
  {
    if n > 0 {
      assert Repeat(n)[1..] == Repeat(n - 1);
      RepeatBumps(Step(s, StartReplay(false)), n - 1);
    }
  }

  function Next(cursor: Cursor): nat {
    if cursor.Some? then cursor.value + 1 else 0
  }

  /** One poller's way from its start to its first notification. */
  function FirstDelivery(i: nat, e: Event): seq<Action> {
    [Connect(i, true), Begin(i), Reply(i, Some([e])), Inspect(i), Deliver(i, true, true)]
  }

  lemma DeliversOne(s: State, i: nat, e: Event)
    requires At(s, i, Connecting) && !s.cancelled && s.pollers[i].generation == s.binding.generation
    requires !Delivered(s.pollers[i].cursor, e.sequence) && e.visible
    ensures var next := Run(s, FirstDelivery(i, e));
            && next.emitted == s.emitted + [e.sequence]
            && next.binding.generation == s.binding.generation
            && next.cancelled == s.cancelled
            && |next.pollers| == |s.pollers|
            && forall j :: 0 <= j < |s.pollers| && j != i ==> next.pollers[j] == s.pollers[j]
  {
    var s1 := Step(s, Connect(i, true));
    var s2 := Step(s1, Begin(i));
    var s3 := Step(s2, Reply(i, Some([e])));
    var s4 := Step(s3, Inspect(i));
    var s5 := Step(s4, Deliver(i, true, true));
    assert s4.pollers[i].phase == Locking && s4.pollers[i].batch == [e];
    assert s5.emitted == s.emitted + [e.sequence];
    RunFive(s, s1, s2, s3, s4, FirstDelivery(i, e));
  }

  lemma RunFive(s: State, s1: State, s2: State, s3: State, s4: State, a: seq<Action>)
    requires |a| == 5 && s1 == Step(s, a[0]) && s2 == Step(s1, a[1]) && s3 == Step(s2, a[2]) && s4 == Step(s3, a[3])
    ensures Run(s, a) == Step(s4, a[4])
  {
    hide Step;
    assert a[1..][1..] == a[2..] && a[2..][1..] == a[3..] && a[3..][1..] == a[4..] && a[4..][1..] == [];
    assert Run(s, a) == Run(s1, a[1..]);
    assert Run(s1, a[1..]) == Run(s2, a[2..]);
    assert Run(s2, a[2..]) == Run(s3, a[3..]);
    assert Run(s3, a[3..]) == Run(s4, a[4..]);
    assert Run(s4, a[4..]) == Run(Step(s4, a[4]), []);
  }

  lemma TwoStarts(s: State)
    requires Fresh(s) && s.binding.generation >= MAX_GENERATION - 1
    ensures HandOvers([StartReplay(true), StartPrompt]) == 2
    ensures Run(s, [StartReplay(true), StartPrompt]) ==
            State(Binding(MAX_GENERATION, s.binding.cursor),
                  [Poller(Replay, MAX_GENERATION, s.binding.cursor, [], Connecting),
                   Poller(Prompt, MAX_GENERATION, s.binding.cursor, [], Connecting)], false, [])
  {
    var starts := [StartReplay(true), StartPrompt];
    assert starts[1..] == [StartPrompt] && starts[1..][1..] == [];
    var s1 := Step(s, StartReplay(true));
    var s2 := Step(s1, StartPrompt);
    assert Run(s, starts) == Run(s1, starts[1..]);
    assert Run(s1, starts[1..]) == Run(s2, []);
  }

  /** Two hand-overs at the largest generation give two owners, and both deliver the same event. */
  lemma SaturationRepeats(s: State) returns (actions: seq<Action>)
    requires Fresh(s) && s.binding.generation >= MAX_GENERATION - 1
    ensures HandOvers(actions) == 2
    ensures !InOrder(s.binding.cursor, Run(s, actions).emitted)
  {
    var e := Event(Next(s.binding.cursor), true);
    var starts := [StartReplay(true), StartPrompt];
    var a0, a1 := FirstDelivery(0, e), FirstDelivery(1, e);
    TwoStarts(s);
    NoHandOvers(0, e);
    NoHandOvers(1, e);
    hide FirstDelivery, Step, Run, HandOvers;
    var s2 := Run(s, starts);
    DeliversOne(s2, 0, e);
    var s3 := Run(s2, a0);
    DeliversOne(s3, 1, e);
    RunConcat(s2, a0, a1);
    RunConcat(s, starts, a0 + a1);
    actions := starts + (a0 + a1);
    var emitted := Run(s, actions).emitted;
    assert emitted == [e.sequence, e.sequence];
    assert !(emitted[0] < emitted[1]);
  }

  lemma NoHandOvers(i: nat, e: Event)
    ensures HandOvers(FirstDelivery(i, e)) == 0
  {
    var a := FirstDelivery(i, e);
    NoneStarts(a);
  }

  lemma {:induction false} NoneStarts(a: seq<Action>)
    requires forall k :: 0 <= k < |a| ==> !a[k].StartReplay? && !a[k].StartPrompt?
    ensures HandOvers(a) == 0
  {
    if a != [] {
      NoneStarts(a[1..]);
    }
  }

  /** From a fresh session, runs with at most `n` hand-overs never repeat or reorder a notification if
      and only if the generations can tell that many hand-overs apart. */
  lemma NeverRepeatsExactly(s: State, n: nat)
    requires Fresh(s)
    ensures (forall actions :: HandOvers(actions) <= n ==> InOrder(s.binding.cursor, Run(s, actions).emitted))
            <==> n <= Allowance(s)
  {
    if n <= Allowance(s) {
      forall actions | HandOvers(actions) <= n ensures InOrder(s.binding.cursor, Run(s, actions).emitted) {
        RunKeeps(s.binding.cursor, s, actions);
      }
    } else {
      var actions := RepeatingRun(s);
      assert HandOvers(actions) <= n;
    }
  }

  lemma RepeatingRun(s: State) returns (actions: seq<Action>)
    requires Fresh(s)
    ensures HandOvers(actions) == Allowance(s) + 1
    ensures !InOrder(s.binding.cursor, Run(s, actions).emitted)
  {
    if s.binding.generation >= MAX_GENERATION - 1 {
      actions := SaturationRepeats(s);
    } else {
      var k := MAX_GENERATION - 1 - s.binding.generation;
      RepeatBumps(s, k);
      var rest := SaturationRepeats(Run(s, Repeat(k)));
      RunConcat(s, Repeat(k), rest);
      actions := Repeat(k) + rest;
    }
  }

  // ---- a superseded poller is silent ----

  ghost predicate Superseded(s: State, i: nat) {
    i < |s.pollers| && s.pollers[i].generation < s.binding.generation
  }

  ghost predicate ActsFor(a: Action, i: nat) {
    !a.StartReplay? && !a.StartPrompt? && !a.Cancel? && a.poller == i
  }

  lemma SupersededStays(s: State, a: Action, i: nat)
    requires Superseded(s, i)
    ensures Superseded(Step(s, a), i)
    ensures ActsFor(a, i) ==> Step(s, a).emitted == s.emitted && Step(s, a).binding == s.binding
  {
  }

  /** However often the stream is handed on, a poller that lost it never emits again. */
  lemma {:induction false} SupersededIsSilent(s: State, actions: seq<Action>, i: nat, k: nat)
    requires Superseded(s, i) && k < |actions| && ActsFor(actions[k], i)
    ensures Run(s, actions[..k + 1]).emitted == Run(s, actions[..k]).emitted
    decreases k
  {
    hide Step, Superseded;
    SupersededStays(s, actions[0], i);
    if k == 0 {
      assert actions[..1][1..] == [] && actions[..0] == [];
      assert Run(s, actions[..1]) == Run(Step(s, actions[0]), []);
    } else {
      SupersededIsSilent(Step(s, actions[0]), actions[1..], i, k - 1);
      assert actions[..k + 1][1..] == actions[1..][..k] && actions[..k][1..] == actions[1..][..k - 1];
    }
  }

  // ---- nothing is lost ----

  /** The sequence numbers from `lo` up to `hi` whose events render to a notification. */
  function Visible(log: nat -> bool, lo: nat, hi: nat): seq<nat>
    decreases hi - lo
  {
    if hi <= lo then []
    else Visible(log, lo, hi - 1) + if log(hi - 1) then [hi - 1] else []
  }

  /** The reply continues right after the cursor, without gaps. */
  predicate Continues(log: nat -> bool, cursor: Cursor, events: seq<Event>) {
    forall k :: 0 <= k < |events| ==> events[k] == Event(Next(cursor) + k, log(Next(cursor) + k))
  }

  ghost predicate Served(log: nat -> bool, s: State, a: Action) {
    a.Reply? && a.events.Some? && a.poller < |s.pollers| ==> Continues(log, s.pollers[a.poller].cursor, a.events.value)
  }

  ghost predicate AllServed(log: nat -> bool, s: State, actions: seq<Action>)
    decreases |actions|
  {
    actions == [] || (Served(log, s, actions[0]) && AllServed(log, Step(s, actions[0]), actions[1..]))
  }

  ghost predicate Complete(log: nat -> bool, start: Cursor, s: State) {
    && Next(start) <= Next(s.binding.cursor)
    && s.emitted == Visible(log, Next(start), Next(s.binding.cursor))
    && forall i :: 0 <= i < |s.pollers| ==> Continues(log, s.pollers[i].cursor, s.pollers[i].batch)
  }

  lemma DeliverCompletes(log: nat -> bool, start: Cursor, s: State, i: nat, framed: bool, sent: bool)
    requires Inv(start, s) && Complete(log, start, s) && At(s, i, Locking) && s.pollers[i].batch != []
    ensures Complete(log, start, DeliverStep(s, i, framed, sent))
  {
    var p := s.pollers[i];
    assert Continues(log, p.cursor, p.batch);
    var next := DeliverStep(s, i, framed, sent);
    forall j | 0 <= j < |next.pollers| ensures Continues(log, next.pollers[j].cursor, next.pollers[j].batch) {
      assert Continues(log, s.pollers[j].cursor, s.pollers[j].batch);
    }
  }

  /** Only a delivery moves the cursor or emits. */
  lemma OnlyDeliveryMoves(s: State, a: Action)
    requires PollersOk(s.binding, s.pollers) && !a.Deliver?
    ensures Step(s, a).binding.cursor == s.binding.cursor && Step(s, a).emitted == s.emitted
  {
    if (a.PollLive? || a.Finish?) && a.poller < |s.pollers| {
      assert PollerOk(s.binding, s.pollers[a.poller]);
    }
  }

  lemma BatchContinues(log: nat -> bool, s: State, a: Action, j: nat)
    requires Served(log, s, a) && !a.Deliver? && j < |Step(s, a).pollers|
    requires j < |s.pollers| ==> Continues(log, s.pollers[j].cursor, s.pollers[j].batch)
    ensures Continues(log, Step(s, a).pollers[j].cursor, Step(s, a).pollers[j].batch)
  {
    if a.StartReplay? || a.StartPrompt? || a.Cancel? || j != a.poller {
      assert j < |s.pollers| ==> Step(s, a).pollers[j] == s.pollers[j];
    } else if !a.Reply? {
      var p := s.pollers[j];
      assert p.batch != [] ==> p.batch[0].sequence == Next(p.cursor);
      assert Step(s, a).pollers[j].batch == p.batch && Step(s, a).pollers[j].cursor == p.cursor;
    }
  }

  lemma SkipCompletes(log: nat -> bool, start: Cursor, s: State, a: Action)
    requires Inv(start, s) && Complete(log, start, s) && Served(log, s, a) && !a.Deliver?
    ensures Complete(log, start, Step(s, a))
  {
    hide Step, PollersOk, Served, Continues;
    OnlyDeliveryMoves(s, a);
    forall j | 0 <= j < |Step(s, a).pollers|
      ensures Continues(log, Step(s, a).pollers[j].cursor, Step(s, a).pollers[j].batch)
    {
      BatchContinues(log, s, a, j);
    }
  }

  lemma {:induction false} RunCompletes(log: nat -> bool, start: Cursor, s: State, actions: seq<Action>)
    requires Inv(start, s) && Complete(log, start, s)
    requires AllServed(log, s, actions) && HandOvers(actions) <= Allowance(s)
    ensures Complete(log, start, Run(s, actions))
    decreases |actions|
  {
    hide Inv, Step, Allowance, Complete, Served;
    if actions != [] {
      StepKeeps(start, s, actions[0]);
      StepCompletes(log, start, s, actions[0]);
      RunCompletes(log, start, Step(s, actions[0]), actions[1..]);
    }
  }

  lemma StepCompletes(log: nat -> bool, start: Cursor, s: State, a: Action)
    requires Inv(start, s) && Complete(log, start, s) && Served(log, s, a)
    ensures Complete(log, start, Step(s, a))
  {
    hide Inv, Complete, Served, DeliverStep;
    if a.Deliver? {
      if At(s, a.poller, Locking) && s.pollers[a.poller].batch != [] {
        DeliverCompletes(log, start, s, a.poller, a.framed, a.sent);
      }
    } else {
      SkipCompletes(log, start, s, a);
    }
  }

  /** With gap-free replies, the notifications are exactly the visible events up to the cursor, in
      order, however the hand-overs and failures fall. */
  lemma NothingLost(log: nat -> bool, s: State, actions: seq<Action>)
    requires Fresh(s) && AllServed(log, s, actions) && HandOvers(actions) <= Allowance(s)
    ensures var end := Run(s, actions);
            end.emitted == Visible(log, Next(s.binding.cursor), Next(end.binding.cursor))
  {
    RunCompletes(log, s.binding.cursor, s, actions);
  }

  lemma {:induction false} VisibleExactly(log: nat -> bool, lo: nat, hi: nat, n: nat)
    ensures n in Visible(log, lo, hi) <==> lo <= n < hi && log(n)
    decreases hi
  {
    if lo < hi {
      VisibleExactly(log, lo, hi - 1, n);
    }
  }
}
