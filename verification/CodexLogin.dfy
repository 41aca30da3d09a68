/** What an authentication session can observe, and the history its invariants are stated over. */
module LoginHistory {
  import opened Prelude

  type LoginId = nat

  datatype AuthState = SignedOut | Pending | SignedIn(plan: nat)
  datatype Notification =
    | LoginCompleted(id: Option<LoginId>, success: bool)
    | AccountUpdated
    | ConfigWarning
    | RemoteControlStatus
  datatype Terminal = Terminal(id: LoginId, success: bool)
  datatype Lifecycle = Idle | AwaitingCompletion(id: LoginId) | CompletedAwaitingReload(id: LoginId)

  /** A notification taken from the sidecar (`None` when it does not parse), the finding that none is
      there, or an account read. */
  datatype Happening = Notified(notification: Option<Notification>) | Quiet | Account(state: AuthState)

  function Notifications(log: seq<Happening>): nat {
    if log == [] then 0
    else Notifications(log[..|log| - 1]) + if log[|log| - 1].Notified? then 1 else 0
  }

  lemma NotificationsAppend(log: seq<Happening>, h: Happening)
    ensures Notifications(log + [h]) == Notifications(log) + if h.Notified? then 1 else 0
  {
    assert (log + [h])[..|log|] == log;
  }

  /** The session as it stands while an operation is suspended, or when its verdict is cleared. */
  datatype Snapshot = Snapshot(lifecycle: Lifecycle, terminal: Option<Terminal>, cached: AuthState)

  ghost predicate Consistent(s: Snapshot) {
    && (s.lifecycle.CompletedAwaitingReload? ==> s.terminal == Some(Terminal(s.lifecycle.id, true)))
    && (!s.lifecycle.Idle? ==> s.cached == Pending)
  }

  /** A verdict is only ever followed by itself or by its clearing. */
  ghost predicate Settled(trace: seq<Snapshot>) {
    && (forall k :: 0 <= k < |trace| ==> Consistent(trace[k]))
    && (forall k :: 0 < k < |trace| && trace[k - 1].terminal.Some? ==>
          trace[k].terminal in {trace[k - 1].terminal, None})
  }

  function LastVerdict(trace: seq<Snapshot>): Option<Terminal> {
    if trace == [] then None else trace[|trace| - 1].terminal
  }

  /** Until it is cleared, a verdict names the same login and says the same. */
  lemma {:induction false} VerdictNeverFlips(trace: seq<Snapshot>, i: nat, j: nat)
    requires Settled(trace) && i <= j < |trace|
    requires forall k :: i <= k <= j ==> trace[k].terminal.Some?
    ensures trace[j].terminal == trace[i].terminal
    decreases j
  {
    if i < j {
      VerdictNeverFlips(trace, i, j - 1);
    }
  }

  /** While a completed login waits for its account, that login was reported successful. */
  lemma {:induction false} CompletedMeansSuccess(trace: seq<Snapshot>, i: nat, j: nat, id: LoginId)
    requires Settled(trace) && i <= j < |trace|
    requires forall k :: i <= k <= j ==> trace[k].terminal.Some?
    requires trace[j].lifecycle == CompletedAwaitingReload(id)
    ensures trace[i].terminal == Some(Terminal(id, true)) && trace[j].cached == Pending
  {
    VerdictNeverFlips(trace, i, j);
  }

  /** The account was read as this state, that was the latest read, and what was queued after it was
      taken up to the last notification. */
  ghost predicate Current(log: seq<Happening>, from: nat, state: AuthState) {
    ReadAs(log, from, state) && log[|log| - 1] == Quiet
  }

  /** The latest account read, at or after `from`, was this state. */
  ghost predicate ReadAs(log: seq<Happening>, from: nat, state: AuthState) {
    exists j :: from <= j < |log| && LatestRead(log, j, state)
  }

  ghost predicate LatestRead(log: seq<Happening>, j: nat, state: AuthState) {
    j < |log| && log[j] == Account(state) && forall k :: j < k < |log| ==> !log[k].Account?
  }

  /** A success completion for the login, later a signed-in account read that is current, and no failure
      completion for it, among what was observed from position `from` on. */
  ghost predicate Confirmed(log: seq<Happening>, from: nat, id: LoginId, state: AuthState) {
    exists i ::
      && from <= i < |log|
      && log[i] == Notified(Some(LoginCompleted(Some(id), true)))
      && Current(log, i, state)
      && Uncontradicted(log, from, id)
  }

  /** Only notifications that parse, then the finding that there are no more. */
  ghost predicate DrainedFrom(log: seq<Happening>, from: nat) {
    && from < |log| && log[|log| - 1] == Quiet
    && forall k :: from <= k < |log| - 1 ==> Parsed(log[k])
  }

  predicate Parsed(h: Happening) {
    h.Notified? && h.notification.Some?
  }

  /** No completion contradicts the verdict. */
  ghost predicate Agrees(log: seq<Happening>, from: nat, verdict: Option<Terminal>) {
    verdict.Some? ==>
      forall k :: from <= k < |log| ==>
        log[k] != Notified(Some(LoginCompleted(Some(verdict.value.id), !verdict.value.success)))
  }

  /** The queue drained, the account read once, the queue drained again. */
  ghost predicate ReadBetweenDrains(log: seq<Happening>, from: nat, state: AuthState) {
    exists j :: from < j < |log| && log[j] == Account(state) && DrainedFrom(log[..j], from) && DrainedFrom(log, j + 1)
  }

  ghost predicate Uncontradicted(log: seq<Happening>, from: nat, id: LoginId) {
    forall k :: from <= k < |log| ==>
      log[k] != Notified(Some(LoginCompleted(Some(id), false)))
  }

  lemma ConfirmedIntro(log: seq<Happening>, from: nat, id: LoginId, state: AuthState, i: nat)
    requires from <= i < |log| && log[i] == Notified(Some(LoginCompleted(Some(id), true)))
    requires Current(log, i + 1, state) && Uncontradicted(log, from, id)
    ensures Confirmed(log, from, id, state)
  {
    var j :| i + 1 <= j < |log| && LatestRead(log, j, state);
    assert Current(log, i, state);
  }

  lemma ConfirmedIsCurrent(log: seq<Happening>, from: nat, id: LoginId, state: AuthState)
    requires Confirmed(log, from, id, state)
    ensures Current(log, from, state)
  {
    var i :| && from <= i < |log| && log[i] == Notified(Some(LoginCompleted(Some(id), true)))
             && Current(log, i, state);
    var j :| i <= j < |log| && LatestRead(log, j, state);
  }

  /** A drain after an account read leaves it the latest. */
  lemma CurrentAfterDrain(before: seq<Happening>, state: AuthState, log: seq<Happening>, from: nat)
    requires from <= |before| && before + [Account(state)] <= log && DrainedFrom(log, |before| + 1)
    ensures Current(log, from, state)
  {
    assert log[|before|] == (before + [Account(state)])[|before|];
    assert LatestRead(log, |before|, state);
  }
}

/** The login lifecycle of the Codex authentication session. The sidecar is arbitrary: every request
    and every wait may fail, time out, be abandoned by the caller, or deliver anything. */
module CodexLogin {
  import opened Prelude
  import opened LoginHistory

  const MAX_NOTIFICATIONS_PER_OPERATION: nat := 32

  datatype Result<+T> = Ok(value: T) | Err

  /** What waiting for a notification brings. `Unavailable` is an error, or the operation being
      dropped at this point. */
  datatype Arrival = Unavailable | Nothing | Arrived(notification: Option<Notification>)

  datatype CancelStatus = Canceled | NotFound | Unknown

  /** One operation's budget. The deadline is reached after `ticks` more checks, for any `ticks`. */
  class NotificationOperation {
    var ticks: nat
    var consumed: nat

    constructor (ticks: nat)
      ensures this.ticks == ticks && consumed == 0
    {
      this.ticks := ticks;
      consumed := 0;
    }

    method CheckDeadline() returns (ok: bool)
      modifies `ticks
      ensures ok ==> ticks < old(ticks)
      ensures !ok ==> ticks == old(ticks)
    {
      ok := ticks > 0;
      if ok { ticks := ticks - 1; }
    }

    method ResetDeadline(ticks: nat)
      modifies `ticks
      ensures this.ticks == ticks
    {
      this.ticks := ticks;
    }

    /** The thirty-third notification is an error. */
    method ConsumeNotification() returns (ok: bool)
      modifies `ticks, `consumed
      ensures ok ==> consumed == old(consumed) + 1 <= MAX_NOTIFICATIONS_PER_OPERATION && ticks < old(ticks)
      ensures !ok ==> consumed in {old(consumed), old(consumed) + 1}
    {
      ok := CheckDeadline();
      if ok {
        consumed := consumed + 1;
        ok := consumed <= MAX_NOTIFICATIONS_PER_OPERATION;
      }
    }
  }

  class CodexAuth {
    var lifecycle: Lifecycle
    var terminal: Option<Terminal>
    var cached: AuthState
    var poisoned: bool
    ghost var log: seq<Happening>
    ghost var trace: seq<Snapshot>

    /** What holds at every suspension point, and so whenever an operation is abandoned. */
    ghost predicate Valid()
      reads this
    {
      && Sound()
      && (LastVerdict(trace).Some? ==> terminal == LastVerdict(trace))
    }

    ghost predicate Sound()
      reads this
    {
      && Consistent(Snapshot(lifecycle, terminal, cached))
      && (!lifecycle.Idle? && terminal.Some? ==> terminal.value.id == lifecycle.id)
      && (poisoned ==> lifecycle.Idle?)
      && Settled(trace)
    }

    constructor (state: AuthState)
      ensures Valid() && lifecycle.Idle? && cached == state && log == [] && trace == []
    {
      lifecycle, terminal, cached, poisoned := Idle, None, state, false;
      log, trace := [], [];
    }

    ghost method Note()
      requires Sound() && (LastVerdict(trace).Some? ==> terminal in {LastVerdict(trace), None})
      modifies `trace
      ensures Valid() && trace == old(trace) + [Snapshot(lifecycle, terminal, cached)]
    {
      trace := trace + [Snapshot(lifecycle, terminal, cached)];
    }

    // ---- the sidecar ----

    method NextNotification() returns (a: Arrival)
      requires Valid()
      modifies `trace, `log
      ensures Valid() && old(trace) < trace
      ensures log == if a.Arrived? then old(log) + [Notified(a.notification)]
                     else if a.Nothing? then old(log) + [Quiet] else old(log)
    {
      Note();
      a := *;
      if a.Arrived? { log := log + [Notified(a.notification)]; }
      if a.Nothing? { log := log + [Quiet]; }
    }

    method ReadAccount() returns (state: Option<AuthState>)
      requires Valid()
      modifies `trace, `log
      ensures Valid() && old(trace) < trace
      ensures state.Some? ==> state.value.SignedOut? || state.value.SignedIn?
      ensures log == if state.Some? then old(log) + [Account(state.value)] else old(log)
    {
      Note();
      var answered: bool := *;
      var plan: Option<nat> := *;
      state := if !answered then None else if plan.Some? then Some(SignedIn(plan.value)) else Some(SignedOut);
      if state.Some? { log := log + [Account(state.value)]; }
    }

    /** Any other request. */
    method Request() returns (ok: bool)
      requires Valid()
      modifies `trace
      ensures Valid() && old(trace) < trace
    {
      Note();
      ok := *;
    }

    // ---- verdicts ----

    method RecordTerminal(record: Terminal) returns (ok: bool)
      modifies `terminal
      ensures ok <==>
                old(terminal).Some? && old(terminal).value.id == record.id ==>
                  old(terminal).value.success == record.success
      ensures terminal == if ok then Some(record) else old(terminal)
    {
      if terminal.Some? && terminal.value.id == record.id {
        return terminal.value.success == record.success;
      }
      terminal := Some(record);
      return true;
    }

    /** A notification taken while login `id` is being confirmed: failure completions are refused. */
    method ConfirmingNotification(id: LoginId, notification: Option<Notification>) returns (ok: bool)
      requires Valid() && (terminal.Some? ==> terminal.value.id == id)
      modifies `terminal
      ensures ok ==> terminal == match notification
                                 case Some(LoginCompleted(Some(other), success)) =>
                                   if other == id then Some(Terminal(id, success)) else old(terminal)
                                 case _ => old(terminal)
      ensures notification.None? || (notification.value.LoginCompleted? && notification.value.id.None?) ==> !ok
      ensures !ok ==> terminal == old(terminal)
      ensures old(terminal).Some? ==> terminal == old(terminal)
    {
      match notification
      case Some(LoginCompleted(Some(other), success)) =>
        if other != id { return true; }
        ok := RecordTerminal(Terminal(id, success));
      case Some(LoginCompleted(None, _)) => return false;
      case Some(_) => return true;
      case None => return false;
    }

    // ---- waiting ----

    /** Takes what is queued; ends when nothing is. */
    method DrainConfirmation(id: LoginId, operation: NotificationOperation) returns (ok: bool)
      requires Valid() && !lifecycle.Idle? && lifecycle.id == id
      requires operation.consumed <= MAX_NOTIFICATIONS_PER_OPERATION
      modifies `terminal, `trace, `log, operation
      ensures Valid() && old(trace) <= trace && old(log) <= log
      ensures old(terminal).Some? ==> terminal == old(terminal)
      ensures Notifications(log) - Notifications(old(log)) <=
              MAX_NOTIFICATIONS_PER_OPERATION + 1 - old(operation.consumed)
      ensures ok ==>
                && old(operation.consumed) <= operation.consumed <= MAX_NOTIFICATIONS_PER_OPERATION
                && Notifications(log) == Notifications(old(log)) + (operation.consumed - old(operation.consumed))
      ensures ok && terminal == Some(Terminal(id, true)) ==> Uncontradicted(log, |old(log)|, id)
      ensures ok ==> DrainedFrom(log, |old(log)|)
    {
      hide Settled, Notifications;
      ghost var start := operation.consumed;
      while true
        invariant Valid() && !lifecycle.Idle? && lifecycle.id == id
        invariant old(trace) <= trace && old(log) <= log
        invariant old(terminal).Some? ==> terminal == old(terminal)
        invariant start <= operation.consumed <= MAX_NOTIFICATIONS_PER_OPERATION
        invariant Notifications(log) == Notifications(old(log)) + (operation.consumed - start)
        invariant forall k :: |old(log)| <= k < |log| && log[k] == Notified(Some(LoginCompleted(Some(id), false))) ==>
                    terminal == Some(Terminal(id, false))
        invariant forall k :: |old(log)| <= k < |log| ==> Parsed(log[k])
        decreases operation.ticks
      {
        ok := operation.CheckDeadline();
        if !ok { return; }
        ghost var before := log;
        var a := NextNotification();
        if a.Unavailable? { return false; }
        if a.Nothing? {
          NotificationsAppend(before, Quiet);
          return true;
        }
        NotificationsAppend(before, Notified(a.notification));
        ok := operation.ConsumeNotification();
        if !ok { return; }
        ok := ConfirmingNotification(id, a.notification);
        if !ok { return; }
      }
      assert false;
    }

    /** While idle, a completion only matters if it contradicts the verdict on record. */
    method DrainIdle(operation: NotificationOperation) returns (ok: bool)
      requires Valid() && operation.consumed <= MAX_NOTIFICATIONS_PER_OPERATION
      modifies `terminal, `trace, `log, operation
      ensures Valid() && old(trace) <= trace && old(log) <= log
      ensures terminal == old(terminal)
      ensures Notifications(log) - Notifications(old(log)) <=
              MAX_NOTIFICATIONS_PER_OPERATION + 1 - old(operation.consumed)
      ensures ok ==>
                && old(operation.consumed) <= operation.consumed <= MAX_NOTIFICATIONS_PER_OPERATION
                && Notifications(log) == Notifications(old(log)) + (operation.consumed - old(operation.consumed))
                && DrainedFrom(log, |old(log)|) && Agrees(log, |old(log)|, terminal)
    {
      hide Settled, Notifications;
      ghost var start := operation.consumed;
      while true
        invariant Valid() && old(trace) <= trace && old(log) <= log && terminal == old(terminal)
        invariant forall k :: |old(log)| <= k < |log| ==> Parsed(log[k])
        invariant Agrees(log, |old(log)|, terminal)
        invariant start <= operation.consumed <= MAX_NOTIFICATIONS_PER_OPERATION
        invariant Notifications(log) == Notifications(old(log)) + (operation.consumed - start)
        decreases operation.ticks
      {
        ok := operation.CheckDeadline();
        if !ok { return; }
        ghost var before := log;
        var a := NextNotification();
        if a.Unavailable? { return false; }
        if a.Nothing? {
          NotificationsAppend(before, Quiet);
          return true;
        }
        NotificationsAppend(before, Notified(a.notification));
        ok := operation.ConsumeNotification();
        if !ok { return; }
        match a.notification
        case Some(LoginCompleted(Some(id), success)) =>
          if terminal.Some? && terminal.value.id == id {
            ok := RecordTerminal(Terminal(id, success));
            if !ok { return; }
          }
        case Some(_) =>
        case None => return false;
      }
      assert false;
    }

    /** The account is signed in: take what is still queued and settle. */
    method Settle(id: LoginId, state: AuthState, operation: NotificationOperation) returns (ok: bool)
      requires Valid() && lifecycle == CompletedAwaitingReload(id) && state.SignedIn?
      requires operation.consumed <= MAX_NOTIFICATIONS_PER_OPERATION
      modifies this, operation
      ensures Valid() && old(trace) <= trace && old(log) <= log
      ensures terminal == old(terminal) && poisoned == old(poisoned)
      ensures Notifications(log) - Notifications(old(log)) <=
              MAX_NOTIFICATIONS_PER_OPERATION + 1 - old(operation.consumed)
      ensures ok ==>
                && lifecycle.Idle? && cached == state
                && old(operation.consumed) <= operation.consumed <= MAX_NOTIFICATIONS_PER_OPERATION
                && Notifications(log) == Notifications(old(log)) + (operation.consumed - old(operation.consumed))
                && Uncontradicted(log, |old(log)|, id) && DrainedFrom(log, |old(log)|)
      ensures !ok ==> lifecycle == old(lifecycle) && cached == old(cached)
    {
      ok := DrainConfirmation(id, operation);
      if ok {
        lifecycle := Idle;
        cached := state;
      }
    }

    /** Not signed in yet: wait a retry interval for a notification. */
    method AwaitRetry(id: LoginId, operation: NotificationOperation) returns (ok: bool)
      requires Valid() && lifecycle == CompletedAwaitingReload(id)
      requires operation.consumed <= MAX_NOTIFICATIONS_PER_OPERATION
      modifies `trace, `log, `terminal, operation
      ensures Valid() && old(trace) <= trace && old(log) <= log && terminal == old(terminal)
      ensures Notifications(log) <= Notifications(old(log)) + 1
      ensures ok ==>
                && old(operation.consumed) <= operation.consumed <= MAX_NOTIFICATIONS_PER_OPERATION
                && Notifications(log) == Notifications(old(log)) + (operation.consumed - old(operation.consumed))
                && Uncontradicted(log, |old(log)|, id) && operation.ticks <= old(operation.ticks)
    {
      var a := NextNotification();
      if a.Unavailable? { return false; }
      if a.Nothing? {
        NotificationsAppend(old(log), Quiet);
        return true;
      }
      NotificationsAppend(old(log), Notified(a.notification));
      ok := operation.ConsumeNotification();
      if !ok { return; }
      ok := ConfirmingNotification(id, a.notification);
    }

    /** Reads the account until it is signed in, for a login already reported successful. A failure
        leaves the login waiting, to be confirmed by a later call. */
    method ConfirmLogin(id: LoginId, operation: NotificationOperation) returns (r: Result<AuthState>)
      requires Valid() && lifecycle == CompletedAwaitingReload(id)
      requires operation.consumed <= MAX_NOTIFICATIONS_PER_OPERATION
      modifies this, operation
      ensures Valid() && old(trace) <= trace && old(log) <= log
      ensures terminal == old(terminal) == Some(Terminal(id, true)) && poisoned == old(poisoned)
      ensures Notifications(log) - Notifications(old(log)) <=
              MAX_NOTIFICATIONS_PER_OPERATION + 1 - old(operation.consumed)
      ensures r.Ok? ==>
                && r.value.SignedIn? && lifecycle.Idle? && cached == r.value
                && old(operation.consumed) <= operation.consumed <= MAX_NOTIFICATIONS_PER_OPERATION
                && Notifications(log) == Notifications(old(log)) + (operation.consumed - old(operation.consumed))
                && Uncontradicted(log, |old(log)|, id) && Current(log, |old(log)|, r.value)
      ensures r.Err? ==> lifecycle == old(lifecycle) && cached == Pending
    {
      hide Settled, Notifications;
      ghost var start := operation.consumed;
      while true
        invariant Valid() && lifecycle == CompletedAwaitingReload(id)
        invariant terminal == old(terminal) && poisoned == old(poisoned)
        invariant old(trace) <= trace && old(log) <= log
        invariant start <= operation.consumed <= MAX_NOTIFICATIONS_PER_OPERATION
        invariant Notifications(log) == Notifications(old(log)) + (operation.consumed - start)
        invariant Uncontradicted(log, |old(log)|, id)
        decreases operation.ticks
      {
        var ok := operation.CheckDeadline();
        if !ok { return Err; }
        ghost var before := log;
        var state := ReadAccount();
        if state.None? { return Err; }
        NotificationsAppend(before, Account(state.value));
        if state.value.SignedIn? {
          ok := Settle(id, state.value, operation);
          if !ok { return Err; }
          CurrentAfterDrain(before, state.value, log, |old(log)|);
          return Ok(state.value);
        }
        ok := AwaitRetry(id, operation);
        if !ok { return Err; }
      }
      assert false;
    }

    /** Waits for the completion of login `id`, then confirms it. */
    method AwaitLoginCompletion(id: LoginId, ticks: nat, confirmationTicks: nat) returns (r: Result<AuthState>)
      requires Valid() && lifecycle == AwaitingCompletion(id) && !poisoned
      modifies this
      ensures Valid() && old(trace) <= trace && old(log) <= log && !poisoned
      ensures Notifications(log) <= Notifications(old(log)) + MAX_NOTIFICATIONS_PER_OPERATION + 1
      ensures r.Ok? ==>
                && r.value.SignedIn? && lifecycle.Idle? && cached == r.value
                && terminal == Some(Terminal(id, true))
                && Confirmed(log, |old(log)|, id, r.value)
                && Notifications(log) <= Notifications(old(log)) + MAX_NOTIFICATIONS_PER_OPERATION
      ensures r.Err? ==>
                || lifecycle in {AwaitingCompletion(id), CompletedAwaitingReload(id)}
                || (lifecycle.Idle? && cached == SignedOut && terminal == Some(Terminal(id, false)))
    {
      hide Settled, Notifications;
      var operation := new NotificationOperation(ticks);
      while true
        invariant Valid() && lifecycle == AwaitingCompletion(id) && !poisoned && fresh(operation)
        invariant old(trace) <= trace && old(log) <= log
        invariant operation.consumed <= MAX_NOTIFICATIONS_PER_OPERATION
        invariant Notifications(log) == Notifications(old(log)) + operation.consumed
        invariant forall k :: |old(log)| <= k < |log| ==> !log[k].Account?
        invariant Uncontradicted(log, |old(log)|, id)
        decreases operation.ticks
      {
        var ok := operation.CheckDeadline();
        if !ok { return Err; }
        ghost var before := log;
        var a := NextNotification();
        if !a.Arrived? {
          NotificationsAppend(before, Quiet);
          return Err;
        }
        NotificationsAppend(before, Notified(a.notification));
        if a.notification.None? { return Err; }
        ok := operation.ConsumeNotification();
        if !ok { return Err; }
        match a.notification.value
        case LoginCompleted(None, _) => return Err;
        case LoginCompleted(Some(other), success) =>
          if other == id {
            r := Complete(id, success, operation, confirmationTicks, |old(log)|);
            return;
          }
        case _ =>
      }
      assert false;
    }

    /** The awaited completion has arrived. */
    method Complete(id: LoginId, success: bool, operation: NotificationOperation, ticks: nat, ghost from: nat)
      returns (r: Result<AuthState>)
      requires Valid() && lifecycle == AwaitingCompletion(id) && !poisoned
      requires 0 < operation.consumed <= MAX_NOTIFICATIONS_PER_OPERATION
      requires from < |log| && log[|log| - 1] == Notified(Some(LoginCompleted(Some(id), success)))
      requires success ==> Uncontradicted(log, from, id)
      modifies this, operation
      ensures Valid() && old(trace) <= trace && old(log) <= log && !poisoned
      ensures Notifications(log) - Notifications(old(log)) <=
              MAX_NOTIFICATIONS_PER_OPERATION + 1 - old(operation.consumed)
      ensures r.Ok? ==>
                && r.value.SignedIn? && lifecycle.Idle? && cached == r.value && terminal == Some(Terminal(id, true))
                && Confirmed(log, from, id, r.value)
                && operation.consumed <= MAX_NOTIFICATIONS_PER_OPERATION
                && Notifications(log) == Notifications(old(log)) + (operation.consumed - old(operation.consumed))
      ensures r.Err? ==>
                || lifecycle in {AwaitingCompletion(id), CompletedAwaitingReload(id)}
                || (lifecycle.Idle? && cached == SignedOut && terminal == Some(Terminal(id, false)))
    {
      var ok := RecordTerminal(Terminal(id, success));
      if !ok { return Err; }
      if !success {
        lifecycle := Idle;
        cached := SignedOut;
        return Err;
      }
      lifecycle := CompletedAwaitingReload(id);
      operation.ResetDeadline(ticks);
      ghost var i := |log| - 1;
      r := ConfirmLogin(id, operation);
      if r.Ok? {
        ConfirmedIntro(log, from, id, r.value, i);
      }
    }

    // ---- operations ----

    /** The authentication state: always that of the latest account read of this call, with what was queued
        after it taken. On an awaiting login, signed in only after that very login was reported successful
        and the account was then read as signed in. */
    method QueryState(ticks: nat, confirmationTicks: nat) returns (r: Result<AuthState>)
      requires Valid()
      modifies this
      ensures Valid() && old(trace) <= trace && old(log) <= log && poisoned == old(poisoned)
      ensures r.Ok? ==> !poisoned && lifecycle.Idle? && cached == r.value
      ensures Notifications(log) <= Notifications(old(log)) + MAX_NOTIFICATIONS_PER_OPERATION + 1
      ensures r.Ok? ==> Notifications(log) <= Notifications(old(log)) + MAX_NOTIFICATIONS_PER_OPERATION
      ensures r.Ok? && old(lifecycle).AwaitingCompletion? ==>
                && r.value.SignedIn? && terminal == Some(Terminal(old(lifecycle).id, true))
                && Confirmed(log, |old(log)|, old(lifecycle).id, r.value)
      ensures r.Ok? && old(lifecycle).CompletedAwaitingReload? ==>
                && r.value.SignedIn? && terminal == old(terminal)
                && Uncontradicted(log, |old(log)|, old(lifecycle).id)
      ensures r.Ok? && old(lifecycle).Idle? ==>
                && terminal == old(terminal) && ReadBetweenDrains(log, |old(log)|, r.value)
                && Agrees(log, |old(log)|, terminal)
      ensures r.Ok? ==> Current(log, |old(log)|, r.value)
      ensures r.Err? && old(lifecycle).Idle? ==> cached == old(cached) && terminal == old(terminal)
    {
      hide Settled, Notifications, Confirmed, Current, ReadBetweenDrains;
      if poisoned { return Err; }
      match lifecycle
      case Idle =>
        r := QueryIdle(ticks);
      case CompletedAwaitingReload(id) =>
        var operation := new NotificationOperation(confirmationTicks);
        r := ConfirmLogin(id, operation);
      case AwaitingCompletion(id) =>
        r := AwaitLoginCompletion(id, ticks, confirmationTicks);
        if r.Ok? { ConfirmedIsCurrent(log, |old(log)|, id, r.value); }
    }

    /** Two drains around one account read, on one budget. */
    method QueryIdle(ticks: nat) returns (r: Result<AuthState>)
      requires Valid() && lifecycle.Idle?
      modifies this
      ensures Valid() && old(trace) <= trace && old(log) <= log
      ensures lifecycle.Idle? && terminal == old(terminal) && poisoned == old(poisoned)
      ensures Notifications(log) <= Notifications(old(log)) + MAX_NOTIFICATIONS_PER_OPERATION + 1
      ensures r.Ok? ==> cached == r.value && ReadBetweenDrains(log, |old(log)|, r.value)
      ensures r.Ok? ==> Agrees(log, |old(log)|, terminal)
      ensures r.Ok? ==> Current(log, |old(log)|, r.value)
      ensures r.Err? ==> cached == old(cached)
      ensures r.Ok? ==> Notifications(log) <= Notifications(old(log)) + MAX_NOTIFICATIONS_PER_OPERATION
    {
      hide Settled, Notifications;
      var operation := new NotificationOperation(ticks);
      var ok := DrainIdle(operation);
      if !ok { return Err; }
      ghost var before := log;
      var state := ReadAccount();
      if state.None? { return Err; }
      NotificationsAppend(before, Account(state.value));
      ok := DrainIdle(operation);
      if !ok { return Err; }
      CurrentAfterDrain(before, state.value, log, |old(log)|);
      assert log[|before|] == Account(state.value) && log[..|before|] == before;
      cached := state.value;
      return Ok(state.value);
    }

    /** A new login starts with no verdict. */
    method StartLogin(supported: bool, id: LoginId) returns (r: Result<LoginId>)
      requires Valid()
      modifies this
      ensures Valid() && old(trace) <= trace && log == old(log)
      ensures r.Ok? ==>
                && old(lifecycle).Idle? && !old(poisoned) && supported && !poisoned
                && r.value == id && lifecycle == AwaitingCompletion(id) && terminal.None? && cached == Pending
      ensures r.Err? && !old(lifecycle).Idle? ==> lifecycle == old(lifecycle) && terminal == old(terminal)
      ensures r.Err? ==> lifecycle.Idle? || lifecycle == old(lifecycle)
    {
      if poisoned || !lifecycle.Idle? || !supported { return Err; }
      var ok := Request();
      if !ok {
        StopAndPoison();
        return Err;
      }
      var parsed: bool, recoverable: bool := *, *;
      if !parsed {
        var canceled := false;
        if recoverable { canceled := Request(); }
        if !canceled { StopAndPoison(); }
        return Err;
      }
      lifecycle := AwaitingCompletion(id);
      terminal := None;
      cached := Pending;
      Note();
      return Ok(id);
    }

    method StopAndPoison()
      requires Valid()
      modifies this
      ensures Valid() && old(trace) < trace && log == old(log)
      ensures poisoned && lifecycle.Idle? && terminal.None? && cached == old(cached)
    {
      poisoned := true;
      lifecycle := Idle;
      terminal := None;
      Note();
      var _ := Request();
    }

    /** The provider says the login is cancelled: a success completion still queued contradicts it. It is
        recorded, unless an earlier completion was, and it is an error. */
    method ReconcileCanceled(id: LoginId, operation: NotificationOperation) returns (ok: bool)
      requires Valid() && !lifecycle.Idle? && lifecycle.id == id
      modifies `terminal, `trace, `log, operation
      ensures Valid() && old(trace) <= trace && old(log) <= log
      ensures old(terminal).Some? ==> terminal == old(terminal)
      ensures ok ==> DrainedFrom(log, |old(log)|) && forall k :: |old(log)| <= k < |log| ==> Reconciled(id, log[k])
      ensures terminal != old(terminal) ==>
                terminal == Some(Terminal(id, false)) ||
                (terminal == Some(Terminal(id, true)) && !ok &&
                 log != [] && log[|log| - 1] == Notified(Some(LoginCompleted(Some(id), true))))
    {
      hide Settled;
      while true
        invariant Valid() && !lifecycle.Idle? && lifecycle.id == id
        invariant old(trace) <= trace && old(log) <= log
        invariant old(terminal).Some? ==> terminal == old(terminal)
        invariant terminal == old(terminal) || terminal == Some(Terminal(id, false))
        invariant forall k :: |old(log)| <= k < |log| ==> Parsed(log[k]) && Reconciled(id, log[k])
        decreases operation.ticks
      {
        ok := operation.CheckDeadline();
        if !ok { return; }
        var a := NextNotification();
        if a.Unavailable? { return false; }
        if a.Nothing? { return true; }
        ok := operation.ConsumeNotification();
        if !ok { return; }
        ok := ConfirmingNotification(id, a.notification);
        if !ok { return; }
        if a.notification == Some(LoginCompleted(Some(id), true)) { return false; }
      }
      assert false;
    }

    /** Nothing that contradicts the cancellation, and a failure is on record. */
    ghost predicate Reconciled(id: LoginId, h: Happening)
      reads `terminal
    {
      && h != Notified(Some(LoginCompleted(Some(id), true)))
      && (h == Notified(Some(LoginCompleted(Some(id), false))) ==> terminal == Some(Terminal(id, false)))
    }

    /** The provider no longer knows the login: it may have completed meanwhile. */
    method ReconcileNotFound(id: LoginId, ticks: nat) returns (ok: bool)
      requires Valid() && !lifecycle.Idle? && lifecycle.id == id
      modifies this
      ensures Valid() && old(trace) <= trace && old(log) <= log && poisoned == old(poisoned)
      ensures old(terminal).Some? ==> terminal == old(terminal)
      ensures ok ==> lifecycle.Idle? && cached != Pending && ReadAs(log, |old(log)|, cached)
      ensures !ok ==> !lifecycle.Idle? && lifecycle.id == id
      ensures ok && terminal == Some(Terminal(id, true)) ==> cached.SignedIn?
    {
      hide Settled, Notifications;
      var operation := new NotificationOperation(ticks);
      ok := DrainConfirmation(id, operation);
      if !ok { return; }
      if terminal == Some(Terminal(id, true)) {
        lifecycle := CompletedAwaitingReload(id);
        ghost var before := |log|;
        var r := ConfirmLogin(id, operation);
        if r.Ok? {
          ghost var j :| before <= j < |log| && LatestRead(log, j, r.value);
          assert ReadAs(log, |old(log)|, r.value);
        }
        return r.Ok?;
      }
      ghost var last := |log|;
      var state := ReadAccount();
      if state.None? { return false; }
      lifecycle := Idle;
      cached := state.value;
      assert LatestRead(log, last, cached);
    }

    /** A cancelled login ends with a failure verdict, and the state kept is that of the account read last.
        A login already reported successful is never turned into a failure. */
    method CancelLogin(ticks: nat) returns (ok: bool)
      requires Valid()
      modifies this
      ensures Valid() && old(trace) <= trace && old(log) <= log && poisoned == old(poisoned)
      ensures old(terminal).Some? ==> terminal == old(terminal)
      ensures ok ==> lifecycle.Idle?
      ensures ok && !old(lifecycle).Idle? ==> ReadAs(log, |old(log)|, cached)
      ensures !ok ==> cached == old(cached)
      ensures !ok && !old(lifecycle).Idle? && lifecycle.Idle? ==> terminal == Some(Terminal(old(lifecycle).id, false))
      ensures !old(lifecycle).Idle? && lifecycle.Idle? && terminal == Some(Terminal(old(lifecycle).id, true)) ==>
                cached.SignedIn?
    {
      hide Settled, Notifications;
      if poisoned { return false; }
      if lifecycle.Idle? { return true; }
      var id := lifecycle.id;
      ok := Request();
      if !ok { return; }
      var status: CancelStatus := *;
      match status
      case Unknown => return false;
      case NotFound => ok := ReconcileNotFound(id, ticks);
      case Canceled =>
        var operation := new NotificationOperation(ticks);
        ok := ReconcileCanceled(id, operation);
        if !ok { return; }
        ok := RecordTerminal(Terminal(id, false));
        if !ok { return; }
        lifecycle := Idle;
        ghost var last := |log|;
        var state := ReadAccount();
        if state.None? { return false; }
        cached := state.value;
        assert LatestRead(log, last, cached);
    }

    /** Logging out cancels a login first; if that fails the session is not used again. */
    method Logout(ticks: nat) returns (ok: bool)
      requires Valid()
      modifies this
      ensures Valid() && old(trace) <= trace && old(log) <= log
      ensures ok ==> lifecycle.Idle? && terminal.None? && cached == SignedOut && !poisoned
      ensures !ok && !old(poisoned) ==> lifecycle.Idle?
    {
      hide Settled, Notifications;
      if poisoned { return false; }
      var canceled := true;
      if !lifecycle.Idle? { canceled := CancelLogin(ticks); }
      ok := Request();
      if ok {
        lifecycle := Idle;
        terminal := None;
        cached := SignedOut;
        Note();
      }
      if !canceled { StopAndPoison(); }
      ok := ok && canceled;
    }

    method Shutdown()
      requires Valid()
      modifies this
      ensures Valid() && old(trace) < trace && log == old(log)
      ensures poisoned && lifecycle.Idle? && terminal.None? && cached == old(cached)
    {
      StopAndPoison();
    }
  }
}
