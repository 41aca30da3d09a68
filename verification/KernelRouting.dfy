/** Routing of provider events to the sessions that own them, with bounded backlogs. */
module KernelRouting {
  import opened Prelude
  import opened MapSums

  const ROUTED_EVENT_CAPACITY: nat := 1_024
  const ROUTED_EVENTS_PER_SESSION: nat := 256

  function SaturatingSub(a: nat, b: nat): nat {
    if a >= b then a - b else 0
  }

  function Get<E>(m: map<nat, seq<E>>, session: nat): seq<E> {
    if session in m then m[session] else []
  }

  ghost function QueueLengths<E>(queues: map<nat, seq<E>>): map<nat, nat> {
    map session | session in queues :: |queues[session]|
  }

  lemma LengthsAfterPush<E>(queues: map<nat, seq<E>>, session: nat, event: E)
    ensures var grown := queues[session := Get(queues, session) + [event]];
            Sum(QueueLengths(grown)) == Sum(QueueLengths(queues)) + 1
  {
    var length := |Get(queues, session)| + 1;
    var grown := queues[session := Get(queues, session) + [event]];
    assert QueueLengths(grown) == QueueLengths(queues)[session := length];
    if session in queues {
      SumReplace(QueueLengths(queues), session, length);
    } else {
      SumAdd(QueueLengths(queues), session, length);
    }
  }

  lemma LengthsAfterRemoval<E>(queues: map<nat, seq<E>>, session: nat)
    requires session in queues
    ensures Sum(QueueLengths(queues)) >= |queues[session]|
    ensures Sum(QueueLengths(queues - {session})) == Sum(QueueLengths(queues)) - |queues[session]|
  {
    assert QueueLengths(queues - {session}) == QueueLengths(queues) - {session};
    SumRemove(QueueLengths(queues), session);
  }

  lemma LengthsAfterPop<E>(queues: map<nat, seq<E>>, session: nat)
    requires session in queues && queues[session] != []
    ensures Sum(QueueLengths(queues)) >= 1
    ensures Sum(QueueLengths(queues[session := queues[session][1..]])) == Sum(QueueLengths(queues)) - 1
  {
    var length := |queues[session]| - 1;
    assert QueueLengths(queues[session := queues[session][1..]]) == QueueLengths(queues)[session := length];
    SumReplace(QueueLengths(queues), session, length);
  }

  /** Session by session: what was delivered is what was handed over, then what is queued. */
  ghost predicate InOrder<E>(owned: map<nat, seq<E>>, handled: map<nat, seq<E>>, queues: map<nat, seq<E>>,
                             overflowed: set<nat>)
  {
    forall session :: session !in overflowed ==>
      Get(owned, session) == Get(handled, session) + Get(queues, session)
  }

  ghost predicate SameElsewhere<E>(queues: map<nat, seq<E>>, after: map<nat, seq<E>>, session: nat) {
    forall other :: other != session ==> Get(after, other) == Get(queues, other)
  }

  lemma WithoutQueue<E>(queues: map<nat, seq<E>>, session: nat)
    ensures Get(queues - {session}, session) == [] && SameElsewhere(queues, queues - {session}, session)
  {
  }

  lemma WithQueue<E>(queues: map<nat, seq<E>>, session: nat, queue: seq<E>)
    ensures Get(queues[session := queue], session) == queue
    ensures SameElsewhere(queues, queues[session := queue], session)
  {
  }

  lemma PopKeepsOrder<E>(owned: map<nat, seq<E>>, handled: map<nat, seq<E>>, queues: map<nat, seq<E>>,
                         overflowed: set<nat>, session: nat, first: E, after: map<nat, seq<E>>)
    requires InOrder(owned, handled, queues, overflowed)
    requires [first] + Get(after, session) == Get(queues, session) && SameElsewhere(queues, after, session)
    ensures InOrder(owned, handled[session := Get(handled, session) + [first]], after, overflowed)
  {
    Reassociate(Get(handled, session), first, Get(after, session));
  }

  lemma Reassociate<E>(front: seq<E>, middle: E, back: seq<E>)
    ensures front + [middle] + back == front + ([middle] + back)
  {
  }

  lemma PushKeepsOrder<E>(owned: map<nat, seq<E>>, handled: map<nat, seq<E>>, queues: map<nat, seq<E>>,
                          overflowed: set<nat>, session: nat, event: E)
    requires InOrder(owned, handled, queues, overflowed)
    ensures InOrder(owned[session := Get(owned, session) + [event]], handled,
                    queues[session := Get(queues, session) + [event]], overflowed)
  {
    assert Get(handled, session) + (Get(queues, session) + [event])
        == Get(handled, session) + Get(queues, session) + [event];
  }

  /** After an overflow nothing is claimed about the session any more. */
  lemma OverflowKeepsOrder<E>(owned: map<nat, seq<E>>, handled: map<nat, seq<E>>, queues: map<nat, seq<E>>,
                              overflowed: set<nat>, session: nat, event: E, after: map<nat, seq<E>>)
    requires InOrder(owned, handled, queues, overflowed) && (after == queues || SameElsewhere(queues, after, session))
    ensures InOrder(owned[session := Get(owned, session) + [event]], handled, after, overflowed + {session})
  {
  }

  lemma DirectKeepsOrder<E>(owned: map<nat, seq<E>>, handled: map<nat, seq<E>>, queues: map<nat, seq<E>>,
                            overflowed: set<nat>, session: nat, event: E)
    requires InOrder(owned, handled, queues, overflowed) && Get(queues, session) == []
    ensures InOrder(owned[session := Get(owned, session) + [event]],
                    handled[session := Get(handled, session) + [event]], queues, overflowed)
  {
    assert Get(handled, session) + [event] + [] == Get(handled, session) + [] + [event];
  }

  // ---- the backlog as a value ----

  datatype Backlog<E> = Backlog(queues: map<nat, seq<E>>, count: nat, failures: set<nat>)

  /** The session is not flagged, and it or the whole backlog is at its limit. */
  predicate Full<E>(b: Backlog<E>, session: nat) {
    && session !in b.failures
    && (b.count >= ROUTED_EVENT_CAPACITY || |Get(b.queues, session)| >= ROUTED_EVENTS_PER_SESSION)
  }

  /** An event for the session: ignored when it is flagged, else queued, else its backlog is dropped. */
  function Routed<E>(b: Backlog<E>, session: nat, event: E): Backlog<E> {
    if session in b.failures then b
    else if Full(b, session) then
      Backlog(b.queues - {session}, SaturatingSub(b.count, |Get(b.queues, session)|), b.failures + {session})
    else
      b.(queues := b.queues[session := Get(b.queues, session) + [event]], count := b.count + 1)
  }

  /** The oldest event of the session is taken. */
  function Popped<E>(b: Backlog<E>, session: nat): Backlog<E> {
    if Get(b.queues, session) == [] then b
    else
      var rest := b.queues[session][1..];
      b.(queues := if rest == [] then b.queues - {session} else b.queues[session := rest],
         count := SaturatingSub(b.count, 1))
  }

  function Cleared<E>(b: Backlog<E>, session: nat): Backlog<E> {
    b.(failures := b.failures - {session})
  }

  /** The backlog counter is exact and within both limits. */
  ghost predicate Counted<E>(queues: map<nat, seq<E>>, count: nat) {
    && count == Sum(QueueLengths(queues)) && count <= ROUTED_EVENT_CAPACITY
    && (forall session :: session in queues ==> 1 <= |queues[session]| <= ROUTED_EVENTS_PER_SESSION)
  }

  /** A session overflows exactly when 1024 events are queued in all or 256 for it. */
  lemma FullExactly<E>(b: Backlog<E>, session: nat)
    requires Counted(b.queues, b.count)
    ensures Full(b, session) <==>
              session !in b.failures && (b.count == 1024 || (session in b.queues && |b.queues[session]| == 256))
  {
  }

  lemma PopKeepsCount<E>(queues: map<nat, seq<E>>, count: nat, session: nat)
    requires Counted(queues, count) && session in queues
    ensures count >= 1
    ensures var rest := queues[session][1..];
            Counted(if rest == [] then queues - {session} else queues[session := rest], count - 1)
  {
    var rest := queues[session][1..];
    if rest == [] {
      LengthsAfterRemoval(queues, session);
    } else {
      LengthsAfterPop(queues, session);
    }
  }

  lemma PushKeepsCount<E>(queues: map<nat, seq<E>>, count: nat, session: nat, event: E)
    requires Counted(queues, count) && count < ROUTED_EVENT_CAPACITY
    requires |Get(queues, session)| < ROUTED_EVENTS_PER_SESSION
    ensures Counted(queues[session := Get(queues, session) + [event]], count + 1)
  {
    LengthsAfterPush(queues, session, event);
  }

  lemma DropKeepsCount<E>(queues: map<nat, seq<E>>, count: nat, session: nat)
    requires Counted(queues, count) && session in queues
    ensures count >= |queues[session]| && Counted(queues - {session}, count - |queues[session]|)
  {
    LengthsAfterRemoval(queues, session);
  }

  class EventRouter<E> {
    var queues: map<nat, seq<E>>
    var count: nat
    var failures: set<nat>
    /** Per session: the events the provider delivered for it, and those handed to its turn. */
    ghost var owned: map<nat, seq<E>>
    ghost var handled: map<nat, seq<E>>
    ghost var overflowed: set<nat>

    /** The bounded queues implement one unbounded FIFO per session that never overflowed. */
    ghost predicate Valid()
      reads this
    {
      && Counted(queues, count)
      && failures !! queues.Keys
      && failures <= overflowed
      && InOrder(owned, handled, queues, overflowed)
    }

    function State(): Backlog<E>
      reads `queues, `count, `failures
    {
      Backlog(queues, count, failures)
    }

    constructor ()
      ensures Valid() && State() == Backlog(map[], 0, {}) && queues == map[] && failures == {} && overflowed == {}
      ensures owned == map[] && handled == map[]
    {
      queues, count, failures := map[], 0, {};
      owned, handled, overflowed := map[], map[], {};
    }

    /** `routed_failures.remove`: forgets an overflow that is now being reported. */
    method ClearFailure(session: nat) returns (failed: bool)
      requires Valid()
      modifies this`failures
      ensures Valid() && failed == (session in old(failures)) && State() == Cleared(old(State()), session)
    {
      failed := session in failures;
      failures := failures - {session};
    }

    /** The oldest queued event of the session, if any. */
    method TakeRoutedEvent(session: nat) returns (event: Option<E>)
      requires Valid()
      modifies this`queues, this`count, this`handled
      ensures Valid()
      ensures event.None? <==> Get(old(queues), session) == []
      ensures State() == Popped(old(State()), session)
      ensures event.None? ==> queues == old(queues) && handled == old(handled)
      ensures event.Some? ==>
                && SameElsewhere(old(queues), queues, session)
                && [event.value] + Get(queues, session) == Get(old(queues), session)
                && handled == old(handled)[session := Get(old(handled), session) + [event.value]]
    {
      if session !in queues {
        return None;
      }
      PopKeepsCount(queues, count, session);
      var first, rest := queues[session][0], queues[session][1..];
      var after := if rest == [] then queues - {session} else queues[session := rest];
      assert [first] + rest == queues[session];
      WithoutQueue(queues, session);
      WithQueue(queues, session, rest);
      PopKeepsOrder(owned, handled, queues, overflowed, session, first, after);
      hide Counted, InOrder, SameElsewhere;
      count := SaturatingSub(count, 1);
      queues := after;
      handled := handled[session := Get(handled, session) + [first]];
      return Some(first);
    }

    /** An event of the session being driven, taken straight from the provider. Its queue is empty,
        so it is next in order. */
    ghost method TakeDirectly(session: nat, event: E)
      requires Valid() && Get(queues, session) == []
      modifies this`owned, this`handled
      ensures Valid()
      ensures owned == old(owned)[session := Get(old(owned), session) + [event]]
      ensures handled == old(handled)[session := Get(old(handled), session) + [event]]
    {
      hide Counted, InOrder;
      DirectKeepsOrder(owned, handled, queues, overflowed, session, event);
      owned := owned[session := Get(owned, session) + [event]];
      handled := handled[session := Get(handled, session) + [event]];
    }

    /** Queues an event for another session, or drops its backlog on overflow. */
    method RouteEvent(session: nat, event: E) returns (overflow: bool)
      requires Valid()
      modifies this`queues, this`count, this`failures, this`owned, this`overflowed
      ensures Valid()
      ensures owned == old(owned)[session := Get(old(owned), session) + [event]]
      ensures overflow <==> Full(old(State()), session)
      ensures State() == Routed(old(State()), session, event)
      ensures overflow ==> session in failures && Get(queues, session) == []
      ensures overflowed == if overflow then old(overflowed) + {session} else old(overflowed)
      ensures !overflow && session !in old(failures) ==> Get(queues, session) == Get(old(queues), session) + [event]
      ensures queues == old(queues) || SameElsewhere(old(queues), queues, session)
    {
      hide Counted, InOrder, SameElsewhere;
      ghost var delivered := owned[session := Get(owned, session) + [event]];
      if session in failures {
        OverflowKeepsOrder(owned, handled, queues, overflowed, session, event, queues);
        assert overflowed + {session} == overflowed;
        owned := delivered;
        return false;
      }
      if count >= ROUTED_EVENT_CAPACITY || |Get(queues, session)| >= ROUTED_EVENTS_PER_SESSION {
        WithoutQueue(queues, session);
        OverflowKeepsOrder(owned, handled, queues, overflowed, session, event, queues - {session});
        DropBacklog(session);
        owned, overflowed := delivered, overflowed + {session};
        return true;
      }
      PushKeepsCount(queues, count, session, event);
      PushKeepsOrder(owned, handled, queues, overflowed, session, event);
      WithQueue(queues, session, Get(queues, session) + [event]);
      owned := delivered;
      queues := queues[session := Get(queues, session) + [event]];
      count := count + 1;
      return false;
    }

    /** Discards a session's backlog and flags it. */
    method DropBacklog(session: nat)
      requires Counted(queues, count) && failures !! queues.Keys
      modifies this`queues, this`count, this`failures
      ensures Counted(queues, count) && queues == old(queues) - {session}
      ensures count == SaturatingSub(old(count), |Get(old(queues), session)|)
      ensures failures == old(failures) + {session} && failures !! queues.Keys
    {
      hide Counted;
      if session in queues {
        DropKeepsCount(queues, count, session);
        count := SaturatingSub(count, |queues[session]|);
        queues := queues - {session};
      } else {
        assert queues - {session} == queues;
      }
      failures := failures + {session};
    }
  }
}
