/** Every metric of a task as a count or a set over positions of its event stream. */
module MetricsByPosition {
  import opened Prelude
  import opened ReplayReference

  // ---- counting positions ----

  ghost function Positions(n: nat, at: int -> bool): set<int> {
    set k | 0 <= k < n && at(k)
  }

  lemma PositionsNext(n: nat, at: int -> bool)
    ensures |Positions(n + 1, at)| == |Positions(n, at)| + if at(n) then 1 else 0
  {
    assert Positions(n + 1, at) == Positions(n, at) + if at(n) then {n} else {};
  }

  lemma PositionsSame(n: nat, at: int -> bool, same: int -> bool)
    requires forall k :: 0 <= k < n ==> at(k) == same(k)
    ensures Positions(n, at) == Positions(n, same)
  {
  }

  ghost function Of(events: seq<Event>, kind: Event -> bool): int -> bool {
    k => 0 <= k < |events| && kind(events[k])
  }

  lemma {:induction false} CountPositions(events: seq<Event>, kind: Event -> bool)
    ensures Count(events, kind) == |Positions(|events|, Of(events, kind))|
  {
    if events != [] {
      var n := |events| - 1;
      CountPositions(events[..n], kind);
      PositionsSame(n, Of(events[..n], kind), Of(events, kind));
      PositionsNext(n, Of(events, kind));
    } else {
      assert Positions(0, Of(events, kind)) == {};
    }
  }

  lemma {:induction false} ListsAreCounts(events: seq<Event>)
    ensures |Requests(events)| == Count(events, (e: Event) => e.ProviderRequest?)
    ensures |Intents(events)| == Count(events, (e: Event) => e.Intent?)
  {
    if events != [] {
      ListsAreCounts(events[..|events| - 1]);
    }
  }

  // ---- one operation ----

  predicate IntentAt(events: seq<Event>, k: int, x: OperationId) {
    0 <= k < |events| && events[k].Intent? && events[k].operation == x
  }

  predicate EvidenceAt(events: seq<Event>, k: int, x: OperationId) {
    0 <= k < |events| && events[k].Evidence? && events[k].operation == x
  }

  /** The last conclusion of the operation: a success, a reconciliation, a failure, a cancellation or an
      uncertain end, with nothing but progress after it. */
  ghost predicate ConclusionAt(events: seq<Event>, k: int, x: OperationId) {
    && 0 <= k < |events| && events[k].Transition? && events[k].operation == x
    && events[k].to in {Succeeded, Reconciled, Failed, Cancelled, Uncertain}
    && forall l :: k < l < |events| && events[l].Transition? && events[l].operation == x ==>
         events[l].to in {IntentRecorded, Started}
  }

  lemma ConcludesExactly(to: Status)
    ensures Concludes(to) <==> to in {Succeeded, Reconciled, Failed, Cancelled, Uncertain}
  {
    match to
    case IntentRecorded => case Started => case Succeeded => case Failed =>
    case Cancelled => case Uncertain => case Reconciled =>
  }

  lemma {:induction false} OutcomeIsConclusion(events: seq<Event>, x: OperationId)
    ensures LastOutcome(events, x).Some? ==>
              exists k :: ConclusionAt(events, k, x) && events[k].to == LastOutcome(events, x).value
    ensures forall k :: ConclusionAt(events, k, x) ==> LastOutcome(events, x) == Some(events[k].to)
  {
    if events != [] {
      var n := |events| - 1;
      OutcomeIsConclusion(events[..n], x);
      var e := events[n];
      if e.Transition? { ConcludesExactly(e.to); }
      if e.Transition? && e.operation == x && Concludes(e.to) {
        assert ConclusionAt(events, n, x);
      } else {
        forall k | k < n ensures ConclusionAt(events, k, x) <==> ConclusionAt(events[..n], k, x) {
          if ConclusionAt(events[..n], k, x) {
            forall l | k < l < |events| && events[l].Transition? && events[l].operation == x
              ensures events[l].to in {IntentRecorded, Started}
            {
              if l < n {
                assert events[..n][l] == events[l];
              }
            }
          }
          if ConclusionAt(events, k, x) {
            forall l | k < l < n && events[..n][l].Transition? && events[..n][l].operation == x
              ensures events[..n][l].to in {IntentRecorded, Started}
            {
              assert events[l] == events[..n][l];
            }
          }
        }
        if LastOutcome(events[..n], x).Some? {
          var k :| ConclusionAt(events[..n], k, x) && events[..n][k].to == LastOutcome(events[..n], x).value;
          assert ConclusionAt(events, k, x);
        }
      }
    }
  }

  lemma {:induction false} EvidenceIsThere(events: seq<Event>, x: OperationId)
    ensures EvidenceOf(events, x).Some? <==> exists k :: EvidenceAt(events, k, x)
  {
    if events != [] {
      var n := |events| - 1;
      EvidenceIsThere(events[..n], x);
      if events[n].Evidence? && events[n].operation == x {
        assert EvidenceAt(events, n, x);
      } else if k :| EvidenceAt(events[..n], k, x) {
        assert EvidenceAt(events, k, x);
      } else if k :| EvidenceAt(events, k, x) {
        assert EvidenceAt(events[..n], k, x);
      }
    }
  }

  lemma {:induction false} DeclaredThere(events: seq<Event>, x: OperationId)
    ensures Declared(events, x).Some? <==> exists k :: IntentAt(events, k, x)
  {
    if events != [] {
      var n := |events| - 1;
      DeclaredThere(events[..n], x);
      if events[n].Intent? && events[n].operation == x {
        assert IntentAt(events, n, x);
      } else if k :| IntentAt(events[..n], k, x) {
        assert IntentAt(events, k, x);
      } else if k :| IntentAt(events, k, x) {
        assert IntentAt(events[..n], k, x);
      }
    }
  }

  /** In an accepted stream an operation has one intent, and that is its declaration. */
  lemma {:induction false} IntentDeclares(events: seq<Event>, k: nat)
    requires Check(events) == Fine && k < |events| && events[k].Intent?
    ensures var e := events[k]; Declared(events, e.operation) == Some(Declaration(e.epoch, e.effect, e.digest))
  {
    var n := |events| - 1;
    if k < n {
      IntentDeclares(events[..n], k);
    }
  }

  // ---- applied operations ----

  /** The operation declared here was applied, and there is evidence of it. */
  ghost predicate AppliedAt(events: seq<Event>, k: int) {
    && 0 <= k < |events| && events[k].Intent?
    && (exists j :: ConclusionAt(events, j, events[k].operation) && events[j].to in {Succeeded, Reconciled})
    && (exists j :: EvidenceAt(events, j, events[k].operation))
  }

  ghost function DigestsAt(events: seq<Event>, n: nat): set<string> {
    set k | 0 <= k < n && k < |events| && events[k].Intent? && AppliedAt(events, k) :: events[k].digest
  }

  lemma AppliedMeans(events: seq<Event>, k: nat)
    requires Check(events) == Fine && k < |events| && events[k].Intent?
    ensures var x := events[k].operation;
            && Declared(events, x) == Some(Declaration(events[k].epoch, events[k].effect, events[k].digest))
            && (AppliedAt(events, k) <==>
                  && LastOutcome(events, x).Some? && SemanticOutcome(LastOutcome(events, x).value) == "applied"
                  && EvidenceOf(events, x).Some?)
  {
    var x := events[k].operation;
    IntentDeclares(events, k);
    OutcomeIsConclusion(events, x);
    EvidenceIsThere(events, x);
    AppliedWords();
  }

  lemma {:induction false} AppliedPositions(events: seq<Event>, n: nat)
    requires Check(events) == Fine && n <= |events|
    ensures var digests := AppliedDigests(NormalizedFor(events, Intents(events[..n])));
            && |digests| == |Positions(n, k => AppliedAt(events, k))|
            && Elements(digests) == DigestsAt(events, n)
  {
    hide AppliedAt, Check;
    if n == 0 {
      assert Positions(0, k => AppliedAt(events, k)) == {};
      assert Elements(AppliedDigests(NormalizedFor(events, Intents(events[..0])))) == {};
    } else {
      var m := n - 1;
      AppliedPositions(events, m);
      PositionsNext(m, k => AppliedAt(events, k));
      assert events[..n][..m] == events[..m];
      AppliedStep(events, m);
      DigestsNext(events, m);
    }
  }

  lemma AppliedStep(events: seq<Event>, m: nat)
    requires Check(events) == Fine && m < |events|
    ensures var before := AppliedDigests(NormalizedFor(events, Intents(events[..m])));
            AppliedDigests(NormalizedFor(events, Intents(events[..m + 1]))) ==
            if AppliedAt(events, m) then before + [events[m].digest] else before
  {
    hide Check, AppliedAt, AppliedDigests, NormalizedFor, Intents, Requests, LastOutcome, EvidenceOf, SemanticOutcome;
    ListsNext(events, m);
    if events[m].Intent? {
      AppliedMeans(events, m);
      NormalizedNext(events, Intents(events[..m]), events[m].operation);
    } else {
      NotApplied(events, m);
    }
  }

  lemma NotApplied(events: seq<Event>, k: nat)
    requires k < |events| && !events[k].Intent?
    ensures !AppliedAt(events, k)
  {
  }

  lemma ListsNext(events: seq<Event>, m: nat)
    requires m < |events|
    ensures var e := events[m];
            && Intents(events[..m + 1]) ==
                 (if e.Intent? then Intents(events[..m]) + [e.operation] else Intents(events[..m]))
            && Requests(events[..m + 1]) ==
                 (if e.ProviderRequest? then Requests(events[..m]) + [(e.requestEpoch, e.purpose)]
                  else Requests(events[..m]))
  {
    assert events[..m + 1][..m] == events[..m] && events[..m + 1][m] == events[m];
  }

  lemma NormalizedNext(events: seq<Event>, ids: seq<OperationId>, x: OperationId)
    requires Declared(events, x).Some?
    ensures var before := AppliedDigests(NormalizedFor(events, ids));
            var o := LastOutcome(events, x);
            AppliedDigests(NormalizedFor(events, ids + [x])) ==
            if o.Some? && EvidenceOf(events, x).Some? && SemanticOutcome(o.value) == "applied"
            then before + [Declared(events, x).value.digest] else before
  {
    hide Declared, LastOutcome, EvidenceOf, SemanticOutcome;
    assert (ids + [x])[..|ids|] == ids;
    var before, after := NormalizedFor(events, ids), NormalizedFor(events, ids + [x]);
    if after != before {
      assert after[..|before|] == before;
    }
  }

  lemma DigestsNext(events: seq<Event>, m: nat)
    requires m < |events|
    ensures DigestsAt(events, m + 1) ==
            if AppliedAt(events, m) then DigestsAt(events, m) + {events[m].digest} else DigestsAt(events, m)
  {
  }

  // ---- normalized operations ----

  lemma {:induction false} EvidenceIs(events: seq<Event>, k: nat)
    requires Check(events) == Fine && k < |events| && events[k].Evidence?
    ensures EvidenceOf(events, events[k].operation) == Some(events[k].evidence)
  {
    var n := |events| - 1;
    if k < n {
      EvidenceIs(events[..n], k);
    }
  }

  /** The normalized form of the operation declared here: its declaration, how it was last concluded and
      the evidence about it. */
  ghost predicate OperationAt(events: seq<Event>, k: int, o: Normalized) {
    && 0 <= k < |events| && events[k].Intent?
    && o.digest == events[k].digest && o.effect == events[k].effect
    && (exists j :: EvidenceAt(events, j, events[k].operation) && events[j].evidence == o.evidence)
    && exists j :: ConclusionAt(events, j, events[k].operation)
                   && match events[j].to
                      case Succeeded => o.outcome == "applied"
                      case Reconciled => o.outcome == "applied"
                      case Failed => o.outcome == "failed"
                      case Cancelled => o.outcome == "cancelled"
                      case _ => o.outcome == "uncertain"
  }

  ghost predicate OperationOf(events: seq<Event>, x: OperationId, o: Normalized) {
    var d, s, e := Declared(events, x), LastOutcome(events, x), EvidenceOf(events, x);
    d.Some? && s.Some? && e.Some? && o == Normalized(d.value.digest, d.value.effect, SemanticOutcome(s.value), e.value)
  }

  lemma {:induction false} NormalizedOf(events: seq<Event>, ids: seq<OperationId>, o: Normalized)
    ensures o in NormalizedFor(events, ids) <==> exists x :: x in ids && OperationOf(events, x, o)
  {
    hide Declared, LastOutcome, EvidenceOf, SemanticOutcome;
    if ids != [] {
      var n := |ids| - 1;
      NormalizedOf(events, ids[..n], o);
      assert ids == ids[..n] + [ids[n]];
      assert o in NormalizedFor(events, ids) <==>
               o in NormalizedFor(events, ids[..n]) || OperationOf(events, ids[n], o);
      if x :| x in ids[..n] && OperationOf(events, x, o) {
        assert x in ids;
      } else if x :| x in ids && OperationOf(events, x, o) {
        assert x == ids[n];
      }
    }
  }

  lemma {:induction false} IntentsThere(events: seq<Event>, x: OperationId)
    ensures x in Intents(events) <==> exists k :: IntentAt(events, k, x)
  {
    if events != [] {
      var n := |events| - 1;
      IntentsThere(events[..n], x);
      if events[n].Intent? && events[n].operation == x {
        assert IntentAt(events, n, x);
      } else if k :| IntentAt(events[..n], k, x) {
        assert IntentAt(events, k, x);
      } else if k :| IntentAt(events, k, x) {
        assert IntentAt(events[..n], k, x);
      }
    }
  }

  lemma OperationMeans(events: seq<Event>, k: nat, o: Normalized)
    requires Check(events) == Fine && k < |events| && events[k].Intent?
    ensures OperationAt(events, k, o) <==> OperationOf(events, events[k].operation, o)
  {
    hide Check, Declared, LastOutcome, EvidenceOf;
    var x := events[k].operation;
    IntentDeclares(events, k);
    OutcomeIsConclusion(events, x);
    EvidenceIsThere(events, x);
    forall j | EvidenceAt(events, j, x) ensures EvidenceOf(events, x) == Some(events[j].evidence) {
      EvidenceIs(events, j);
    }
  }

  /** The replay of an accepted stream holds exactly the operations with a conclusion and evidence. */
  lemma ReplayExactly(events: seq<Event>, o: Normalized)
    requires Check(events) == Fine
    ensures o in Replay(events) <==> exists k :: OperationAt(events, k, o)
  {
    hide Check, OperationAt, OperationOf, NormalizedFor, Intents;
    NormalizedOf(events, Intents(events), o);
    if x :| x in Intents(events) && OperationOf(events, x, o) {
      IntentsThere(events, x);
      var k :| IntentAt(events, k, x);
      OperationMeans(events, k, o);
    }
    if k :| OperationAt(events, k, o) {
      OperationIsIntent(events, k, o);
      OperationMeans(events, k, o);
      IntentsThere(events, events[k].operation);
      assert IntentAt(events, k, events[k].operation);
    }
  }

  lemma OperationIsIntent(events: seq<Event>, k: int, o: Normalized)
    requires OperationAt(events, k, o)
    ensures 0 <= k < |events| && events[k].Intent?
  {
  }

  // ---- work epochs ----

  /** A work or recovery request of an epoch in which some operation was declared and left evidence. */
  ghost predicate WorkAt(events: seq<Event>, k: int) {
    && 0 <= k < |events| && events[k].ProviderRequest? && events[k].purpose in {Work, Recovery}
    && exists i, j :: 0 <= i < |events| && events[i].Intent? && events[i].epoch == events[k].requestEpoch
                      && EvidenceAt(events, j, events[i].operation)
  }

  lemma ToolBearingMeans(events: seq<Event>, epoch: EpochId)
    requires Check(events) == Fine
    ensures ToolBearing(events, epoch) <==>
              exists i, j :: 0 <= i < |events| && events[i].Intent? && events[i].epoch == epoch
                                  && EvidenceAt(events, j, events[i].operation)
  {
    hide Check;
    if ToolBearing(events, epoch) {
      var x :| Declared(events, x).Some? && Declared(events, x).value.epoch == epoch && EvidenceOf(events, x).Some?;
      DeclaredThere(events, x);
      EvidenceIsThere(events, x);
      var i :| IntentAt(events, i, x);
      IntentDeclares(events, i);
      var j :| EvidenceAt(events, j, x);
      assert events[i].epoch == epoch && EvidenceAt(events, j, events[i].operation);
    }
    if i, j :| 0 <= i < |events| && events[i].Intent? && events[i].epoch == epoch
                    && EvidenceAt(events, j, events[i].operation) {
      IntentDeclares(events, i);
      EvidenceIsThere(events, events[i].operation);
    }
  }

  lemma {:induction false} WorkPositions(events: seq<Event>, n: nat)
    requires Check(events) == Fine && n <= |events|
    ensures WorkEpochs(events, Requests(events[..n])) == |Positions(n, k => WorkAt(events, k))|
  {
    hide Check, ToolBearing;
    if n == 0 {
      assert Positions(0, k => WorkAt(events, k)) == {};
    } else {
      var m := n - 1;
      WorkPositions(events, m);
      PositionsNext(m, k => WorkAt(events, k));
      ListsNext(events, m);
      if events[m].ProviderRequest? {
        WorkMeans(events, m);
        hide WorkAt;
        var before := Requests(events[..m]);
        assert (before + [(events[m].requestEpoch, events[m].purpose)])[..|before|] == before;
      } else {
        assert !WorkAt(events, m);
      }
    }
  }

  lemma WorkMeans(events: seq<Event>, k: nat)
    requires Check(events) == Fine && k < |events| && events[k].ProviderRequest?
    ensures WorkAt(events, k) <==> IsWork(events[k].purpose) && ToolBearing(events, events[k].requestEpoch)
  {
    hide Check, ToolBearing;
    ToolBearingMeans(events, events[k].requestEpoch);
  }

  // ---- the metrics ----

  lemma Counted(events: seq<Event>, kind: Event -> bool)
    ensures Count(events, kind) == |set k | 0 <= k < |events| && kind(events[k])|
  {
    CountPositions(events, kind);
    assert Positions(|events|, Of(events, kind)) == set k | 0 <= k < |events| && kind(events[k]);
  }

  /** Requests, tool calls and compactions are counts of events. */
  lemma MetricsCount(events: seq<Event>)
    ensures var m, n := MetricsOf(events), |events|;
            && m.providerRequests == |set k | 0 <= k < n && events[k].ProviderRequest?|
            && m.toolCalls == |set k | 0 <= k < n && events[k].Intent?|
            && m.compactions == |set k | 0 <= k < n && events[k].Compaction?|
  {
    hide WorkEpochs, Replay, Duplicates, AppliedDigests;
    ListsAreCounts(events);
    Counted(events, (e: Event) => e.ProviderRequest?);
    assert (set k | 0 <= k < |events| && ((e: Event) => e.ProviderRequest?)(events[k]))
           == set k | 0 <= k < |events| && events[k].ProviderRequest?;
    Counted(events, (e: Event) => e.Intent?);
    assert (set k | 0 <= k < |events| && ((e: Event) => e.Intent?)(events[k]))
           == set k | 0 <= k < |events| && events[k].Intent?;
    Counted(events, (e: Event) => e.Compaction?);
    assert (set k | 0 <= k < |events| && ((e: Event) => e.Compaction?)(events[k]))
           == set k | 0 <= k < |events| && events[k].Compaction?;
  }

  /** Strategy changes are the losses of context or the recoveries, whichever are more. */
  lemma StrategyChangesCount(events: seq<Event>)
    ensures var changes, n := MetricsOf(events).strategyChanges, |events|;
            var lost := |set k | 0 <= k < n && events[k].ContextLost?|;
            var recovered := |set k | 0 <= k < n && events[k].RecoveryStarted?|;
            changes in {lost, recovered} && changes >= lost && changes >= recovered
  {
    hide WorkEpochs, Replay, Duplicates, AppliedDigests;
    Counted(events, (e: Event) => e.ContextLost?);
    assert (set k | 0 <= k < |events| && ((e: Event) => e.ContextLost?)(events[k]))
           == set k | 0 <= k < |events| && events[k].ContextLost?;
    Counted(events, (e: Event) => e.RecoveryStarted?);
    assert (set k | 0 <= k < |events| && ((e: Event) => e.RecoveryStarted?)(events[k]))
           == set k | 0 <= k < |events| && events[k].RecoveryStarted?;
  }

  /** Work epochs are the work and recovery requests of epochs with evidence; semantic duplicates are the
      applied operations beyond one for each digest. */
  lemma MetricsOfOperations(events: seq<Event>)
    requires Check(events) == Fine
    ensures var m, n := MetricsOf(events), |events|;
            && m.workEpochs == |set k | 0 <= k < n && WorkAt(events, k)|
            && m.semanticDuplicates ==
                 |set k | 0 <= k < n && AppliedAt(events, k)| -
                 |set k | 0 <= k < n && events[k].Intent? && AppliedAt(events, k) :: events[k].digest|
  {
    hide WorkAt, AppliedAt, Check, WorkEpochs, AppliedDigests;
    var n := |events|;
    assert events[..n] == events;
    WorkPositions(events, n);
    AppliedPositions(events, n);
    var digests := AppliedDigests(Replay(events));
    ElementsWithin(digests);
    assert Positions(n, k => WorkAt(events, k)) == set k | 0 <= k < n && WorkAt(events, k);
    assert Positions(n, k => AppliedAt(events, k)) == set k | 0 <= k < n && AppliedAt(events, k);
    assert DigestsAt(events, n) == set k | 0 <= k < n && events[k].Intent? && AppliedAt(events, k) :: events[k].digest;
  }

  lemma {:induction false} ElementsWithin(s: seq<string>)
    ensures |Elements(s)| <= |s|
  {
    if s != [] {
      var n := |s| - 1;
      ElementsWithin(s[..n]);
      assert Elements(s) == Elements(s[..n]) + {s[n]};
    }
  }
}
