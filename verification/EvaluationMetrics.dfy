/** Metrics of a task, read off its event stream. The definitions look at the stream directly: an
    operation is what its intent declares, its outcome the last one recorded, its evidence the one
    record about it. */
module ReplayReference {
  import opened Prelude

  type OperationId = nat
  type EpochId = nat

  datatype Purpose = Work | Recovery | OtherPurpose
  datatype Status = IntentRecorded | Started | Succeeded | Failed | Cancelled | Uncertain | Reconciled

  /** `Foreign` is an envelope outside the task lifecycle; `Other` any other lifecycle event. */
  datatype Event =
    | Foreign
    | ProviderRequest(requestEpoch: EpochId, purpose: Purpose)
    | Intent(operation: OperationId, epoch: EpochId, effect: nat, digest: string)
    | Transition(operation: OperationId, to: Status)
    | Evidence(operation: OperationId, evidence: string)
    | Compaction
    | ContextLost
    | RecoveryStarted
    | Other

  datatype Declaration = Declaration(epoch: EpochId, effect: nat, digest: string)
  datatype Normalized = Normalized(digest: string, effect: nat, outcome: string, evidence: string)

  const MAX_U32: nat := 0xFFFF_FFFF

  predicate Concludes(to: Status) {
    to !in {IntentRecorded, Started}
  }

  function SemanticOutcome(status: Status): string {
    match status
    case Succeeded => "applied"
    case Reconciled => "applied"
    case Failed => "failed"
    case Cancelled => "cancelled"
    case Uncertain => "uncertain"
    case IntentRecorded => "unresolved"
    case Started => "unresolved"
  }

  lemma AppliedWords()
    ensures forall status :: SemanticOutcome(status) == "applied" <==> status in {Succeeded, Reconciled}
  {
    assert "applied"[0] != "failed"[0] && "applied"[0] != "cancelled"[0] && "applied"[0] != "uncertain"[0]
           && "applied"[0] != "unresolved"[0];
  }

  // ---- one operation ----

  function Declared(events: seq<Event>, x: OperationId): Option<Declaration> {
    if events == [] then None
    else
      var e := events[|events| - 1];
      if e.Intent? && e.operation == x then Some(Declaration(e.epoch, e.effect, e.digest))
      else Declared(events[..|events| - 1], x)
  }

  function LastOutcome(events: seq<Event>, x: OperationId): Option<Status> {
    if events == [] then None
    else
      var e := events[|events| - 1];
      if e.Transition? && e.operation == x && Concludes(e.to) then Some(e.to)
      else LastOutcome(events[..|events| - 1], x)
  }

  function EvidenceOf(events: seq<Event>, x: OperationId): Option<string> {
    if events == [] then None
    else
      var e := events[|events| - 1];
      if e.Evidence? && e.operation == x then Some(e.evidence) else EvidenceOf(events[..|events| - 1], x)
  }

  // ---- the whole stream ----

  function Count(events: seq<Event>, kind: Event -> bool): nat {
    if events == [] then 0
    else Count(events[..|events| - 1], kind) + if kind(events[|events| - 1]) then 1 else 0
  }

  function Intents(events: seq<Event>): seq<OperationId> {
    if events == [] then []
    else
      var e := events[|events| - 1];
      Intents(events[..|events| - 1]) + if e.Intent? then [e.operation] else []
  }

  function Requests(events: seq<Event>): seq<(EpochId, Purpose)> {
    if events == [] then []
    else
      var e := events[|events| - 1];
      Requests(events[..|events| - 1]) + if e.ProviderRequest? then [(e.requestEpoch, e.purpose)] else []
  }

  datatype Verdict = Fine | Storage | Invariant

  /** What the event adds to a stream that was fine. */
  function Admits(events: seq<Event>, e: Event): Verdict {
    match e
    case Foreign => Storage
    case Intent(x, _, _, _) => if Declared(events, x).Some? then Storage else Fine
    case Transition(x, to) => if Concludes(to) && Declared(events, x).None? then Storage else Fine
    case Evidence(x, _) => if Declared(events, x).None? || EvidenceOf(events, x).Some? then Storage else Fine
    case Compaction => if Count(events, (e: Event) => e.Compaction?) >= MAX_U32 then Invariant else Fine
    case ContextLost => if Count(events, (e: Event) => e.ContextLost?) >= MAX_U32 then Invariant else Fine
    case RecoveryStarted => if Count(events, (e: Event) => e.RecoveryStarted?) >= MAX_U32 then Invariant else Fine
    case _ => Fine
  }

  /** The first event that cannot be admitted decides. */
  function Check(events: seq<Event>): Verdict {
    if events == [] then Fine
    else
      var front := events[..|events| - 1];
      if Check(front) != Fine then Check(front) else Admits(front, events[|events| - 1])
  }

  /** The operations with an outcome and evidence, in the order of their intents. */
  function NormalizedFor(events: seq<Event>, ids: seq<OperationId>): seq<Normalized> {
    if ids == [] then []
    else
      var x := ids[|ids| - 1];
      var d, o, e := Declared(events, x), LastOutcome(events, x), EvidenceOf(events, x);
      NormalizedFor(events, ids[..|ids| - 1]) +
      if d.Some? && o.Some? && e.Some?
      then [Normalized(d.value.digest, d.value.effect, SemanticOutcome(o.value), e.value)]
      else []
  }

  function Replay(events: seq<Event>): seq<Normalized> {
    NormalizedFor(events, Intents(events))
  }

  function AppliedDigests(operations: seq<Normalized>): seq<string> {
    if operations == [] then []
    else
      var last := operations[|operations| - 1];
      AppliedDigests(operations[..|operations| - 1]) + if last.outcome == "applied" then [last.digest] else []
  }

  function Elements<T>(s: seq<T>): set<T> {
    set x | x in s
  }

  function Duplicates(digests: seq<string>): nat {
    if |digests| >= |Elements(digests)| then |digests| - |Elements(digests)| else 0
  }

  /** Some operation of the epoch has evidence. */
  ghost predicate ToolBearing(events: seq<Event>, epoch: EpochId) {
    exists x :: Declared(events, x).Some? && Declared(events, x).value.epoch == epoch && EvidenceOf(events, x).Some?
  }

  predicate IsWork(purpose: Purpose) {
    purpose.Work? || purpose.Recovery?
  }

  ghost function WorkEpochs(events: seq<Event>, requests: seq<(EpochId, Purpose)>): nat {
    if requests == [] then 0
    else
      var last := requests[|requests| - 1];
      WorkEpochs(events, requests[..|requests| - 1]) + if IsWork(last.1) && ToolBearing(events, last.0) then 1 else 0
  }

  datatype Metrics = Metrics(
    workEpochs: nat, providerRequests: nat, toolCalls: nat, semanticDuplicates: nat,
    compactions: nat, strategyChanges: nat, operations: seq<Normalized>)

  datatype Outcome = Derived(metrics: Metrics) | Rejected(verdict: Verdict)

  function Max(a: nat, b: nat): nat {
    if a < b then b else a
  }

  predicate Representable(m: Metrics) {
    && m.semanticDuplicates <= MAX_U32 && m.providerRequests <= MAX_U32
    && m.workEpochs <= MAX_U32 && m.toolCalls <= MAX_U32
  }

  ghost function MetricsOf(events: seq<Event>): Metrics {
    Metrics(
      WorkEpochs(events, Requests(events)), |Requests(events)|, |Intents(events)|,
      Duplicates(AppliedDigests(Replay(events))),
      Count(events, (e: Event) => e.Compaction?),
      Max(Count(events, (e: Event) => e.ContextLost?), Count(events, (e: Event) => e.RecoveryStarted?)),
      Replay(events))
  }

  ghost function Reference(events: seq<Event>): Outcome {
    if Check(events) != Fine then Rejected(Check(events))
    else if !Representable(MetricsOf(events)) then Rejected(Invariant)
    else Derived(MetricsOf(events))
  }
}

/** Nothing depends on which identifiers the operations and epochs happen to have. */
module ReplayRenaming {
  import opened Prelude
  import opened ReplayReference

  datatype Renaming = Renaming(operation: OperationId -> OperationId, epoch: EpochId -> EpochId)

  ghost predicate Injective(f: nat -> nat) {
    forall a, b :: f(a) == f(b) ==> a == b
  }

  ghost predicate Faithful(r: Renaming) {
    Injective(r.operation) && Injective(r.epoch)
  }

  function RenameEvent(r: Renaming, e: Event): Event {
    match e
    case ProviderRequest(epoch, purpose) => ProviderRequest(r.epoch(epoch), purpose)
    case Intent(x, epoch, effect, digest) => Intent(r.operation(x), r.epoch(epoch), effect, digest)
    case Transition(x, to) => Transition(r.operation(x), to)
    case Evidence(x, evidence) => Evidence(r.operation(x), evidence)
    case _ => e
  }

  function Rename(r: Renaming, events: seq<Event>): (renamed: seq<Event>)
    ensures |renamed| == |events|
  {
    if events == [] then []
    else Rename(r, events[..|events| - 1]) + [RenameEvent(r, events[|events| - 1])]
  }

  function RenameDeclaration(r: Renaming, d: Option<Declaration>): Option<Declaration> {
    match d
    case None => None
    case Some(d) => Some(d.(epoch := r.epoch(d.epoch)))
  }

  lemma RenameFront(r: Renaming, events: seq<Event>)
    requires events != []
    ensures Rename(r, events)[..|events| - 1] == Rename(r, events[..|events| - 1])
    ensures Rename(r, events)[|events| - 1] == RenameEvent(r, events[|events| - 1])
  {
  }

  lemma {:induction false} SameOperation(r: Renaming, events: seq<Event>, x: OperationId)
    requires Faithful(r)
    ensures Declared(Rename(r, events), r.operation(x)) == RenameDeclaration(r, Declared(events, x))
    ensures LastOutcome(Rename(r, events), r.operation(x)) == LastOutcome(events, x)
    ensures EvidenceOf(Rename(r, events), r.operation(x)) == EvidenceOf(events, x)
  {
    if events != [] {
      RenameFront(r, events);
      SameOperation(r, events[..|events| - 1], x);
    }
  }

  lemma {:induction false} SameCount(r: Renaming, events: seq<Event>, kind: Event -> bool)
    requires forall e :: kind(RenameEvent(r, e)) == kind(e)
    ensures Count(Rename(r, events), kind) == Count(events, kind)
  {
    if events != [] {
      RenameFront(r, events);
      SameCount(r, events[..|events| - 1], kind);
    }
  }

  lemma SameAdmission(r: Renaming, events: seq<Event>, e: Event)
    requires Faithful(r)
    ensures Admits(Rename(r, events), RenameEvent(r, e)) == Admits(events, e)
  {
    if e.Intent? || e.Transition? || e.Evidence? {
      SameOperation(r, events, e.operation);
    } else {
      SameCount(r, events, (e: Event) => e.Compaction?);
      SameCount(r, events, (e: Event) => e.ContextLost?);
      SameCount(r, events, (e: Event) => e.RecoveryStarted?);
    }
  }

  lemma {:induction false} SameCheck(r: Renaming, events: seq<Event>)
    requires Faithful(r)
    ensures Check(Rename(r, events)) == Check(events)
  {
    hide Admits;
    if events != [] {
      RenameFront(r, events);
      SameCheck(r, events[..|events| - 1]);
      SameAdmission(r, events[..|events| - 1], events[|events| - 1]);
    }
  }

  function RenameIds(r: Renaming, ids: seq<OperationId>): (renamed: seq<OperationId>)
    ensures |renamed| == |ids|
  {
    if ids == [] then [] else RenameIds(r, ids[..|ids| - 1]) + [r.operation(ids[|ids| - 1])]
  }

  function RenameRequests(r: Renaming, requests: seq<(EpochId, Purpose)>): (renamed: seq<(EpochId, Purpose)>)
    ensures |renamed| == |requests|
  {
    if requests == [] then []
    else RenameRequests(r, requests[..|requests| - 1]) +
         [(r.epoch(requests[|requests| - 1].0), requests[|requests| - 1].1)]
  }

  lemma {:induction false} SameIntents(r: Renaming, events: seq<Event>)
    ensures Intents(Rename(r, events)) == RenameIds(r, Intents(events))
  {
    if events != [] {
      var front, e := events[..|events| - 1], events[|events| - 1];
      RenameFront(r, events);
      SameIntents(r, front);
      if e.Intent? {
        assert (Intents(front) + [e.operation])[..|Intents(front)|] == Intents(front);
      } else {
        assert Intents(events) == Intents(front) && Intents(Rename(r, events)) == Intents(Rename(r, front));
      }
    }
  }

  lemma {:induction false} SameRequests(r: Renaming, events: seq<Event>)
    ensures Requests(Rename(r, events)) == RenameRequests(r, Requests(events))
  {
    if events != [] {
      var front, e := events[..|events| - 1], events[|events| - 1];
      RenameFront(r, events);
      SameRequests(r, front);
      if e.ProviderRequest? {
        assert (Requests(front) + [(e.requestEpoch, e.purpose)])[..|Requests(front)|] == Requests(front);
      } else {
        assert Requests(events) == Requests(front) && Requests(Rename(r, events)) == Requests(Rename(r, front));
      }
    }
  }

  lemma {:induction false} SameNormalized(r: Renaming, events: seq<Event>, ids: seq<OperationId>)
    requires Faithful(r)
    ensures NormalizedFor(Rename(r, events), RenameIds(r, ids)) == NormalizedFor(events, ids)
  {
    hide Declared, LastOutcome, EvidenceOf, Rename, Faithful;
    if ids != [] {
      var front := ids[..|ids| - 1];
      assert RenameIds(r, ids)[..|front|] == RenameIds(r, front);
      SameNormalized(r, events, front);
      SameOperation(r, events, ids[|ids| - 1]);
    }
  }

  lemma {:induction false} DeclaredIsRenamed(r: Renaming, events: seq<Event>, y: OperationId) returns (x: OperationId)
    requires Declared(Rename(r, events), y).Some?
    ensures r.operation(x) == y
  {
    RenameFront(r, events);
    var last := events[|events| - 1];
    if last.Intent? && r.operation(last.operation) == y {
      x := last.operation;
    } else {
      x := DeclaredIsRenamed(r, events[..|events| - 1], y);
    }
  }

  lemma SameToolBearing(r: Renaming, events: seq<Event>, epoch: EpochId)
    requires Faithful(r)
    ensures ToolBearing(Rename(r, events), r.epoch(epoch)) == ToolBearing(events, epoch)
  {
    if ToolBearing(events, epoch) {
      var x :| Declared(events, x).Some? && Declared(events, x).value.epoch == epoch && EvidenceOf(events, x).Some?;
      SameOperation(r, events, x);
    }
    var renamed := Rename(r, events);
    if ToolBearing(renamed, r.epoch(epoch)) {
      var y :| Declared(renamed, y).Some? && EvidenceOf(renamed, y).Some?
               && Declared(renamed, y).value.epoch == r.epoch(epoch);
      var x := DeclaredIsRenamed(r, events, y);
      SameOperation(r, events, x);
      assert Declared(events, x).value.epoch == epoch;
    }
  }

  lemma {:induction false} SameWorkEpochs(r: Renaming, events: seq<Event>, requests: seq<(EpochId, Purpose)>)
    requires Faithful(r)
    ensures WorkEpochs(Rename(r, events), RenameRequests(r, requests)) == WorkEpochs(events, requests)
  {
    hide ToolBearing, Rename, Faithful;
    if requests != [] {
      var front := requests[..|requests| - 1];
      assert RenameRequests(r, requests)[..|front|] == RenameRequests(r, front);
      SameWorkEpochs(r, events, front);
      SameToolBearing(r, events, requests[|requests| - 1].0);
    }
  }

  /** The metrics, the normalized replay and the error are the same under every renaming that keeps
      identifiers apart, whatever it does to their order. */
  lemma RenamingChangesNothing(r: Renaming, events: seq<Event>)
    requires Faithful(r)
    ensures Reference(Rename(r, events)) == Reference(events)
  {
    hide Check, Rename, Intents, Requests, Declared, NormalizedFor, WorkEpochs, Faithful;
    SameCheck(r, events);
    SameIntents(r, events);
    SameRequests(r, events);
    SameNormalized(r, events, Intents(events));
    SameWorkEpochs(r, events, Requests(events));
    SameCount(r, events, (e: Event) => e.Compaction?);
    SameCount(r, events, (e: Event) => e.ContextLost?);
    SameCount(r, events, (e: Event) => e.RecoveryStarted?);
  }

  // ---- duplicates ----

  ghost predicate Distinct<T>(s: seq<T>) {
    forall i, j :: 0 <= i < j < |s| ==> s[i] != s[j]
  }

  lemma {:induction false} ElementsCount<T>(s: seq<T>)
    ensures |Elements(s)| <= |s|
    ensures |Elements(s)| == |s| <==> Distinct(s)
  {
    if s != [] {
      var front, last := s[..|s| - 1], s[|s| - 1];
      ElementsCount(front);
      assert s == front + [last];
      if last in front {
        assert Elements(s) == Elements(front);
        var i :| 0 <= i < |front| && front[i] == last;
        assert s[i] == s[|front|];
      } else {
        assert Elements(s) == Elements(front) + {last};
        assert Distinct(front) ==> Distinct(s);
        if Distinct(s) {
          assert forall i, j :: 0 <= i < j < |front| ==> front[i] == s[i] && front[j] == s[j];
        }
      }
    }
  }

  /** The operation took effect and left evidence. */
  predicate Applied(events: seq<Event>, x: OperationId) {
    && Declared(events, x).Some? && EvidenceOf(events, x).Some?
    && LastOutcome(events, x).Some? && LastOutcome(events, x).value in {Succeeded, Reconciled}
  }

  lemma {:induction false} DigestsOfApplied(events: seq<Event>, ids: seq<OperationId>, digest: string)
    ensures digest in AppliedDigests(NormalizedFor(events, ids)) <==>
            exists i :: 0 <= i < |ids| && Applied(events, ids[i]) && Declared(events, ids[i]).value.digest == digest
  {
    hide Declared, LastOutcome, EvidenceOf, NormalizedFor, AppliedDigests;
    if ids == [] {
      NoDigests(events);
    } else {
      var n := |ids| - 1;
      DigestsOfApplied(events, ids[..n], digest);
      LastDigest(events, ids);
      if i :| 0 <= i < n && Applied(events, ids[..n][i]) && Declared(events, ids[..n][i]).value.digest == digest {
        assert ids[i] == ids[..n][i];
      }
      if i :| 0 <= i < |ids| && Applied(events, ids[i]) && Declared(events, ids[i]).value.digest == digest {
        assert i < n ==> ids[..n][i] == ids[i];
      }
    }
  }

  lemma LastDigest(events: seq<Event>, ids: seq<OperationId>)
    requires ids != []
    ensures var x := ids[|ids| - 1];
            AppliedDigests(NormalizedFor(events, ids)) ==
            AppliedDigests(NormalizedFor(events, ids[..|ids| - 1])) +
            if Applied(events, x) then [Declared(events, x).value.digest] else []
  {
    hide Declared, LastOutcome, EvidenceOf, SemanticOutcome, AppliedDigests;
    AppliedWords();
    var x, front := ids[|ids| - 1], NormalizedFor(events, ids[..|ids| - 1]);
    var o := LastOutcome(events, x);
    if Declared(events, x).Some? && o.Some? && EvidenceOf(events, x).Some? {
      var d := Declared(events, x).value;
      DigestsAppend(front, Normalized(d.digest, d.effect, SemanticOutcome(o.value), EvidenceOf(events, x).value));
    } else {
      assert NormalizedFor(events, ids) == front + [];
      assert front + [] == front && AppliedDigests(front) + [] == AppliedDigests(front);
    }
  }

  lemma DigestsAppend(front: seq<Normalized>, last: Normalized)
    ensures AppliedDigests(front + [last]) ==
            AppliedDigests(front) + if last.outcome == "applied" then [last.digest] else []
  {
    assert (front + [last])[..|front|] == front;
  }

  ghost predicate DistinctlyApplied(events: seq<Event>, ids: seq<OperationId>) {
    forall i, j :: 0 <= i < j < |ids| && Applied(events, ids[i]) && Applied(events, ids[j]) ==>
      Declared(events, ids[i]).value.digest != Declared(events, ids[j]).value.digest
  }

  lemma {:induction false} DistinctDigests(events: seq<Event>, ids: seq<OperationId>)
    ensures Distinct(AppliedDigests(NormalizedFor(events, ids))) <==> DistinctlyApplied(events, ids)
  {
    hide Declared, LastOutcome, EvidenceOf, NormalizedFor, AppliedDigests;
    if ids == [] {
      NoDigests(events);
    } else {
      var n := |ids| - 1;
      var x, front := ids[n], AppliedDigests(NormalizedFor(events, ids[..n]));
      DistinctDigests(events, ids[..n]);
      LastDigest(events, ids);
      if Applied(events, x) {
        DistinctAppend(front, Declared(events, x).value.digest);
        DigestsOfApplied(events, ids[..n], Declared(events, x).value.digest);
      } else {
        assert front + [] == front;
      }
      LastDistinct(events, ids);
    }
  }

  lemma LastDistinct(events: seq<Event>, ids: seq<OperationId>)
    requires ids != []
    ensures var front, x := ids[..|ids| - 1], ids[|ids| - 1];
            DistinctlyApplied(events, ids) <==>
            && DistinctlyApplied(events, front)
            && (Applied(events, x) ==> !exists i :: 0 <= i < |front| && Applied(events, front[i]) &&
                                          Declared(events, front[i]).value.digest == Declared(events, x).value.digest)
  {
    hide Declared, LastOutcome, EvidenceOf;
    var front := ids[..|ids| - 1];
    assert ids == front + [ids[|ids| - 1]];
    assert forall i :: 0 <= i < |front| ==> front[i] == ids[i];
  }

  lemma NoDigests(events: seq<Event>)
    ensures AppliedDigests(NormalizedFor(events, [])) == []
  {
  }

  lemma DistinctAppend<T>(s: seq<T>, x: T)
    ensures Distinct(s + [x]) <==> Distinct(s) && x !in s
  {
    var all := s + [x];
    if Distinct(all) {
      assert forall i :: 0 <= i < |s| ==> s[i] == all[i] && all[i] != all[|s|];
    }
  }

  /** The duplicate count is zero exactly when the applied operations with evidence have pairwise
      distinct request digests. */
  lemma NoDuplicatesExactly(events: seq<Event>)
    ensures MetricsOf(events).semanticDuplicates == 0 <==> DistinctlyApplied(events, Intents(events))
  {
    ElementsCount(AppliedDigests(Replay(events)));
    DistinctDigests(events, Intents(events));
  }
}

/** The one-pass derivation with maps, as it is carried out. */
module EvaluationMetrics {
  import opened Prelude
  import opened ReplayReference

  datatype DurableOperation = DurableOperation(
    declaration: Declaration, outcome: Option<Status>, evidence: Option<string>)

  type Operations = map<OperationId, DurableOperation>

  /** The map holds, for every declared operation, what the stream says about it. */
  ghost predicate Tracks(operations: Operations, events: seq<Event>) {
    && (forall x :: x in operations <==> Declared(events, x).Some?)
    && (forall x :: x in operations ==>
          operations[x] == DurableOperation(Declared(events, x).value, LastOutcome(events, x), EvidenceOf(events, x)))
    && (forall x :: x !in operations ==> LastOutcome(events, x).None? && EvidenceOf(events, x).None?)
  }

  /** The effect of one event on the map; `None` is the storage error. */
  function Apply(operations: Operations, e: Event): Option<Operations> {
    match e
    case Foreign => None
    case Intent(x, epoch, effect, digest) =>
      if x in operations then None
      else Some(operations[x := DurableOperation(Declaration(epoch, effect, digest), None, None)])
    case Transition(x, to) =>
      if !Concludes(to) then Some(operations)
      else if x in operations then Some(operations[x := operations[x].(outcome := Some(to))])
      else None
    case Evidence(x, evidence) =>
      if x in operations && operations[x].evidence.None?
      then Some(operations[x := operations[x].(evidence := Some(evidence))])
      else None
    case _ => Some(operations)
  }

  lemma ApplyTracks(operations: Operations, events: seq<Event>, e: Event)
    requires Tracks(operations, events)
    ensures Apply(operations, e).None? <==> Admits(events, e) == Storage
    ensures Apply(operations, e).Some? ==> Tracks(Apply(operations, e).value, events + [e])
  {
    var all := events + [e];
    assert all[..|events|] == events;
    var applied := Apply(operations, e);
    if applied.Some? {
      forall x ensures
        && (x in applied.value <==> Declared(all, x).Some?)
        && (x in applied.value ==>
              applied.value[x] == DurableOperation(Declared(all, x).value, LastOutcome(all, x), EvidenceOf(all, x)))
        && (x !in applied.value ==> LastOutcome(all, x).None? && EvidenceOf(all, x).None?)
      {
        assert x in operations <==> Declared(events, x).Some?;
      }
    }
  }

  /** The running state of the pass. */
  datatype Totals = Totals(
    operations: Operations, order: seq<OperationId>, requests: seq<(EpochId, Purpose)>,
    compactions: nat, losses: nat, recoveries: nat)

  ghost predicate Reads(t: Totals, events: seq<Event>) {
    && Tracks(t.operations, events)
    && t.order == Intents(events) && |t.operations| == |t.order|
    && t.requests == Requests(events)
    && t.compactions == Count(events, (e: Event) => e.Compaction?)
    && t.losses == Count(events, (e: Event) => e.ContextLost?)
    && t.recoveries == Count(events, (e: Event) => e.RecoveryStarted?)
  }

  lemma StreamStep(events: seq<Event>, e: Event)
    ensures var all := events + [e];
            && Intents(all) == Intents(events) + (if e.Intent? then [e.operation] else [])
            && Requests(all) == Requests(events) + (if e.ProviderRequest? then [(e.requestEpoch, e.purpose)] else [])
            && Count(all, (e: Event) => e.Compaction?) ==
               Count(events, (e: Event) => e.Compaction?) + (if e.Compaction? then 1 else 0)
            && Count(all, (e: Event) => e.ContextLost?) ==
               Count(events, (e: Event) => e.ContextLost?) + (if e.ContextLost? then 1 else 0)
            && Count(all, (e: Event) => e.RecoveryStarted?) ==
               Count(events, (e: Event) => e.RecoveryStarted?) + (if e.RecoveryStarted? then 1 else 0)
  {
    assert (events + [e])[..|events|] == events;
  }

  /** One turn of the loop. */
  method Advance(t: Totals, e: Event, ghost events: seq<Event>) returns (verdict: Verdict, next: Totals)
    requires Reads(t, events)
    ensures verdict == Admits(events, e)
    ensures verdict == Fine ==> Reads(next, events + [e])
  {
    hide Tracks, Declared, EvidenceOf, Count, Intents, Requests;
    next := t;
    ApplyTracks(t.operations, events, e);
    StreamStep(events, e);
    var operations := Apply(t.operations, e);
    if operations.None? { return Storage, t; }
    next := t.(operations := operations.value);
    match e {
    case Compaction =>
      if t.compactions >= MAX_U32 { return Invariant, t; }
      next := next.(compactions := t.compactions + 1);
    case ContextLost =>
      if t.losses >= MAX_U32 { return Invariant, t; }
      next := next.(losses := t.losses + 1);
    case RecoveryStarted =>
      if t.recoveries >= MAX_U32 { return Invariant, t; }
      next := next.(recoveries := t.recoveries + 1);
    case Intent(x, _, _, _) => next := next.(order := t.order + [x]);
    case ProviderRequest(epoch, purpose) => next := next.(requests := t.requests + [(epoch, purpose)]);
    case _ =>
    }
    return Fine, next;
  }

  /** The operations to report, in order. */
  method Normalize(operations: Operations, order: seq<OperationId>, ghost events: seq<Event>)
    returns (r: seq<Normalized>)
    requires Tracks(operations, events)
    ensures r == NormalizedFor(events, order)
  {
    hide Declared, LastOutcome, EvidenceOf;
    r := [];
    for k := 0 to |order|
      invariant r == NormalizedFor(events, order[..k])
    {
      var x := order[k];
      assert order[..k + 1][..k] == order[..k];
      assert x in operations <==> Declared(events, x).Some?;
      if x in operations && operations[x].outcome.Some? && operations[x].evidence.Some? {
        var o := operations[x];
        r := r + [Normalized(o.declaration.digest, o.declaration.effect,
                             SemanticOutcome(o.outcome.value), o.evidence.value)];
      }
    }
    assert order[..|order|] == order;
  }

  method SuccessfulDigests(operations: seq<Normalized>) returns (r: seq<string>)
    ensures r == AppliedDigests(operations)
  {
    r := [];
    for k := 0 to |operations|
      invariant r == AppliedDigests(operations[..k])
    {
      assert operations[..k + 1][..k] == operations[..k];
      if operations[k].outcome == "applied" { r := r + [operations[k].digest]; }
    }
    assert operations[..|operations|] == operations;
  }

  /** The epochs of the operations with evidence, visited in any order. */
  method ToolBearingEpochs(operations: Operations, ghost events: seq<Event>) returns (epochs: set<EpochId>)
    requires Tracks(operations, events)
    ensures forall epoch :: epoch in epochs <==> ToolBearing(events, epoch)
  {
    hide Declared, LastOutcome, EvidenceOf;
    epochs := {};
    var left := operations.Keys;
    while left != {}
      invariant left <= operations.Keys
      invariant forall x :: x in operations && x !in left && operations[x].evidence.Some? ==>
                 operations[x].declaration.epoch in epochs
      invariant forall epoch :: epoch in epochs ==>
                  exists x :: x in operations && operations[x].evidence.Some?
                              && operations[x].declaration.epoch == epoch
      decreases |left|
    {
      var x :| x in left;
      if operations[x].evidence.Some? { epochs := epochs + {operations[x].declaration.epoch}; }
      left := left - {x};
    }
    forall epoch ensures epoch in epochs <==> ToolBearing(events, epoch) {
      if epoch in epochs {
        var x :| x in operations && operations[x].evidence.Some? && operations[x].declaration.epoch == epoch;
        assert Declared(events, x).Some?;
      }
      if ToolBearing(events, epoch) {
        var x :| Declared(events, x).Some? && Declared(events, x).value.epoch == epoch && EvidenceOf(events, x).Some?;
        assert x in operations;
      }
    }
  }

  method CountWorkEpochs(requests: seq<(EpochId, Purpose)>, epochs: set<EpochId>, ghost events: seq<Event>)
    returns (n: nat)
    requires forall epoch :: epoch in epochs <==> ToolBearing(events, epoch)
    ensures n == WorkEpochs(events, requests)
  {
    hide ToolBearing;
    n := 0;
    for k := 0 to |requests|
      invariant n == WorkEpochs(events, requests[..k])
    {
      assert requests[..k + 1][..k] == requests[..k];
      if IsWork(requests[k].1) && requests[k].0 in epochs { n := n + 1; }
    }
    assert requests[..|requests|] == requests;
  }

  /** The map-based pass computes exactly what the stream says, or its first error. */
  method DeriveMetrics(events: seq<Event>) returns (r: Outcome)
    ensures r == Reference(events)
  {
    hide Reads, Check, Admits, Replay, MetricsOf, Representable;
    var t := Totals(map[], [], [], 0, 0, 0);
    Start(t);
    assert events[..0] == [];
    for k := 0 to |events|
      invariant Reads(t, events[..k]) && Check(events[..k]) == Fine
    {
      var verdict, next := Advance(t, events[k], events[..k]);
      assert events[..k + 1] == events[..k] + [events[k]];
      CheckStep(events, k);
      if verdict != Fine {
        CheckFails(events, k + 1);
        return Rejected(verdict);
      }
      t := next;
    }
    assert events[..|events|] == events;
    var m := Summarize(t, events);
    if !Representable(m) { return Rejected(Invariant); }
    return Derived(m);
  }

  method Summarize(t: Totals, ghost events: seq<Event>) returns (m: Metrics)
    requires Reads(t, events)
    ensures m == MetricsOf(events)
  {
    hide Tracks, Intents, Requests, WorkEpochs, AppliedDigests, NormalizedFor;
    var normalized := Normalize(t.operations, t.order, events);
    var digests := SuccessfulDigests(normalized);
    var epochs := ToolBearingEpochs(t.operations, events);
    var work := CountWorkEpochs(t.requests, epochs, events);
    m := Metrics(work, |t.requests|, |t.operations|, Duplicates(digests),
                 t.compactions, Max(t.losses, t.recoveries), normalized);
  }

  lemma Start(t: Totals)
    requires t == Totals(map[], [], [], 0, 0, 0)
    ensures Reads(t, []) && Check([]) == Fine
  {
  }

  lemma CheckStep(events: seq<Event>, k: nat)
    requires k < |events| && Check(events[..k]) == Fine
    ensures Check(events[..k + 1]) == Admits(events[..k], events[k])
  {
    assert events[..k + 1][..k] == events[..k];
  }

  lemma {:induction false} CheckFails(events: seq<Event>, k: nat)
    requires k <= |events| && Check(events[..k]) != Fine
    ensures Check(events) == Check(events[..k])
  {
    if k < |events| {
      var front := events[..|events| - 1];
      assert front[..k] == events[..k];
      CheckFails(front, k);
    } else {
      assert events[..k] == events;
    }
  }
}
