/** The rendered form of a memory selection and its size. */
module MemoryRendering {
  import opened Prelude
  import opened MemoryRanking

  const LESS_THAN: byte := 60
  const GREATER_THAN: byte := 62
  const COMMA: byte := 44
  const OPEN: byte := 91
  const CLOSE: byte := 93
  // The six characters of a JSON escape of each bracket.
  const ESCAPED_LESS: Bytes := [92, 117, 48, 48, 51, 99]
  const ESCAPED_GREATER: Bytes := [92, 117, 48, 48, 51, 101]

  function Replace(s: Bytes, b: byte, text: Bytes): Bytes {
    if s == [] then []
    else Replace(s[..|s| - 1], b, text) + if s[|s| - 1] == b then text else [s[|s| - 1]]
  }

  /** Two passes over the text. */
  function Escape(s: Bytes): Bytes {
    Replace(Replace(s, LESS_THAN, ESCAPED_LESS), GREATER_THAN, ESCAPED_GREATER)
  }

  type Json = Memory -> Bytes

  function Joined(json: Json, items: seq<Retrieved>): Bytes {
    if items == [] then []
    else
      var last := json(items[|items| - 1].memory);
      if |items| == 1 then last else Joined(json, items[..|items| - 1]) + [COMMA] + last
  }

  function Rendered(json: Json, items: seq<Retrieved>): Bytes {
    Escape([OPEN] + Joined(json, items) + [CLOSE])
  }

  lemma {:induction false} ReplaceConcat(a: Bytes, b: Bytes, x: byte, text: Bytes)
    ensures Replace(a + b, x, text) == Replace(a, x, text) + Replace(b, x, text)
  {
    if b == [] {
      assert a + b == a;
    } else {
      var n := |b| - 1;
      assert (a + b)[..|a| + n] == a + b[..n];
      ReplaceConcat(a, b[..n], x, text);
    }
  }

  lemma EscapeConcat(a: Bytes, b: Bytes)
    ensures Escape(a + b) == Escape(a) + Escape(b)
  {
    hide Replace;
    ReplaceConcat(a, b, LESS_THAN, ESCAPED_LESS);
    ReplaceConcat(Replace(a, LESS_THAN, ESCAPED_LESS), Replace(b, LESS_THAN, ESCAPED_LESS),
                  GREATER_THAN, ESCAPED_GREATER);
  }

  lemma {:induction false} ReplaceRemoves(s: Bytes, b: byte, text: Bytes)
    requires b !in text
    ensures b !in Replace(s, b, text)
  {
    if s != [] {
      ReplaceRemoves(s[..|s| - 1], b, text);
    }
  }

  lemma {:induction false} ReplaceAddsNothingElse(s: Bytes, b: byte, text: Bytes, c: byte)
    requires c !in s && c !in text
    ensures c !in Replace(s, b, text)
  {
    if s != [] {
      ReplaceAddsNothingElse(s[..|s| - 1], b, text, c);
    }
  }

  /** No angle bracket survives, not even through the second pass. */
  lemma EscapeIsBracketFree(s: Bytes)
    ensures LESS_THAN !in Escape(s) && GREATER_THAN !in Escape(s)
  {
    var first := Replace(s, LESS_THAN, ESCAPED_LESS);
    ReplaceRemoves(s, LESS_THAN, ESCAPED_LESS);
    ReplaceAddsNothingElse(first, GREATER_THAN, ESCAPED_GREATER, LESS_THAN);
    ReplaceRemoves(first, GREATER_THAN, ESCAPED_GREATER);
  }

  lemma {:induction false} ReplacePlain(s: Bytes, b: byte, text: Bytes)
    requires b !in s
    ensures Replace(s, b, text) == s
  {
    if s != [] {
      ReplacePlain(s[..|s| - 1], b, text);
      assert s == s[..|s| - 1] + [s[|s| - 1]];
    }
  }

  lemma EscapePlain(s: Bytes)
    requires LESS_THAN !in s && GREATER_THAN !in s
    ensures Escape(s) == s
  {
    ReplacePlain(s, LESS_THAN, ESCAPED_LESS);
    ReplacePlain(s, GREATER_THAN, ESCAPED_GREATER);
  }

  /** What one more item adds: its own escaped text, and a comma unless it is the first. */
  function Cost(json: Json, first: bool, item: Retrieved): nat {
    |Escape(json(item.memory))| + if first then 0 else 1
  }

  lemma EmptyRendered(json: Json)
    ensures |Rendered(json, [])| == 2
  {
    EscapePlain([OPEN] + Joined(json, []) + [CLOSE]);
  }

  lemma RenderedParts(json: Json, items: seq<Retrieved>)
    ensures |Rendered(json, items)| == 2 + |Escape(Joined(json, items))|
  {
    hide Escape, Joined;
    EscapeConcat([OPEN] + Joined(json, items), [CLOSE]);
    EscapeConcat([OPEN], Joined(json, items));
    EscapePlain([OPEN]);
    EscapePlain([CLOSE]);
  }

  /** The size grows by the cost of the item, whatever the items before it. */
  lemma RenderedAppend(json: Json, items: seq<Retrieved>, item: Retrieved)
    ensures |Rendered(json, items + [item])| == |Rendered(json, items)| + Cost(json, items == [], item)
  {
    hide Escape, Rendered;
    RenderedParts(json, items);
    RenderedParts(json, items + [item]);
    assert (items + [item])[..|items|] == items;
    if items == [] {
      EscapePlain([]);
    } else {
      EscapeConcat(Joined(json, items) + [COMMA], json(item.memory));
      EscapeConcat(Joined(json, items), [COMMA]);
      EscapePlain([COMMA]);
    }
  }

  lemma {:induction false} RenderedGrows(json: Json, items: seq<Retrieved>, k: nat)
    requires k <= |items|
    ensures |Rendered(json, items[..k])| <= |Rendered(json, items)|
  {
    hide Rendered, Cost;
    if k == |items| {
      assert items[..k] == items;
    } else {
      var n := |items| - 1;
      RenderedGrows(json, items[..n], k);
      assert items[..n][..k] == items[..k] && items == items[..n] + [items[n]];
      RenderedAppend(json, items[..n], items[n]);
    }
  }
}

/** Selecting the memories that go into a prompt. */
module MemoryContext {
  import opened Prelude
  import opened MapSums
  import opened Permutations
  import opened MemoryRanking
  import opened MemoryRendering

  datatype Settings = Settings(maxItems: nat, contextBytes: nat)

  predicate ValidSettings(s: Settings) {
    1 <= s.maxItems <= 32 && 256 <= s.contextBytes <= 64 * 1024
  }

  datatype Context = Context(items: seq<Retrieved>, considered: nat, irrelevant: nat, totalBytes: nat, truncated: bool)

  // ---- greedy packing ----

  /** Takes every item that still fits, until the item limit. */
  function Packed(json: Json, settings: Settings, ranked: seq<Retrieved>): seq<Retrieved> {
    if ranked == [] then []
    else
      var before := Packed(json, settings, ranked[..|ranked| - 1]);
      var next := before + [ranked[|ranked| - 1]];
      if |before| >= settings.maxItems || |Rendered(json, next)| > settings.contextBytes then before else next
  }

  ghost predicate Subsequence<T>(s: seq<T>, t: seq<T>) {
    s == [] || (t != [] && (if s[|s| - 1] == t[|t| - 1] && Subsequence(s[..|s| - 1], t[..|t| - 1]) then true
                            else Subsequence(s, t[..|t| - 1])))
  }

  /** The selection is in ranked order and within both limits. */
  lemma {:induction false} PackedFits(json: Json, settings: Settings, ranked: seq<Retrieved>)
    requires ValidSettings(settings)
    ensures Subsequence(Packed(json, settings, ranked), ranked)
    ensures |Packed(json, settings, ranked)| <= settings.maxItems
    ensures |Rendered(json, Packed(json, settings, ranked))| <= settings.contextBytes
  {
    hide Rendered;
    EmptyRendered(json);
    if ranked != [] {
      var before := Packed(json, settings, ranked[..|ranked| - 1]);
      PackedFits(json, settings, ranked[..|ranked| - 1]);
      assert (before + [ranked[|ranked| - 1]])[..|before|] == before;
    }
  }

  lemma {:induction false} PackedPrefix(json: Json, settings: Settings, ranked: seq<Retrieved>, k: nat)
    requires k <= |ranked|
    ensures Packed(json, settings, ranked[..k]) <= Packed(json, settings, ranked)
  {
    hide Rendered;
    if k == |ranked| {
      assert ranked[..k] == ranked;
    } else {
      var n := |ranked| - 1;
      PackedPrefix(json, settings, ranked[..n], k);
      assert ranked[..n][..k] == ranked[..k];
    }
  }

  /** The item at `i` was considered, below the item limit, and not taken. */
  ghost predicate PassedOver(json: Json, settings: Settings, ranked: seq<Retrieved>, i: nat)
    requires i < |ranked|
  {
    && |Packed(json, settings, ranked[..i])| < settings.maxItems
    && Packed(json, settings, ranked[..i + 1]) == Packed(json, settings, ranked[..i])
  }

  /** Such an item would overflow the finished selection too. */
  lemma PackedIsMaximal(json: Json, settings: Settings, ranked: seq<Retrieved>, i: nat)
    requires i < |ranked| && PassedOver(json, settings, ranked, i)
    ensures |Rendered(json, Packed(json, settings, ranked) + [ranked[i]])| > settings.contextBytes
  {
    hide Rendered;
    var early, end := Packed(json, settings, ranked[..i]), Packed(json, settings, ranked);
    assert ranked[..i + 1][..i] == ranked[..i];
    assert |Rendered(json, early + [ranked[i]])| > settings.contextBytes;
    PackedPrefix(json, settings, ranked, i);
    assert early == end[..|early|];
    RenderedGrows(json, end, |early|);
    RenderedAppend(json, early, ranked[i]);
    RenderedAppend(json, end, ranked[i]);
  }

  lemma {:induction false} SubsequenceIndices<T>(s: seq<T>, t: seq<T>) returns (at: seq<nat>)
    requires Subsequence(s, t)
    ensures |at| == |s| && (forall k :: 0 <= k < |s| ==> at[k] < |t| && s[k] == t[at[k]])
    ensures forall k, l :: 0 <= k < l < |s| ==> at[k] < at[l]
    decreases |t|
  {
    if s == [] {
      at := [];
    } else {
      var n := |s| - 1;
      if s[n] == t[|t| - 1] && Subsequence(s[..n], t[..|t| - 1]) {
        var before := SubsequenceIndices(s[..n], t[..|t| - 1]);
        at := before + [|t| - 1];
      } else {
        at := SubsequenceIndices(s, t[..|t| - 1]);
      }
    }
  }

  /** A part of a list that is best first is best first. */
  lemma PartIsBestFirst(s: seq<Retrieved>, t: seq<Retrieved>)
    requires Subsequence(s, t) && BestFirst(t)
    ensures BestFirst(s)
  {
    var at := SubsequenceIndices(s, t);
    forall i, j | 0 <= i < j < |s| ensures s[i] == t[at[i]] && s[j] == t[at[j]] && at[i] < at[j] {
    }
  }

  /** The selected items ahead of `e`, with `e` after them, do not fit. */
  ghost predicate DoesNotFit(json: Json, settings: Settings, items: seq<Retrieved>, m: nat, e: Retrieved) {
    m <= |items| && |Rendered(json, items[..m] + [e])| > settings.contextBytes
  }

  ghost predicate LeftOut(json: Json, settings: Settings, items: seq<Retrieved>, e: Retrieved) {
    || (|items| == settings.maxItems && forall k :: 0 <= k < |items| ==> items[k].score >= e.score)
    || (exists m :: DoesNotFit(json, settings, items, m, e)
          && forall k :: 0 <= k < m ==> items[k].score >= e.score)
  }

  lemma EarlierScoreHigher(json: Json, settings: Settings, ranked: seq<Retrieved>, i: nat)
    requires ValidSettings(settings) && BestFirst(ranked) && i < |ranked|
    ensures var early := Packed(json, settings, ranked[..i]);
            forall k :: 0 <= k < |early| ==> early[k].score >= ranked[i].score
  {
    hide Rendered, Packed;
    var early := Packed(json, settings, ranked[..i]);
    PackedFits(json, settings, ranked[..i]);
    var at := SubsequenceIndices(early, ranked[..i]);
    forall k | 0 <= k < |early| ensures early[k].score >= ranked[i].score {
      assert early[k] == ranked[at[k]];
    }
  }

  lemma PackedNext(json: Json, settings: Settings, ranked: seq<Retrieved>, i: nat)
    requires i < |ranked|
    ensures var early := Packed(json, settings, ranked[..i]);
            Packed(json, settings, ranked[..i + 1]) ==
            if |early| >= settings.maxItems || |Rendered(json, early + [ranked[i]])| > settings.contextBytes then early
            else early + [ranked[i]]
  {
    assert ranked[..i + 1][..i] == ranked[..i];
  }

  /** Why a relevant memory is not in the context: it does not fit behind the selected ones ahead of it, or
      the item limit is reached with memories none of which scores lower. */
  lemma LeftOutByLimits(json: Json, settings: Settings, ranked: seq<Retrieved>, e: Retrieved)
    requires ValidSettings(settings) && BestFirst(ranked) && e in ranked
    requires e !in Packed(json, settings, ranked)
    ensures LeftOut(json, settings, Packed(json, settings, ranked), e)
  {
    hide Rendered, Packed, BestFirst;
    var items := Packed(json, settings, ranked);
    var i :| 0 <= i < |ranked| && ranked[i] == e;
    var early := Packed(json, settings, ranked[..i]);
    EarlierScoreHigher(json, settings, ranked, i);
    PackedPrefix(json, settings, ranked, i);
    PackedPrefix(json, settings, ranked, i + 1);
    PackedNext(json, settings, ranked, i);
    PackedFits(json, settings, ranked);
    if |early| >= settings.maxItems {
      PackedFull(json, settings, ranked, i);
    } else {
      assert e in early + [e] && items[..|early|] == early;
      assert DoesNotFit(json, settings, items, |early|, e);
    }
  }

  method Pack(json: Json, settings: Settings, ranked: seq<Retrieved>) returns (items: seq<Retrieved>, total: nat)
    ensures items == Packed(json, settings, ranked)
    ensures total == |Rendered(json, items)|
  {
    hide Rendered;
    items := [];
    total := |Rendered(json, [])|;
    var k := 0;
    while k < |ranked|
      invariant 0 <= k <= |ranked|
      invariant items == Packed(json, settings, ranked[..k])
      invariant total == |Rendered(json, items)|
    {
      if |items| >= settings.maxItems {
        PackedFull(json, settings, ranked, k);
        return;
      }
      assert ranked[..k + 1][..k] == ranked[..k];
      var next := items + [ranked[k]];
      var prospective := |Rendered(json, next)|;
      if prospective <= settings.contextBytes {
        items, total := next, prospective;
      }
      k := k + 1;
    }
    assert ranked[..k] == ranked;
  }

  lemma {:induction false} PackedFull(json: Json, settings: Settings, ranked: seq<Retrieved>, k: nat)
    requires k <= |ranked| && |Packed(json, settings, ranked[..k])| >= settings.maxItems
    ensures Packed(json, settings, ranked) == Packed(json, settings, ranked[..k])
  {
    hide Rendered;
    if k == |ranked| {
      assert ranked[..k] == ranked;
    } else {
      var front := ranked[..|ranked| - 1];
      assert front[..k] == ranked[..k];
      PackedFull(json, settings, front, k);
    }
  }

  // ---- the whole ----

  ghost function ContextOf(r: Reader, json: Json, settings: Settings, query: string, candidates: seq<Memory>): Context {
    if candidates == [] then Context([], 0, 0, 0, false)
    else
      var ranked := Ranked(r, query, candidates);
      var items := Packed(json, settings, ranked);
      Context(items, |candidates|,
              if |candidates| >= |ranked| then |candidates| - |ranked| else 0,
              |Rendered(json, items)|, |items| < |ranked|)
  }

  /** Without a semantic ranker and with distinct ids, the candidates' order does not matter. */
  lemma OrderOfCandidatesIrrelevant(r: Reader, json: Json, settings: Settings, query: string, a: seq<Memory>,
                                    b: seq<Memory>)
    requires multiset(a) == multiset(b) && DistinctIds(a)
    ensures ContextOf(r, json, settings, query, a) == ContextOf(r, json, settings, query, b)
  {
    hide Ranked, Packed, Rendered;
    RankedPermutation(r, query, a, b);
    SameLength(a, b);
  }

  /** The reported size is the rendered size of the items exactly when there was a candidate: for none
      the report says 0 although an empty list renders to two bytes. */
  lemma ReportedSizeExactly(r: Reader, json: Json, settings: Settings, query: string, candidates: seq<Memory>)
    ensures var context := ContextOf(r, json, settings, query, candidates);
            context.totalBytes == |Rendered(json, context.items)| <==> candidates != []
  {
    hide Rendered, Packed, Ranked;
    EmptyRendered(json);
  }

  /** What a context holds: evaluated candidates, best first, and no relevant one is missing for another
      reason than the two limits. */
  lemma ContextIsBest(r: Reader, json: Json, settings: Settings, query: string, candidates: seq<Memory>)
    requires ValidSettings(settings)
    ensures var items := ContextOf(r, json, settings, query, candidates).items;
            && BestFirst(items)
            && (forall k :: 0 <= k < |items| ==>
                  exists i :: 0 <= i < |candidates| && Evaluate(r, query, candidates[i], candidates) == Some(items[k]))
            && (forall i :: 0 <= i < |candidates| ==>
                  var e := Evaluate(r, query, candidates[i], candidates);
                  e.Some? && e.value !in items ==> LeftOut(json, settings, items, e.value))
  {
    hide Rendered, Packed, Evaluate, Sort, BestFirst, LeftOut;
    var relevant := Relevant(r, query, candidates, candidates);
    var ranked := Sort(relevant);
    SortSorted(relevant);
    SortedIsBestFirst(ranked);
    PackedFits(json, settings, ranked);
    var items := Packed(json, settings, ranked);
    PartIsBestFirst(items, ranked);
    if candidates == [] {
      assert ranked == [];
      NothingPacked(json, settings, ranked);
    }
    var at := SubsequenceIndices(items, ranked);
    forall k | 0 <= k < |items|
      ensures exists i :: 0 <= i < |candidates| && Evaluate(r, query, candidates[i], candidates) == Some(items[k])
    {
      assert items[k] == ranked[at[k]] && ranked[at[k]] in multiset(ranked);
      RelevantFrom(r, query, candidates, candidates, items[k]);
    }
    forall i | 0 <= i < |candidates| && Evaluate(r, query, candidates[i], candidates).Some?
               && Evaluate(r, query, candidates[i], candidates).value !in items
      ensures LeftOut(json, settings, items, Evaluate(r, query, candidates[i], candidates).value)
    {
      RelevantHas(r, query, candidates, candidates, i);
      var e := Evaluate(r, query, candidates[i], candidates).value;
      assert e in multiset(relevant);
      assert e in multiset(ranked);
      LeftOutByLimits(json, settings, ranked, e);
    }
  }

  lemma ReportedSizeWithinLimit(r: Reader, json: Json, settings: Settings, query: string, candidates: seq<Memory>)
    requires ValidSettings(settings)
    ensures var context := ContextOf(r, json, settings, query, candidates);
            && context.totalBytes <= settings.contextBytes
            && |Rendered(json, context.items)| <= settings.contextBytes
            && Subsequence(context.items, Ranked(r, query, candidates))
            && context.irrelevant + |Ranked(r, query, candidates)| == context.considered == |candidates|
  {
    hide Rendered, Packed, Ranked;
    EmptyRendered(json);
    PackedFits(json, settings, Ranked(r, query, candidates));
    RankedLength(r, query, candidates);
  }

  lemma NothingPacked(json: Json, settings: Settings, ranked: seq<Retrieved>)
    requires ranked == []
    ensures Packed(json, settings, ranked) == []
  {
  }

  lemma {:induction false} RelevantHas(r: Reader, query: string, some: seq<Memory>, all: seq<Memory>, i: nat)
    requires i < |some| && Evaluate(r, query, some[i], all).Some?
    ensures Evaluate(r, query, some[i], all).value in Relevant(r, query, some, all)
  {
    hide Evaluate;
    var n := |some| - 1;
    if i < n {
      RelevantHas(r, query, some[..n], all, i);
    }
  }

  lemma RankedLength(r: Reader, query: string, candidates: seq<Memory>)
    ensures |Ranked(r, query, candidates)| <= |candidates|
    ensures candidates == [] ==> Ranked(r, query, candidates) == []
  {
    var s := Relevant(r, query, candidates, candidates);
    SortSorted(s);
    SameLength(Sort(s), s);
    RelevantLength(r, query, candidates, candidates);
  }

  lemma {:induction false} RelevantLength(r: Reader, query: string, some: seq<Memory>, all: seq<Memory>)
    ensures |Relevant(r, query, some, all)| <= |some|
  {
    hide Evaluate;
    if some != [] {
      RelevantLength(r, query, some[..|some| - 1], all);
    }
  }

  // ---- the computation ----

  /** How many documents hold each word, one document after the other. */
  method DocumentFrequency(r: Reader, all: seq<Memory>) returns (frequency: map<string, nat>)
    ensures forall term :: (if term in frequency then frequency[term] else 0) == Containing(r, all, term)
  {
    frequency := map[];
    for k := 0 to |all|
      invariant forall term :: (if term in frequency then frequency[term] else 0) == Containing(r, all[..k], term)
    {
      var document := Document(r, all[k]);
      frequency := AddDocument(frequency, document);
      assert all[..k + 1][..k] == all[..k];
    }
    assert all[..|all|] == all;
  }

  /** Counts each word of the document once, in any order. */
  method AddDocument(frequency: map<string, nat>, document: seq<string>) returns (next: map<string, nat>)
    ensures forall term :: (if term in next then next[term] else 0) ==
              (if term in frequency then frequency[term] else 0) + (if term in document then 1 else 0)
  {
    next := frequency;
    var left := set term | term in document;
    while left != {}
      invariant forall term :: term in left ==> term in document
      invariant forall term :: (if term in next then next[term] else 0) ==
                  (if term in frequency then frequency[term] else 0) +
                  (if term in document && term !in left then 1 else 0)
      decreases |left|
    {
      var term :| term in left;
      next := next[term := (if term in next then next[term] else 0) + 1];
      left := left - {term};
    }
  }

  lemma NoShares(r: Reader, terms: set<string>, m: Memory, all: seq<Memory>)
    requires terms == {} || Document(r, m) == []
    ensures Sum(Shares(r, terms, m, all)) == 0
  {
    hide Containing, AverageLength, Share;
    forall term | term in terms ensures Shares(r, terms, m, all)[term] == 0 {
      ShareOfNone(Containing(r, all, term), |all|, |Document(r, m)|, AverageLength(r, all));
    }
    ZeroSum(Shares(r, terms, m, all));
  }

  /** The score of one memory: a saturating sum over the query terms, taken in any order. */
  method Bm25Score(r: Reader, terms: set<string>, m: Memory, frequency: map<string, nat>, average: nat,
                   ghost all: seq<Memory>, count: nat)
    returns (score: nat)
    requires forall term :: (if term in frequency then frequency[term] else 0) == Containing(r, all, term)
    requires average == AverageLength(r, all) && count == |all|
    ensures score == Lexical(r, terms, m, all)
  {
    hide Containing, AverageLength, Share, Document, Occurrences, Shares, Sum;
    var document := Document(r, m);
    score := 0;
    ghost var shares := Shares(r, terms, m, all);
    if terms == {} || document == [] {
      NoShares(r, terms, m, all);
      return;
    }
    var left := terms;
    ghost var done: map<string, nat> := map[];
    ZeroSum(done);
    while left != {}
      invariant left <= terms && done.Keys == terms - left
      invariant forall term :: term in done ==> term in shares && done[term] == shares[term]
      invariant score == Min(Sum(done), I64_MAX)
      decreases |left|
    {
      var term :| term in left;
      var occurrences := Occurrences(document, term);
      var containing := if term in frequency then frequency[term] else 0;
      var share := 0;
      ShareOfNone(containing, count, |document|, average);
      if occurrences != 0 {
        share := Share(occurrences, containing, count, |document|, average);
        score := Min(score + share, I64_MAX);
      }
      SumAdd(done, term, share);
      SharesAt(r, terms, m, all, term);
      done := done[term := share];
      left := left - {term};
    }
    SharesKeys(r, terms, m, all);
    assert done == shares;
  }

  lemma SharesAt(r: Reader, terms: set<string>, m: Memory, all: seq<Memory>, term: string)
    requires term in terms
    ensures term in Shares(r, terms, m, all)
    ensures Shares(r, terms, m, all)[term] ==
            Share(Occurrences(Document(r, m), term), Containing(r, all, term),
                  |all|, |Document(r, m)|, AverageLength(r, all))
  {
  }

  lemma SharesKeys(r: Reader, terms: set<string>, m: Memory, all: seq<Memory>)
    ensures Shares(r, terms, m, all).Keys == terms
  {
  }

  method RankMemories(r: Reader, json: Json, settings: Settings, query: string, candidates: seq<Memory>)
    returns (context: Context)
    ensures context == ContextOf(r, json, settings, query, candidates)
    ensures ValidSettings(settings) ==> BestFirst(context.items) && |context.items| <= settings.maxItems
  {
    hide Rendered, Packed, Lexical, Containing, AverageLength, Sort;
    if candidates == [] { return Context([], 0, 0, 0, false); }
    var terms := Terms(r, query);
    var frequency := DocumentFrequency(r, candidates);
    var average := AverageLength(r, candidates);
    var relevant: seq<Retrieved> := [];
    for k := 0 to |candidates|
      invariant relevant == Relevant(r, query, candidates[..k], candidates)
    {
      var lexical := Bm25Score(r, terms, candidates[k], frequency, average, candidates, |candidates|);
      var scored := Scored(r, candidates[k], lexical);
      assert candidates[..k + 1][..k] == candidates[..k];
      if scored.Some? { relevant := relevant + [scored.value]; }
    }
    assert candidates[..|candidates|] == candidates;
    var ranked := Sort(relevant);
    var items, total := Pack(json, settings, ranked);
    if ValidSettings(settings) {
      PackedFits(json, settings, ranked);
      ContextIsBest(r, json, settings, query, candidates);
    }
    return Context(items, |candidates|,
                   if |candidates| >= |ranked| then |candidates| - |ranked| else 0, total, |items| < |ranked|);
  }
}
