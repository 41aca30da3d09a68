/** Sums and filters over lists do not depend on the order of the list. */
module Permutations {
  function SumBy<T>(s: seq<T>, f: T -> nat): nat {
    if s == [] then 0 else SumBy(s[..|s| - 1], f) + f(s[|s| - 1])
  }

  function Without<T>(s: seq<T>, i: nat): seq<T>
    requires i < |s|
  {
    s[..i] + s[i + 1..]
  }

  lemma {:induction false} SumByWithout<T>(s: seq<T>, f: T -> nat, i: nat)
    requires i < |s|
    ensures SumBy(s, f) == SumBy(Without(s, i), f) + f(s[i])
  {
    var n := |s| - 1;
    if i == n {
      assert Without(s, i) == s[..n];
    } else {
      SumByWithout(s[..n], f, i);
      assert Without(s, i)[..n - 1] == Without(s[..n], i);
    }
  }

  lemma MultisetWithout<T>(s: seq<T>, i: nat)
    requires i < |s|
    ensures multiset(s) == multiset(Without(s, i)) + multiset{s[i]}
  {
    assert s == s[..i] + [s[i]] + s[i + 1..];
  }

  /** Where the last element of one list stands in a permutation of it. */
  lemma LastIn<T>(a: seq<T>, b: seq<T>) returns (i: nat)
    requires a != [] && multiset(a) == multiset(b)
    ensures i < |b| && b[i] == a[|a| - 1]
    ensures multiset(Without(b, i)) == multiset(a[..|a| - 1])
  {
    var n := |a| - 1;
    assert a[n] in multiset(b);
    i :| 0 <= i < |b| && b[i] == a[n];
    MultisetWithout(b, i);
    assert a == a[..n] + [a[n]];
    assert multiset(Without(b, i)) == multiset(b) - multiset{b[i]};
    assert multiset(a[..n]) == multiset(a) - multiset{a[n]};
  }

  lemma SameLength<T>(a: seq<T>, b: seq<T>)
    requires multiset(a) == multiset(b)
    ensures |a| == |b|
  {
    assert |multiset(a)| == |a| && |multiset(b)| == |b|;
  }

  lemma {:induction false} SumByPermutation<T>(a: seq<T>, b: seq<T>, f: T -> nat)
    requires multiset(a) == multiset(b)
    ensures SumBy(a, f) == SumBy(b, f)
  {
    SameLength(a, b);
    if a != [] {
      var i := LastIn(a, b);
      SumByPermutation(a[..|a| - 1], Without(b, i), f);
      SumByWithout(b, f, i);
    }
  }
}

/** Scoring and ordering of memories. */
module MemoryRanking {
  import opened Prelude
  import opened MapSums
  import opened Permutations

  const I64_MAX: nat := 0x7FFF_FFFF_FFFF_FFFF

  datatype Scope = Session | Workspace | Global
  datatype Kind = Profile | Preference | Goal | Fact | Episode

  datatype Memory = Memory(
    id: nat, scope: Scope, kind: Kind, key: string, content: string, provenance: string, importance: nat,
    updatedAt: int)

  /** A ranked memory; the last two fields are what its reasons report. */
  datatype Retrieved = Retrieved(memory: Memory, score: nat, lexicalMatch: bool, ageDays: nat)

  /** Text handling and the clock: the words of a text, and the age in days of a time stamp. */
  datatype Reader = Reader(tokenize: string -> seq<string>, ageDays: int -> nat)

  // ---- scores ----

  function Document(r: Reader, m: Memory): seq<string> {
    r.tokenize(m.key + " " + m.content)
  }

  function Min(a: nat, b: nat): nat {
    if a < b then a else b
  }

  function Max(a: nat, b: nat): nat {
    if a < b then b else a
  }

  /** The memories whose text has the word. */
  function Containing(r: Reader, all: seq<Memory>, term: string): nat {
    SumBy(all, (m: Memory) => if term in Document(r, m) then 1 else 0)
  }

  function AverageLength(r: Reader, all: seq<Memory>): nat {
    Max(SumBy(all, (m: Memory) => |Document(r, m)|), 1) / Max(|all|, 1)
  }

  function Occurrences(document: seq<string>, term: string): nat {
    multiset(document)[term]
  }

  /** One query term's share of the score. */
  function Share(occurrences: nat, containing: nat, count: nat, length: nat, average: nat): nat {
    var idf := ((count + 1) * 1_000) / (containing + 1);
    var penalty := 500 + (500 * length) / Max(average, 1);
    (occurrences * idf * 1_500) / Max(penalty, 1)
  }

  ghost function Shares(r: Reader, terms: set<string>, m: Memory, all: seq<Memory>): map<string, nat> {
    map term | term in terms ::
      Share(Occurrences(Document(r, m), term), Containing(r, all, term), |all|, |Document(r, m)|, AverageLength(r, all))
  }

  function Terms(r: Reader, query: string): set<string> {
    set term | term in r.tokenize(query)
  }

  /** The saturated total over the distinct query terms. */
  ghost function Lexical(r: Reader, terms: set<string>, m: Memory, all: seq<Memory>): nat {
    Min(Sum(Shares(r, terms, m, all)), I64_MAX)
  }

  function ScopeBonus(scope: Scope): nat {
    match scope case Session => 2_000 case Workspace => 1_000 case Global => 0
  }

  function KindBonus(kind: Kind): nat {
    match kind case Profile => 500 case Preference => 500 case Goal => 300 case Fact => 100 case Episode => 0
  }

  function Recency(age: nat): nat {
    if age * 20 < 1_000 then 1_000 - age * 20 else 0
  }

  function Scored(r: Reader, m: Memory, lexical: nat): Option<Retrieved> {
    if lexical == 0 && !m.kind.Profile? && !m.kind.Preference? then None
    else
      var age := r.ageDays(m.updatedAt);
      var score := lexical + ScopeBonus(m.scope) + KindBonus(m.kind) + m.importance * 20 + Recency(age);
      Some(Retrieved(m, score, lexical > 0, age))
  }

  ghost function Evaluate(r: Reader, query: string, m: Memory, all: seq<Memory>): Option<Retrieved> {
    Scored(r, m, Lexical(r, Terms(r, query), m, all))
  }

  ghost function Relevant(r: Reader, query: string, some: seq<Memory>, all: seq<Memory>): seq<Retrieved> {
    if some == [] then []
    else
      var e := Evaluate(r, query, some[|some| - 1], all);
      Relevant(r, query, some[..|some| - 1], all) + if e.Some? then [e.value] else []
  }

  // ---- what the scores say ----

  lemma MulLe(a: nat, b: nat, c: nat)
    requires a <= b
    ensures a * c <= b * c
  {
  }

  lemma DivAtLeast(a: nat, d: nat, q: nat)
    requires d > 0 && q * d <= a
    ensures q <= a / d
  {
    if a / d < q {
      MulLe(a / d + 1, q, d);
    }
  }

  lemma DivLe(a: nat, b: nat, d: nat)
    requires a <= b && d > 0
    ensures a / d <= b / d
  {
    DivAtLeast(b, d, a / d);
  }

  lemma DivByLess(a: nat, d: nat, e: nat)
    requires 0 < d <= e
    ensures a / e <= a / d
  {
    MulLe(d, e, a / e);
    DivAtLeast(a, d, a / e);
  }

  /** More occurrences, a rarer term and a shorter text never lower a term's share. */
  lemma ShareLaws(o: nat, more: nat, rarer: nat, c: nat, count: nat, shorter: nat, length: nat, average: nat)
    requires o <= more && rarer <= c && shorter <= length
    ensures Share(o, c, count, length, average) <= Share(more, rarer, count, shorter, average)
  {
    var n, a := (count + 1) * 1_000, Max(average, 1);
    DivByLess(n, rarer + 1, c + 1);
    DivLe(500 * shorter, 500 * length, a);
    WeightedLe(o, more, n / (c + 1), n / (rarer + 1), 500 + (500 * length) / a, 500 + (500 * shorter) / a);
  }

  lemma WeightedLe(o: nat, more: nat, less: nat, greater: nat, longer: nat, brief: nat)
    requires o <= more && less <= greater && 0 < brief <= longer
    ensures (o * less * 1_500) / longer <= (more * greater * 1_500) / brief
  {
    MulLe(o, more, less);
    MulLe(less, greater, more);
    DivLe(o * less * 1_500, more * greater * 1_500, longer);
    DivByLess(more * greater * 1_500, brief, longer);
  }

  /** The average is that of the texts, rounded down, an empty total counting as one word. */
  lemma AverageExactly(r: Reader, all: seq<Memory>)
    requires all != []
    ensures var total := Max(SumBy(all, (m: Memory) => |Document(r, m)|), 1);
            AverageLength(r, all) * |all| <= total < (AverageLength(r, all) + 1) * |all|
  {
    hide SumBy, Document;
    Quotient(Max(SumBy(all, (m: Memory) => |Document(r, m)|), 1), |all|);
  }

  lemma Quotient(a: nat, d: nat)
    requires d > 0
    ensures a / d * d <= a < (a / d + 1) * d
  {
  }

  lemma {:induction false} ContainingWithin(r: Reader, all: seq<Memory>, term: string)
    ensures Containing(r, all, term) <= |all|
  {
    if all != [] {
      var rest := all[..|all| - 1];
      ContainingWithin(r, rest, term);
      assert Containing(r, all, term) ==
             Containing(r, rest, term) + if term in Document(r, all[|all| - 1]) then 1 else 0;
    }
  }

  lemma RareEnough(containing: nat, count: nat)
    requires containing <= count
    ensures ((count + 1) * 1_000) / (containing + 1) >= 1_000
  {
    DivAtLeast((count + 1) * 1_000, containing + 1, 1_000);
  }

  lemma PenaltyWithin(length: nat, average: nat)
    requires length <= 2_048 && average > 0
    ensures 500 + (500 * length) / average <= 1_500_000
  {
    DivByLess(500 * length, 1, average);
  }

  lemma ShareWithin(o: nat, idf: nat, penalty: nat)
    requires o > 0 && idf >= 1_000 && 0 < penalty <= 1_500_000
    ensures (o * idf * 1_500) / penalty >= 1
  {
    MulLe(1, o, idf);
    DivAtLeast(o * idf * 1_500, penalty, 1);
  }

  /** A term that occurs in a text of at most 2048 words counts for something. */
  lemma ShareOfOccurring(o: nat, containing: nat, count: nat, length: nat, average: nat)
    requires o > 0 && containing <= count && length <= 2_048
    ensures Share(o, containing, count, length, average) > 0
  {
    RareEnough(containing, count);
    PenaltyWithin(length, Max(average, 1));
    ShareWithin(o, ((count + 1) * 1_000) / (containing + 1), 500 + (500 * length) / Max(average, 1));
  }

  /** A memory is relevant exactly when it shares a word with the query or is about the user. */
  lemma RelevantExactly(r: Reader, query: string, m: Memory, all: seq<Memory>)
    requires |Document(r, m)| <= 2_048
    ensures Evaluate(r, query, m, all).Some? <==>
              m.kind in {Profile, Preference} || exists term :: term in r.tokenize(query) && term in Document(r, m)
  {
    hide AverageLength, Containing, Share;
    var terms := Terms(r, query);
    var shares := Shares(r, terms, m, all);
    if term :| term in terms && term in Document(r, m) {
      ContainingWithin(r, all, term);
      ShareOfOccurring(Occurrences(Document(r, m), term), Containing(r, all, term), |all|, |Document(r, m)|,
                       AverageLength(r, all));
      SumWithout(shares, term);
    } else {
      forall term | term in shares ensures shares[term] == 0 {
        ShareOfNone(Containing(r, all, term), |all|, |Document(r, m)|, AverageLength(r, all));
      }
      ZeroSum(shares);
    }
  }

  lemma ShareOfNone(containing: nat, count: nat, length: nat, average: nat)
    ensures Share(0, containing, count, length, average) == 0
  {
  }

  lemma {:induction false} ZeroSum(m: map<string, nat>)
    requires forall key :: key in m ==> m[key] == 0
    ensures Sum(m) == 0
    decreases |m|
  {
    if m != map[] {
      var key :| key in m;
      SumWithout(m, key);
      ZeroSum(m - {key});
    }
  }

  /** Session before workspace before global; what is about the user before goals, facts and episodes. */
  function Distance(scope: Scope): nat {
    match scope case Session => 0 case Workspace => 1 case Global => 2
  }

  function Weight(kind: Kind): nat {
    match kind case Profile => 3 case Preference => 3 case Goal => 2 case Fact => 1 case Episode => 0
  }

  /** Matching better, being nearer, weighing more, being more important and being newer never lower the
      score, and all but the last raise it. */
  lemma BetterScoresHigher(r: Reader, a: Memory, b: Memory, lexicalA: nat, lexicalB: nat)
    requires lexicalA >= lexicalB && Distance(a.scope) <= Distance(b.scope) && Weight(a.kind) >= Weight(b.kind)
    requires a.importance >= b.importance && r.ageDays(a.updatedAt) <= r.ageDays(b.updatedAt)
    requires Scored(r, a, lexicalA).Some? && Scored(r, b, lexicalB).Some?
    ensures var x, y := Scored(r, a, lexicalA).value.score, Scored(r, b, lexicalB).value.score;
            && x >= y
            && (Distance(a.scope) < Distance(b.scope) || Weight(a.kind) > Weight(b.kind) ==> x > y)
            && (lexicalA > lexicalB || a.importance > b.importance ==> x > y)
  {
  }

  /** A nearer scope makes up for any age. */
  lemma NearnessOutweighsAge(r: Reader, a: Memory, b: Memory, lexical: nat)
    requires Distance(a.scope) < Distance(b.scope) && a.kind == b.kind && a.importance >= b.importance
    requires Scored(r, a, lexical).Some? && Scored(r, b, lexical).Some?
    ensures Scored(r, a, lexical).value.score >= Scored(r, b, lexical).value.score
  {
  }

  // ---- order ----

  predicate Before(a: Retrieved, b: Retrieved) {
    || a.score > b.score
    || (a.score == b.score && (a.memory.updatedAt > b.memory.updatedAt ||
                               (a.memory.updatedAt == b.memory.updatedAt && a.memory.id < b.memory.id)))
  }

  ghost predicate Sorted(s: seq<Retrieved>) {
    forall i, j :: 0 <= i < j < |s| ==> !Before(s[j], s[i])
  }

  /** Higher scores first; on equal scores the newer, on equal times the smaller id. */
  ghost predicate BestFirst(s: seq<Retrieved>) {
    forall i, j :: 0 <= i < j < |s| ==>
      && s[i].score >= s[j].score
      && (s[i].score == s[j].score ==> s[i].memory.updatedAt >= s[j].memory.updatedAt)
      && (s[i].score == s[j].score && s[i].memory.updatedAt == s[j].memory.updatedAt ==>
            s[i].memory.id <= s[j].memory.id)
  }

  lemma SortedIsBestFirst(s: seq<Retrieved>)
    ensures Sorted(s) <==> BestFirst(s)
  {
  }

  function Insert(x: Retrieved, s: seq<Retrieved>): seq<Retrieved> {
    if s == [] || !Before(s[0], x) then [x] + s else [s[0]] + Insert(x, s[1..])
  }

  /** Stable: equal elements keep their order. */
  function Sort(s: seq<Retrieved>): seq<Retrieved> {
    if s == [] then [] else Insert(s[0], Sort(s[1..]))
  }

  lemma SortedCons(x: Retrieved, s: seq<Retrieved>)
    requires Sorted(s) && forall j :: 0 <= j < |s| ==> !Before(s[j], x)
    ensures Sorted([x] + s)
  {
  }

  lemma SortedTail(s: seq<Retrieved>)
    requires Sorted(s) && s != []
    ensures Sorted(s[1..]) && multiset(s) == multiset{s[0]} + multiset(s[1..])
    ensures forall j :: 0 <= j < |s| - 1 ==> !Before(s[1..][j], s[0])
  {
    assert s == [s[0]] + s[1..];
  }

  lemma {:induction false} InsertSorted(x: Retrieved, s: seq<Retrieved>)
    requires Sorted(s)
    ensures Sorted(Insert(x, s)) && multiset(Insert(x, s)) == multiset{x} + multiset(s)
  {
    if s == [] {
    } else if Before(s[0], x) {
      SortedTail(s);
      InsertSorted(x, s[1..]);
      var rest := Insert(x, s[1..]);
      forall j | 0 <= j < |rest| ensures !Before(rest[j], s[0]) {
        assert rest[j] in multiset(rest);
      }
      hide Insert, Sorted;
      SortedCons(s[0], rest);
    } else {
      forall j | 0 <= j < |s| ensures !Before(s[j], x) {
        assert j > 0 ==> !Before(s[j], s[0]);
      }
      SortedCons(x, s);
    }
  }

  lemma {:induction false} SortSorted(s: seq<Retrieved>)
    ensures Sorted(Sort(s)) && multiset(Sort(s)) == multiset(s)
  {
    if s != [] {
      SortSorted(s[1..]);
      hide Sorted;
      InsertSorted(s[0], Sort(s[1..]));
      assert s == [s[0]] + s[1..];
    }
  }

  /** No two different entries share an id. */
  ghost predicate Identified(s: multiset<Retrieved>) {
    forall a, b :: a in s && b in s && a.memory.id == b.memory.id ==> a == b
  }

  /** Then only one order is sorted. */
  lemma {:induction false} SortedUnique(s: seq<Retrieved>, t: seq<Retrieved>)
    requires Sorted(s) && Sorted(t) && multiset(s) == multiset(t) && Identified(multiset(s))
    ensures s == t
  {
    hide Sorted, Before;
    SameLength(s, t);
    if s != [] {
      SameHead(s, t);
      SortedTail(s);
      SortedTail(t);
      assert multiset(s[1..]) == multiset(s) - multiset{s[0]} == multiset(t[1..]);
      assert s == [s[0]] + s[1..] && t == [t[0]] + t[1..];
      SortedUnique(s[1..], t[1..]);
    }
  }

  lemma SameHead(s: seq<Retrieved>, t: seq<Retrieved>)
    requires Sorted(s) && Sorted(t) && multiset(s) == multiset(t) && Identified(multiset(s)) && s != [] && t != []
    ensures s[0] == t[0]
  {
    assert t[0] in multiset(s) && s[0] in multiset(t);
    var i :| 0 <= i < |s| && s[i] == t[0];
    var j :| 0 <= j < |t| && t[j] == s[0];
    if i > 0 && j > 0 {
      assert !Before(s[i], s[0]) && !Before(t[j], t[0]);
    }
  }

  // ---- permutations ----

  ghost predicate DistinctIds(s: seq<Memory>) {
    forall i, j :: 0 <= i < j < |s| ==> s[i].id != s[j].id
  }

  lemma SameEvaluation(r: Reader, query: string, m: Memory, a: seq<Memory>, b: seq<Memory>)
    requires multiset(a) == multiset(b)
    ensures Evaluate(r, query, m, a) == Evaluate(r, query, m, b)
  {
    SameLength(a, b);
    SumByPermutation(a, b, (m: Memory) => |Document(r, m)|);
    var terms := Terms(r, query);
    forall term | term in terms ensures Containing(r, a, term) == Containing(r, b, term) {
      SumByPermutation(a, b, (m: Memory) => if term in Document(r, m) then 1 else 0);
    }
    assert Shares(r, terms, m, a) == Shares(r, terms, m, b);
  }

  lemma {:induction false} SameRelevant(r: Reader, query: string, some: seq<Memory>, a: seq<Memory>, b: seq<Memory>)
    requires multiset(a) == multiset(b)
    ensures Relevant(r, query, some, a) == Relevant(r, query, some, b)
  {
    hide Evaluate;
    if some != [] {
      SameRelevant(r, query, some[..|some| - 1], a, b);
      SameEvaluation(r, query, some[|some| - 1], a, b);
    }
  }

  ghost function AsBag(e: Option<Retrieved>): multiset<Retrieved> {
    if e.Some? then multiset{e.value} else multiset{}
  }

  lemma RelevantLast(r: Reader, query: string, some: seq<Memory>, all: seq<Memory>)
    requires some != []
    ensures multiset(Relevant(r, query, some, all)) ==
            multiset(Relevant(r, query, some[..|some| - 1], all)) + AsBag(Evaluate(r, query, some[|some| - 1], all))
  {
    hide Evaluate;
  }

  lemma {:induction false} RelevantWithout(r: Reader, query: string, some: seq<Memory>, all: seq<Memory>, i: nat)
    requires i < |some|
    ensures multiset(Relevant(r, query, some, all)) ==
            multiset(Relevant(r, query, Without(some, i), all)) + AsBag(Evaluate(r, query, some[i], all))
  {
    hide Evaluate, Relevant, AsBag;
    var n := |some| - 1;
    RelevantLast(r, query, some, all);
    if i == n {
      assert Without(some, i) == some[..n];
    } else {
      RelevantWithout(r, query, some[..n], all, i);
      RelevantLast(r, query, Without(some, i), all);
      assert Without(some, i)[..n - 1] == Without(some[..n], i);
    }
  }

  lemma {:induction false} RelevantPermutation(r: Reader, query: string, a: seq<Memory>, b: seq<Memory>,
                                               all: seq<Memory>)
    requires multiset(a) == multiset(b)
    ensures multiset(Relevant(r, query, a, all)) == multiset(Relevant(r, query, b, all))
  {
    hide Evaluate, Relevant, AsBag;
    SameLength(a, b);
    if a != [] {
      var i := LastIn(a, b);
      RelevantPermutation(r, query, a[..|a| - 1], Without(b, i), all);
      RelevantWithout(r, query, b, all, i);
      RelevantLast(r, query, a, all);
    } else {
      assert b == [];
    }
  }

  lemma {:induction false} RelevantFrom(r: Reader, query: string, some: seq<Memory>, all: seq<Memory>, e: Retrieved)
    requires e in Relevant(r, query, some, all)
    ensures exists i :: 0 <= i < |some| && Evaluate(r, query, some[i], all) == Some(e) && e.memory == some[i]
  {
    var n := |some| - 1;
    var last := Evaluate(r, query, some[n], all);
    if last == Some(e) {
      assert e.memory == some[n];
    } else {
      RelevantFrom(r, query, some[..n], all, e);
      var i :| 0 <= i < n && Evaluate(r, query, some[..n][i], all) == Some(e) && e.memory == some[..n][i];
      assert some[..n][i] == some[i];
    }
  }

  lemma RelevantIdentified(r: Reader, query: string, all: seq<Memory>)
    requires DistinctIds(all)
    ensures Identified(multiset(Relevant(r, query, all, all)))
  {
    hide Evaluate, Relevant;
    var s := Relevant(r, query, all, all);
    forall a: Retrieved, b: Retrieved | a in multiset(s) && b in multiset(s) && a.memory.id == b.memory.id
      ensures a == b
    {
      RelevantFrom(r, query, all, all, a);
      RelevantFrom(r, query, all, all, b);
    }
  }

  ghost function Ranked(r: Reader, query: string, candidates: seq<Memory>): seq<Retrieved> {
    Sort(Relevant(r, query, candidates, candidates))
  }

  /** Document frequency, average length, scores and the tie-broken order do not depend on the order
      in which the candidates come. */
  lemma RankedPermutation(r: Reader, query: string, a: seq<Memory>, b: seq<Memory>)
    requires multiset(a) == multiset(b) && DistinctIds(a)
    ensures Ranked(r, query, a) == Ranked(r, query, b)
  {
    hide Relevant, Sort, Identified, Sorted;
    var ra, rb := Relevant(r, query, a, a), Relevant(r, query, b, b);
    SameRelevant(r, query, b, a, b);
    RelevantPermutation(r, query, a, b, a);
    RelevantIdentified(r, query, a);
    SortSorted(ra);
    SortSorted(rb);
    SortedUnique(Sort(ra), Sort(rb));
  }
}
