/**
 * Recommendation rules: per-PR next steps (at most three, de-duplicated,
 * in trigger order) and a batch-level roadmap hint chosen by the first of
 * five threshold rules that fires.
 */
module Recommend {
  import opened Wrappers
  import opened Scoring

  const TestsMissing := "Add/extend unit tests targeting new logic and edge cases; gate with CI."
  const DocsLow := "Augment README/inline docs; explain rationale and trade-offs."
  const TooLarge := "Split PR into cohesive commits/modules; isolate refactors from logic changes."
  const NeedsReview := "Request review from owner of touched module; add checklists."
  const PerfRisk := "Benchmark hotspots; add micro-bench or profiling notes."

  /** NEXT_STEPS_TEMPLATES. */
  const NextStepsTemplates: map<string, string> := map[
    "tests_missing" := TestsMissing,
    "docs_low" := DocsLow,
    "too_large" := TooLarge,
    "needs_review" := NeedsReview,
    "perf_risk" := PerfRisk]

  /** No element occurs twice. */
  predicate Distinct(s: seq<string>) {
    forall i, j :: 0 <= i < j < |s| ==> s[i] != s[j]
  }

  /** The first `n` elements, or all of them when there are fewer. */
  function Prefix(s: seq<string>, n: nat): (r: seq<string>)
    ensures |r| <= n && |r| <= |s| && r == s[..|r|]
    ensures |s| <= n ==> r == s
    ensures n <= |s| ==> |r| == n
  {
    if |s| <= n then s else s[..n]
  }

  /** `s` with every element already in `seen`, or seen earlier in `s`, dropped. */
  function DedupWith(s: seq<string>, seen: set<string>): (r: seq<string>)
    ensures Distinct(r)
    ensures forall x :: x in r ==> x in s && x !in seen
    ensures forall x :: x in s && x !in seen ==> x in r
  {
    if s == [] then []
    else if s[0] in seen then DedupWith(s[1..], seen)
    else [s[0]] + DedupWith(s[1..], seen + {s[0]})
  }

  /** The index of the first occurrence of `x` in `s`. */
  function FirstIndex(s: seq<string>, x: string): (i: nat)
    requires x in s
    ensures i < |s| && s[i] == x && x !in s[..i]
  {
    if s[0] == x then 0 else 1 + FirstIndex(s[1..], x)
  }

  /** De-duplication keeps its elements in the order of their first occurrences in the input. */
  lemma {:induction false} DedupOrderedAt(s: seq<string>, seen: set<string>, i: nat, j: nat)
    requires i < j < |DedupWith(s, seen)|
    ensures FirstIndex(s, DedupWith(s, seen)[i]) < FirstIndex(s, DedupWith(s, seen)[j])
    decreases |s|
  {
    if s != [] {
      if s[0] in seen {
        var t := DedupWith(s[1..], seen);
        assert DedupWith(s, seen) == t;
        DedupOrderedAt(s[1..], seen, i, j);
        TailOrdered(s, t, i, j);
      } else {
        var t := DedupWith(s[1..], seen + {s[0]});
        assert DedupWith(s, seen) == [s[0]] + t;
        if i > 0 {
          DedupOrderedAt(s[1..], seen + {s[0]}, i - 1, j - 1);
        }
        HeadThenTailOrdered(s, t, i, j);
      }
    }
  }

  /** Order by first index in the tail carries over to the whole list, for elements other than its head. */
  lemma TailOrdered(s: seq<string>, t: seq<string>, i: nat, j: nat)
    requires s != [] && i < j < |t|
    requires forall z :: z in t ==> z in s[1..] && z != s[0]
    requires FirstIndex(s[1..], t[i]) < FirstIndex(s[1..], t[j])
    ensures FirstIndex(s, t[i]) < FirstIndex(s, t[j])
  {
    assert t[i] in t && t[j] in t;
    FirstIndexTail(s, t[i]);
    FirstIndexTail(s, t[j]);
  }

  /** Putting the head of `s` in front of such a tail list keeps the order. */
  lemma HeadThenTailOrdered(s: seq<string>, t: seq<string>, i: nat, j: nat)
    requires s != [] && i < j <= |t|
    requires forall z :: z in t ==> z in s[1..] && z != s[0]
    requires i > 0 ==> (FirstIndex(s[1..], t[i - 1]) < FirstIndex(s[1..], t[j - 1]))
    ensures FirstIndex(s, ([s[0]] + t)[i]) < FirstIndex(s, ([s[0]] + t)[j])
  {
    var d := [s[0]] + t;
    assert d[j] == t[j - 1] && t[j - 1] in t;
    FirstIndexTail(s, t[j - 1]);
    if i > 0 {
      TailOrdered(s, t, i - 1, j - 1);
      assert d[i] == t[i - 1];
    }
  }

  /** Past a different first element, the first index is one more than in the tail. */
  lemma FirstIndexTail(s: seq<string>, x: string)
    requires s != [] && x in s[1..] && x != s[0]
    ensures FirstIndex(s, x) == 1 + FirstIndex(s[1..], x)
  {
  }

  /** Order-preserving de-duplication: first occurrences, in order. */
  function Dedup(s: seq<string>): seq<string> {
    DedupWith(s, {})
  }

  /** One step of de-duplication from position `i`. */
  lemma DedupStep(s: seq<string>, i: nat, seen: set<string>)
    requires i < |s|
    ensures DedupWith(s[i..], seen)
         == if s[i] in seen then DedupWith(s[i + 1..], seen)
            else [s[i]] + DedupWith(s[i + 1..], seen + {s[i]})
  {
    assert s[i..][1..] == s[i + 1..];
  }

  /** De-duplicating a list that has no repeats, and none already seen, keeps it whole. */
  lemma {:induction false} DedupOfDistinct(s: seq<string>, seen: set<string>)
    requires Distinct(s)
    requires forall x :: x in s ==> x !in seen
    ensures DedupWith(s, seen) == s
  {
    if s != [] {
      assert s[0] in s;
      forall x | x in s[1..] ensures x !in seen + {s[0]} {
        var k :| 0 <= k < |s[1..]| && s[1..][k] == x;
        assert s[k + 1] == x;
      }
      DedupOfDistinct(s[1..], seen + {s[0]});
    }
  }

  /** A one-element list when `cond` holds, else the empty list. */
  function When(cond: bool, x: string): seq<string> {
    if cond then [x] else []
  }

  /** The `recs` list: every suggestion whose condition holds, in rule order. */
  function Triggered(scores: Scores, pr: PrFields): seq<string> {
    When(scores.stability < 6.0 || !pr.hasTests.GetOr(false), TestsMissing)
    + When(scores.verbosity < 5.0, DocsLow)
    + When(scores.cleanCode < 6.0, TooLarge)
    + When(scores.attention > 60.0, NeedsReview)
    + When(scores.efficiency < 5.0, PerfRisk)
  }

  /** The five templates are pairwise different (their lengths are 71, 61, 77, 60 and 55). */
  lemma TemplatesDiffer()
    ensures TestsMissing != DocsLow && TestsMissing != TooLarge && TestsMissing != NeedsReview
    ensures TestsMissing != PerfRisk && DocsLow != TooLarge && DocsLow != NeedsReview
    ensures DocsLow != PerfRisk && TooLarge != NeedsReview && TooLarge != PerfRisk
    ensures NeedsReview != PerfRisk
  {
    assert |TestsMissing| == 71 && |DocsLow| == 61 && |TooLarge| == 77;
    assert |NeedsReview| == 60 && |PerfRisk| == 55;
  }

  /** Appending an element not yet present keeps a list free of repeats. */
  lemma AppendWhen(s: seq<string>, cond: bool, x: string)
    requires Distinct(s) && x !in s
    ensures Distinct(s + When(cond, x))
    ensures forall y :: y in s + When(cond, x) <==> y in s || (cond && y == x)
  {
  }

  /** Five pairwise different strings, each kept under its own condition, form a list without repeats. */
  lemma FiveWhen(c1: bool, x1: string, c2: bool, x2: string, c3: bool, x3: string,
                 c4: bool, x4: string, c5: bool, x5: string)
    requires x1 != x2 && x1 != x3 && x1 != x4 && x1 != x5
    requires x2 != x3 && x2 != x4 && x2 != x5
    requires x3 != x4 && x3 != x5 && x4 != x5
    ensures var t := When(c1, x1) + When(c2, x2) + When(c3, x3) + When(c4, x4) + When(c5, x5);
      && Distinct(t)
      && (forall y :: y in t ==> y == x1 || y == x2 || y == x3 || y == x4 || y == x5)
      && (x1 in t ==> c1) && (x2 in t ==> c2) && (x3 in t ==> c3) && (x4 in t ==> c4) && (x5 in t ==> c5)
  {
    var t1 := When(c1, x1);
    assert forall y :: y in t1 <==> c1 && y == x1;
    AppendWhen(t1, c2, x2);
    var t2 := t1 + When(c2, x2);
    assert forall y :: y in t2 <==> (c1 && y == x1) || (c2 && y == x2);
    AppendWhen(t2, c3, x3);
    var t3 := t2 + When(c3, x3);
    assert forall y :: y in t3 <==> (c1 && y == x1) || (c2 && y == x2) || (c3 && y == x3);
    AppendWhen(t3, c4, x4);
    var t4 := t3 + When(c4, x4);
    assert forall y :: y in t4 <==> (c1 && y == x1) || (c2 && y == x2) || (c3 && y == x3) || (c4 && y == x4);
    AppendWhen(t4, c5, x5);
  }

  /** The triggered list has no repeats, holds only templates, and each only under its condition. */
  lemma TriggeredFacts(scores: Scores, pr: PrFields)
    ensures Distinct(Triggered(scores, pr))
    ensures forall x :: x in Triggered(scores, pr) ==> x in NextStepsTemplates.Values
    ensures TestsMissing in Triggered(scores, pr) ==> scores.stability < 6.0 || !pr.hasTests.GetOr(false)
    ensures DocsLow in Triggered(scores, pr) ==> scores.verbosity < 5.0
    ensures TooLarge in Triggered(scores, pr) ==> scores.cleanCode < 6.0
    ensures NeedsReview in Triggered(scores, pr) ==> scores.attention > 60.0
    ensures PerfRisk in Triggered(scores, pr) ==> scores.efficiency < 5.0
  {
    TemplatesDiffer();
    FiveWhen(scores.stability < 6.0 || !pr.hasTests.GetOr(false), TestsMissing,
             scores.verbosity < 5.0, DocsLow, scores.cleanCode < 6.0, TooLarge,
             scores.attention > 60.0, NeedsReview, scores.efficiency < 5.0, PerfRisk);
    assert NextStepsTemplates["tests_missing"] == TestsMissing;
    assert NextStepsTemplates["docs_low"] == DocsLow;
    assert NextStepsTemplates["too_large"] == TooLarge;
    assert NextStepsTemplates["needs_review"] == NeedsReview;
    assert NextStepsTemplates["perf_risk"] == PerfRisk;
  }

  /** What recommendations returns: the first three distinct triggered suggestions. */
  function Recommended(scores: Scores, pr: PrFields): (r: seq<string>)
    ensures |r| <= 3 && Distinct(r)
    ensures r == Prefix(Triggered(scores, pr), 3)
    ensures forall x :: x in r ==> x in NextStepsTemplates.Values
  {
    var t := Triggered(scores, pr);
    TriggeredFacts(scores, pr);
    DedupOfDistinct(t, {});
    Prefix(Dedup(t), 3)
  }

  /** recommendations: collect the triggered suggestions, then keep the first three distinct ones. */
  method Recommendations(scores: Scores, pr: PrFields) returns (deduped: seq<string>)
    ensures deduped == Recommended(scores, pr)
  {
    var recs: seq<string> := [];
    var hasTests := pr.hasTests.GetOr(false);
    if scores.stability < 6.0 || !hasTests {
      recs := recs + [TestsMissing];
    }
    assert recs == When(scores.stability < 6.0 || !hasTests, TestsMissing);
    if scores.verbosity < 5.0 {
      recs := recs + [DocsLow];
    }
    ghost var upToDocs := recs;
    if scores.cleanCode < 6.0 {
      recs := recs + [TooLarge];
    }
    assert recs == upToDocs + When(scores.cleanCode < 6.0, TooLarge);
    ghost var upToSize := recs;
    if scores.attention > 60.0 {
      recs := recs + [NeedsReview];
    }
    assert recs == upToSize + When(scores.attention > 60.0, NeedsReview);
    ghost var upToReview := recs;
    if scores.efficiency < 5.0 {
      recs := recs + [PerfRisk];
    }
    assert recs == upToReview + When(scores.efficiency < 5.0, PerfRisk);
    assert recs == Triggered(scores, pr);
    deduped := FirstDistinct(recs, 3);
  }

  /** The de-duplicating loop of recommendations: distinct elements in order, stopping at `cap`. */
  method FirstDistinct(recs: seq<string>, cap: nat) returns (deduped: seq<string>)
    requires cap > 0
    ensures deduped == Prefix(Dedup(recs), cap)
  {
    var seen: set<string> := {};
    deduped := [];
    var i := 0;
    while i < |recs|
      invariant 0 <= i <= |recs|
      invariant |deduped| < cap
      invariant deduped + DedupWith(recs[i..], seen) == Dedup(recs)
    {
      var r := recs[i];
      DedupAdvance(recs, i, seen, deduped);
      if r !in seen {
        seen := seen + {r};
        deduped := deduped + [r];
        if |deduped| >= cap {
          PrefixOfConcat(deduped, DedupWith(recs[i + 1..], seen), cap);
          break;
        }
      }
      i := i + 1;
    }
    if i == |recs| {
      assert recs[i..] == [];
    }
  }

  /** The loop invariant of FirstDistinct survives one step. */
  lemma DedupAdvance(recs: seq<string>, i: nat, seen: set<string>, deduped: seq<string>)
    requires i < |recs|
    requires deduped + DedupWith(recs[i..], seen) == Dedup(recs)
    ensures recs[i] in seen ==> deduped + DedupWith(recs[i + 1..], seen) == Dedup(recs)
    ensures recs[i] !in seen
      ==> (deduped + [recs[i]]) + DedupWith(recs[i + 1..], seen + {recs[i]}) == Dedup(recs)
  {
    DedupStep(recs, i, seen);
    if recs[i] !in seen {
      var rest := DedupWith(recs[i + 1..], seen + {recs[i]});
      assert (deduped + [recs[i]]) + rest == deduped + ([recs[i]] + rest);
    }
  }

  /** Taking `|a|` elements of `a + b` gives `a`. */
  lemma PrefixOfConcat(a: seq<string>, b: seq<string>, n: nat)
    requires |a| == n
    ensures Prefix(a + b, n) == a
  {
    assert (a + b)[..n] == a;
  }

  /** The tests suggestion leads the list exactly when stability is low or tests are missing. */
  lemma TestsSuggestionFirst(scores: Scores, pr: PrFields)
    ensures (scores.stability < 6.0 || !pr.hasTests.GetOr(false))
        <==> (|Recommended(scores, pr)| > 0 && Recommended(scores, pr)[0] == TestsMissing)
  {
  }

  /** Each other suggestion is returned only when its own condition holds. */
  lemma SuggestionConditions(scores: Scores, pr: PrFields)
    ensures TestsMissing in Recommended(scores, pr) ==> scores.stability < 6.0 || !pr.hasTests.GetOr(false)
    ensures DocsLow in Recommended(scores, pr) ==> scores.verbosity < 5.0
    ensures TooLarge in Recommended(scores, pr) ==> scores.cleanCode < 6.0
    ensures NeedsReview in Recommended(scores, pr) ==> scores.attention > 60.0
    ensures PerfRisk in Recommended(scores, pr) ==> scores.efficiency < 5.0
  {
    TriggeredFacts(scores, pr);
  }

  // ---------------------------------------------------------------- roadmap_hint

  /** One element of the aggregate: `{'scores': ..., 'pr': ...}`, either key possibly missing or None. */
  datatype BatchItem = BatchItem(scores: Option<Scores>, pr: Option<PrFields>)

  /** The four conditions roadmap_hint counts. */
  datatype Signal = HighAttention | LowDocs | LowTests | SlowCode

  /** Whether one item counts toward a signal. */
  predicate Flags(item: BatchItem, signal: Signal) {
    match signal
    case HighAttention => item.scores.Some? && item.scores.value.attention > 70.0
    case LowDocs => item.scores.Some? && item.scores.value.verbosity < 5.0
    case LowTests => item.pr.Some? && !item.pr.value.hasTests.GetOr(false)
    case SlowCode => item.scores.Some? && item.scores.value.efficiency < 5.0
  }

  /** The number of items that count toward a signal. */
  function Count(items: seq<BatchItem>, signal: Signal): (n: nat)
    ensures n <= |items|
  {
    if items == [] then 0
    else (if Flags(items[0], signal) then 1 else 0) + Count(items[1..], signal)
  }

  /** Counting over a concatenation adds up. */
  lemma {:induction false} CountConcat(a: seq<BatchItem>, b: seq<BatchItem>, signal: Signal)
    ensures Count(a + b, signal) == Count(a, signal) + Count(b, signal)
  {
    if a == [] {
      assert a + b == b;
    } else {
      assert (a + b)[1..] == a[1..] + b;
      CountConcat(a[1..], b, signal);
    }
  }

  /** An item without scores changes no score-based count, wherever it sits. */
  lemma UnscoredItemIgnored(a: seq<BatchItem>, item: BatchItem, b: seq<BatchItem>, signal: Signal)
    requires item.scores.None? && signal != LowTests
    ensures Count(a + [item] + b, signal) == Count(a + b, signal)
  {
    CountConcat(a + [item], b, signal);
    CountConcat(a, [item], signal);
    CountConcat(a, b, signal);
  }

  /** An item without a PR dictionary never counts as missing tests. */
  lemma ItemWithoutPrIgnored(a: seq<BatchItem>, item: BatchItem, b: seq<BatchItem>)
    requires item.pr.None?
    ensures Count(a + [item] + b, LowTests) == Count(a + b, LowTests)
  {
    CountConcat(a + [item], b, LowTests);
    CountConcat(a, [item], LowTests);
    CountConcat(a, b, LowTests);
  }

  /** `max(2, total // k)`. */
  function Threshold(total: nat, k: nat): (t: nat)
    requires k > 0
    ensures t >= 2 && t >= total / k
    ensures t == 2 || t == total / k
  {
    if total / k >= 2 then total / k else 2
  }

  const NoData := "No data yet."
  const HintDocsAndAttention := "Prioritize a documentation and testing sprint; enforce PR size guardrails and module ownership."
  const HintAttention := "Enforce PR size guardrails; require risk checklists on high-attention changes."
  const HintDocs := "Invest in better documentation and rationale sections in PRs; adopt a docs checklist."
  const HintTests := "Schedule a testing push; add CI gates requiring targeted unit tests on changed modules."
  const HintPerf := "Add performance budgets and basic benchmarks for hotspots; profile critical paths."
  const SteadyState := "Steady state; continue current review process and incremental improvements."

  /** A signal reaches its threshold: total // 3 for attention, total // 4 otherwise. */
  predicate Fires(items: seq<BatchItem>, signal: Signal) {
    Count(items, signal) >= Threshold(|items|, if signal == HighAttention then 3 else 4)
  }

  /** roadmap_hint: one of the seven fixed messages. */
  function RoadmapHint(items: seq<BatchItem>): (hint: string)
    ensures hint in {NoData, HintDocsAndAttention, HintAttention, HintDocs, HintTests, HintPerf, SteadyState}
  {
    if items == [] then NoData
    else if Fires(items, HighAttention) && Fires(items, LowDocs) then HintDocsAndAttention
    else if Fires(items, HighAttention) then HintAttention
    else if Fires(items, LowDocs) then HintDocs
    else if Fires(items, LowTests) then HintTests
    else if Fires(items, SlowCode) then HintPerf
    else SteadyState
  }

  /** An empty batch gets the bootstrap message, and only an empty batch does. */
  lemma RoadmapEmpty(items: seq<BatchItem>)
    ensures RoadmapHint(items) == NoData <==> items == []
  {
  }

  /** Each hint is returned exactly when its rule fires and no earlier rule does. */
  lemma RoadmapFirstMatch(items: seq<BatchItem>)
    requires items != []
    ensures RoadmapHint(items) == HintDocsAndAttention
        <==> Fires(items, HighAttention) && Fires(items, LowDocs)
    ensures RoadmapHint(items) == HintAttention
        <==> Fires(items, HighAttention) && !Fires(items, LowDocs)
    ensures RoadmapHint(items) == HintDocs
        <==> !Fires(items, HighAttention) && Fires(items, LowDocs)
    ensures RoadmapHint(items) == HintTests
        <==> !Fires(items, HighAttention) && !Fires(items, LowDocs) && Fires(items, LowTests)
    ensures RoadmapHint(items) == HintPerf
        <==> !Fires(items, HighAttention) && !Fires(items, LowDocs) && !Fires(items, LowTests)
             && Fires(items, SlowCode)
    ensures RoadmapHint(items) == SteadyState
        <==> !Fires(items, HighAttention) && !Fires(items, LowDocs) && !Fires(items, LowTests)
             && !Fires(items, SlowCode)
  {
  }

  /** One item can never reach a threshold of at least two: a single PR is steady state. */
  lemma SingleItemIsSteady(item: BatchItem)
    ensures RoadmapHint([item]) == SteadyState
  {
    assert [item][1..] == [];
  }
}
