/**
 * Heuristic scoring of one pull request: eight qualitative 0-10 dimensions
 * and a 0-100 attention figure, computed from a handful of PR fields that
 * are defaulted when missing.  Python floats are modelled as `real`.
 */
module Scoring {
  import opened Wrappers

  /** The nine scores, in the order the source declares them. */
  datatype Scores = Scores(
    codeQuality: real,
    verbosity: real,
    efficiency: real,
    stability: real,
    robustness: real,
    cleanCode: real,
    reusability: real,
    ingenuity: real,
    attention: real)

  /** The PR dictionary fields that scoring reads; None is a missing key or null. */
  datatype PrFields = PrFields(
    additions: Option<int>,
    deletions: Option<int>,
    changedFiles: Option<int>,
    hasTests: Option<bool>,
    docTouchRatio: Option<real>,
    draft: Option<bool>,
    state: Option<string>)

  /** The empty dictionary `{}`. */
  const EmptyPr := PrFields(None, None, None, None, None, None, None)

  /** The defaulted inputs every score is computed from. */
  datatype Metrics = Metrics(
    churn: int,
    changedFiles: int,
    hasTests: bool,
    docTouchRatio: real,
    draft: bool,
    state: string)

  function Min(a: real, b: real): real { if a <= b then a else b }
  function Max(a: real, b: real): real { if a >= b then a else b }

  /** `max(lo, min(hi, value))`. */
  function Clamp(value: real, lo: real, hi: real): (r: real)
    ensures lo <= hi ==> lo <= r <= hi
    ensures lo <= value <= hi ==> r == value
    ensures lo <= hi && value < lo ==> r == lo
    ensures lo <= hi && hi < value ==> r == hi
    ensures hi < lo ==> r == lo
  {
    Max(lo, Min(hi, value))
  }

  /** Clamp with the source's default bounds [0, 10]. */
  function Clamp10(value: real): (r: real)
    ensures 0.0 <= r <= 10.0
  {
    Clamp(value, 0.0, 10.0)
  }

  /** Clamping never reverses the order of two values. */
  lemma ClampMonotone(v: real, w: real, lo: real, hi: real)
    requires v <= w
    ensures Clamp(v, lo, hi) <= Clamp(w, lo, hi)
  {
  }

  /** The defaulting at the top of score_pr. */
  function Extract(pr: PrFields): (m: Metrics)
    ensures m.churn == pr.additions.GetOr(0) + pr.deletions.GetOr(0)
    ensures m.state != ""
    ensures pr.state.Some? && pr.state.value != "" ==> m.state == pr.state.value
  {
    Metrics(
      pr.additions.GetOr(0) + pr.deletions.GetOr(0),
      pr.changedFiles.GetOr(0),
      pr.hasTests.GetOr(false),
      pr.docTouchRatio.GetOr(0.0),
      pr.draft.GetOr(false),
      if pr.state.Some? && pr.state.value != "" then pr.state.value else "open")
  }

  /** The size penalty: a step function of churn. */
  function SizePenalty(churn: int): (p: int)
    ensures p in {0, 2, 4, 6}
  {
    if churn < 50 then 0
    else if churn < 200 then 2
    else if churn < 600 then 4
    else 6
  }

  /** The penalty is two points per threshold (50, 200, 600) that churn has reached. */
  lemma SizePenaltyCountsThresholds(churn: int)
    ensures SizePenalty(churn)
         == (if churn >= 50 then 2 else 0) + (if churn >= 200 then 2 else 0) + (if churn >= 600 then 2 else 0)
  {
  }

  /** More churn never lowers the size penalty. */
  lemma SizePenaltyMonotone(c: int, d: int)
    requires c <= d
    ensures SizePenalty(c) <= SizePenalty(d)
  {
  }

  /** The sum of the five independent risk increments. */
  function Risk(m: Metrics): (r: int)
    ensures 0 <= r <= 85
    ensures r == 0 <==> m.churn <= 600 && m.hasTests && !m.draft && m.changedFiles <= 30 && m.state != "open"
    ensures r == 85 <==> m.churn > 600 && !m.hasTests && m.draft && m.changedFiles > 30 && m.state == "open"
  {
    (if m.churn > 600 then 30 else 0)
    + (if !m.hasTests then 20 else 0)
    + (if m.draft then 10 else 0)
    + (if m.changedFiles > 30 then 10 else 0)
    + (if m.state == "open" then 15 else 0)
  }

  /** The eight dimensions and attention, from defaulted inputs. */
  function ScoreMetrics(m: Metrics): (s: Scores)
    ensures InRange(s)
    ensures s.attention == Clamp(30.0 + Risk(m) as real - m.docTouchRatio * 10.0, 0.0, 100.0)
  {
    var sp := SizePenalty(m.churn);
    Scores(
      Clamp10(9.0 - sp as real + (if m.hasTests then 1.0 else -1.0)),
      Clamp10(5.0 + m.docTouchRatio * 5.0 - m.churn as real / 800.0),
      Clamp10(7.0 - m.churn as real / 400.0),
      Clamp10((if m.hasTests then 8.0 else 5.0) + (if m.state == "merged" then 2.0 else 0.0) - (if m.draft then 2.0 else 0.0)),
      Clamp10((if m.hasTests then 6.0 else 4.0) + (if m.docTouchRatio > 0.1 then 1.0 else 0.0)),
      Clamp10(7.0 - sp as real / 2.0),
      Clamp10(6.0 + m.docTouchRatio * 2.0 - m.changedFiles as real / 50.0),
      Clamp10(5.0 + Min(3.0, m.docTouchRatio * 2.0) - sp as real / 3.0),
      Max(0.0, Min(100.0, 30.0 + Risk(m) as real - m.docTouchRatio * 10.0)))
  }

  /** Every dimension lies in [0, 10] and attention in [0, 100]. */
  predicate InRange(s: Scores) {
    && 0.0 <= s.codeQuality <= 10.0
    && 0.0 <= s.verbosity <= 10.0
    && 0.0 <= s.efficiency <= 10.0
    && 0.0 <= s.stability <= 10.0
    && 0.0 <= s.robustness <= 10.0
    && 0.0 <= s.cleanCode <= 10.0
    && 0.0 <= s.reusability <= 10.0
    && 0.0 <= s.ingenuity <= 10.0
    && 0.0 <= s.attention <= 100.0
  }

  /** score_pr: scores any PR dictionary, whatever its fields hold. */
  function ScorePr(pr: PrFields): (s: Scores)
    ensures InRange(s)
  {
    ScoreMetrics(Extract(pr))
  }

  /** An empty dictionary scores as a small, untested, open PR. */
  lemma EmptyPrScores()
    ensures ScorePr(EmptyPr) == Scores(8.0, 5.0, 7.0, 5.0, 4.0, 7.0, 6.0, 5.0, 65.0)
  {
  }

  /** With a plausible doc ratio, attention is 30 plus risk less the docs discount, capped at 100. */
  lemma AttentionFromRisk(m: Metrics)
    requires 0.0 <= m.docTouchRatio <= 1.0
    ensures ScoreMetrics(m).attention == Min(100.0, 30.0 + Risk(m) as real - m.docTouchRatio * 10.0)
    ensures 20.0 <= ScoreMetrics(m).attention
  {
  }

  /** More churn, all else equal, never raises any size-driven dimension. */
  lemma MoreChurnNeverScoresHigher(m: Metrics, churn: int)
    requires m.churn <= churn
    ensures ScoreMetrics(m.(churn := churn)).efficiency <= ScoreMetrics(m).efficiency
    ensures ScoreMetrics(m.(churn := churn)).cleanCode <= ScoreMetrics(m).cleanCode
    ensures ScoreMetrics(m.(churn := churn)).codeQuality <= ScoreMetrics(m).codeQuality
    ensures ScoreMetrics(m.(churn := churn)).verbosity <= ScoreMetrics(m).verbosity
    ensures ScoreMetrics(m.(churn := churn)).ingenuity <= ScoreMetrics(m).ingenuity
  {
    var sp, sp' := SizePenalty(m.churn), SizePenalty(churn);
    SizePenaltyMonotone(m.churn, churn);
    ClampMonotone(7.0 - churn as real / 400.0, 7.0 - m.churn as real / 400.0, 0.0, 10.0);
    ClampMonotone(7.0 - sp' as real / 2.0, 7.0 - sp as real / 2.0, 0.0, 10.0);
    var t := if m.hasTests then 1.0 else -1.0;
    ClampMonotone(9.0 - sp' as real + t, 9.0 - sp as real + t, 0.0, 10.0);
    ClampMonotone(5.0 + m.docTouchRatio * 5.0 - churn as real / 800.0,
                  5.0 + m.docTouchRatio * 5.0 - m.churn as real / 800.0, 0.0, 10.0);
    var g := Min(3.0, m.docTouchRatio * 2.0);
    ClampMonotone(5.0 + g - sp' as real / 3.0, 5.0 + g - sp as real / 3.0, 0.0, 10.0);
  }

  /** More changed files, all else equal, never raises reusability. */
  lemma MoreFilesNeverMoreReusable(m: Metrics, files: int)
    requires m.changedFiles <= files
    ensures ScoreMetrics(m.(changedFiles := files)).reusability <= ScoreMetrics(m).reusability
  {
    ClampMonotone(6.0 + m.docTouchRatio * 2.0 - files as real / 50.0,
                  6.0 + m.docTouchRatio * 2.0 - m.changedFiles as real / 50.0, 0.0, 10.0);
  }

  /** The keys of the dictionary scores_to_dict builds. */
  const ScoreNames: set<string> := {
    "code_quality", "verbosity", "efficiency", "stability", "robustness",
    "clean_code", "reusability", "ingenuity", "attention" }

  /** scores_to_dict: one entry per field, named as the field. */
  function ScoresToDict(s: Scores): (d: map<string, real>)
    ensures d.Keys == ScoreNames
    ensures ScoresFromDict(d) == s
  {
    map[
      "code_quality" := s.codeQuality,
      "verbosity" := s.verbosity,
      "efficiency" := s.efficiency,
      "stability" := s.stability,
      "robustness" := s.robustness,
      "clean_code" := s.cleanCode,
      "reusability" := s.reusability,
      "ingenuity" := s.ingenuity,
      "attention" := s.attention]
  }

  /** Reads the nine named entries back into a Scores value. */
  function ScoresFromDict(d: map<string, real>): Scores
    requires ScoreNames <= d.Keys
  {
    Scores(d["code_quality"], d["verbosity"], d["efficiency"], d["stability"],
      d["robustness"], d["clean_code"], d["reusability"], d["ingenuity"], d["attention"])
  }
}
