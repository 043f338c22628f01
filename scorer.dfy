/** The score engine of src/engine/scorer.ts. */
module Scorer {
  import opened Wrappers
  import opened Types

  /** A running total per competency. The scorer's own states hold all four
      keys; the simulator's state starts empty and gains keys as effects arrive. */
  type Score = map<Competency, int>

  /** The value of `k` in `m`, reading an absent key as 0 (the `?? 0` of the source). */
  function Get0(m: map<Competency, int>, k: Competency): int {
    if k in m then m[k] else 0
  }

  /** The initial score: each of the four competencies at 0. */
  function InitScore(): (s: Score)
    ensures forall c: Competency :: c in s && s[c] == 0
  {
    EveryCompetencyListed();
    map c | c in AllCompetencies() :: 0
  }

  /** The score after adding the deltas of `eff`: the specification of `ApplyEffects`. */
  function Applied(s: Score, eff: Effects): Score {
    map k | k in s.Keys + eff.Keys :: Get0(s, k) + Get0(eff, k)
  }

  /** Every key of the effects gets the old value (0 when absent) plus its delta. */
  lemma AppliedAt(s: Score, eff: Effects, k: Competency)
    requires k in eff
    ensures k in Applied(s, eff) && Applied(s, eff)[k] == Get0(s, k) + eff[k]
  {
  }

  /** A key the effects do not mention keeps its value, and stays absent if it was. */
  lemma AppliedElsewhere(s: Score, eff: Effects, k: Competency)
    requires k !in eff
    ensures k in Applied(s, eff) <==> k in s
    ensures k in s ==> Applied(s, eff)[k] == s[k]
  {
  }

  /** An empty effects map changes nothing. */
  lemma AppliedEmpty(s: Score)
    ensures Applied(s, map[]) == s
  {
  }

  /** Applying the delta of one more pending key moves one step closer to `Applied`;
      the order in which the keys are taken does not matter. */
  lemma AppliedStep(s: Score, eff: Effects, todo: set<Competency>, k: Competency)
    requires k in todo && todo <= eff.Keys
    ensures Applied(s, eff - todo)[k := Get0(Applied(s, eff - todo), k) + eff[k]]
         == Applied(s, eff - (todo - {k}))
  {
  }

  /** `applyEffects`: with no effects the score itself is returned; otherwise a
      copy is updated key by key over the effect keys. */
  method ApplyEffects(score: Score, eff: Option<Effects>) returns (r: Score)
    ensures eff.None? ==> r == score
    ensures eff.Some? ==> r == Applied(score, eff.value)
  {
    if eff.None? {
      return score;
    }
    var e := eff.value;
    r := score;
    var todo := e.Keys;
    assert e - todo == map[];
    AppliedEmpty(score);
    while todo != {}
      invariant todo <= e.Keys
      invariant r == Applied(score, e - todo)
      decreases todo
    {
      var k :| k in todo;
      AppliedStep(score, e, todo, k);
      r := r[k := Get0(r, k) + e[k]];
      todo := todo - {k};
    }
    assert e - todo == e;
  }

  const StrengthLabel: string := "강점"
  const AdequateLabel: string := "보통"
  const ImprovementLabel: string := "개선 필요"

  /** The smallest value classified as a strength. */
  const StrengthThreshold: int := 5

  /** `levelize`: three ordered levels, exactly one of which applies to each value. */
  function Levelize(v: int): (level: string)
    ensures level == StrengthLabel <==> v >= StrengthThreshold
    ensures level == AdequateLabel <==> 0 <= v < StrengthThreshold
    ensures level == ImprovementLabel <==> v < 0
  {
    if v >= StrengthThreshold then StrengthLabel
    else if v >= 0 then AdequateLabel
    else ImprovementLabel
  }

  /** The levels are ordered: a larger value never gets a lower level. */
  lemma LevelizeMonotone(v: int, w: int)
    requires v <= w
    ensures Levelize(v) == StrengthLabel ==> Levelize(w) == StrengthLabel
    ensures Levelize(w) == ImprovementLabel ==> Levelize(v) == ImprovementLabel
  {
  }
}
