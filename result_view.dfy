/** The derived data of src/components/ResultView.tsx: radar rows, the
    strengths/improvements split, the detail rows and the feedback text. */
module ResultView {
  import opened Wrappers
  import opened Types
  import opened Scorer

  /** One point of the radar chart. */
  datatype RadarRow = RadarRow(subject: string, score: int, fullMark: int)

  const FullMark: int := 50

  /** The chart's axes, in the order of `RADAR_LABELS`; each label is the key itself. */
  function RadarOrder(): seq<Competency> {
    [Design, Delivery, Assessment, Reflection]
  }

  /** `radarData`: four rows in axis order; a competency missing from the score is plotted at 0. */
  function RadarData(score: Score): (rows: seq<RadarRow>)
    ensures |rows| == 4
    ensures forall i | 0 <= i < 4 ::
      rows[i].subject == Name(RadarOrder()[i]) && rows[i].fullMark == FullMark
    ensures forall i | 0 <= i < 4 ::
      rows[i].score == (if RadarOrder()[i] in score then score[RadarOrder()[i]] else 0)
  {
    seq(4, i requires 0 <= i < 4 => RadarRow(Name(RadarOrder()[i]), Get0(score, RadarOrder()[i]), FullMark))
  }

  /** The chart cannot tell a missing competency from one at 0: the simulator's
      empty starting score plots exactly like `InitScore`. */
  lemma RadarMissingIsZero(score: Score, c: Competency)
    requires c !in score
    ensures RadarData(score) == RadarData(score[c := 0])
  {
  }

  lemma RadarEmptyIsInitial()
    ensures RadarData(map[]) == RadarData(InitScore())
  {
  }

  /** The score at or above which a competency is listed as a strength. */
  const StrengthListThreshold: int := 80

  /** `Object.keys(score)`: every key exactly once, in the object's key order. */
  predicate EnumeratesKeys(keys: seq<Competency>, score: Score) {
    && (forall k | k in keys :: k in score)
    && (forall k | k in score :: k in keys)
    && (forall i, j | 0 <= i < j < |keys| :: keys[i] != keys[j])
  }

  /** The keys whose score is at least 80, in key order. */
  function Strengths(score: Score, keys: seq<Competency>): (r: seq<Competency>)
    requires forall k | k in keys :: k in score
    ensures |r| <= |keys|
    ensures forall i | 0 <= i < |r| :: r[i] in keys && score[r[i]] >= StrengthListThreshold
  {
    if keys == [] then []
    else if score[keys[0]] >= StrengthListThreshold then [keys[0]] + Strengths(score, keys[1..])
    else Strengths(score, keys[1..])
  }

  /** The keys whose score is below 80, in key order. */
  function Improvements(score: Score, keys: seq<Competency>): (r: seq<Competency>)
    requires forall k | k in keys :: k in score
    ensures |r| <= |keys|
    ensures forall i | 0 <= i < |r| :: r[i] in keys && score[r[i]] < StrengthListThreshold
  {
    if keys == [] then []
    else if score[keys[0]] < StrengthListThreshold then [keys[0]] + Improvements(score, keys[1..])
    else Improvements(score, keys[1..])
  }

  /** A competency is listed as a strength exactly when it is a key scoring at least 80. */
  lemma {:induction false} StrengthsMembers(score: Score, keys: seq<Competency>, k: Competency)
    requires forall k | k in keys :: k in score
    ensures k in Strengths(score, keys) <==> k in keys && score[k] >= StrengthListThreshold
    decreases |keys|
  {
    if keys != [] {
      StrengthsMembers(score, keys[1..], k);
    }
  }

  /** A competency is listed for improvement exactly when it is a key scoring below 80. */
  lemma {:induction false} ImprovementsMembers(score: Score, keys: seq<Competency>, k: Competency)
    requires forall k | k in keys :: k in score
    ensures k in Improvements(score, keys) <==> k in keys && score[k] < StrengthListThreshold
    decreases |keys|
  {
    if keys != [] {
      ImprovementsMembers(score, keys[1..], k);
    }
  }

  /** The two lists split the keys: together they hold each key exactly as often as
      the keys do. */
  lemma {:induction false} StrengthsImprovementsPartition(score: Score, keys: seq<Competency>)
    requires forall k | k in keys :: k in score
    ensures multiset(Strengths(score, keys)) + multiset(Improvements(score, keys)) == multiset(keys)
    decreases |keys|
  {
    if keys != [] {
      var k0, tail := keys[0], keys[1..];
      StrengthsImprovementsPartition(score, tail);
      assert multiset(keys) == multiset{k0} + multiset(tail) by {
        assert keys == [k0] + tail;
      }
      PartitionStep(score, keys);
    }
  }

  /** One key moves to exactly one of the two lists. */
  lemma PartitionStep(score: Score, keys: seq<Competency>)
    requires keys != [] && forall k | k in keys :: k in score
    ensures multiset(Strengths(score, keys)) + multiset(Improvements(score, keys))
         == multiset{keys[0]} + multiset(Strengths(score, keys[1..])) + multiset(Improvements(score, keys[1..]))
  {
    var k0, tail := keys[0], keys[1..];
    if score[k0] >= StrengthListThreshold {
      assert multiset([k0] + Strengths(score, tail)) == multiset{k0} + multiset(Strengths(score, tail));
    } else {
      assert multiset([k0] + Improvements(score, tail)) == multiset{k0} + multiset(Improvements(score, tail));
    }
  }

  /** No competency is listed both as a strength and as an improvement. */
  lemma StrengthsImprovementsDisjoint(score: Score, keys: seq<Competency>, k: Competency)
    requires forall k | k in keys :: k in score
    ensures !(k in Strengths(score, keys) && k in Improvements(score, keys))
  {
    StrengthsMembers(score, keys, k);
    ImprovementsMembers(score, keys, k);
  }

  /** The two lists are as long as the keys together. */
  lemma PartitionLength(score: Score, keys: seq<Competency>)
    requires forall k | k in keys :: k in score
    ensures |Strengths(score, keys)| + |Improvements(score, keys)| == |keys|
  {
    StrengthsImprovementsPartition(score, keys);
    assert |multiset(Strengths(score, keys)) + multiset(Improvements(score, keys))| == |multiset(keys)|;
  }

  /** Both lists hold keys only. */
  lemma ListedAreKeys(score: Score, keys: seq<Competency>)
    requires forall k | k in keys :: k in score
    ensures forall k | k in Strengths(score, keys) + Improvements(score, keys) :: k in keys
  {
    forall k | k in Strengths(score, keys) + Improvements(score, keys)
      ensures k in keys
    {
      StrengthsMembers(score, keys, k);
      ImprovementsMembers(score, keys, k);
    }
  }

  /** Over `Object.keys(score)` the two lists cover exactly the competencies of the score. */
  lemma PartitionCoversScore(score: Score, keys: seq<Competency>)
    requires EnumeratesKeys(keys, score)
    ensures forall k | k in score :: (k in Strengths(score, keys)) != (k in Improvements(score, keys))
    ensures forall k | k in Strengths(score, keys) || k in Improvements(score, keys) :: k in score
  {
    forall k | k in score
      ensures (k in Strengths(score, keys)) != (k in Improvements(score, keys))
    {
      StrengthsMembers(score, keys, k);
      ImprovementsMembers(score, keys, k);
    }
    ListedAreKeys(score, keys);
  }

  /** The scores of the strengths are all at least 80. */
  lemma StrengthsScores(score: Score, keys: seq<Competency>)
    requires forall k | k in keys :: k in score
    ensures forall k | k in Strengths(score, keys) :: k in score && score[k] >= StrengthListThreshold
  {
    forall k | k in Strengths(score, keys)
      ensures k in score && score[k] >= StrengthListThreshold
    {
      StrengthsMembers(score, keys, k);
    }
  }

  /** The scores of the improvements are all below 80. */
  lemma ImprovementsScores(score: Score, keys: seq<Competency>)
    requires forall k | k in keys :: k in score
    ensures forall k | k in Improvements(score, keys) :: k in score && score[k] < StrengthListThreshold
  {
    forall k | k in Improvements(score, keys)
      ensures k in score && score[k] < StrengthListThreshold
    {
      ImprovementsMembers(score, keys, k);
    }
  }

  const StrengthMarker: string := "✅"
  const ImprovementMarker: string := "⚠️"

  /** One line of the detailed analysis: the marker of its list, the competency,
      its score and its level. */
  datatype DetailRow = DetailRow(marker: string, key: Competency, score: int, level: string)

  function Rows(score: Score, ks: seq<Competency>, marker: string): (rows: seq<DetailRow>)
    requires forall k | k in ks :: k in score
    ensures |rows| == |ks|
    ensures forall i | 0 <= i < |ks| :: rows[i] == DetailRow(marker, ks[i], score[ks[i]], Levelize(score[ks[i]]))
  {
    if ks == [] then []
    else [DetailRow(marker, ks[0], score[ks[0]], Levelize(score[ks[0]]))] + Rows(score, ks[1..], marker)
  }

  /** The competencies the lines name, in line order. */
  function RowKeys(rows: seq<DetailRow>): (ks: seq<Competency>)
    ensures |ks| == |rows|
  {
    seq(|rows|, i requires 0 <= i < |rows| => rows[i].key)
  }

  /** One line of the strengths' lines followed by the improvements' lines. */
  lemma SplitRowAt(score: Score, strong: seq<Competency>, weak: seq<Competency>, i: int)
    requires forall k | k in strong :: k in score && score[k] >= StrengthListThreshold
    requires forall k | k in weak :: k in score && score[k] < StrengthListThreshold
    requires 0 <= i < |strong| + |weak|
    ensures var row := (Rows(score, strong, StrengthMarker) + Rows(score, weak, ImprovementMarker))[i];
      && row.key == (strong + weak)[i]
      && row.key in score && row.score == score[row.key] && row.level == Levelize(row.score)
      && (row.score >= StrengthListThreshold <==> i < |strong|)
      && row.marker == (if i < |strong| then StrengthMarker else ImprovementMarker)
  {
    var a, b := Rows(score, strong, StrengthMarker), Rows(score, weak, ImprovementMarker);
    if i < |strong| {
      assert (a + b)[i] == a[i];
      assert strong[i] in strong;
    } else {
      assert (a + b)[i] == b[i - |strong|];
      assert weak[i - |strong|] in weak;
    }
  }

  /** The strengths' lines followed by the improvements' lines: the first ones are
      exactly those scoring at least 80. */
  lemma SplitRows(score: Score, strong: seq<Competency>, weak: seq<Competency>)
    requires forall k | k in strong :: k in score && score[k] >= StrengthListThreshold
    requires forall k | k in weak :: k in score && score[k] < StrengthListThreshold
    ensures var rows := Rows(score, strong, StrengthMarker) + Rows(score, weak, ImprovementMarker);
      && RowKeys(rows) == strong + weak
      && (forall i | 0 <= i < |rows| ::
            && rows[i].key in score && rows[i].score == score[rows[i].key] && rows[i].level == Levelize(rows[i].score)
            && (rows[i].score >= StrengthListThreshold <==> i < |strong|)
            && rows[i].marker == (if i < |strong| then StrengthMarker else ImprovementMarker))
  {
    var rows := Rows(score, strong, StrengthMarker) + Rows(score, weak, ImprovementMarker);
    forall i | 0 <= i < |rows|
      ensures && rows[i].key == (strong + weak)[i]
              && rows[i].key in score && rows[i].score == score[rows[i].key] && rows[i].level == Levelize(rows[i].score)
              && (rows[i].score >= StrengthListThreshold <==> i < |strong|)
              && rows[i].marker == (if i < |strong| then StrengthMarker else ImprovementMarker)
    {
      SplitRowAt(score, strong, weak, i);
    }
    assert RowKeys(rows) == strong + weak;
  }

  /** The list under "세부 분석": one line per key; every line scoring at least 80
      comes before every line scoring below it and carries the strength marker, the
      others the improvement marker; each shows `levelize` of its score. */
  function DetailRows(score: Score, keys: seq<Competency>): (rows: seq<DetailRow>)
    requires forall k | k in keys :: k in score
    ensures multiset(RowKeys(rows)) == multiset(keys)
    ensures forall i | 0 <= i < |rows| ::
      rows[i].key in score && rows[i].score == score[rows[i].key] && rows[i].level == Levelize(rows[i].score)
    ensures forall i | 0 <= i < |rows| ::
      rows[i].marker == (if rows[i].score >= StrengthListThreshold then StrengthMarker else ImprovementMarker)
    ensures forall i, j | 0 <= i < j < |rows| ::
      rows[j].score >= StrengthListThreshold ==> rows[i].score >= StrengthListThreshold
  {
    var strong, weak := Strengths(score, keys), Improvements(score, keys);
    StrengthsScores(score, keys);
    ImprovementsScores(score, keys);
    StrengthsImprovementsPartition(score, keys);
    SplitRows(score, strong, weak);
    Rows(score, strong, StrengthMarker) + Rows(score, weak, ImprovementMarker)
  }

  /** Every score from 5 to 79 is levelled a strength yet listed with the improvements. */
  lemma StrongLevelAmongImprovements(score: Score, keys: seq<Competency>, k: Competency)
    requires forall k | k in keys :: k in score
    requires k in keys && StrengthThreshold <= score[k] < StrengthListThreshold
    ensures k in Improvements(score, keys) && k !in Strengths(score, keys)
    ensures Levelize(score[k]) == StrengthLabel
  {
    StrengthsMembers(score, keys, k);
    ImprovementsMembers(score, keys, k);
  }

  const DefaultFeedback: string := "전반적으로 우수한 역량을 보였습니다. 일부 영역에서 추가적인 성장이 기대됩니다."

  /** `ending?.feedback || default`: the ending's own text when the ending exists and
      its feedback is non-empty, the fixed sentence otherwise. */
  function Feedback(scn: ScenarioFile, endId: string): (text: string)
    ensures text != ""
    ensures scn.endings.Some? && endId in scn.endings.value && scn.endings.value[endId].feedback != ""
      ==> text == scn.endings.value[endId].feedback
    ensures !(scn.endings.Some? && endId in scn.endings.value && scn.endings.value[endId].feedback != "")
      ==> text == DefaultFeedback
  {
    match scn.endings
    case None => DefaultFeedback
    case Some(endings) =>
      if endId in endings && endings[endId].feedback != "" then endings[endId].feedback else DefaultFeedback
  }
}
