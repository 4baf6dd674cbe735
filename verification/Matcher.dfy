/** Pairwise matching: weighted evidence, the conflict rule and the disposition. */
module Matcher {
  import opened Text
  import opened Vessels
  import opened Rounding
  import Normalizer

  datatype Disposition = AutoMerge | StewardReview | Separate | Blocked

  datatype Agreement = Agreed | Partial | Disagreed | Missing

  datatype Evidence = Evidence(attribute: string, agreement: Agreement, weight: real, contribution: real)

  datatype MatchResult = MatchResult(score: real, deterministic: bool, status: Disposition, conflict: bool,
                                     evidence: seq<Evidence>)

  const AUTO_MERGE_THRESHOLD := 0.98
  const STEWARD_REVIEW_THRESHOLD := 0.85

  type Ratio = (string, string) -> Normalizer.UnitReal

  // ---------------------------------------------------------------- reference

  predicate Shares(a: VesselCall, b: VesselCall, key: string) {
    Trimmed(a, key) != "" && Trimmed(a, key) == Trimmed(b, key)
  }

  predicate Differs(a: VesselCall, b: VesselCall, key: string) {
    Trimmed(a, key) != "" && Trimmed(b, key) != "" && Trimmed(a, key) != Trimmed(b, key)
  }

  predicate Conflict(a: VesselCall, b: VesselCall) { Differs(a, b, "vcn") || Differs(a, b, "imo_number") }

  predicate SharesKey(a: VesselCall, b: VesselCall) { Shares(a, b, "vcn") || Shares(a, b, "imo_number") }

  /** What the weights and thresholds come down to. */
  function Verdict(a: VesselCall, b: VesselCall): Disposition {
    if Conflict(a, b) then Blocked else if SharesKey(a, b) then AutoMerge else Separate
  }

  /** Two identifiers count, and only where both records have them: any that differs is a conflict, any that agrees is
      shared. */
  lemma KeysAre(a: VesselCall, b: VesselCall)
    ensures Conflict(a, b) <==> exists name :: name in {"vcn", "imo_number"} && Trimmed(a, name) != Trimmed(b, name)
                                               && Trimmed(a, name) != "" && Trimmed(b, name) != ""
    ensures SharesKey(a, b) <==> exists name :: name in {"vcn", "imo_number"} && Trimmed(a, name) == Trimmed(b, name)
                                                && Trimmed(a, name) != ""
  {
    assert "vcn" in {"vcn", "imo_number"} && "imo_number" in {"vcn", "imo_number"};
  }

  // ---------------------------------------------------------------- the code

  function KeyEvidence(attribute: string, v1: string, v2: string, weight: real): (e: Evidence)
    requires weight >= 0.0
    ensures 0.0 <= e.contribution <= e.weight == weight
    ensures e.contribution == if v1 != "" && v1 == v2 then weight else 0.0
    ensures e.agreement.Disagreed? <==> v1 != "" && v2 != "" && v1 != v2
  {
    if v1 != "" && v2 != "" then
      if v1 == v2 then Evidence(attribute, Agreed, weight, weight) else Evidence(attribute, Disagreed, weight, 0.0)
    else Evidence(attribute, Missing, weight, 0.0)
  }

  function NameEvidence(similarity: Normalizer.UnitReal): (e: Evidence)
    ensures 0.0 <= e.contribution <= e.weight == 0.40
    ensures similarity * 0.40 - 0.00005 <= e.contribution <= similarity * 0.40 + 0.00005
    ensures e.agreement == if similarity >= 0.98 then Agreed else if similarity >= 0.70 then Partial
                           else if similarity > 0.0 then Disagreed else Missing
  {
    RoundWithin(similarity * 0.40, 0, 4000, 10000);
    RoundError(similarity * 0.40, 10000);
    var agreement := if similarity >= 0.98 then Agreed else if similarity >= 0.70 then Partial
                     else if similarity > 0.0 then Disagreed else Missing;
    Evidence("vessel_name", agreement, 0.40, Round(similarity * 0.40, 10000))
  }

  /** A dimension is on both records, and not zero. */
  predicate BothGiven(a: VesselCall, b: VesselCall, name: string) {
    match (Column(a, name), Column(b, name))
    case (Number(x), Number(y)) => x != 0.0 && y != 0.0
    case _ => false
  }

  predicate Near(a: VesselCall, b: VesselCall, name: string, tolerance: real) {
    BothGiven(a, b, name) && -tolerance <= Column(a, name).number - Column(b, name).number <= tolerance
  }

  function One(p: bool): nat { if p then 1 else 0 }

  function Compared(a: VesselCall, b: VesselCall): nat {
    One(BothGiven(a, b, "loa_value")) + One(BothGiven(a, b, "vessel_size_teu")) + One(BothGiven(a, b, "grt"))
  }

  function Matching(a: VesselCall, b: VesselCall): nat {
    One(Near(a, b, "loa_value", 0.01)) + One(Near(a, b, "vessel_size_teu", 0.0)) + One(Near(a, b, "grt", 0.01))
  }

  /** Whether a dimension present on both records (non-zero) is compared, and matches. */
  function Dimension(a: VesselCall, b: VesselCall, name: string, tolerance: real): (r: (nat, nat))
    ensures r.0 <= r.1 <= 1
    ensures r == (One(Near(a, b, name, tolerance)), One(BothGiven(a, b, name)))
  {
    match (Column(a, name), Column(b, name))
    case (Number(x), Number(y)) =>
      if x == 0.0 || y == 0.0 then (0, 0) else if -tolerance <= x - y <= tolerance then (1, 1) else (0, 1)
    case _ => (0, 0)
  }

  method DimensionEvidence(a: VesselCall, b: VesselCall) returns (e: Evidence)
    ensures 0.0 <= e.contribution <= e.weight == 0.05
    ensures Compared(a, b) == 0 ==> e.contribution == 0.0
    ensures Compared(a, b) > 0 ==>
              var share := 0.05 * (Matching(a, b) as real / Compared(a, b) as real);
              share - 0.00005 <= e.contribution <= share + 0.00005
  {
    var loa, teu := Dimension(a, b, "loa_value", 0.01), Dimension(a, b, "vessel_size_teu", 0.0);
    var grt := Dimension(a, b, "grt", 0.01);
    var matches, compared := loa.0 + teu.0 + grt.0, loa.1 + teu.1 + grt.1;
    if compared > 0 {
      var ratio := matches as real / compared as real;
      OverIsMonotone(0.0, matches as real, compared as real);
      OverIsMonotone(matches as real, compared as real, compared as real);
      assert 0.0 <= ratio <= 1.0;
      RoundWithin(ratio * 0.05, 0, 500, 10000);
      RoundError(ratio * 0.05, 10000);
      var agreement := if ratio == 1.0 then Agreed else if ratio > 0.0 then Partial else Disagreed;
      e := Evidence("dimensions", agreement, 0.05, Round(ratio * 0.05, 10000));
    } else {
      e := Evidence("dimensions", Missing, 0.05, 0.0);
    }
  }

  function Total(evidence: seq<Evidence>): real {
    if evidence == [] then 0.0 else Total(evidence[..|evidence| - 1]) + evidence[|evidence| - 1].contribution
  }

  /** Stage 1: conflicting identifiers, and a decisive key. */
  method CheckKeys(v1: VesselCall, v2: VesselCall) returns (conflict: bool, deterministic: bool)
    ensures conflict == Conflict(v1, v2)
    ensures deterministic == (SharesKey(v1, v2) && !Conflict(v1, v2))
  {
    conflict, deterministic := false, false;
    var imo1, imo2 := Trimmed(v1, "imo_number"), Trimmed(v2, "imo_number");
    if imo1 != "" && imo2 != "" && imo1 != imo2 { conflict := true; }
    var vcn1, vcn2 := Trimmed(v1, "vcn"), Trimmed(v2, "vcn");
    var vcnConflict := vcn1 != "" && vcn2 != "" && vcn1 != vcn2;
    if vcnConflict { conflict := true; }
    if vcn1 != "" && vcn2 != "" && vcn1 == vcn2 {
      if !conflict { deterministic := true; }
    }
    if imo1 != "" && imo2 != "" && imo1 == imo2 {
      if !conflict && !vcnConflict { deterministic := true; }
    }
  }

  ghost predicate Weighted(evidence: seq<Evidence>) {
    && |evidence| == 6
    && (forall i :: 0 <= i < 6 ==> 0.0 <= evidence[i].contribution <= evidence[i].weight)
    && evidence[0].weight == 0.40 && evidence[1].weight == 0.25 && evidence[2].weight == 0.20
    && evidence[3].weight == evidence[4].weight == evidence[5].weight == 0.05
  }

  /** The identifiers count in full or not at all, and a conflict is on record as a disagreement. */
  ghost predicate KeysWeighed(v1: VesselCall, v2: VesselCall, evidence: seq<Evidence>)
    requires Weighted(evidence)
  {
    && evidence[1].contribution == (if Shares(v1, v2, "vcn") then 0.25 else 0.0)
    && evidence[2].contribution == (if Shares(v1, v2, "imo_number") then 0.20 else 0.0)
    && (evidence[1].agreement.Disagreed? <==> Differs(v1, v2, "vcn"))
    && (evidence[2].agreement.Disagreed? <==> Differs(v1, v2, "imo_number"))
  }

  /** The name counts by its similarity, vessel type and flag when they agree but for case, and the dimensions by the
      share of those compared that match. */
  ghost predicate RestWeighed(v1: VesselCall, v2: VesselCall, similarity: real, evidence: seq<Evidence>)
    requires Weighted(evidence)
  {
    && similarity * 0.40 - 0.00005 <= evidence[0].contribution <= similarity * 0.40 + 0.00005
    && evidence[3].contribution == (if SharesText(v1, v2, "vessel_type") then 0.05 else 0.0)
    && evidence[4].contribution == (if SharesText(v1, v2, "flag") then 0.05 else 0.0)
    && (if Compared(v1, v2) == 0 then evidence[5].contribution == 0.0
        else
          var share := 0.05 * (Matching(v1, v2) as real / Compared(v1, v2) as real);
          share - 0.00005 <= evidence[5].contribution <= share + 0.00005)
  }

  predicate SharesText(v1: VesselCall, v2: VesselCall, name: string) {
    Trimmed(v1, name) != "" && Upper(Trimmed(v1, name)) == Upper(Trimmed(v2, name))
  }

  /** Stage 2: the six weighted attributes. */
  method GatherEvidence(v1: VesselCall, v2: VesselCall, similarity: Normalizer.UnitReal)
    returns (evidence: seq<Evidence>)
    ensures Weighted(evidence)
    ensures KeysWeighed(v1, v2, evidence) && RestWeighed(v1, v2, similarity, evidence)
  {
    var name := NameEvidence(similarity);
    var vcn := IdentifierEvidence(v1, v2, "vcn", 0.25);
    var imo := IdentifierEvidence(v1, v2, "imo_number", 0.20);
    var kind := TextEvidence(v1, v2, "vessel_type");
    var flag := TextEvidence(v1, v2, "flag");
    var dimensions := DimensionEvidence(v1, v2);
    evidence := [name, vcn, imo, kind, flag, dimensions];
  }

  function IdentifierEvidence(v1: VesselCall, v2: VesselCall, name: string, weight: real): (e: Evidence)
    requires weight >= 0.0
    ensures 0.0 <= e.contribution <= e.weight == weight
    ensures e.contribution == if Shares(v1, v2, name) then weight else 0.0
    ensures e.agreement.Disagreed? <==> Differs(v1, v2, name)
  {
    KeyEvidence(name, Trimmed(v1, name), Trimmed(v2, name), weight)
  }

  function TextEvidence(v1: VesselCall, v2: VesselCall, name: string): (e: Evidence)
    ensures 0.0 <= e.contribution <= e.weight == 0.05
    ensures e.contribution == if SharesText(v1, v2, name) then 0.05 else 0.0
  {
    KeyEvidence(name, Upper(Trimmed(v1, name)), Upper(Trimmed(v2, name)), 0.05)
  }

  /** With the default thresholds a pair is decided by its keys alone: nothing is ever sent to
      steward review, and every score lies in the unit interval. */
  method EvaluatePair(v1: VesselCall, v2: VesselCall, ratio: Ratio) returns (result: MatchResult)
    ensures result.status == Verdict(v1, v2)
    ensures result.conflict == Conflict(v1, v2)
    ensures result.deterministic == (SharesKey(v1, v2) && !Conflict(v1, v2))
    ensures 0.0 <= result.score <= 1.0
    ensures result.deterministic ==> result.score >= AUTO_MERGE_THRESHOLD
    ensures Weighted(result.evidence) && KeysWeighed(v1, v2, result.evidence)
    ensures var similarity := Normalizer.Similarity(NameOf(v1), NameOf(v2), ratio);
            && RestWeighed(v1, v2, similarity, result.evidence)
            && ScoredAs(result.evidence, result.deterministic, similarity >= 0.98, result.score)
  {
    var conflict, deterministic := CheckKeys(v1, v2);
    var similarity := Normalizer.Similarity(NameOf(v1), NameOf(v2), ratio);
    var evidence := GatherEvidence(v1, v2, similarity);
    var score := Score(evidence, deterministic && !conflict, similarity >= 0.98);
    var status := if conflict then Blocked else if score >= AUTO_MERGE_THRESHOLD then AutoMerge
                  else if score >= STEWARD_REVIEW_THRESHOLD then StewardReview else Separate;
    result := MatchResult(score, deterministic, status, conflict, evidence);
  }

  /** A decisive pair scores its contributions or the floor, whichever is more; any other its contributions, to four
      places. */
  ghost predicate ScoredAs(e: seq<Evidence>, decisive: bool, sameName: bool, score: real)
    requires Weighted(e)
  {
    var sum := e[0].contribution + e[1].contribution + e[2].contribution + e[3].contribution + e[4].contribution
               + e[5].contribution;
    var floor := if sameName then 0.99 else 0.98;
    if decisive then score >= sum && score >= floor && (score == sum || score == floor)
    else sum - 0.00005 <= score <= sum + 0.00005
  }

  /** The weighted sum, or the decisive score when a key matches without conflict. */
  method Score(evidence: seq<Evidence>, decisive: bool, sameName: bool) returns (score: real)
    requires Weighted(evidence)
    ensures 0.0 <= score <= 1.0
    ensures decisive ==> score >= AUTO_MERGE_THRESHOLD
    ensures !decisive && evidence[1].contribution == evidence[2].contribution == 0.0 ==> score <= 0.55
    ensures ScoredAs(evidence, decisive, sameName, score)
  {
    var raw := 0.0;
    for i := 0 to |evidence|
      invariant raw == Total(evidence[..i])
    {
      assert evidence[..i + 1][..i] == evidence[..i];
      raw := raw + evidence[i].contribution;
    }
    TotalOfSix(evidence);
    assert evidence[..|evidence|] == evidence;
    if decisive {
      var floor := if sameName then 0.99 else 0.98;
      score := if raw >= floor then raw else floor;
    } else {
      score := RoundedScore(if raw < 0.0 then 0.0 else if raw > 1.0 then 1.0 else raw);
    }
  }

  function RoundedScore(raw: real): (score: real)
    requires 0.0 <= raw <= 1.0
    ensures 0.0 <= score <= 1.0
    ensures raw <= 0.55 ==> score <= 0.55
    ensures raw - 0.00005 <= score <= raw + 0.00005
  {
    RoundWithin(raw, 0, 10000, 10000);
    RoundError(raw, 10000);
    assert raw <= 0.55 ==> Round(raw, 10000) <= 0.55 by {
      if raw <= 0.55 { RoundWithin(raw, 0, 5500, 10000); }
    }
    Round(raw, 10000)
  }

  lemma TotalOfSix(e: seq<Evidence>)
    requires |e| == 6
    ensures Total(e)
            == e[0].contribution + e[1].contribution + e[2].contribution + e[3].contribution + e[4].contribution
              + e[5].contribution
  {
    assert Total(e[..1]) == e[0].contribution;
    assert e[..2][..1] == e[..1] && Total(e[..2]) == Total(e[..1]) + e[1].contribution;
    assert e[..3][..2] == e[..2] && Total(e[..3]) == Total(e[..2]) + e[2].contribution;
    assert e[..4][..3] == e[..3] && Total(e[..4]) == Total(e[..3]) + e[3].contribution;
    assert e[..5][..4] == e[..4] && Total(e[..5]) == Total(e[..4]) + e[4].contribution;
  }

  // ---------------------------------------------------------------- the blocking filter

  predicate PassesFilter(v1: VesselCall, v2: VesselCall, ratio: Ratio) {
    SharesKey(v1, v2) || Normalizer.Similarity(NameOf(v1), NameOf(v2), ratio) >= 0.70
  }

  /** The filter drops no pair that evaluation would merge or send for review. */
  lemma FilterIsSafe(v1: VesselCall, v2: VesselCall, ratio: Ratio)
    ensures !PassesFilter(v1, v2, ratio) ==> Verdict(v1, v2).Blocked? || Verdict(v1, v2).Separate?
    ensures Verdict(v1, v2).AutoMerge? <==> !Conflict(v1, v2) && SharesKey(v1, v2)
    ensures Verdict(v1, v2).Blocked? <==> Conflict(v1, v2)
    ensures !Verdict(v1, v2).StewardReview?
    ensures Verdict(v1, v2) == Verdict(v2, v1)
  {
  }
}
