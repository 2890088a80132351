/**
 * The deterministic fallback recommender (`generateLocalRecommendations`): an
 * additive score per catalog plant, a threshold, a sort by score and a cut to
 * the best five. Scores are whole hundredths, so 0.4 is 40.
 */
module LocalScorer {
  import opened Wrappers
  import opened Uuids
  import opened Models
  import opened Text
  import Scanf

  const ExactSunlightPoints: nat := 40
  const NearSunlightPoints: nat := 20
  const ExactCarePoints: nat := 30
  const NearCarePoints: nat := 15
  const PetPoints: nat := 10
  const LocationPoints: nat := 20
  /** A plant is recommended only when it scores strictly more than this. */
  const Threshold: nat := 30
  /** At most this many plants are returned. */
  const MaxRecommendations: nat := 5

  /** The absolute value of an integer. */
  function Abs(x: int): (r: nat)
    ensures r == x || r == -x
  {
    if x < 0 then -x else x
  }

  const Int64Span: int := 0x1_0000_0000_0000_0000

  /** An `int` result of Go arithmetic: the exact value wrapped into the 64-bit range. */
  function Wrap64(x: int): (r: int)
    ensures Scanf.Int64Min <= r <= Scanf.Int64Max
    ensures (x - r) % Int64Span == 0
    ensures Scanf.Int64Min <= x <= Scanf.Int64Max ==> r == x
  {
    (x - Scanf.Int64Min) % Int64Span + Scanf.Int64Min
  }

  /** Go's `abs` on an `int`: negating the most negative `int` wraps back to it. */
  function GoAbs(x: int): (r: int)
    requires Scanf.Int64Min <= x <= Scanf.Int64Max
    ensures r == Wrap64(Abs(x))
    ensures r < 0 <==> x == Scanf.Int64Min
  {
    if x < 0 then Wrap64(-x) else x
  }

  /** The care-level difference `abs(FertilizerFrequency - CareLevel)`, on 64-bit `int`s. */
  function CareDifference(q: Questionnaire, p: Plant): int
  {
    GoAbs(Wrap64(p.careInstructions.fertilizerFrequency - q.careLevel))
  }

  /** Exactly one side is MEDIUM and the other is LOW or HIGH. */
  predicate NearSunlight(plant: SunlightLevel, wanted: SunlightLevel)
  {
    (plant == SunlightMedium && (wanted == SunlightLow || wanted == SunlightHigh))
    || ((plant == SunlightLow || plant == SunlightHigh) && wanted == SunlightMedium)
  }

  /** The location bonus: a location is given, the notes are not empty and mention it, ignoring case. */
  predicate LocationMatches(q: Questionnaire, p: Plant)
  {
    q.preferredLocation.Some? && p.careInstructions.additionalNotes != ""
    && Contains(ToLower(p.careInstructions.additionalNotes), ToLower(q.preferredLocation.value))
  }

  function SunlightScore(q: Questionnaire, p: Plant): nat
  {
    if p.careInstructions.sunlight == q.sunlightPreference then ExactSunlightPoints
    else if NearSunlight(p.careInstructions.sunlight, q.sunlightPreference) then NearSunlightPoints
    else 0
  }

  function CareScore(q: Questionnaire, p: Plant): nat
  {
    var d := CareDifference(q, p);
    if d == 0 then ExactCarePoints else if d == 1 then NearCarePoints else 0
  }

  /** The pet bonus is granted whenever it is asked for: the catalog has no pet-safety attribute. */
  function PetScore(q: Questionnaire): nat
  {
    if q.petFriendly then PetPoints else 0
  }

  function LocationScore(q: Questionnaire, p: Plant): nat
  {
    if LocationMatches(q, p) then LocationPoints else 0
  }

  /** The score of plant `p` for questionnaire `q`, in hundredths. */
  function Score(q: Questionnaire, p: Plant): (r: nat)
    ensures r <= 100
    ensures p.careInstructions.sunlight == q.sunlightPreference ==> r >= ExactSunlightPoints
    ensures q.petFriendly ==> r >= PetPoints
  {
    SunlightScore(q, p) + CareScore(q, p) + PetScore(q) + LocationScore(q, p)
  }

  function ExactSunlightClause(level: SunlightLevel): string
  {
    "Уровень освещенности (" + level + ") полностью соответствует вашим требованиям. "
  }

  function NearSunlightClause(level: SunlightLevel): string
  {
    "Уровень освещенности (" + level + ") частично соответствует вашим требованиям. "
  }

  const CareOpening: string := "Уровень ухода "
  const ExactCareClause: string := CareOpening + "полностью соответствует вашим возможностям. "
  const NearCareClause: string := CareOpening + "близок к желаемому. "
  const PetClause: string := "Растение безопасно для домашних животных. "

  function LocationClause(location: string): string
  {
    "Подходит для размещения в " + location + ". "
  }

  function SunlightClause(q: Questionnaire, p: Plant): string
  {
    var level := p.careInstructions.sunlight;
    if level == q.sunlightPreference then ExactSunlightClause(level)
    else if NearSunlight(level, q.sunlightPreference) then NearSunlightClause(level)
    else ""
  }

  function CareClause(q: Questionnaire, p: Plant): string
  {
    var d := CareDifference(q, p);
    if d == 0 then ExactCareClause else if d == 1 then NearCareClause else ""
  }

  function PetClauseFor(q: Questionnaire): string
  {
    if q.petFriendly then PetClause else ""
  }

  function LocationClauseFor(q: Questionnaire, p: Plant): string
  {
    if LocationMatches(q, p) then LocationClause(q.preferredLocation.value) else ""
  }

  /** The clause of every rule that fired, in rule order, each ending in ". ". */
  function Clauses(q: Questionnaire, p: Plant): string
  {
    SunlightClause(q, p) + CareClause(q, p) + PetClauseFor(q) + LocationClauseFor(q, p)
  }

  /**
   * The care-level difference is computed on 64-bit `int`s: the largest
   * fertilizer frequency against the smallest care level wraps to a
   * difference of one, and earns the near-care points.
   */
  lemma CareDifferenceWraps(q: Questionnaire, p: Plant)
    requires p.careInstructions.fertilizerFrequency == Scanf.Int64Max && q.careLevel == Scanf.Int64Min
    ensures CareDifference(q, p) == 1 && CareScore(q, p) == NearCarePoints
  {
  }

  /** The recommendation a plant yields when it clears the threshold. */
  function Recommend(q: Questionnaire, p: Plant): (r: Recommendation)
    ensures r.questionnaireId == q.id && r.plantId == p.id
    ensures 0.0 <= r.score <= 1.0 && r.score * 100.0 == Score(q, p) as real
  {
    Recommendation(q.id, p.id, Score(q, p) as real / 100.0, TrimSpace(Clauses(q, p)))
  }

  /** Every plant that clears the threshold, as a recommendation, in catalog order. */
  function Candidates(q: Questionnaire, plants: seq<Plant>): seq<Recommendation>
  {
    if plants == [] then []
    else
      var last := plants[|plants| - 1];
      Candidates(q, plants[..|plants| - 1]) + (if Score(q, last) > Threshold then [Recommend(q, last)] else [])
  }

  predicate SortedByScore(s: seq<Recommendation>)
  {
    forall i, j :: 0 <= i < j < |s| ==> s[i].score >= s[j].score
  }

  /** No recommendation left out scores higher than one kept. */
  predicate KeepsBest(kept: seq<Recommendation>, dropped: multiset<Recommendation>)
  {
    forall r, c :: r in kept && c in dropped ==> c.score <= r.score
  }

  function Min(a: nat, b: nat): nat
  {
    if a < b then a else b
  }

  method Swap(a: array<Recommendation>, i: nat, j: nat)
    requires i < a.Length && j < a.Length
    modifies a
    ensures a[i] == old(a[j]) && a[j] == old(a[i])
    ensures forall k :: 0 <= k < a.Length && k != i && k != j ==> a[k] == old(a[k])
    ensures multiset(a[..]) == multiset(old(a[..]))
  {
    a[i], a[j] := a[j], a[i];
  }

  /**
   * `sort.Slice` by descending score. Go's sort is not stable, so the contract
   * promises only order and permutation, not where equal scores end up.
   */
  method SortByScoreDescending(a: array<Recommendation>)
    modifies a
    ensures SortedByScore(a[..])
    ensures multiset(a[..]) == multiset(old(a[..]))
  {
    for i := 0 to a.Length
      invariant forall k, l :: 0 <= k < l < i ==> a[k].score >= a[l].score
      invariant multiset(a[..]) == multiset(old(a[..]))
    {
      SinkInto(a, i);
    }
  }

  /** Moves `a[i]` up past the smaller scores before it, into the sorted front `a[..i]`. */
  method SinkInto(a: array<Recommendation>, i: nat)
    requires i < a.Length
    requires forall k, l :: 0 <= k < l < i ==> a[k].score >= a[l].score
    modifies a
    ensures forall k, l :: 0 <= k < l <= i ==> a[k].score >= a[l].score
    ensures multiset(a[..]) == multiset(old(a[..]))
  {
    var j := i;
    while j > 0 && a[j - 1].score < a[j].score
      invariant 0 <= j <= i
      invariant forall k, l :: 0 <= k < l <= i && k != j && l != j ==> a[k].score >= a[l].score
      invariant forall l :: j < l <= i ==> a[j].score >= a[l].score
      invariant multiset(a[..]) == multiset(old(a[..]))
    {
      Swap(a, j - 1, j);
      j := j - 1;
    }
  }

  /** The front of a sorted sequence holds its best elements. */
  lemma SortedPrefixKeepsBest(s: seq<Recommendation>, k: nat)
    requires SortedByScore(s) && k <= |s|
    ensures multiset(s[..k]) <= multiset(s)
    ensures KeepsBest(s[..k], multiset(s) - multiset(s[..k]))
  {
    PrefixAndRest(s, k);
    forall r, c | r in s[..k] && c in s[k..]
      ensures c.score <= r.score
    {
      var i :| 0 <= i < k && s[..k][i] == r;
      var j :| 0 <= j < |s| - k && s[k..][j] == c;
      assert s[i] == r && s[k + j] == c;
    }
  }

  /** Cutting a sequence splits its multiset in two. */
  lemma PrefixAndRest(s: seq<Recommendation>, k: nat)
    requires k <= |s|
    ensures multiset(s[..k]) <= multiset(s)
    ensures multiset(s) - multiset(s[..k]) == multiset(s[k..])
  {
    assert s == s[..k] + s[k..];
  }

  /** Scanning one more plant appends at most its own recommendation. */
  lemma CandidatesOfLongerPrefix(q: Questionnaire, plants: seq<Plant>, i: nat)
    requires i < |plants|
    ensures Candidates(q, plants[..i + 1]) ==
      Candidates(q, plants[..i]) + (if Score(q, plants[i]) > Threshold then [Recommend(q, plants[i])] else [])
  {
    assert plants[..i + 1][..i] == plants[..i];
  }

  /** The sunlight rule of the scoring loop: `score +=` and `reasoning +=` when it fires. */
  method ApplySunlightRule(q: Questionnaire, plant: Plant, score: nat, reasoning: string)
    returns (score': nat, reasoning': string)
    ensures score' == score + SunlightScore(q, plant) && reasoning' == reasoning + SunlightClause(q, plant)
  {
    var care := plant.careInstructions;
    score', reasoning' := score, reasoning;
    if care.sunlight == q.sunlightPreference {
      score' := score' + ExactSunlightPoints;
      reasoning' := reasoning' + ExactSunlightClause(care.sunlight);
    } else if NearSunlight(care.sunlight, q.sunlightPreference) {
      score' := score' + NearSunlightPoints;
      reasoning' := reasoning' + NearSunlightClause(care.sunlight);
    } else {
      assert reasoning' == reasoning + "";
    }
  }

  /** The care-level rule of the scoring loop. */
  method ApplyCareRule(q: Questionnaire, plant: Plant, score: nat, reasoning: string)
    returns (score': nat, reasoning': string)
    ensures score' == score + CareScore(q, plant) && reasoning' == reasoning + CareClause(q, plant)
  {
    var careLevelDiff := CareDifference(q, plant);
    score', reasoning' := score, reasoning;
    if careLevelDiff == 0 {
      score' := score' + ExactCarePoints;
      reasoning' := reasoning' + ExactCareClause;
    } else if careLevelDiff == 1 {
      score' := score' + NearCarePoints;
      reasoning' := reasoning' + NearCareClause;
    } else {
      assert reasoning' == reasoning + "";
    }
  }

  /** The pet rule of the scoring loop. */
  method ApplyPetRule(q: Questionnaire, score: nat, reasoning: string)
    returns (score': nat, reasoning': string)
    ensures score' == score + PetScore(q) && reasoning' == reasoning + PetClauseFor(q)
  {
    score', reasoning' := score, reasoning;
    if q.petFriendly {
      score' := score' + PetPoints;
      reasoning' := reasoning' + PetClause;
    } else {
      assert reasoning' == reasoning + "";
    }
  }

  /** The location rule of the scoring loop. */
  method ApplyLocationRule(q: Questionnaire, plant: Plant, score: nat, reasoning: string)
    returns (score': nat, reasoning': string)
    ensures score' == score + LocationScore(q, plant) && reasoning' == reasoning + LocationClauseFor(q, plant)
  {
    var care := plant.careInstructions;
    score', reasoning' := score, reasoning;
    if q.preferredLocation.Some? && care.additionalNotes != ""
       && Contains(ToLower(care.additionalNotes), ToLower(q.preferredLocation.value))
    {
      score' := score' + LocationPoints;
      reasoning' := reasoning' + LocationClause(q.preferredLocation.value);
    } else {
      assert reasoning' == reasoning + "";
    }
  }

  /**
   * The body of the scoring loop for one plant: the points and the clause of
   * every rule that fires, accumulated rule by rule.
   */
  method ScorePlant(q: Questionnaire, plant: Plant) returns (score: nat, reasoning: string)
    ensures score == Score(q, plant) && reasoning == Clauses(q, plant)
  {
    score, reasoning := ApplySunlightRule(q, plant, 0, "");
    assert reasoning == SunlightClause(q, plant);
    score, reasoning := ApplyCareRule(q, plant, score, reasoning);
    score, reasoning := ApplyPetRule(q, score, reasoning);
    score, reasoning := ApplyLocationRule(q, plant, score, reasoning);
  }

  /** The scoring loop: every plant that clears the threshold, in catalog order. */
  method CollectCandidates(q: Questionnaire, plants: seq<Plant>) returns (found: seq<Recommendation>)
    ensures found == Candidates(q, plants)
  {
    found := [];
    for i := 0 to |plants|
      invariant found == Candidates(q, plants[..i])
    {
      var plant := plants[i];
      var score, reasoning := ScorePlant(q, plant);
      CandidatesOfLongerPrefix(q, plants, i);
      if score > Threshold {
        var rec := Recommendation(q.id, plant.id, score as real / 100.0, TrimSpace(reasoning));
        assert rec == Recommend(q, plant);
        found := found + [rec];
      }
    }
    assert plants[..|plants|] == plants;
  }

  /** Sort by descending score, then keep the first `limit`. */
  method BestFirst(found: seq<Recommendation>, limit: nat) returns (recs: seq<Recommendation>)
    ensures |recs| == Min(limit, |found|)
    ensures SortedByScore(recs)
    ensures multiset(recs) <= multiset(found)
    ensures KeepsBest(recs, multiset(found) - multiset(recs))
  {
    var a := new Recommendation[|found|](k requires 0 <= k < |found| => found[k]);
    assert a[..] == found;
    SortByScoreDescending(a);
    var sorted := a[..];
    var n := Min(limit, a.Length);
    recs := sorted[..n];
    SortedPrefixKeepsBest(sorted, n);
  }

  /**
   * `generateLocalRecommendations`: the best (at most five) of the plants that
   * clear the threshold, by descending score.
   */
  method GenerateLocalRecommendations(q: Questionnaire, plants: seq<Plant>) returns (recs: seq<Recommendation>)
    ensures |recs| == Min(MaxRecommendations, |Candidates(q, plants)|)
    ensures SortedByScore(recs)
    ensures multiset(recs) <= multiset(Candidates(q, plants))
    ensures KeepsBest(recs, multiset(Candidates(q, plants)) - multiset(recs))
  {
    var found := CollectCandidates(q, plants);
    recs := BestFirst(found, MaxRecommendations);
  }

  /** Every candidate is a thresholded recommendation of some catalog plant. */
  lemma {:induction false} CandidatesSound(q: Questionnaire, plants: seq<Plant>)
    ensures |Candidates(q, plants)| <= |plants|
    ensures forall r :: r in Candidates(q, plants) ==>
      exists p :: p in plants && Score(q, p) > Threshold && r == Recommend(q, p)
  {
    if plants != [] {
      var init := plants[..|plants| - 1];
      var last := plants[|plants| - 1];
      CandidatesSound(q, init);
      forall r | r in Candidates(q, plants)
        ensures exists p :: p in plants && Score(q, p) > Threshold && r == Recommend(q, p)
      {
        if r in Candidates(q, init) {
          var p :| p in init && Score(q, p) > Threshold && r == Recommend(q, p);
          assert p in plants;
        } else {
          assert Score(q, last) > Threshold && r == Recommend(q, last);
          assert last in plants;
        }
      }
    }
  }

  /** Every catalog plant that clears the threshold is a candidate. */
  lemma {:induction false} CandidatesComplete(q: Questionnaire, plants: seq<Plant>)
    ensures forall p :: p in plants && Score(q, p) > Threshold ==> Recommend(q, p) in Candidates(q, plants)
  {
    if plants != [] {
      var init := plants[..|plants| - 1];
      var last := plants[|plants| - 1];
      CandidatesComplete(q, init);
      assert plants == init + [last];
      forall p | p in plants && Score(q, p) > Threshold
        ensures Recommend(q, p) in Candidates(q, plants)
      {
        if p != last {
          assert p in init;
        }
      }
    }
  }

  /** A recommendation carries its questionnaire, its plant and that plant's score. */
  lemma RecommendFields(q: Questionnaire, p: Plant)
    requires Score(q, p) > Threshold
    ensures Recommend(q, p).questionnaireId == q.id && Recommend(q, p).plantId == p.id
    ensures Recommend(q, p).score == Score(q, p) as real / 100.0 && Recommend(q, p).score > 0.3
  {
  }

  /** Every recommendation is one of the input plants, with its own score. */
  lemma OutputComesFromCatalog(q: Questionnaire, plants: seq<Plant>, recs: seq<Recommendation>)
    requires multiset(recs) <= multiset(Candidates(q, plants))
    ensures forall r :: r in recs ==>
      r.questionnaireId == q.id && r.score > 0.3
      && exists p :: p in plants && r.plantId == p.id && r.score == Score(q, p) as real / 100.0
  {
    CandidatesSound(q, plants);
    forall r | r in recs
      ensures r.questionnaireId == q.id && r.score > 0.3
      ensures exists p :: p in plants && r.plantId == p.id && r.score == Score(q, p) as real / 100.0
    {
      assert r in multiset(recs);
      assert r in Candidates(q, plants);
      var p :| p in plants && Score(q, p) > Threshold && r == Recommend(q, p);
      RecommendFields(q, p);
    }
  }

  /** Empty, or a sentence that starts with a letter and ends in ". ". */
  predicate IsClause(s: string)
  {
    s == [] || (|s| >= 2 && !IsSpace(s[0]) && s[|s| - 2] == '.' && s[|s| - 1] == ' ')
  }

  lemma {:induction false} ClausesConcatenate(a: string, b: string)
    requires IsClause(a) && IsClause(b)
    ensures IsClause(a + b)
  {
    if a != [] && b != [] {
      assert (a + b)[0] == a[0];
      assert (a + b)[|a + b| - 1] == b[|b| - 1] && (a + b)[|a + b| - 2] == b[|b| - 2];
    } else if a == [] {
      assert a + b == b;
    } else {
      assert a + b == a;
    }
  }

  /** The sunlight rule writes a clause exactly when it scores. */
  lemma SunlightRuleClause(q: Questionnaire, p: Plant)
    ensures IsClause(SunlightClause(q, p))
    ensures SunlightClause(q, p) == [] <==> SunlightScore(q, p) == 0
  {
    var level := p.careInstructions.sunlight;
    assert ExactSunlightClause(level)[0] == 'У';
    assert NearSunlightClause(level)[0] == 'У';
  }

  /** The care rule writes a clause exactly when it scores. */
  lemma CareRuleClause(q: Questionnaire, p: Plant)
    ensures IsClause(CareClause(q, p))
    ensures CareClause(q, p) == [] <==> CareScore(q, p) == 0
  {
    assert ExactCareClause[0] == 'У';
    assert NearCareClause[0] == 'У';
  }

  /** The pet rule writes a clause exactly when it scores. */
  lemma PetRuleClause(q: Questionnaire)
    ensures IsClause(PetClauseFor(q))
    ensures PetClauseFor(q) == [] <==> PetScore(q) == 0
  {
    assert PetClause[0] == 'Р';
  }

  /** The location rule writes a clause exactly when it scores. */
  lemma LocationRuleClause(q: Questionnaire, p: Plant)
    ensures IsClause(LocationClauseFor(q, p))
    ensures LocationClauseFor(q, p) == [] <==> LocationScore(q, p) == 0
  {
    if LocationMatches(q, p) {
      assert LocationClause(q.preferredLocation.value)[0] == 'П';
    }
  }

  /** The reasoning is a run of clauses, and it is empty exactly when the score is zero. */
  lemma ScoringRulesHaveClauses(q: Questionnaire, p: Plant)
    ensures IsClause(Clauses(q, p))
    ensures Clauses(q, p) == [] <==> Score(q, p) == 0
  {
    SunlightRuleClause(q, p);
    CareRuleClause(q, p);
    PetRuleClause(q);
    LocationRuleClause(q, p);
    var s1, s2, s3, s4 := SunlightClause(q, p), CareClause(q, p), PetClauseFor(q), LocationClauseFor(q, p);
    ClausesConcatenate(s1, s2);
    ClausesConcatenate(s1 + s2, s3);
    ClausesConcatenate(s1 + s2 + s3, s4);
    assert |Clauses(q, p)| == |s1| + |s2| + |s3| + |s4|;
  }

  /**
   * A kept plant's reasoning is its fired clauses joined, with only the final
   * space removed by `TrimSpace`.
   */
  lemma ReasoningIsClausesWithoutTrailingSpace(q: Questionnaire, p: Plant)
    requires Score(q, p) > Threshold
    ensures Recommend(q, p).reasoning == Clauses(q, p)[..|Clauses(q, p)| - 1]
  {
    ScoringRulesHaveClauses(q, p);
    TrimClause(Clauses(q, p));
  }

  lemma TrimClause(c: string)
    requires IsClause(c) && c != []
    ensures TrimSpace(c) == c[..|c| - 1]
  {
    assert !IsSpace(c[|c| - 2]) && IsSpace(c[|c| - 1]);
    TrimSpaceDropsOneTrailingSpace(c);
  }

  /** Notes that end with the preferred location, in any letter case, earn the location bonus. */
  lemma NotesEndingInLocationMatch(q: Questionnaire, p: Plant, pre: string)
    requires q.preferredLocation.Some?
    requires p.careInstructions.additionalNotes == pre + q.preferredLocation.value
    requires p.careInstructions.additionalNotes != ""
    ensures LocationMatches(q, p)
  {
    ToLowerAppend(pre, q.preferredLocation.value);
    ContainsSuffix(ToLower(pre), ToLower(q.preferredLocation.value));
  }

  /** The first of the two worked examples: every rule fires, for a perfect 1.0. */
  lemma PerfectMatchScoresOne(q: Questionnaire, p: Plant, pre: string)
    requires q.petFriendly && p.careInstructions.sunlight == q.sunlightPreference
    requires p.careInstructions.fertilizerFrequency == q.careLevel
    requires q.preferredLocation.Some? && q.preferredLocation.value != ""
    requires p.careInstructions.additionalNotes == pre + q.preferredLocation.value
    ensures Score(q, p) == 100 && Recommend(q, p).score == 1.0
  {
    NotesEndingInLocationMatch(q, p, pre);
  }

  /**
   * A partial sunlight match with the pet bonus lands exactly on the threshold
   * (0.2 + 0.1) and is excluded, because the comparison is strict.
   */
  lemma ThresholdIsStrict(q: Questionnaire, p: Plant)
    requires q.sunlightPreference == SunlightMedium && q.petFriendly && q.careLevel == 3
    requires p.careInstructions.sunlight == SunlightHigh && p.careInstructions.fertilizerFrequency == 1
    requires p.careInstructions.additionalNotes == ""
    ensures Score(q, p) == 30
    ensures Recommend(q, p) !in Candidates(q, [p])
  {
    assert [p][..0] == [];
  }

  // The source accumulates the score in float64.  Every float64 from 2^-4 up to
  // 2 is a whole number of units of 2^-56, on a grid whose spacing doubles with
  // each binade; the sums below stay in that range.

  const UnitsPerOne: nat := 72057594037927936

  /** The spacing of the float64 grid around `n` units, for values below 2. */
  function Ulp(n: nat): nat
  {
    if n < 9007199254740992 then 1
    else if n < 18014398509481984 then 2
    else if n < 36028797018963968 then 4
    else if n < 72057594037927936 then 8
    else 16
  }

  /** Round to nearest, ties to even: the float64 that an exact sum of `n` units becomes. */
  function RoundToDouble(n: nat): nat
  {
    var u := Ulp(n);
    var k := n / u;
    var r := n % u;
    if 2 * r < u then k * u
    else if 2 * r > u then (k + 1) * u
    else if k % 2 == 0 then k * u
    else (k + 1) * u
  }

  /** The float64 literals of the scoring rules, in units: 0.1, 0.15, 0.2, 0.3 and 0.4. */
  const DoubleTenth: nat := 7205759403792794
  const DoubleFifteenHundredths: nat := 10808639105689190
  const DoubleFifth: nat := 14411518807585588
  const DoubleThreeTenths: nat := 21617278211378380
  const DoubleFourTenths: nat := 28823037615171176

  /** The float64 literal of the rule worth `points` hundredths. */
  function DoubleOf(points: nat): nat
  {
    if points == 10 then DoubleTenth
    else if points == 15 then DoubleFifteenHundredths
    else if points == 20 then DoubleFifth
    else if points == 30 then DoubleThreeTenths
    else if points == 40 then DoubleFourTenths
    else 0
  }

  /** Each literal is on the grid and is the float64 nearest to its decimal value. */
  lemma LiteralsAreNearest()
    ensures forall points :: points in {10, 15, 20, 30, 40} ==>
      DoubleOf(points) % Ulp(DoubleOf(points)) == 0
      && 2 * Abs(100 * DoubleOf(points) - points * UnitsPerOne) <= 100 * Ulp(DoubleOf(points))
  {
    assert DoubleOf(10) % Ulp(DoubleOf(10)) == 0;
    assert DoubleOf(15) % Ulp(DoubleOf(15)) == 0;
    assert DoubleOf(20) % Ulp(DoubleOf(20)) == 0;
    assert DoubleOf(30) % Ulp(DoubleOf(30)) == 0;
    assert DoubleOf(40) % Ulp(DoubleOf(40)) == 0;
  }

  /** `score += literal`, when the rule fired. */
  function AddPoints(acc: nat, points: nat): nat
  {
    if points == 0 then acc else RoundToDouble(acc + DoubleOf(points))
  }

  /** The float64 score of the source, in units: the rules' literals added in rule order. */
  function FloatScore(q: Questionnaire, p: Plant): nat
  {
    FloatSum(SunlightScore(q, p), CareScore(q, p), PetScore(q), LocationScore(q, p))
  }

  /** `score > 0.3` as written, on the float64 score. */
  predicate ClearsThresholdAsWritten(q: Questionnaire, p: Plant)
  {
    FloatScore(q, p) > DoubleThreeTenths
  }

  lemma RoundingError(n: nat)
    ensures 2 * Abs(RoundToDouble(n) - n) <= Ulp(n) <= 16
  {
    var u := Ulp(n);
    assert u == 1 || u == 2 || u == 4 || u == 8 || u == 16;
    var k, r := n / u, n % u;
    assert n == k * u + r && 0 <= r < u;
  }

  lemma LiteralError(points: nat)
    requires points in {10, 15, 20, 30, 40}
    ensures Abs(100 * DoubleOf(points) - points * UnitsPerOne) <= 800
  {
    LiteralsAreNearest();
  }

  /** One rule's float64 addition is within 16 units of the exact sum in hundredths. */
  lemma AddPointsError(acc: nat, points: nat)
    requires points in {0, 10, 15, 20, 30, 40}
    ensures Abs(100 * AddPoints(acc, points) - (100 * acc + points * UnitsPerOne)) <= 1600
  {
    if points != 0 {
      LiteralError(points);
      RoundingError(acc + DoubleOf(points));
    }
  }

  /** The float64 score stays within 64 units of the exact score. */
  lemma FloatScoreError(q: Questionnaire, p: Plant)
    ensures Abs(100 * FloatScore(q, p) - Score(q, p) * UnitsPerOne) <= 6400
  {
    var a1 := AddPoints(0, SunlightScore(q, p));
    var a2 := AddPoints(a1, CareScore(q, p));
    var a3 := AddPoints(a2, PetScore(q));
    AddPointsError(0, SunlightScore(q, p));
    AddPointsError(a1, CareScore(q, p));
    AddPointsError(a2, PetScore(q));
    AddPointsError(a3, LocationScore(q, p));
  }

  /**
   * As written, the float64 comparison agrees with the exact one except at
   * exactly 0.30: reached as 0.2 + 0.1 or 0.1 + 0.2 the sum rounds up to
   * 0.30000000000000004 and passes, while the care rule's 0.3 alone does not.
   */
  lemma AsWrittenThreshold(q: Questionnaire, p: Plant)
    ensures ClearsThresholdAsWritten(q, p) <==>
      Score(q, p) > Threshold || (Score(q, p) == Threshold && CareScore(q, p) == 0)
  {
    if Score(q, p) != Threshold {
      AwayFromThreshold(q, p);
    } else if CareScore(q, p) == 0 {
      TwoRuleSumRoundsUp(q, p);
    } else {
      CareAloneIsExact(q, p);
    }
  }

  /** Away from 0.30 the rounding error is far too small to change the comparison. */
  lemma AwayFromThreshold(q: Questionnaire, p: Plant)
    requires Score(q, p) != Threshold
    ensures ClearsThresholdAsWritten(q, p) <==> Score(q, p) > Threshold
  {
    FloatScoreError(q, p);
  }

  /** The float64 score is the rules' literals added in rule order, whatever the rules are worth. */
  function FloatSum(sunlight: nat, care: nat, pet: nat, location: nat): nat
  {
    AddPoints(AddPoints(AddPoints(AddPoints(0, sunlight), care), pet), location)
  }

  /** 0.2 + 0.1 and 0.1 + 0.2 both round up to one step above the literal 0.3. */
  lemma TwoRuleSumRoundsUp(q: Questionnaire, p: Plant)
    requires Score(q, p) == Threshold && CareScore(q, p) == 0
    ensures FloatScore(q, p) == DoubleThreeTenths + 4
  {
    if SunlightScore(q, p) == 0 {
      assert PetScore(q) == 10 && LocationScore(q, p) == 20;
      PetThenLocation();
    } else {
      assert SunlightScore(q, p) == 20 && PetScore(q) == 10 && LocationScore(q, p) == 0;
      SunlightThenPet();
    }
  }

  lemma PetThenLocation()
    ensures FloatSum(0, 0, 10, 20) == DoubleThreeTenths + 4
  {
    assert AddPoints(0, 10) == DoubleTenth;
  }

  lemma SunlightThenPet()
    ensures FloatSum(20, 0, 10, 0) == DoubleThreeTenths + 4
  {
    assert AddPoints(0, 20) == DoubleFifth;
  }

  /**
   * Equal hundredths need not give equal float64 scores. A near sunlight
   * match, the care rule and the pet bonus sum to exactly the double of 0.6;
   * the care rule, the pet bonus and the location bonus, also 60 hundredths,
   * sum to one step above it, so the source ranks that plant higher.
   */
  lemma EqualHundredthsCanDiffer()
    ensures FloatSum(20, 30, 10, 0) == 43234556422756760
    ensures FloatSum(0, 30, 10, 20) == FloatSum(20, 30, 10, 0) + 8
  {
    FifthThenThreeTenths();
    ThreeTenthsThenTenth();
    assert FloatSum(20, 30, 10, 0) == RoundToDouble(36028797018963968 + DoubleTenth);
    SixTenthsRoundDown();
    assert FloatSum(0, 30, 10, 20) == RoundToDouble(DoubleFourTenths + DoubleFifth);
    SixTenthsRoundUp();
  }

  /** 0.2 + 0.3 is exactly one half. */
  lemma FifthThenThreeTenths()
    ensures AddPoints(AddPoints(0, 20), 30) == 36028797018963968
  {
    assert AddPoints(0, 20) == DoubleFifth by {
      assert Ulp(DoubleFifth) == 2 && DoubleFifth % 2 == 0 && DoubleFifth / 2 == 7205759403792794;
    }
    var n := DoubleFifth + DoubleThreeTenths;
    assert n == 36028797018963968 && Ulp(n) == 8;
    assert n % 8 == 0 && n / 8 == 4503599627370496;
  }

  /** 0.3 + 0.1 is a tie that rounds to the even neighbour, the literal 0.4. */
  lemma ThreeTenthsThenTenth()
    ensures AddPoints(AddPoints(0, 30), 10) == DoubleFourTenths
  {
    assert AddPoints(0, 30) == DoubleThreeTenths by {
      assert Ulp(DoubleThreeTenths) == 4 && DoubleThreeTenths % 4 == 0 && DoubleThreeTenths / 4 == 5404319552844595;
    }
    var n := DoubleThreeTenths + DoubleTenth;
    assert n == 28823037615171174 && Ulp(n) == 4;
    assert n % 4 == 2 && n / 4 == 7205759403792793;
  }

  /** 0.5 + 0.1 rounds down to the double of 0.6. */
  lemma SixTenthsRoundDown()
    ensures RoundToDouble(36028797018963968 + DoubleTenth) == 43234556422756760
  {
    var n := 36028797018963968 + DoubleTenth;
    assert n == 43234556422756762 && Ulp(n) == 8;
    assert n % 8 == 2 && n / 8 == 5404319552844595;
  }

  /** 0.4 + 0.2 is a tie that rounds up to the even neighbour, one step above 0.6. */
  lemma SixTenthsRoundUp()
    ensures RoundToDouble(DoubleFourTenths + DoubleFifth) == 43234556422756768
  {
    var n := DoubleFourTenths + DoubleFifth;
    assert n == 43234556422756764 && Ulp(n) == 8;
    assert n % 8 == 4 && n / 8 == 5404319552844595;
  }

  /** The care rule's 0.3 on its own is the literal 0.3. */
  lemma CareAloneIsExact(q: Questionnaire, p: Plant)
    requires Score(q, p) == Threshold && CareScore(q, p) != 0
    ensures FloatScore(q, p) == DoubleThreeTenths
  {
    assert SunlightScore(q, p) == 0 && CareScore(q, p) == 30 && PetScore(q) == 0 && LocationScore(q, p) == 0;
    assert FloatSum(0, 30, 0, 0) == DoubleThreeTenths;
  }

  /** As written, the plant of `ThresholdIsStrict` clears the threshold it sits on. */
  lemma FloatSumAdmitsThresholdPlant(q: Questionnaire, p: Plant)
    requires q.sunlightPreference == SunlightMedium && q.petFriendly && q.careLevel == 3
    requires p.careInstructions.sunlight == SunlightHigh && p.careInstructions.fertilizerFrequency == 1
    requires p.careInstructions.additionalNotes == ""
    ensures Score(q, p) == Threshold && ClearsThresholdAsWritten(q, p)
    ensures FloatScore(q, p) == DoubleThreeTenths + 4
  {
    TwoRuleSumRoundsUp(q, p);
  }
}
