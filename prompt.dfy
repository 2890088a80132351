/**
 * The text the recommendation service sends to the language model
 * (`preparePrompt`) and the free-text summary a detailed questionnaire is
 * folded into (`SaveDetailedQuestionnaire`).
 *
 * The prompt is modelled as its list of lines joined by "\n"; every fixed line
 * below is a line of the Go templates, and the lemmas read the lines back.
 */
module Prompt {
  import opened Wrappers
  import opened Uuids
  import opened Text
  import opened Models
  import opened PromptTemplate

  /** The Russian label of a sunlight level; unknown levels read as medium. */
  function SunlightLabel(level: SunlightLevel): string
  {
    if level == SunlightLow then "низкий"
    else if level == SunlightMedium then "средний"
    else if level == SunlightHigh then "высокий"
    else "средний"
  }

  function PetLabel(petFriendly: bool): string
  {
    if petFriendly then "да" else "нет"
  }

  /** The Russian label of a care level 1..5; any other level reads as medium. */
  function CareLabel(level: int): string
  {
    if level == 1 then "очень низкий"
    else if level == 2 then "низкий"
    else if level == 3 then "средний"
    else if level == 4 then "высокий"
    else if level == 5 then "очень высокий"
    else "средний"
  }

  /** Only a level other than LOW and HIGH reads as medium. */
  lemma SunlightLabelMedium(level: SunlightLevel)
    ensures SunlightLabel(level) == "средний" <==> level != SunlightLow && level != SunlightHigh
  {
    if level == SunlightLow {
      assert SunlightLabel(level)[0] != "средний"[0];
    } else if level == SunlightHigh {
      assert SunlightLabel(level)[0] != "средний"[0];
    }
  }

  /** The five care levels get five different labels, and only 3 and the out-of-range levels read as medium. */
  lemma CareLabelTable(level: int)
    ensures CareLabel(level) == "средний" <==> level == 3 || level < 1 || 5 < level
    ensures forall i, j :: 1 <= i < j <= 5 ==> CareLabel(i) != CareLabel(j)
  {
    assert |CareLabel(1)| == 12 && |CareLabel(2)| == 6 && |CareLabel(3)| == 7;
    assert |CareLabel(4)| == 7 && |CareLabel(5)| == 13;
    assert CareLabel(3)[0] != CareLabel(4)[0];
  }

  /** Line `i` of the plant list: the plant's 1-based number, name and scientific name. */
  function PlantLine(i: nat, p: Plant): string
  {
    NatToString(i + 1) + ". " + p.name + " (научное название: " + p.scientificName + ")"
  }

  function PlantLines(plants: seq<Plant>): (lines: seq<string>)
    ensures |lines| == |plants|
  {
    seq(|plants|, i requires 0 <= i < |plants| => PlantLine(i, plants[i]))
  }

  /** The plant list of the prompt: one line per plant, in catalog order. */
  function PlantList(plants: seq<Plant>): string
  {
    Join(PlantLines(plants), "\n")
  }

  /** Builds the plant list the way the service does, one plant per iteration. */
  method BuildPlantList(plants: seq<Plant>) returns (list: string)
    ensures list == PlantList(plants)
  {
    list := "";
    for i := 0 to |plants|
      invariant list == Join(PlantLines(plants)[..i], "\n")
    {
      PlantListStep(plants, i);
      if i > 0 {
        list := list + "\n";
      }
      list := list + PlantLine(i, plants[i]);
    }
    assert PlantLines(plants)[..|plants|] == PlantLines(plants);
  }

  lemma PlantListStep(plants: seq<Plant>, i: nat)
    requires i < |plants|
    ensures i == 0 ==> Join(PlantLines(plants)[..i + 1], "\n") == PlantLine(i, plants[i])
    ensures i > 0 ==> Join(PlantLines(plants)[..i + 1], "\n")
                      == Join(PlantLines(plants)[..i], "\n") + "\n" + PlantLine(i, plants[i])
  {
    var lines := PlantLines(plants);
    assert lines[..i + 1] == lines[..i] + [PlantLine(i, plants[i])];
    if i > 0 {
      JoinSnoc(lines[..i], PlantLine(i, plants[i]), "\n");
    }
  }

  /** A plant's texts that go into the prompt fit on one line. */
  predicate PlantOnOneLine(p: Plant)
  {
    '\n' !in p.name && '\n' !in p.scientificName
  }

  lemma PlantLineIsOneLine(i: nat, p: Plant)
    requires PlantOnOneLine(p)
    ensures '\n' !in PlantLine(i, p)
  {
    var d := NatToString(i + 1);
    assert forall k :: 0 <= k < |d| ==> d[k] != '\n';
  }

  /** The lines the plant list splits into: the plant lines, or one empty line for an empty catalog. */
  function ListLines(plants: seq<Plant>): seq<string>
  {
    if |plants| == 0 then [""] else PlantLines(plants)
  }

  /** Splitting the plant list at line breaks gives one numbered line per plant, in order. */
  lemma PlantListLines(plants: seq<Plant>)
    requires forall k :: 0 <= k < |plants| ==> PlantOnOneLine(plants[k])
    ensures Split(PlantList(plants), '\n') == ListLines(plants)
  {
    if |plants| > 0 {
      var lines := PlantLines(plants);
      forall k | 0 <= k < |lines|
        ensures '\n' !in lines[k]
      {
        PlantLineIsOneLine(k, plants[k]);
      }
      SplitJoin(lines, '\n');
    }
  }

  function HeadLines(q: Questionnaire): seq<string>
  {
    [IntroLine, "", PreferencesHeading,
     SunlightField + SunlightLabel(q.sunlightPreference),
     PetField + PetLabel(q.petFriendly),
     CareField + CareLabel(q.careLevel)]
  }

  /** The location and additional-preferences lines, each present when its answer is given. */
  function OptionalLines(q: Questionnaire): seq<string>
  {
    (if q.preferredLocation.Some? then [LocationField + q.preferredLocation.value] else [])
    + (if q.additionalPreferences.Some? then [ExtraField + q.additionalPreferences.value] else [])
  }

  function LinesBeforeList(q: Questionnaire): seq<string>
  {
    HeadLines(q) + OptionalLines(q) + ["", CatalogHeading]
  }

  /** The prompt for a questionnaire around an already rendered plant list. */
  function PromptText(q: Questionnaire, list: string): string
  {
    Join(LinesBeforeList(q) + [list] + TailLines, "\n")
  }

  /** `preparePrompt`: labels, optional lines, and the plant list built in a loop. */
  method PreparePrompt(q: Questionnaire, plants: seq<Plant>) returns (prompt: string)
    ensures prompt == PromptText(q, PlantList(plants))
  {
    var list := BuildPlantList(plants);
    prompt := PromptText(q, list);
  }

  /** The answers that go into the prompt fit on one line. */
  predicate AnswersOnOneLine(q: Questionnaire)
  {
    (q.preferredLocation.Some? ==> '\n' !in q.preferredLocation.value)
    && (q.additionalPreferences.Some? ==> '\n' !in q.additionalPreferences.value)
  }

  lemma NoLineBreakIn(a: string, b: string)
    requires '\n' !in a && '\n' !in b
    ensures '\n' !in a + b
  {
  }

  lemma LabelsAreLines(q: Questionnaire)
    ensures '\n' !in SunlightLabel(q.sunlightPreference)
    ensures '\n' !in PetLabel(q.petFriendly)
    ensures '\n' !in CareLabel(q.careLevel)
  {
  }

  lemma LinesBeforeListAreLines(q: Questionnaire)
    requires AnswersOnOneLine(q)
    ensures forall k :: 0 <= k < |LinesBeforeList(q)| ==> '\n' !in LinesBeforeList(q)[k]
  {
    FixedLinesAreLines();
    LabelsAreLines(q);
    NoLineBreakIn(SunlightField, SunlightLabel(q.sunlightPreference));
    NoLineBreakIn(PetField, PetLabel(q.petFriendly));
    NoLineBreakIn(CareField, CareLabel(q.careLevel));
    if q.preferredLocation.Some? {
      NoLineBreakIn(LocationField, q.preferredLocation.value);
    }
    if q.additionalPreferences.Some? {
      NoLineBreakIn(ExtraField, q.additionalPreferences.value);
    }
  }

  /** The lines of the prompt: header, optional answers, the catalog heading, one line per plant, the task. */
  function PromptLines(q: Questionnaire, plants: seq<Plant>): seq<string>
  {
    LinesBeforeList(q) + ListLines(plants) + TailLines
  }

  /** Reading the prompt back line by line gives exactly `PromptLines`. */
  lemma SplitPrompt(q: Questionnaire, plants: seq<Plant>)
    requires AnswersOnOneLine(q)
    requires forall k :: 0 <= k < |plants| ==> PlantOnOneLine(plants[k])
    ensures Split(PromptText(q, PlantList(plants)), '\n') == PromptLines(q, plants)
  {
    LinesBeforeListAreLines(q);
    FixedLinesAreLines();
    SplitJoinAround(LinesBeforeList(q), PlantList(plants), TailLines, '\n');
    PlantListLines(plants);
  }

  /** Plant `k` is on line `|LinesBeforeList(q)| + k` of the prompt, with its number `k + 1`. */
  lemma PlantIsListed(q: Questionnaire, plants: seq<Plant>, k: nat)
    requires AnswersOnOneLine(q)
    requires forall j :: 0 <= j < |plants| ==> PlantOnOneLine(plants[j])
    requires k < |plants|
    ensures var lines := Split(PromptText(q, PlantList(plants)), '\n');
            |LinesBeforeList(q)| + k < |lines|
            && lines[|LinesBeforeList(q)| + k] == NatToString(k + 1) + ". " + plants[k].name + " (научное название: " + plants[k].scientificName + ")"
  {
    SplitPrompt(q, plants);
  }

  /** A line of the prompt other than the optional ones never starts with either optional field label. */
  predicate Unmarked(line: string)
  {
    !HasPrefix(line, LocationField) && !HasPrefix(line, ExtraField)
  }

  /** `line` differs from `field` at position `k`. */
  lemma NotPrefixAt(line: string, field: string, k: nat)
    requires k < |field| && k < |line| && line[k] != field[k]
    ensures !HasPrefix(line, field)
  {
    if |field| <= |line| {
      assert line[..|field|][k] == line[k];
    }
  }

  /** `line` differs from both optional labels at position `k`. */
  lemma UnmarkedAt(line: string, k: nat)
    requires k < |LocationField| && k < |ExtraField|
    requires k >= |line| || (line[k] != LocationField[k] && line[k] != ExtraField[k])
    ensures Unmarked(line)
  {
    if k < |line| {
      NotPrefixAt(line, LocationField, k);
      NotPrefixAt(line, ExtraField, k);
    }
  }

  lemma FixedLinesUnmarked(q: Questionnaire)
    ensures forall k :: 0 <= k < |HeadLines(q)| ==> Unmarked(HeadLines(q)[k])
    ensures Unmarked("") && Unmarked(CatalogHeading)
    ensures forall k :: 0 <= k < |TailLines| ==> Unmarked(TailLines[k])
  {
    HeadLinesUnmarked(q);
    TailLinesUnmarked();
  }

  lemma HeadLinesUnmarked(q: Questionnaire)
    ensures forall k :: 0 <= k < |HeadLines(q)| ==> Unmarked(HeadLines(q)[k])
    ensures Unmarked("") && Unmarked(CatalogHeading)
  {
    OptionalFieldStarts();
    ChoiceFieldStarts();
    HeadingStarts();
    UnmarkedAt("", 0);
    UnmarkedAt(IntroLine, 0);
    UnmarkedAt(PreferencesHeading, 0);
    UnmarkedAt(CatalogHeading, 0);
    UnmarkedAt(SunlightField + SunlightLabel(q.sunlightPreference), 2);
    UnmarkedAt(PetField + PetLabel(q.petFriendly), 2);
    UnmarkedAt(CareField + CareLabel(q.careLevel), 2);
  }

  lemma TailLinesUnmarked()
    ensures forall k :: 0 <= k < |TailLines| ==> Unmarked(TailLines[k])
  {
    OptionalFieldStarts();
    TaskStarts();
    EntryStarts();
    UnmarkedAt("", 0);
    UnmarkedAt(TaskLine, 0);
    UnmarkedAt(AnswerHeading, 0);
    UnmarkedAt(FirstEntry, 0);
    UnmarkedAt(EntryBody, 0);
    UnmarkedAt(SecondEntry, 0);
    UnmarkedAt(Closing, 0);
  }

  lemma AllUnmarkedAppend(a: seq<string>, b: seq<string>)
    requires forall k :: 0 <= k < |a| ==> Unmarked(a[k])
    requires forall k :: 0 <= k < |b| ==> Unmarked(b[k])
    ensures forall k :: 0 <= k < |a + b| ==> Unmarked((a + b)[k])
  {
    forall k | 0 <= k < |a + b|
      ensures Unmarked((a + b)[k])
    {
      if k < |a| {
        assert (a + b)[k] == a[k];
      } else {
        assert (a + b)[k] == b[k - |a|];
      }
    }
  }

  lemma ListLinesUnmarked(plants: seq<Plant>)
    ensures forall k :: 0 <= k < |ListLines(plants)| ==> Unmarked(ListLines(plants)[k])
  {
    if |plants| == 0 {
      UnmarkedAt("", 0);
    } else {
      forall k | 0 <= k < |plants|
        ensures Unmarked(PlantLines(plants)[k])
      {
        var d := NatToString(k + 1);
        assert PlantLine(k, plants[k])[0] == d[0];
        assert IsDigit(d[0]);
        UnmarkedAt(PlantLine(k, plants[k]), 0);
      }
    }
  }

  /** Every line of the prompt outside the optional block is unmarked. */
  lemma OthersUnmarked(q: Questionnaire, plants: seq<Plant>)
    ensures forall k :: 0 <= k < |HeadLines(q)| ==> Unmarked(PromptLines(q, plants)[k])
    ensures forall k :: |HeadLines(q)| + |OptionalLines(q)| <= k < |PromptLines(q, plants)| ==> Unmarked(PromptLines(q, plants)[k])
  {
    FixedLinesUnmarked(q);
    ListLinesUnmarked(plants);
    var heading := ["", CatalogHeading];
    AllUnmarkedAppend(heading, ListLines(plants));
    AllUnmarkedAppend(heading + ListLines(plants), TailLines);
    var rest := heading + ListLines(plants) + TailLines;
    var before := HeadLines(q) + OptionalLines(q);
    var lines := PromptLines(q, plants);
    assert lines == before + rest;
    forall k | 0 <= k < |lines| && (k < |HeadLines(q)| || |before| <= k)
      ensures Unmarked(lines[k])
    {
      if k < |HeadLines(q)| {
        assert lines[k] == HeadLines(q)[k];
      } else {
        assert lines[k] == rest[k - |before|];
      }
    }
  }

  /** Within the optional block, a field label marks only the line of its own answer. */
  lemma OptionalLinesMarks(q: Questionnaire)
    ensures q.preferredLocation.None? ==>
            forall k :: 0 <= k < |OptionalLines(q)| ==> !HasPrefix(OptionalLines(q)[k], LocationField)
    ensures q.additionalPreferences.None? ==>
            forall k :: 0 <= k < |OptionalLines(q)| ==> !HasPrefix(OptionalLines(q)[k], ExtraField)
  {
    OptionalFieldStarts();
    if q.preferredLocation.None? && q.additionalPreferences.Some? {
      NotPrefixAt(ExtraField + q.additionalPreferences.value, LocationField, 2);
    } else if q.preferredLocation.Some? && q.additionalPreferences.None? {
      NotPrefixAt(LocationField + q.preferredLocation.value, ExtraField, 2);
    }
  }

  /** Line `k` of the prompt inside the optional block is line `k - |HeadLines(q)|` of that block. */
  lemma OptionalBlockAt(q: Questionnaire, plants: seq<Plant>, k: nat)
    requires |HeadLines(q)| <= k < |HeadLines(q)| + |OptionalLines(q)|
    ensures k < |PromptLines(q, plants)|
    ensures PromptLines(q, plants)[k] == OptionalLines(q)[k - |HeadLines(q)|]
  {
    var rest := ["", CatalogHeading] + ListLines(plants) + TailLines;
    assert PromptLines(q, plants) == HeadLines(q) + OptionalLines(q) + rest;
  }

  /** A line of `PromptLines` starts with the location label exactly when a location is given. */
  lemma LocationMarkedIffGiven(q: Questionnaire, plants: seq<Plant>)
    ensures var lines := PromptLines(q, plants);
            (exists k :: 0 <= k < |lines| && HasPrefix(lines[k], LocationField)) <==> q.preferredLocation.Some?
  {
    var lines := PromptLines(q, plants);
    var h := |HeadLines(q)|;
    if q.preferredLocation.Some? {
      OptionalBlockAt(q, plants, h);
      assert HasPrefix(lines[h], LocationField);
    } else {
      OthersUnmarked(q, plants);
      OptionalLinesMarks(q);
      forall k | 0 <= k < |lines|
        ensures !HasPrefix(lines[k], LocationField)
      {
        if h <= k < h + |OptionalLines(q)| {
          OptionalBlockAt(q, plants, k);
        }
      }
    }
  }

  /** A line of `PromptLines` starts with the extra-preferences label exactly when extra text is given. */
  lemma ExtraMarkedIffGiven(q: Questionnaire, plants: seq<Plant>)
    ensures var lines := PromptLines(q, plants);
            (exists k :: 0 <= k < |lines| && HasPrefix(lines[k], ExtraField)) <==> q.additionalPreferences.Some?
  {
    var lines := PromptLines(q, plants);
    var h := |HeadLines(q)|;
    if q.additionalPreferences.Some? {
      var e := h + |OptionalLines(q)| - 1;
      OptionalBlockAt(q, plants, e);
      assert HasPrefix(lines[e], ExtraField);
    } else {
      OthersUnmarked(q, plants);
      OptionalLinesMarks(q);
      forall k | 0 <= k < |lines|
        ensures !HasPrefix(lines[k], ExtraField)
      {
        if h <= k < h + |OptionalLines(q)| {
          OptionalBlockAt(q, plants, k);
        }
      }
    }
  }

  /** The prompt has a location line exactly when the questionnaire names a location, and then it carries that location. */
  lemma LocationLineIffGiven(q: Questionnaire, plants: seq<Plant>)
    requires AnswersOnOneLine(q)
    requires forall j :: 0 <= j < |plants| ==> PlantOnOneLine(plants[j])
    ensures var lines := Split(PromptText(q, PlantList(plants)), '\n');
            (exists k :: 0 <= k < |lines| && HasPrefix(lines[k], LocationField)) <==> q.preferredLocation.Some?
    ensures var lines := Split(PromptText(q, PlantList(plants)), '\n');
            q.preferredLocation.Some? ==>
            |HeadLines(q)| < |lines| && lines[|HeadLines(q)|] == LocationField + q.preferredLocation.value
  {
    SplitPrompt(q, plants);
    LocationMarkedIffGiven(q, plants);
    if q.preferredLocation.Some? {
      OptionalBlockAt(q, plants, |HeadLines(q)|);
    }
  }

  /** The prompt has an additional-preferences line exactly when the questionnaire carries extra text. */
  lemma ExtraLineIffGiven(q: Questionnaire, plants: seq<Plant>)
    requires AnswersOnOneLine(q)
    requires forall j :: 0 <= j < |plants| ==> PlantOnOneLine(plants[j])
    ensures var lines := Split(PromptText(q, PlantList(plants)), '\n');
            (exists k :: 0 <= k < |lines| && HasPrefix(lines[k], ExtraField)) <==> q.additionalPreferences.Some?
    ensures var lines := Split(PromptText(q, PlantList(plants)), '\n');
            q.additionalPreferences.Some? ==>
            |HeadLines(q)| + |OptionalLines(q)| - 1 < |lines|
            && lines[|HeadLines(q)| + |OptionalLines(q)| - 1] == ExtraField + q.additionalPreferences.value
  {
    SplitPrompt(q, plants);
    ExtraMarkedIffGiven(q, plants);
    if q.additionalPreferences.Some? {
      OptionalBlockAt(q, plants, |HeadLines(q)| + |OptionalLines(q)| - 1);
    }
  }

  /** The six fixed answers of a detailed questionnaire, in the order the summary lists them. */
  function DetailedFields(d: DetailedQuestionnaireRequest): seq<string>
  {
    [SizeLabel + d.plantSize,
     FloweringLabel + BoolToString(d.floweringPreference),
     AirLabel + BoolToString(d.airPurifying),
     WateringLabel + d.wateringFrequency,
     ExperienceLabel + d.experienceLevel,
     ChildrenLabel + BoolToString(d.hasChildren)]
  }

  function ExtraParts(d: DetailedQuestionnaireRequest): seq<string>
  {
    if d.additionalPreferences.Some? then [d.additionalPreferences.value] else []
  }

  /** The summary text: the six answers, then the user's extra text when there is one, separated by ", ". */
  function DetailedPreferences(d: DetailedQuestionnaireRequest): string
  {
    Join(DetailedFields(d) + ExtraParts(d), ", ")
  }

  /** The extra text is appended after ", " and nothing else changes. */
  lemma ExtraIsAppended(d: DetailedQuestionnaireRequest, extra: string)
    requires d.additionalPreferences == None
    ensures DetailedPreferences(d.(additionalPreferences := Some(extra)))
            == DetailedPreferences(d) + ", " + extra
  {
    var e := d.(additionalPreferences := Some(extra));
    assert DetailedFields(e) == DetailedFields(d);
    assert DetailedFields(d) + ExtraParts(d) == DetailedFields(d);
    JoinSnoc(DetailedFields(d), extra, ", ");
  }

  /** The answers that go into the summary contain no comma. */
  predicate CommaFree(d: DetailedQuestionnaireRequest)
  {
    ',' !in d.plantSize && ',' !in d.wateringFrequency && ',' !in d.experienceLevel
    && (d.additionalPreferences.Some? ==> ',' !in d.additionalPreferences.value)
  }

  lemma NoCommaIn(a: string, b: string)
    requires ',' !in a && ',' !in b
    ensures ',' !in a + b
  {
  }

  /**
   * Splitting the summary at commas gives the six answers in their fixed order
   * (each after the first with its leading blank), then the extra text if given.
   */
  lemma DetailedPreferencesReadBack(d: DetailedQuestionnaireRequest)
    requires CommaFree(d)
    ensures Split(DetailedPreferences(d), ',') == Spaced(DetailedFields(d) + ExtraParts(d))
    ensures |Split(DetailedPreferences(d), ',')| == 6 + (if d.additionalPreferences.Some? then 1 else 0)
  {
    var parts := DetailedFields(d) + ExtraParts(d);
    SummaryLabelsCommaFree();
    NoCommaIn(SizeLabel, d.plantSize);
    NoCommaIn(FloweringLabel, BoolToString(d.floweringPreference));
    NoCommaIn(AirLabel, BoolToString(d.airPurifying));
    NoCommaIn(WateringLabel, d.wateringFrequency);
    NoCommaIn(ExperienceLabel, d.experienceLevel);
    NoCommaIn(ChildrenLabel, BoolToString(d.hasChildren));
    assert forall k :: 0 <= k < |parts| ==> ',' !in parts[k];
    SplitJoinSpaced(parts, ',');
  }

  /**
   * The questionnaire a detailed submission is stored as: the four shared
   * answers verbatim, and the summary as its additional preferences.
   */
  function FoldDetailed(userId: Option<Uuid>, d: DetailedQuestionnaireRequest, id: Uuid, createdAt: int): (q: Questionnaire)
    ensures q.userId == userId && q.sunlightPreference == d.sunlightPreference && q.petFriendly == d.petFriendly
    ensures q.careLevel == d.careLevel && q.preferredLocation == d.preferredLocation
    ensures q.additionalPreferences.Some? && HasPrefix(q.additionalPreferences.value, DetailedPreferences(d.(additionalPreferences := None)))
  {
    SummaryStartsWithAnswers(d);
    Questionnaire(id, userId, d.sunlightPreference, d.petFriendly, d.careLevel,
                  d.preferredLocation, Some(DetailedPreferences(d)), createdAt)
  }

  /** The summary starts with the six answers, whether or not extra text follows. */
  lemma SummaryStartsWithAnswers(d: DetailedQuestionnaireRequest)
    ensures HasPrefix(DetailedPreferences(d), DetailedPreferences(d.(additionalPreferences := None)))
  {
    var base := d.(additionalPreferences := None);
    if d.additionalPreferences.Some? {
      ExtraIsAppended(base, d.additionalPreferences.value);
      assert base.(additionalPreferences := Some(d.additionalPreferences.value)) == d;
      assert DetailedPreferences(d)[..|DetailedPreferences(base)|] == DetailedPreferences(base);
    } else {
      assert base == d;
    }
  }

  /** A folded questionnaire's prompt carries the whole summary on its additional-preferences line. */
  lemma FoldedSummaryReachesPrompt(userId: Option<Uuid>, d: DetailedQuestionnaireRequest, id: Uuid, createdAt: int, plants: seq<Plant>)
    requires d.preferredLocation.Some? ==> '\n' !in d.preferredLocation.value
    requires '\n' !in DetailedPreferences(d)
    requires forall j :: 0 <= j < |plants| ==> PlantOnOneLine(plants[j])
    ensures var q := FoldDetailed(userId, d, id, createdAt);
            ExtraField + DetailedPreferences(d) in Split(PromptText(q, PlantList(plants)), '\n')
  {
    var q := FoldDetailed(userId, d, id, createdAt);
    ExtraLineIffGiven(q, plants);
  }
}
