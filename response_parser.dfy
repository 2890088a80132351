/**
 * `parseYandexGPTResponse` (internal/services/recommendation_service.go): the
 * completion's text is cut into lines, and a small state machine collects one
 * recommendation per header line `%d. %s - %f` whose number names a plant of
 * the catalog, with the following lines as that recommendation's reasoning.
 */
module ResponseParser {
  import opened Wrappers
  import opened Text
  import opened Uuids
  import opened Models
  import opened Scanf

  const NoRecommendations := "failed to parse any recommendations from response"

  /**
   * The loop's variables: the records saved so far, the open record's plant
   * number, score and reasoning, and whether a header has been seen.
   */
  datatype ParserState = ParserState(
    records: seq<Recommendation>,
    currentPlantNumber: int,
    currentScore: real,
    currentReasoning: string,
    parsingReasoning: bool)

  const Init := ParserState([], 0, 0.0, "", false)

  /** A header line: the scan succeeds and its number is between 1 and the catalog size. */
  predicate IsHeader(line: string, count: nat)
  {
    line != [] && ScanHeader(line).Some? && 1 <= ScanHeader(line).value.index <= count
  }

  /** What one line is to the loop. */
  datatype LineKind = Blank | HeaderOf(header: Header) | Prose(text: string)

  function Classify(line: string, count: nat): (k: LineKind)
    ensures k.Blank? <==> line == []
    ensures k.HeaderOf? <==> IsHeader(line, count)
    ensures k.HeaderOf? ==> ScanHeader(line) == Some(k.header)
    ensures k.Prose? ==> k.text == line
  {
    if |line| == 0 then Blank
    else match ScanHeader(line)
      case Some(h) => if 0 < h.index <= count then HeaderOf(h) else Prose(line)
      case None => Prose(line)
  }

  /** Every header the loop can meet names a catalog position. */
  predicate HeadersFit(kinds: seq<LineKind>, count: nat)
  {
    forall k :: 0 <= k < |kinds| ==> kinds[k].HeaderOf? ==> 1 <= kinds[k].header.index <= count
  }

  /** The lines as the loop sees them, one kind per line. */
  function Kinds(lines: seq<string>, count: nat): (kinds: seq<LineKind>)
    ensures |kinds| == |lines|
  {
    seq(|lines|, k requires 0 <= k < |lines| => Classify(lines[k], count))
  }

  lemma KindAt(lines: seq<string>, i: nat, count: nat)
    requires i < |lines|
    ensures Kinds(lines, count)[i] == Classify(lines[i], count)
  {
  }

  /** Every header the loop meets names a catalog position. */
  lemma KindsFit(lines: seq<string>, count: nat)
    ensures HeadersFit(Kinds(lines, count), count)
  {
  }

  /** The records once the open one, if any, has been saved. */
  function SaveCurrent(st: ParserState, questionnaireId: Uuid, plants: seq<Plant>): seq<Recommendation>
  {
    if st.parsingReasoning && st.currentPlantNumber > 0 && st.currentPlantNumber <= |plants| then
      st.records + [Recommendation(questionnaireId, plants[st.currentPlantNumber - 1].id,
                                   st.currentScore, st.currentReasoning)]
    else st.records
  }

  /** One turn of the loop. */
  function Step(st: ParserState, kind: LineKind, questionnaireId: Uuid, plants: seq<Plant>): ParserState
  {
    match kind
    case Blank => st
    case HeaderOf(h) => ParserState(SaveCurrent(st, questionnaireId, plants), h.index, h.score, "", true)
    case Prose(line) =>
      if st.parsingReasoning then
        st.(currentReasoning := if |st.currentReasoning| > 0 then st.currentReasoning + "\n" + line
                                else st.currentReasoning + line)
      else st
  }

  /** The state after the loop has consumed lines of the given kinds. */
  function Run(st: ParserState, kinds: seq<LineKind>, questionnaireId: Uuid, plants: seq<Plant>): ParserState
    decreases |kinds|
  {
    if kinds == [] then st
    else Step(Run(st, kinds[..|kinds| - 1], questionnaireId, plants), kinds[|kinds| - 1], questionnaireId, plants)
  }

  /** What the parser returns for `response`. */
  function Parse(response: string, questionnaireId: Uuid, plants: seq<Plant>): Result<seq<Recommendation>, string>
  {
    var final := Run(Init, Kinds(Split(response, '\n'), |plants|), questionnaireId, plants);
    var records := SaveCurrent(final, questionnaireId, plants);
    if |records| == 0 then Err(NoRecommendations) else Ok(records)
  }

  /** `parseYandexGPTResponse`. */
  method ParseResponse(response: string, questionnaireId: Uuid, plants: seq<Plant>)
    returns (r: Result<seq<Recommendation>, string>)
    ensures r == Parse(response, questionnaireId, plants)
  {
    var lines := Split(response, '\n');
    var recommendations: seq<Recommendation> := [];
    var currentPlantNumber: int := 0;
    var currentScore: real := 0.0;
    var currentReasoning: string := "";
    var parsingReasoning := false;
    var i := 0;
    assert lines[..0] == [];
    assert Kinds(lines[..0], |plants|) == [];
    while i < |lines|
      invariant 0 <= i <= |lines|
      invariant ParserState(recommendations, currentPlantNumber, currentScore, currentReasoning, parsingReasoning)
        == Run(Init, Kinds(lines[..i], |plants|), questionnaireId, plants)
    {
      RunOneMore(lines, i, questionnaireId, plants);
      recommendations, currentPlantNumber, currentScore, currentReasoning, parsingReasoning :=
        ReadLine(lines[i], questionnaireId, plants,
                 recommendations, currentPlantNumber, currentScore, currentReasoning, parsingReasoning);
      i := i + 1;
    }
    assert lines[..i] == lines;
    if parsingReasoning && currentPlantNumber > 0 {
      if currentPlantNumber <= |plants| {
        var plant := plants[currentPlantNumber - 1];
        recommendations := recommendations
          + [Recommendation(questionnaireId, plant.id, currentScore, currentReasoning)];
      }
    }
    if |recommendations| == 0 {
      return Err(NoRecommendations);
    }
    return Ok(recommendations);
  }

  /** One turn of the loop of `parseYandexGPTResponse`, on its variables. */
  method ReadLine(line: string, questionnaireId: Uuid, plants: seq<Plant>,
                  recommendations: seq<Recommendation>, currentPlantNumber: int, currentScore: real,
                  currentReasoning: string, parsingReasoning: bool)
    returns (recommendations': seq<Recommendation>, currentPlantNumber': int, currentScore': real,
             currentReasoning': string, parsingReasoning': bool)
    ensures ParserState(recommendations', currentPlantNumber', currentScore', currentReasoning', parsingReasoning')
      == Step(ParserState(recommendations, currentPlantNumber, currentScore, currentReasoning, parsingReasoning),
              Classify(line, |plants|), questionnaireId, plants)
  {
    recommendations', currentPlantNumber', currentScore', currentReasoning', parsingReasoning' :=
      recommendations, currentPlantNumber, currentScore, currentReasoning, parsingReasoning;
    match Classify(line, |plants|) {
      case Blank =>
      case HeaderOf(header) =>
        if parsingReasoning && currentPlantNumber > 0 {
          if currentPlantNumber <= |plants| {
            var plant := plants[currentPlantNumber - 1];
            recommendations' := recommendations
              + [Recommendation(questionnaireId, plant.id, currentScore, currentReasoning)];
          }
        }
        currentPlantNumber' := header.index;
        currentScore' := header.score;
        currentReasoning' := "";
        parsingReasoning' := true;
      case Prose(_) =>
        if parsingReasoning {
          if |currentReasoning| > 0 {
            currentReasoning' := currentReasoning + "\n";
          }
          currentReasoning' := currentReasoning' + line;
        }
    }
  }

  lemma RunOneMore(lines: seq<string>, i: nat, questionnaireId: Uuid, plants: seq<Plant>)
    requires i < |lines|
    ensures Run(Init, Kinds(lines[..i + 1], |plants|), questionnaireId, plants)
         == Step(Run(Init, Kinds(lines[..i], |plants|), questionnaireId, plants), Classify(lines[i], |plants|),
                 questionnaireId, plants)
  {
    assert lines[..i + 1][..i] == lines[..i];
    var kinds := Kinds(lines[..i + 1], |plants|);
    assert kinds[..i] == Kinds(lines[..i], |plants|);
  }

  // ---------------------------------------------------------------------------
  // What every reachable state satisfies.

  /** `plantId` is the id of some catalog plant. */
  predicate FromCatalog(plantId: Uuid, plants: seq<Plant>)
  {
    exists i :: 0 <= i < |plants| && plants[i].id == plantId
  }

  /**
   * Before the first header nothing has been collected; after it the open
   * record's number is always a valid catalog position, and every saved
   * record carries the questionnaire and a catalog plant.
   */
  predicate Reachable(st: ParserState, questionnaireId: Uuid, plants: seq<Plant>)
  {
    (!st.parsingReasoning ==> st.records == [] && st.currentPlantNumber == 0 && st.currentReasoning == "")
    && (st.parsingReasoning ==> 1 <= st.currentPlantNumber <= |plants|)
    && forall k :: 0 <= k < |st.records| ==>
         st.records[k].questionnaireId == questionnaireId && FromCatalog(st.records[k].plantId, plants)
  }

  /** How many of the lines are headers. */
  function CountHeaders(kinds: seq<LineKind>): nat
    decreases |kinds|
  {
    if kinds == [] then 0
    else CountHeaders(kinds[..|kinds| - 1]) + (if kinds[|kinds| - 1].HeaderOf? then 1 else 0)
  }

  /** Saving adds exactly the open record, which names a catalog plant. */
  lemma SaveCurrentKeepsCatalog(st: ParserState, questionnaireId: Uuid, plants: seq<Plant>)
    requires Reachable(st, questionnaireId, plants)
    ensures var saved := SaveCurrent(st, questionnaireId, plants);
      |saved| == |st.records| + (if st.parsingReasoning then 1 else 0)
      && forall k :: 0 <= k < |saved| ==> saved[k].questionnaireId == questionnaireId && FromCatalog(saved[k].plantId, plants)
  {
    if st.parsingReasoning {
      var saved := SaveCurrent(st, questionnaireId, plants);
      assert FromCatalog(saved[|saved| - 1].plantId, plants) by {
        assert plants[st.currentPlantNumber - 1].id == saved[|saved| - 1].plantId;
      }
    }
  }

  /** A step keeps the state reachable and opens one more record exactly on a header. */
  lemma StepKeepsReachable(st: ParserState, kind: LineKind, questionnaireId: Uuid, plants: seq<Plant>)
    requires Reachable(st, questionnaireId, plants)
    requires kind.HeaderOf? ==> 1 <= kind.header.index <= |plants|
    ensures var next := Step(st, kind, questionnaireId, plants);
      Reachable(next, questionnaireId, plants)
      && |next.records| + (if next.parsingReasoning then 1 else 0)
         == |st.records| + (if st.parsingReasoning then 1 else 0) + (if kind.HeaderOf? then 1 else 0)
  {
    if kind.HeaderOf? {
      SaveCurrentKeepsCatalog(st, questionnaireId, plants);
    }
  }

  /**
   * Every state the loop reaches is `Reachable`, and it has saved or opened
   * one record per header line read.
   */
  lemma {:induction false} RunIsReachable(kinds: seq<LineKind>, questionnaireId: Uuid, plants: seq<Plant>)
    requires HeadersFit(kinds, |plants|)
    ensures var st := Run(Init, kinds, questionnaireId, plants);
      Reachable(st, questionnaireId, plants)
      && |st.records| + (if st.parsingReasoning then 1 else 0) == CountHeaders(kinds)
    decreases |kinds|
  {
    if kinds != [] {
      var front := kinds[..|kinds| - 1];
      assert forall k :: 0 <= k < |front| ==> front[k] == kinds[k];
      RunIsReachable(front, questionnaireId, plants);
      StepKeepsReachable(Run(Init, front, questionnaireId, plants), kinds[|kinds| - 1], questionnaireId, plants);
    }
  }

  /** There are no headers exactly when no line is one. */
  lemma {:induction false} NoHeaders(kinds: seq<LineKind>)
    ensures CountHeaders(kinds) == 0 <==> forall k :: 0 <= k < |kinds| ==> !kinds[k].HeaderOf?
    decreases |kinds|
  {
    if kinds != [] {
      var front := kinds[..|kinds| - 1];
      NoHeaders(front);
      assert forall k :: 0 <= k < |front| ==> front[k] == kinds[k];
    }
  }

  // ---------------------------------------------------------------------------
  // What the parser promises.

  /**
   * The parser returns one record per header line, and fails, with the
   * source's message, exactly when no line of the response is a header.
   */
  lemma ParseCountsHeaders(response: string, questionnaireId: Uuid, plants: seq<Plant>)
    ensures var lines := Split(response, '\n');
      match Parse(response, questionnaireId, plants)
      case Ok(records) => |records| == CountHeaders(Kinds(lines, |plants|)) > 0
      case Err(e) => e == NoRecommendations && forall k :: 0 <= k < |lines| ==> !IsHeader(lines[k], |plants|)
  {
    var lines := Split(response, '\n');
    var kinds := Kinds(lines, |plants|);
    KindsFit(lines, |plants|);
    RunIsReachable(kinds, questionnaireId, plants);
    SaveCurrentKeepsCatalog(Run(Init, kinds, questionnaireId, plants), questionnaireId, plants);
    NoHeaders(kinds);
    forall k | 0 <= k < |lines| && !kinds[k].HeaderOf?
      ensures !IsHeader(lines[k], |plants|)
    {
      KindAt(lines, k, |plants|);
    }
  }

  /** A response with a header line is not an error. */
  lemma HeaderMeansSuccess(response: string, questionnaireId: Uuid, plants: seq<Plant>, k: nat)
    requires k < |Split(response, '\n')| && IsHeader(Split(response, '\n')[k], |plants|)
    ensures Parse(response, questionnaireId, plants).Ok?
  {
    var kinds := Kinds(Split(response, '\n'), |plants|);
    KindAt(Split(response, '\n'), k, |plants|);
    ParseCountsHeaders(response, questionnaireId, plants);
    NoHeaders(kinds);
  }

  /** Every record carries the questionnaire and names a plant of the catalog. */
  lemma ParsedRecordsComeFromCatalog(response: string, questionnaireId: Uuid, plants: seq<Plant>)
    ensures Parse(response, questionnaireId, plants).Ok? ==>
      var records := Parse(response, questionnaireId, plants).value;
      forall k :: 0 <= k < |records| ==>
        records[k].questionnaireId == questionnaireId && FromCatalog(records[k].plantId, plants)
  {
    var kinds := Kinds(Split(response, '\n'), |plants|);
    KindsFit(Split(response, '\n'), |plants|);
    RunIsReachable(kinds, questionnaireId, plants);
    SaveCurrentKeepsCatalog(Run(Init, kinds, questionnaireId, plants), questionnaireId, plants);
  }

  /** Reading `a` and then `b` is reading `a + b`. */
  lemma {:induction false} RunAppend(st: ParserState, a: seq<LineKind>, b: seq<LineKind>, questionnaireId: Uuid, plants: seq<Plant>)
    ensures Run(st, a + b, questionnaireId, plants) == Run(Run(st, a, questionnaireId, plants), b, questionnaireId, plants)
    decreases |b|
  {
    if b == [] {
      assert a + b == a;
    } else {
      assert (a + b)[..|a + b| - 1] == a + b[..|b| - 1];
      RunAppend(st, a, b[..|b| - 1], questionnaireId, plants);
    }
  }

  lemma {:induction false} KindsAppend(a: seq<string>, b: seq<string>, count: nat)
    ensures Kinds(a + b, count) == Kinds(a, count) + Kinds(b, count)
    decreases |b|
  {
    if b == [] {
      assert a + b == a;
    } else {
      assert (a + b)[..|a + b| - 1] == a + b[..|b| - 1];
      KindsAppend(a, b[..|b| - 1], count);
    }
  }

  /** Without a header the loop stays in its initial state. */
  lemma {:induction false} NoHeaderNoChange(kinds: seq<LineKind>, questionnaireId: Uuid, plants: seq<Plant>)
    requires forall k :: 0 <= k < |kinds| ==> !kinds[k].HeaderOf?
    ensures Run(Init, kinds, questionnaireId, plants) == Init
    decreases |kinds|
  {
    if kinds != [] {
      var front := kinds[..|kinds| - 1];
      assert forall k :: 0 <= k < |front| ==> front[k] == kinds[k];
      NoHeaderNoChange(front, questionnaireId, plants);
    }
  }

  /** Lines before the first header are dropped: the rest is read as if alone. */
  lemma PreambleIsDropped(pre: seq<string>, rest: seq<string>, questionnaireId: Uuid, plants: seq<Plant>)
    requires forall k :: 0 <= k < |pre| ==> !IsHeader(pre[k], |plants|)
    ensures Run(Init, Kinds(pre + rest, |plants|), questionnaireId, plants)
         == Run(Init, Kinds(rest, |plants|), questionnaireId, plants)
  {
    KindsAppend(pre, rest, |plants|);
    RunAppend(Init, Kinds(pre, |plants|), Kinds(rest, |plants|), questionnaireId, plants);
    forall k | 0 <= k < |pre|
      ensures !Kinds(pre, |plants|)[k].HeaderOf?
    {
      KindAt(pre, k, |plants|);
    }
    NoHeaderNoChange(Kinds(pre, |plants|), questionnaireId, plants);
  }

  /**
   * A line in the layout the prompt asks for (`1. 4. name - 0.9`) is no header,
   * so it is read as reasoning text.
   */
  lemma PromptLayoutLineIsProse(rank: nat, number: nat, name: string, score: string, count: nat)
    requires rank <= Int64Max
    requires name != [] && name[0] != '-' && forall i :: 0 <= i < |name| ==> !IsSpace(name[i])
    ensures var line := NatToString(rank) + ". " + NatToString(number) + ". " + name + " - " + score;
      Classify(line, count) == Prose(line)
  {
    PromptLayoutIsNotAHeader(rank, number, name, score);
  }

  /** Reasoning text extends the open reasoning with a line break between lines. */
  lemma ProseExtendsReasoning(st: ParserState, line: string, questionnaireId: Uuid, plants: seq<Plant>)
    requires st.parsingReasoning && line != []
    ensures var next := Step(st, Prose(line), questionnaireId, plants);
      next == st.(currentReasoning := next.currentReasoning)
      && next.currentReasoning == (if st.currentReasoning == [] then line else st.currentReasoning + "\n" + line)
  {
    assert [] + line == line;
  }

  // ---------------------------------------------------------------------------
  // Reading back a well-formed response.

  /**
   * One recommendation as a response writes it: the header
   * `index. name - whole.frac`, then its reasoning lines, then a blank line.
   */
  datatype Entry = Entry(index: nat, name: string, whole: nat, frac: string, body: seq<string>)

  /** A reasoning line: non-empty and not itself a header. */
  predicate BodyLine(line: string, count: nat)
  {
    line != [] && !IsHeader(line, count)
  }

  /** What reading an entry back needs of its shape. */
  predicate Fits(e: Entry, count: nat)
  {
    1 <= e.index <= count && AllDigits(e.frac)
    && |e.body| >= 1 && forall k :: 0 <= k < |e.body| ==> e.body[k] != []
  }

  predicate AllFit(entries: seq<Entry>, count: nat)
  {
    forall k :: 0 <= k < |entries| ==> Fits(entries[k], count)
  }

  /** No line of the entry breaks: the name has no white space, no reasoning line a `\n`. */
  predicate SingleLines(e: Entry)
  {
    (forall i :: 0 <= i < |e.name| ==> !IsSpace(e.name[i]))
    && forall k :: 0 <= k < |e.body| ==> '\n' !in e.body[k]
  }

  /** An entry whose header scans, with a score in float64 range, and whose reasoning lines are read as text. */
  predicate WellFormed(e: Entry, count: nat)
  {
    Fits(e, count) && SingleLines(e) && e.index <= Int64Max && e.name != []
    && DecimalTextValue(e.whole, e.frac) < Float64Overflow
    && forall k :: 0 <= k < |e.body| ==> BodyLine(e.body[k], count)
  }

  predicate AllWellFormed(entries: seq<Entry>, count: nat)
  {
    forall k :: 0 <= k < |entries| ==> WellFormed(entries[k], count)
  }

  function EntryLines(e: Entry): seq<string>
    requires AllDigits(e.frac)
  {
    [HeaderLine(e.index, e.name, e.whole, e.frac)] + e.body + [""]
  }

  function ResponseLines(entries: seq<Entry>, count: nat): seq<string>
    requires AllFit(entries, count)
  {
    if entries == [] then []
    else ResponseLines(entries[..|entries| - 1], count) + EntryLines(entries[|entries| - 1])
  }

  function ProseKinds(body: seq<string>): seq<LineKind>
  {
    seq(|body|, k requires 0 <= k < |body| => Prose(body[k]))
  }

  function EntryKinds(e: Entry): seq<LineKind>
    requires AllDigits(e.frac)
  {
    [HeaderOf(Header(e.index, e.name, DecimalTextValue(e.whole, e.frac)))] + ProseKinds(e.body) + [Blank]
  }

  function ResponseKinds(entries: seq<Entry>, count: nat): seq<LineKind>
    requires AllFit(entries, count)
  {
    if entries == [] then []
    else ResponseKinds(entries[..|entries| - 1], count) + EntryKinds(entries[|entries| - 1])
  }

  /** The recommendation an entry stands for. */
  function EntryRecord(e: Entry, questionnaireId: Uuid, plants: seq<Plant>): Recommendation
    requires 1 <= e.index <= |plants| && AllDigits(e.frac)
  {
    Recommendation(questionnaireId, plants[e.index - 1].id, DecimalTextValue(e.whole, e.frac), Join(e.body, "\n"))
  }

  function EntryRecords(entries: seq<Entry>, questionnaireId: Uuid, plants: seq<Plant>): seq<Recommendation>
    requires AllFit(entries, |plants|)
  {
    if entries == [] then []
    else
      EntryRecords(entries[..|entries| - 1], questionnaireId, plants)
        + [EntryRecord(entries[|entries| - 1], questionnaireId, plants)]
  }

  /** A reasoning line is read as reasoning text. */
  lemma ClassifyBodyLine(line: string, count: nat)
    requires BodyLine(line, count)
    ensures Classify(line, count) == Prose(line)
  {
  }

  /** An entry's header line is read as that header. */
  lemma ClassifyHeaderLine(e: Entry, count: nat)
    requires WellFormed(e, count)
    ensures Classify(HeaderLine(e.index, e.name, e.whole, e.frac), count)
      == HeaderOf(Header(e.index, e.name, DecimalTextValue(e.whole, e.frac)))
  {
    ScanHeaderLine(e.index, e.name, e.whole, e.frac);
  }

  lemma KindsOfOne(line: string, count: nat)
    ensures Kinds([line], count) == [Classify(line, count)]
  {
  }

  lemma {:induction false} KindsOfBody(body: seq<string>, count: nat)
    requires forall k :: 0 <= k < |body| ==> BodyLine(body[k], count)
    ensures Kinds(body, count) == ProseKinds(body)
  {
    forall k | 0 <= k < |body|
      ensures Kinds(body, count)[k] == ProseKinds(body)[k]
    {
      KindAt(body, k, count);
      ClassifyBodyLine(body[k], count);
    }
  }

  /** Each line of an entry is classified as the entry says. */
  lemma EntryLinesKinds(e: Entry, count: nat)
    requires WellFormed(e, count)
    ensures Kinds(EntryLines(e), count) == EntryKinds(e)
  {
    var header := HeaderLine(e.index, e.name, e.whole, e.frac);
    KindsAppend([header], e.body, count);
    KindsAppend([header] + e.body, [""], count);
    KindsOfOne(header, count);
    KindsOfOne("", count);
    ClassifyHeaderLine(e, count);
    KindsOfBody(e.body, count);
  }

  lemma {:induction false} ResponseLinesKinds(entries: seq<Entry>, count: nat)
    requires AllWellFormed(entries, count)
    ensures Kinds(ResponseLines(entries, count), count) == ResponseKinds(entries, count)
    decreases |entries|
  {
    if entries != [] {
      var front := entries[..|entries| - 1];
      var e := entries[|entries| - 1];
      assert AllWellFormed(front, count) by {
        assert forall k :: 0 <= k < |front| ==> front[k] == entries[k];
      }
      ResponseLinesKinds(front, count);
      EntryLinesKinds(e, count);
      KindsAppend(ResponseLines(front, count), EntryLines(e), count);
    }
  }

  /** Reasoning lines after an open header join up with `\n` between them. */
  lemma {:induction false} BodyRun(st: ParserState, body: seq<string>, questionnaireId: Uuid, plants: seq<Plant>)
    requires st.parsingReasoning && st.currentReasoning == ""
    requires |body| >= 1 && forall k :: 0 <= k < |body| ==> body[k] != []
    ensures Run(st, ProseKinds(body), questionnaireId, plants) == st.(currentReasoning := Join(body, "\n"))
    ensures Join(body, "\n") != []
    decreases |body|
  {
    var front := body[..|body| - 1];
    var last := body[|body| - 1];
    assert ProseKinds(body)[..|body| - 1] == ProseKinds(front);
    if |body| == 1 {
      assert front == [];
      assert "" + last == last;
    } else {
      BodyRun(st, front, questionnaireId, plants);
      JoinSnoc(front, last, "\n");
      assert front + [last] == body;
    }
  }

  lemma RunOne(st: ParserState, kind: LineKind, questionnaireId: Uuid, plants: seq<Plant>)
    ensures Run(st, [kind], questionnaireId, plants) == Step(st, kind, questionnaireId, plants)
  {
    assert [kind][..0] == [];
  }

  /** Reading one entry saves what was open and leaves the entry's record open. */
  lemma EntryRun(st: ParserState, e: Entry, questionnaireId: Uuid, plants: seq<Plant>)
    requires Fits(e, |plants|)
    ensures Run(st, EntryKinds(e), questionnaireId, plants)
      == ParserState(SaveCurrent(st, questionnaireId, plants), e.index,
                     DecimalTextValue(e.whole, e.frac), Join(e.body, "\n"), true)
  {
    var header := HeaderOf(Header(e.index, e.name, DecimalTextValue(e.whole, e.frac)));
    RunOne(st, header, questionnaireId, plants);
    var afterHeader := Run(st, [header], questionnaireId, plants);
    RunAppend(st, [header], ProseKinds(e.body), questionnaireId, plants);
    BodyRun(afterHeader, e.body, questionnaireId, plants);
    RunAppend(st, [header] + ProseKinds(e.body), [Blank], questionnaireId, plants);
    RunOne(Run(afterHeader, ProseKinds(e.body), questionnaireId, plants), Blank, questionnaireId, plants);
  }

  /** After an entry its record is the last one saved, and the state is still reachable. */
  lemma EntrySaved(st: ParserState, e: Entry, questionnaireId: Uuid, plants: seq<Plant>)
    requires Reachable(st, questionnaireId, plants) && Fits(e, |plants|)
    ensures var after := Run(st, EntryKinds(e), questionnaireId, plants);
      SaveCurrent(after, questionnaireId, plants)
        == SaveCurrent(st, questionnaireId, plants) + [EntryRecord(e, questionnaireId, plants)]
      && Reachable(after, questionnaireId, plants)
  {
    EntryRun(st, e, questionnaireId, plants);
    SaveCurrentKeepsCatalog(st, questionnaireId, plants);
  }

  /** Reading entries after a reachable state appends their records. */
  lemma {:induction false} EntriesRun(st: ParserState, entries: seq<Entry>, questionnaireId: Uuid, plants: seq<Plant>)
    requires Reachable(st, questionnaireId, plants)
    requires AllFit(entries, |plants|)
    ensures var after := Run(st, ResponseKinds(entries, |plants|), questionnaireId, plants);
      SaveCurrent(after, questionnaireId, plants)
        == SaveCurrent(st, questionnaireId, plants) + EntryRecords(entries, questionnaireId, plants)
      && Reachable(after, questionnaireId, plants)
    decreases |entries|
  {
    if entries == [] {
      assert SaveCurrent(st, questionnaireId, plants) + [] == SaveCurrent(st, questionnaireId, plants);
    } else {
      var front := entries[..|entries| - 1];
      assert AllFit(front, |plants|) by {
        assert forall k :: 0 <= k < |front| ==> front[k] == entries[k];
      }
      EntriesRun(st, front, questionnaireId, plants);
      EntriesRunLast(st, entries, questionnaireId, plants);
    }
  }

  /** The step of `EntriesRun`: one more entry after the others. */
  lemma EntriesRunLast(st: ParserState, entries: seq<Entry>, questionnaireId: Uuid, plants: seq<Plant>)
    requires entries != [] && AllFit(entries, |plants|) && AllFit(entries[..|entries| - 1], |plants|)
    requires var mid := Run(st, ResponseKinds(entries[..|entries| - 1], |plants|), questionnaireId, plants);
      SaveCurrent(mid, questionnaireId, plants)
        == SaveCurrent(st, questionnaireId, plants) + EntryRecords(entries[..|entries| - 1], questionnaireId, plants)
      && Reachable(mid, questionnaireId, plants)
    ensures var after := Run(st, ResponseKinds(entries, |plants|), questionnaireId, plants);
      SaveCurrent(after, questionnaireId, plants)
        == SaveCurrent(st, questionnaireId, plants) + EntryRecords(entries, questionnaireId, plants)
      && Reachable(after, questionnaireId, plants)
  {
    var front := entries[..|entries| - 1];
    var e := entries[|entries| - 1];
    var mid := Run(st, ResponseKinds(front, |plants|), questionnaireId, plants);
    RunAppend(st, ResponseKinds(front, |plants|), EntryKinds(e), questionnaireId, plants);
    EntrySaved(mid, e, questionnaireId, plants);
    AppendAssoc(SaveCurrent(st, questionnaireId, plants), EntryRecords(front, questionnaireId, plants),
                [EntryRecord(e, questionnaireId, plants)]);
  }

  lemma AppendAssoc(a: seq<Recommendation>, b: seq<Recommendation>, c: seq<Recommendation>)
    ensures (a + b) + c == a + (b + c)
  {
  }

  /** A header line holds no line break. */
  lemma HeaderLineIsOneLine(n: nat, name: string, whole: nat, frac: string)
    requires AllDigits(frac) && forall i :: 0 <= i < |name| ==> !IsSpace(name[i])
    ensures '\n' !in HeaderLine(n, name, whole, frac)
  {
    assert HeaderLine(n, name, whole, frac) == NatToString(n) + ". " + name + " - " + (NatToString(whole) + "." + frac);
    assert forall i :: 0 <= i < |NatToString(n)| ==> NatToString(n)[i] != '\n';
    assert forall i :: 0 <= i < |NatToString(whole)| ==> NatToString(whole)[i] != '\n';
    assert forall i :: 0 <= i < |frac| ==> frac[i] != '\n';
  }

  /** No line of a well-formed response holds a line break. */
  lemma {:induction false} ResponseLinesAreLines(entries: seq<Entry>, count: nat)
    requires AllFit(entries, count) && forall k :: 0 <= k < |entries| ==> SingleLines(entries[k])
    ensures forall k :: 0 <= k < |ResponseLines(entries, count)| ==> '\n' !in ResponseLines(entries, count)[k]
    decreases |entries|
  {
    if entries != [] {
      var front := entries[..|entries| - 1];
      var e := entries[|entries| - 1];
      assert forall k :: 0 <= k < |front| ==> front[k] == entries[k];
      ResponseLinesAreLines(front, count);
      HeaderLineIsOneLine(e.index, e.name, e.whole, e.frac);
      var lines := EntryLines(e);
      forall k | 1 <= k < |lines| - 1
        ensures '\n' !in lines[k]
      {
        assert lines[k] == e.body[k - 1];
      }
    }
  }

  /**
   * Round trip: a response written as entries, each a header, its reasoning
   * lines and a blank line, parses back to exactly the entries' records.
   */
  lemma ParseWrittenResponse(entries: seq<Entry>, questionnaireId: Uuid, plants: seq<Plant>)
    requires |entries| >= 1 && AllWellFormed(entries, |plants|)
    ensures Parse(Join(ResponseLines(entries, |plants|), "\n"), questionnaireId, plants)
      == Ok(EntryRecords(entries, questionnaireId, plants))
  {
    assert AllFit(entries, |plants|);
    var lines := ResponseLines(entries, |plants|);
    assert |lines| >= 1;
    ResponseLinesAreLines(entries, |plants|);
    SplitJoin(lines, '\n');
    ResponseLinesKinds(entries, |plants|);
    EntriesRun(Init, entries, questionnaireId, plants);
    assert [] + EntryRecords(entries, questionnaireId, plants) == EntryRecords(entries, questionnaireId, plants);
  }
}
