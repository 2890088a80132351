/**
 * The fixed text of the recommendation prompt and of the detailed-questionnaire
 * summary, line by line, with the facts about their characters the prompt
 * lemmas rely on. Long lines are written as short pieces joined, and each
 * lemma below looks at no more than two pieces.
 */
module PromptTemplate {

  const IntroLine: string := IntroRole + IntroAsk + IntroUser + IntroEnd
  const IntroRole := "Ты - эксперт по растениям. "
  const IntroAsk := "Помоги подобрать растения для "
  const IntroUser := "пользователя на основе его "
  const IntroEnd := "предпочтений."
  const PreferencesHeading := "Предпочтения пользователя:"
  const SunlightField := "- Уровень освещенности: "
  const PetField := "- Безопасно для животных: "
  const CareField := "- Уровень ухода: "
  const LocationField: string := LocationStart + LocationEnd
  const LocationStart := "- Предпочтительное "
  const LocationEnd := "расположение: "
  const ExtraField := "- Дополнительные предпочтения: "
  const CatalogHeading := "Список доступных растений:"
  const TaskChoice: string := ChoiceStart + ChoiceMiddle + ChoiceReason + ChoiceEnd
  const ChoiceStart := "Выбери 5 наиболее подходящих "
  const ChoiceMiddle := "растений из списка и объясни, "
  const ChoiceReason := "почему они подходят "
  const ChoiceEnd := "пользователю. "
  const TaskScoring: string := ScoringStart + ScoringMiddle + ScoringScale + ScoringEnd
  const ScoringStart := "Для каждого растения укажи его "
  const ScoringMiddle := "номер из списка, название и "
  const ScoringScale := "оценку соответствия от 0 до 1, "
  const ScoringEnd := "где 1 - идеальное соответствие."
  const TaskLine: string := TaskChoice + TaskScoring
  const AnswerHeading := "Формат ответа:"
  const EntryTail := "[Название растения] - [Оценка]"
  const FirstEntry: string := "1. [Номер растения]. " + EntryTail
  const SecondEntry: string := "2. [Номер растения]. " + EntryTail
  const EntryBody: string := BodyStart + BodyEnd
  const BodyStart := "[Объяснение, почему это "
  const BodyEnd := "растение подходит]"
  const Closing := "и так далее."

  /** The lines after the plant list. */
  const TailLines := ["", TaskLine, "", AnswerHeading, FirstEntry, EntryBody, "", SecondEntry, EntryBody, "", Closing]

  // The labels of the detailed-questionnaire summary.
  const SizeLabel := "Размер растения: "
  const FloweringLabel := "Цветущее: "
  const AirLabel := "Очищающее воздух: "
  const WateringLabel := "Частота полива: "
  const ExperienceLabel := "Уровень опыта: "
  const ChildrenLabel := "Есть дети: "

  /** Each fixed line of the prompt is free of line breaks. */
  lemma FixedLinesAreLines()
    ensures '\n' !in IntroLine && '\n' !in PreferencesHeading && '\n' !in CatalogHeading
    ensures '\n' !in SunlightField && '\n' !in PetField && '\n' !in CareField
    ensures '\n' !in LocationField && '\n' !in ExtraField
    ensures forall k :: 0 <= k < |TailLines| ==> '\n' !in TailLines[k]
  {
    IntroIsLine();
    HeadingsAreLines();
    AnswerLinesAreLines();
    FieldsAreLines();
    LocationIsLine();
    TaskIsLine();
    EntriesAreLines();
    EntryBodyIsLine();
  }

  lemma IntroIsLine()
    ensures '\n' !in IntroLine
  {
    IntroFirstHalf();
    IntroSecondHalf();
  }

  lemma IntroFirstHalf()
    ensures '\n' !in IntroRole && '\n' !in IntroAsk
  {
  }

  lemma IntroSecondHalf()
    ensures '\n' !in IntroUser && '\n' !in IntroEnd
  {
  }

  lemma HeadingsAreLines()
    ensures '\n' !in PreferencesHeading && '\n' !in CatalogHeading
  {
  }

  lemma AnswerLinesAreLines()
    ensures '\n' !in AnswerHeading && '\n' !in Closing
  {
  }

  lemma FieldsAreLines()
    ensures '\n' !in SunlightField && '\n' !in PetField && '\n' !in CareField
    ensures '\n' !in ExtraField
  {
    ChoiceFieldsAreLines();
    TextFieldsAreLines();
  }

  lemma ChoiceFieldsAreLines()
    ensures '\n' !in SunlightField && '\n' !in PetField
  {
  }

  lemma TextFieldsAreLines()
    ensures '\n' !in CareField && '\n' !in ExtraField
  {
  }

  lemma LocationIsLine()
    ensures '\n' !in LocationField
  {
  }

  lemma TaskIsLine()
    ensures '\n' !in TaskLine
  {
    ChoiceFirstHalf();
    ChoiceSecondHalf();
    ScoringFirstHalf();
    ScoringSecondHalf();
  }

  lemma ChoiceFirstHalf()
    ensures '\n' !in ChoiceStart && '\n' !in ChoiceMiddle
  {
  }

  lemma ChoiceSecondHalf()
    ensures '\n' !in ChoiceReason && '\n' !in ChoiceEnd
  {
  }

  lemma ScoringFirstHalf()
    ensures '\n' !in ScoringStart && '\n' !in ScoringMiddle
  {
  }

  lemma ScoringSecondHalf()
    ensures '\n' !in ScoringScale && '\n' !in ScoringEnd
  {
  }

  lemma EntriesAreLines()
    ensures '\n' !in FirstEntry && '\n' !in SecondEntry
  {
    assert '\n' !in EntryTail;
  }

  lemma EntryBodyIsLine()
    ensures '\n' !in EntryBody
  {
  }

  /** The characters that tell the fixed lines apart from the two optional field lines. */
  lemma FixedLineStarts()
    ensures |LocationField| > 2 && LocationField[0] == '-' && LocationField[2] == 'П'
    ensures |ExtraField| > 2 && ExtraField[0] == '-' && ExtraField[2] == 'Д'
    ensures |SunlightField| > 2 && SunlightField[2] == 'У'
    ensures |PetField| > 2 && PetField[2] == 'Б'
    ensures |CareField| > 2 && CareField[2] == 'У'
    ensures |IntroLine| > 0 && IntroLine[0] == 'Т'
    ensures |PreferencesHeading| > 0 && PreferencesHeading[0] == 'П'
    ensures |CatalogHeading| > 0 && CatalogHeading[0] == 'С'
    ensures |TaskLine| > 0 && TaskLine[0] == 'В'
    ensures |AnswerHeading| > 0 && AnswerHeading[0] == 'Ф'
    ensures |FirstEntry| > 0 && FirstEntry[0] == '1'
    ensures |EntryBody| > 0 && EntryBody[0] == '['
    ensures |SecondEntry| > 0 && SecondEntry[0] == '2'
    ensures |Closing| > 0 && Closing[0] == 'и'
  {
    OptionalFieldStarts();
    ChoiceFieldStarts();
    HeadingStarts();
    TaskStarts();
    EntryStarts();
  }

  lemma OptionalFieldStarts()
    ensures |LocationField| > 2 && LocationField[0] == '-' && LocationField[2] == 'П'
    ensures |ExtraField| > 2 && ExtraField[0] == '-' && ExtraField[2] == 'Д'
  {
    assert LocationStart[2] == 'П';
  }

  lemma ChoiceFieldStarts()
    ensures |SunlightField| > 2 && SunlightField[2] == 'У'
    ensures |PetField| > 2 && PetField[2] == 'Б'
    ensures |CareField| > 2 && CareField[2] == 'У'
  {
  }

  lemma HeadingStarts()
    ensures |IntroLine| > 0 && IntroLine[0] == 'Т'
    ensures |PreferencesHeading| > 0 && PreferencesHeading[0] == 'П'
    ensures |CatalogHeading| > 0 && CatalogHeading[0] == 'С'
  {
    assert IntroRole[0] == 'Т';
  }

  lemma TaskStarts()
    ensures |TaskLine| > 0 && TaskLine[0] == 'В'
    ensures |AnswerHeading| > 0 && AnswerHeading[0] == 'Ф'
    ensures |Closing| > 0 && Closing[0] == 'и'
  {
    assert ChoiceStart[0] == 'В';
    assert TaskChoice[0] == 'В';
  }

  lemma EntryStarts()
    ensures |FirstEntry| > 0 && FirstEntry[0] == '1'
    ensures |EntryBody| > 0 && EntryBody[0] == '['
    ensures |SecondEntry| > 0 && SecondEntry[0] == '2'
  {
    assert BodyStart[0] == '[';
  }

  /** The summary labels hold no comma, so the summary splits back at its commas. */
  lemma SummaryLabelsCommaFree()
    ensures ',' !in SizeLabel && ',' !in FloweringLabel && ',' !in AirLabel
    ensures ',' !in WateringLabel && ',' !in ExperienceLabel && ',' !in ChildrenLabel
  {
    FirstLabelsCommaFree();
    LastLabelsCommaFree();
  }

  lemma FirstLabelsCommaFree()
    ensures ',' !in SizeLabel && ',' !in FloweringLabel && ',' !in AirLabel
  {
  }

  lemma LastLabelsCommaFree()
    ensures ',' !in WateringLabel && ',' !in ExperienceLabel && ',' !in ChildrenLabel
  {
  }
}
