# Planter: a verified model of the recommendation service and its neighbours

Planter is a house-plant service. It has a catalogue of plants, each user's collection with watering times, and watering reminders. It also has a recommendation service that matches a questionnaire against the catalogue and a chat with a plant expert.

This project models the logic of that service in Dafny and proves properties of the model:

- **Local scorer** (`LocalScorer`). It gives each catalogue plant an additive score against a questionnaire, from a sunlight rule, a care-level rule, a pet rule and a location rule. Plants scoring strictly above the threshold are kept, sorted best first in an array, and cut to five. Scores are exact hundredths; the float64 arithmetic of the source is modelled beside them, and where the two disagree is under "## Findings".
- **Prompt builder** (`Prompt`, `PromptTemplate`). It writes the Russian labels and the optional location and extra-preferences lines. It numbers the plant list in a loop. It also folds a detailed questionnaire into its summary text.
- **Completion call** (`Completion`). It chooses between the prompt and the messages for the request body. It then reads the reply: send failure, status, decode, no alternatives, or the first alternative's text.
- **Response parser** (`ResponseParser`, `Scanf`). This is the line-by-line state machine of `parseYandexGPTResponse`. It is modelled as the loop itself and as a fold over line kinds. `Scanf` is an interpreter of `fmt.Sscanf` for the header format `%d. %s - %f`.
- **Strategy and persistence** (`RecommendationService`). The local scorer runs when there is no key. Otherwise the model's answer is used, with the local scorer as the fallback. The save loop stops at the first failing save. A read returns the stored recommendations and generates only when there are none.
- **Chat** (`Chat`, `RecommendationService.Service`). This covers:
  - the ownership check;
  - the context window: the cached working set or a system message, then the last ten stored turns, then the new text;
  - the in-memory cache, which is updated only after a saved reply.
- **Notifications** (`Notifications`). The page and page size are clamped and turned into an offset. The watering sweep writes one reminder per due plant, in order, and stops at the first failing write.
- **Plant service** (`PlantService`). It covers the ordered validation chain of `CreatePlant`, `MarkAsWatered`, `AddUserPlant` (an upsert) and `UpdateUserPlant`.
- **User service** (`UserService`). `UpdateUser` copies exactly five editable fields, and the write stamps the update time.
- **Auth middleware** (`Auth`). Required and optional authentication check the `Authorization` header. `GetUserID` reads the user id from the context.
- **Response utils** (`Response`). One sentence per failed validation rule, joined with `", "`.
- **Config** (`Config`). Environment defaults, `getEnvAsInt` over Go's `strconv.Atoi`, and `Load`.

Shared modules:

- `Wrappers` holds `Option` and `Result`.
- `Text` holds Go's `strings.Split`, `Join`, `TrimSpace`, `ToLower`, `Contains`, `strconv.Itoa` and a decimal reader.
- `Uuids` holds `uuid.Parse` and `UUID.String`.
- `Models` holds the entities.
- `Faults` holds the "first failing write" count shared by the save loops.

Repositories are modelled two ways:

- as fields of the service objects, changed in place by methods whose `modifies` clauses name them;
- as function parameters (the notification page query, the completion endpoint, the token parser).

A repository call that fails is an explicit parameter: a boolean, or a set numbering the failing writes. The clock is an integer number of seconds, and fresh ids are parameters.

One property of the source is worth knowing:

- The prompt asks the model to answer in the layout `1. [N]. name - score`.
- The parser's format `%d. %s - %f` does not match a line in that layout (`Scanf.PromptLayoutIsNotAHeader`, `ResponseParser.PromptLayoutLineIsProse`).
- An answer that follows the prompt exactly therefore yields no records. It falls back to the local scorer.

## Model

| member | source | states |
|---|---|---|
| LocalScorer.GoAbs | internal/services/recommendation_service.go:212-217 | Go's `abs` on a 64-bit `int`: the absolute value wrapped to 64 bits, negative only for the smallest `int` |
| LocalScorer.Wrap64 | internal/services/recommendation_service.go:161 | an `int` result lies in the 64-bit range, is congruent to the exact value modulo 2^64, and equals it when that is in range |
| LocalScorer.CareDifferenceWraps | internal/services/recommendation_service.go:161-166 | a fertilizer frequency of the largest `int` against a care level of the smallest wraps to a difference of 1 and earns 0.15 |
| LocalScorer.Score | internal/services/recommendation_service.go:148-185 | the score is at most 1.00; an exact sunlight match gives at least 0.40, and the pet flag gives at least 0.10 |
| LocalScorer.ScorePlant | internal/services/recommendation_service.go:144-185 | the four rule steps of the loop body add up to `Score` and produce the reasoning as `Clauses` |
| LocalScorer.ApplySunlightRule | internal/services/recommendation_service.go:149-158 | 0.40 and the "full match" clause for an exact level; 0.20 and the "partial match" clause when exactly one side is MEDIUM and the other LOW or HIGH |
| LocalScorer.ApplyCareRule | internal/services/recommendation_service.go:161-168 | 0.30 when the care difference is 0, 0.15 when it is 1, with their clauses |
| LocalScorer.ApplyPetRule | internal/services/recommendation_service.go:171-176 | 0.10 whenever pet safety is asked for, whatever the plant |
| LocalScorer.ApplyLocationRule | internal/services/recommendation_service.go:179-185 | 0.20 when a location is given, the notes are non-empty and the lower-cased notes contain the lower-cased location |
| LocalScorer.CollectCandidates | internal/services/recommendation_service.go:144-196 | the loop returns exactly the plants scoring above 0.30, in catalogue order |
| LocalScorer.CandidatesSound | internal/services/recommendation_service.go:188-195 | every candidate is a catalogue plant that clears the threshold, with that plant's recommendation |
| LocalScorer.CandidatesComplete | internal/services/recommendation_service.go:188-195 | every catalogue plant that clears the threshold is a candidate |
| LocalScorer.Recommend | internal/services/recommendation_service.go:188-195 | a kept plant's recommendation names the questionnaire and the plant, and its score is the plant's hundredths as a fraction between 0 and 1 |
| LocalScorer.Swap | internal/services/recommendation_service.go:199-201 | exchanges two cells and keeps the multiset of the array |
| LocalScorer.SinkInto | internal/services/recommendation_service.go:199-201 | one insertion step keeps the sorted front sorted and the array a permutation |
| LocalScorer.SortByScoreDescending | internal/services/recommendation_service.go:199-201 | the array ends sorted by non-increasing score and is a permutation of its old contents |
| LocalScorer.BestFirst | internal/services/recommendation_service.go:198-206 | the result has min(limit, n) elements, sorted, drawn from the input, and no dropped element scores higher than a kept one |
| LocalScorer.GenerateLocalRecommendations | internal/services/recommendation_service.go:137-209 | at most five of the candidates, best first, with no better candidate left out |
| LocalScorer.SortedPrefixKeepsBest | internal/services/recommendation_service.go:203-206 | cutting a sorted list keeps its best elements |
| LocalScorer.RecommendFields | internal/services/recommendation_service.go:189-194 | a recommendation carries the questionnaire id, the plant id and the plant's score, which is above 0.3 |
| LocalScorer.OutputComesFromCatalog | internal/services/recommendation_service.go:189-194 | every returned recommendation belongs to the questionnaire and names an input plant with that plant's score |
| LocalScorer.SunlightRuleClause | internal/services/recommendation_service.go:149-158 | the sunlight rule writes its clause exactly when it scores |
| LocalScorer.CareRuleClause | internal/services/recommendation_service.go:161-168 | the care rule writes its clause exactly when it scores |
| LocalScorer.PetRuleClause | internal/services/recommendation_service.go:171-176 | the pet rule writes its clause exactly when it scores |
| LocalScorer.LocationRuleClause | internal/services/recommendation_service.go:179-185 | the location rule writes its clause exactly when it scores |
| LocalScorer.ScoringRulesHaveClauses | internal/services/recommendation_service.go:146-185 | the reasoning is a run of clauses, and it is empty exactly when the score is zero |
| LocalScorer.ReasoningIsClausesWithoutTrailingSpace | internal/services/recommendation_service.go:193 | the stored reasoning is the clauses without the final space that `TrimSpace` removes |
| LocalScorer.NotesEndingInLocationMatch | internal/services/recommendation_service.go:179-182 | notes that end with the location, in any letter case, earn the location bonus |
| LocalScorer.PerfectMatchScoresOne | internal/services/recommendation_service.go:148-185 | a plant that fires every rule scores exactly 1.0 |
| LocalScorer.ThresholdIsStrict | internal/services/recommendation_service.go:188 | with exact scores, a partial sunlight match plus the pet bonus sums to exactly 0.30, and that plant is not recommended |
| LocalScorer.LiteralsAreNearest | internal/services/recommendation_service.go:150-184 | the float64 constants used for 0.1, 0.15, 0.2, 0.3 and 0.4 lie on the float64 grid and are the nearest doubles to those decimals |
| LocalScorer.AsWrittenThreshold | internal/services/recommendation_service.go:145-188 | on the float64 sum as written, `score > 0.3` holds exactly when the exact score is above 0.30, or is 0.30 without the care rule |
| LocalScorer.FloatSumAdmitsThresholdPlant | internal/services/recommendation_service.go:145-188 | as written, the plant of `ThresholdIsStrict` sums to one float64 step above 0.3, so it clears the threshold |
| LocalScorer.EqualHundredthsCanDiffer | internal/services/recommendation_service.go:145-201 | two rule combinations worth 0.60 each sum to different float64 values: 0.2 + 0.3 + 0.1 is the double of 0.6, and 0.3 + 0.1 + 0.2 is one step above it |
| Text.TrimSpaceDropsOneTrailingSpace | internal/services/recommendation_service.go:193 | trimming a string that ends in exactly one space after a non-space removes just that space |
| Text.ToLowerAppend | internal/services/recommendation_service.go:180-181 | lower-casing distributes over concatenation |
| Prompt.SunlightLabelMedium | internal/services/recommendation_service.go:319-327 | the sunlight label is "средний" exactly for a level other than LOW and HIGH |
| Prompt.CareLabelTable | internal/services/recommendation_service.go:336-348 | levels 1 to 5 get five different labels; "средний" is level 3 or any level outside 1 to 5 |
| Prompt.BuildPlantList | internal/services/recommendation_service.go:351-357 | the loop builds the plant lines joined by line breaks |
| Prompt.PlantListLines | internal/services/recommendation_service.go:351-357 | when no plant name contains a line break, splitting the list at line breaks gives one numbered line per plant, in order |
| Prompt.PreparePrompt | internal/services/recommendation_service.go:317-392 | the prompt is the fixed text around the labels, the optional lines and the plant list |
| Prompt.SplitPrompt | internal/services/recommendation_service.go:360-389 | when answers and plant names are single lines, read back line by line the prompt is the heading lines, the optional lines, the catalogue heading, one line per plant and the task |
| Prompt.PlantIsListed | internal/services/recommendation_service.go:356 | plant k is on its own line of the prompt as `k+1. name (научное название: sci)` |
| Prompt.LocationLineIffGiven | internal/services/recommendation_service.go:368-370 | the prompt has a location line exactly when a location is given, and that line carries it |
| Prompt.ExtraLineIffGiven | internal/services/recommendation_service.go:372-374 | the prompt has an additional-preferences line exactly when extra text is given, and that line carries it |
| Prompt.DetailedPreferencesReadBack | internal/services/recommendation_service.go:111-123 | when no answer contains a comma, split at commas the summary gives back the six answers in their fixed order, plus the extra text when there is one |
| Prompt.ExtraIsAppended | internal/services/recommendation_service.go:121-123 | extra text is appended after ", " and nothing else changes |
| Prompt.FoldDetailed | internal/services/recommendation_service.go:102-125 | the folded questionnaire keeps the user, sunlight, pet, care and location answers verbatim, and its additional preferences start with the six detailed answers |
| Prompt.SummaryStartsWithAnswers | internal/services/recommendation_service.go:111-123 | the summary starts with the six answers whether or not extra text follows |
| Prompt.FoldedSummaryReachesPrompt | internal/services/recommendation_service.go:125 | a folded questionnaire's prompt has the whole summary on its additional-preferences line |
| Completion.BuildRequest | internal/services/recommendation_service.go:397-415 | a non-empty prompt becomes the single user message; otherwise the messages are sent; the key goes into the authorization header |
| Completion.HandleReply | internal/services/recommendation_service.go:440-463 | the call succeeds exactly on status 200 with a decodable body and at least one alternative, and returns the first alternative's text; otherwise the first failing check's error |
| Completion.StatusErrorReadsBack | internal/services/recommendation_service.go:446-448 | the status error message carries the status, which reads back from it |
| Completion.StatusErrorsDistinct | internal/services/recommendation_service.go:440-460 | distinct statuses give distinct errors, and no status error equals another error |
| Completion.Call | internal/services/recommendation_service.go:395-464 | a failed call's error is the send error, the decode error, the no-alternatives error, or starts with the status prefix |
| Scanf.ScanFormat | internal/services/recommendation_service.go:494 | every value the format interpreter reads is storable: an int64 for `%d`, a non-empty word without spaces for `%s` |
| Scanf.ScanHeader | internal/services/recommendation_service.go:494 | a header's number is an int64 and its name a non-empty word without white space |
| Scanf.ScanHeaderLine | internal/services/recommendation_service.go:494 | a line `n. name - whole.frac` reads back as its number, name and decimal value |
| Scanf.ScanDecimalText | internal/services/recommendation_service.go:494 | `%f` reads a decimal numeral back as its exact value when it is below 2^1024 - 2^970, and fails on the overflow otherwise |
| Scanf.ScanBinaryExponent | internal/services/recommendation_service.go:494 | `%f` reads `whole.frac p m` as `whole.frac` times two to the `m`, and fails when `whole.frac` overflows |
| Scanf.ScanUpperBinaryExponent | internal/services/recommendation_service.go:494 | `%f` fails on a numeral with an upper-case `P` exponent |
| Scanf.PromptLayoutIsNotAHeader | internal/services/recommendation_service.go:383 | a line in the layout the prompt asks for, `rank. N. name - score`, does not scan as a header |
| ResponseParser.Classify | internal/services/recommendation_service.go:485-495 | a line is blank exactly when empty, a header exactly when it scans with a number between 1 and the catalogue size, and otherwise text |
| ResponseParser.ParseResponse | internal/services/recommendation_service.go:467-544 | the loop over the lines computes the fold `Parse` |
| ResponseParser.ReadLine | internal/services/recommendation_service.go:483-521 | one iteration of the loop is one step of the state machine |
| ResponseParser.ParseCountsHeaders | internal/services/recommendation_service.go:495-541 | a success holds one record per header line; the error arises exactly when no line is a header |
| ResponseParser.HeaderMeansSuccess | internal/services/recommendation_service.go:538-541 | a response with a header line is not an error |
| ResponseParser.ParsedRecordsComeFromCatalog | internal/services/recommendation_service.go:500-506 | every record carries the questionnaire id and names the plant at its catalogue position |
| ResponseParser.StepKeepsReachable | internal/services/recommendation_service.go:495-521 | every step keeps the parser state reachable; a header line adds one to the saved records plus the open one, and any other line adds none |
| ResponseParser.PreambleIsDropped | internal/services/recommendation_service.go:515 | lines before the first header are dropped |
| ResponseParser.ProseExtendsReasoning | internal/services/recommendation_service.go:515-520 | a text line after a header extends the reasoning, with "\n" between lines |
| ResponseParser.RunAppend | internal/services/recommendation_service.go:482-522 | reading two batches of lines one after the other is reading them together |
| ResponseParser.PromptLayoutLineIsProse | internal/services/recommendation_service.go:383-384 | a line in the prompt's requested layout is read as reasoning text |
| ResponseParser.ParseWrittenResponse | internal/services/recommendation_service.go:467-544 | a response written as header lines with reasoning lines parses back to exactly those records, in order |
| RecommendationService.ForQuestionnaireIff | internal/repository/impl/recommendation_repository.go:73-86 | the stored list of a questionnaire holds exactly its recommendations |
| RecommendationService.ForQuestionnaireAppend | internal/services/recommendation_service.go:254-259 | saving recommendations of one questionnaire appends them to its stored list |
| RecommendationService.CatalogPlantsIff | internal/repository/impl/recommendation_repository.go:88-102 | a plant is recommended exactly when it is a catalogue row named by a recommendation |
| RecommendationService.ChosenComeFromCatalog | internal/services/recommendation_service.go:236-251 | whichever strategy chose them, the recommendations belong to the questionnaire and name catalogue plants |
| RecommendationService.LocalResultFromCatalog | internal/services/recommendation_service.go:240-247 | the local scorer's output belongs to the questionnaire and names catalogue plants |
| RecommendationService.EmptyKeyIgnoresModel | internal/services/recommendation_service.go:245-251 | without a key the endpoint and model name play no part, and the choice is the local scorer's |
| RecommendationService.FailedCallFallsBack | internal/services/recommendation_service.go:237-244 | with a key, a call that gets no answer or a non-200 status leads to the local scorer |
| RecommendationService.EmptyChoiceMeansNoCandidate | internal/services/recommendation_service.go:236-251 | nothing is chosen only when no plant clears the local threshold and the model gave no usable answer |
| RecommendationService.Service.ChooseRecommendations | internal/services/recommendation_service.go:233-251 | the method's choice satisfies the strategy |
| RecommendationService.Service.SaveRecommendations | internal/services/recommendation_service.go:254-259 | the store gains the recommendations before the first failing save, and success means every save went through |
| RecommendationService.Service.GenerateRecommendations | internal/services/recommendation_service.go:220-268 | each read failure gives its error with nothing stored; otherwise a chosen list is saved up to the first failing save and the recommended plants are returned |
| RecommendationService.Service.GeneratedStoresChoice | internal/services/recommendation_service.go:254-267 | a successful generation appended the whole choice to the questionnaire's stored list and returned exactly the join a later read gives |
| RecommendationService.Service.GetRecommendations | internal/services/recommendation_service.go:271-290 | stored recommendations are read back without generating or saving; only an empty list triggers generation |
| RecommendationService.Service.RecommendedPlantsIff | internal/services/recommendation_service.go:284 | a plant is read back exactly when it is a catalogue row named by a stored recommendation of the questionnaire |
| RecommendationService.Service.SaveDetailedQuestionnaire | internal/services/recommendation_service.go:96-134 | a failing save stores nothing; otherwise the folded questionnaire is stored under its id and returned |
| RecommendationService.Service.CreateChatSession | internal/services/recommendation_service.go:547-562 | the session store and cache change as `Chat.Create` says |
| RecommendationService.Service.SendChatMessage | internal/services/recommendation_service.go:575-686 | the sessions, messages and cache change as `Chat.Send` says, with the same result |
| Chat.OfSession | internal/services/recommendation_service.go:608 | a session's history holds exactly that session's stored messages |
| Chat.OfSessionAppend | internal/services/recommendation_service.go:602 | saving a message extends only its own session's history |
| Chat.Window | internal/services/recommendation_service.go:631-635 | the window is the last min(10, n) stored turns |
| Chat.Create | internal/services/recommendation_service.go:547-562 | creation succeeds exactly when the repository does; a failure changes nothing; a new session is the user's, has the fixed title, is stored under its id, and no message is written |
| Chat.Send | internal/services/recommendation_service.go:575-686 | a turn only appends messages, at most two, and adds no session; a successful turn appends the user message and the returned assistant reply of that session |
| Chat.History | internal/services/recommendation_service.go:689-703 | the history is the session's stored messages; a failure is the session-read error, the not-owner error, or the message repository's own error, returned without a prefix |
| Chat.BuildContext | internal/services/recommendation_service.go:614-649 | the list-building loop produces the context |
| Chat.ContextShape | internal/services/recommendation_service.go:614-649 | the context is the cached set or the system message, then the window in order, then the new user message |
| Chat.CreateSeedsSystemMessage | internal/services/recommendation_service.go:547-562 | a created session has the fixed title, and its cache holds exactly the system message |
| Chat.SendChecksOwnerFirst | internal/services/recommendation_service.go:582-590 | a turn that changes the store is the session owner's; a readable session of another user gets the not-owner error and nothing changes |
| Chat.SendUpdatesCacheAfterReply | internal/services/recommendation_service.go:651-677 | the cache changes only after a reply was received and saved, and becomes the sent context plus the reply |
| Chat.SendSucceeded | internal/services/recommendation_service.go:657-685 | a successful turn saved the user message and the reply, and touched the session |
| Chat.SendExtendsHistory | internal/services/recommendation_service.go:592-670 | a successful turn appends the user message and the reply to the session's history |
| Chat.SendKeepsOtherHistories | internal/services/recommendation_service.go:592-670 | a turn in one session leaves every other session's history as it was |
| Chat.SendSavesUserFirst | internal/services/recommendation_service.go:592-670 | the store grows by nothing, by the user message, or by the user message and this session's reply |
| Chat.SentContextRepeatsUserText | internal/services/recommendation_service.go:602-649 | because history is read after the save, the request ends with the user's text twice |
| Chat.HistoryOwnerOnly | internal/services/recommendation_service.go:689-703 | the history is returned exactly to the owner when both reads succeed, and it holds exactly the session's messages; the owner's failed message read returns the repository's error itself |
| Faults.SavedCount | internal/services/recommendation_service.go:254-259 | the writes done before the first failing one are all non-failing, and the write at the count fails when fewer than all were done |
| Notifications.PageWindow | internal/services/notification_service.go:29-37 | a page below 1 reads as 1, a size below 1 as 10, and the offset is (page - 1) * size |
| Notifications.GetUserNotifications | internal/services/notification_service.go:28-46 | success exactly when the repository answers, returning its notifications and total; otherwise the wrapped error |
| Notifications.ClampedPages | internal/services/notification_service.go:29-34 | clamped page numbers and sizes read the same window as 1 and 10 |
| Notifications.NextPageFollows | internal/services/notification_service.go:36 | page p + 1 starts where page p ends |
| Notifications.PageOf | internal/services/notification_service.go:36 | every row position lies in the window of some page |
| Notifications.PageOfUnique | internal/services/notification_service.go:36 | no other page's window holds that row |
| Notifications.Reminder | internal/services/notification_service.go:69-75 | a reminder has the plant's user and plant ids, type WATERING, is unread, and its message is built from the plant name |
| Notifications.ReminderNamesPlant | internal/services/notification_service.go:73 | the plant name reads back from the reminder message |
| Notifications.Reminders | internal/services/notification_service.go:66-82 | a sweep writes at most one reminder per row, each an unread watering notification |
| Notifications.RemindersIff | internal/services/notification_service.go:66-67 | a reminder is written for a row exactly when its next watering is set and before now |
| Notifications.RemindersAppend | internal/services/notification_service.go:66-82 | sweeping two batches of rows writes the reminders of both, in order |
| Notifications.SweepStopsAt | internal/services/notification_service.go:77-80 | a failing write for a due row leaves exactly the earlier rows' reminders |
| Notifications.NotificationService.CheckAndCreateWateringNotifications | internal/services/notification_service.go:58-85 | a failed fetch writes nothing; otherwise the due rows' reminders are written in order up to the first failing write, which is reported |
| PlantService.Checks | internal/services/plant_service.go:188-213 | there are eight guards, in source order |
| PlantService.FirstFailure | internal/services/plant_service.go:188-213 | no failure is reported exactly when every guard passes |
| PlantService.FirstFailureIsFirst | internal/services/plant_service.go:188-213 | the reported message belongs to a failing guard all of whose predecessors pass |
| PlantService.ValidIffAllPass | internal/services/plant_service.go:188-213 | the guards pass together exactly for a valid plant |
| PlantService.CreatePlantAcceptsValid | internal/services/plant_service.go:186-222 | success exactly for a valid plant the repository creates, and the repository's plant is returned unchanged |
| PlantService.CreatePlant | internal/services/plant_service.go:186-222 | a success returns the repository's plant, and a failing repository never gives a success |
| PlantService.RejectionIgnoresRepository | internal/services/plant_service.go:188-213 | a rejected plant's result does not depend on the repository, and some guard fails |
| PlantService.NameCheckedFirst | internal/services/plant_service.go:188-190 | a plant without a name is reported as such, whatever else is wrong |
| PlantService.EqualTemperaturesRejected | internal/services/plant_service.go:205-207 | equal minimum and maximum temperatures are rejected with the temperature message |
| PlantService.Watered | internal/repository/impl/plant_repository.go:246-274 | watering sets last watered to now and next watering `frequency` days ahead, and keeps every other field |
| PlantService.UserView | internal/services/plant_service.go:111-121 | the returned plant has the user plant's times and location and the favourite flag, and is otherwise the catalogue plant |
| PlantService.WateredNotDueUntilNext | internal/services/notification_service.go:67 | a plant just watered with a positive frequency is not due before its next watering |
| PlantService.Service.MarkAsWatered | internal/services/plant_service.go:86-124 | a missing plant or unowned row fails before anything is written; otherwise the row is watered and the user's view is returned, or the failing step's error |
| PlantService.Service.AddUserPlant | internal/services/plant_service.go:136-155 | the plant must exist; then the row is upserted or the write's error is returned |
| PlantService.Upserted | internal/repository/impl/plant_repository.go:357-368 | the row has the user, plant and location with no watering times; an existing row keeps its id and creation time |
| PlantService.AddedPlantNotDue | internal/repository/impl/plant_repository.go:359-362 | an added plant is never due, since adding clears its schedule |
| PlantService.Service.UpdateUserPlant | internal/services/plant_service.go:158-174 | the row must exist; only its location changes |
| PlantService.Relocated | internal/repository/impl/plant_repository.go:371-382 | only the location and the update time change |
| PlantService.RelocatedKeepsSchedule | internal/repository/impl/plant_repository.go:374 | moving a plant leaves whether it is due unchanged |
| UserService.Merge | internal/services/user_service.go:42-46 | the five editable fields come from the submitted user, and every other field from the stored one |
| UserService.MergeIdempotent | internal/services/user_service.go:42-46 | submitting the same edit twice changes nothing the second time |
| UserService.LaterEditWins | internal/services/user_service.go:42-46 | of two edits the later wins |
| UserService.UnchangedEditIsNoOp | internal/services/user_service.go:42-46 | an edit leaves the user as stored exactly when it repeats the stored editable fields |
| UserService.OnlyEditableFieldsMatter | internal/services/user_service.go:36-46 | two submissions give the same result exactly when their editable fields agree |
| UserService.Service.UpdateUser | internal/services/user_service.go:34-55 | a missing user fails with nothing written; a failing update writes nothing; otherwise the merged user is returned, and it is stored with the write's time as its update time |
| Auth.BearerTokenIff | internal/middleware/auth.go:49-56 | a header yields a token exactly when it is "Bearer", one space and a token without spaces |
| Auth.BearerToken | internal/middleware/auth.go:49-56 | an accepted header is "Bearer", a space and the token, which has no spaces |
| Auth.BearerTokenComplete | internal/middleware/auth.go:49-56 | "Bearer", a space and a token without spaces is accepted with that token |
| Auth.DoubleSpaceRejected | internal/middleware/auth.go:49-53 | two spaces after the scheme are rejected |
| Auth.Middleware | internal/middleware/auth.go:39-67 | every rejection has status 401, and an empty header gets the "header is required" message |
| Auth.RequireAuth | internal/middleware/auth.go:125-127 | required authentication rejects with 401, or passes the request on with a user id |
| Auth.MiddlewareForwardsIff | internal/middleware/auth.go:39-67 | a request goes through exactly for a well-formed header whose token verifies, with that token's user id |
| Auth.OptionalAuth | internal/middleware/auth.go:130-161 | optional authentication never rejects |
| Auth.OptionalAgreesWithRequired | internal/middleware/auth.go:130-161 | it forwards with the user id where the required check passes, and without one where that check rejects |
| Auth.GetUserID | internal/middleware/auth.go:110-122 | an absent or non-text value is "not found"; text succeeds exactly when it parses as a UUID, else "invalid" |
| Auth.SignedUserReachesHandler | internal/middleware/auth.go:56-65 | a good token carrying a user id's text form delivers that id to the handler |
| Auth.AnonymousHasNoUser | internal/middleware/auth.go:130-155 | a request let through anonymously has no user id to read |
| Uuids.ParseFormat | internal/middleware/auth.go:94-119 | the text form of an id parses back to that id |
| Uuids.Format | internal/middleware/auth.go:94 | the text form has 36 characters, with hyphens exactly at positions 8, 13, 18 and 23 |
| Uuids.Parse | internal/middleware/auth.go:116 | only strings of 32, 36, 38 or 45 characters parse |
| Text.JoinSplit | internal/middleware/auth.go:49 | joining the pieces of a split gives the string back |
| Response.Message | internal/utils/response.go:39-53 | every sentence starts with the field name |
| Response.ValidationErrorMessage | internal/utils/response.go:35-58 | the loop collects one sentence per error and joins them; any other error's text is returned unchanged |
| Response.ErrorText | internal/utils/response.go:35-58 | any other error's text is returned unchanged, and an empty list of failed rules gives the empty text |
| Response.MessagesSnoc | internal/utils/response.go:38-54 | one more error appends its sentence to the list |
| Response.ParameterOnlyInBounds | internal/utils/response.go:40-53 | only min, max and oneof use the parameter; an unknown tag gives "is invalid" |
| Response.ParameterIsQuoted | internal/utils/response.go:49-50 | the one-of sentence ends with the parameter |
| Response.ValidationTextSplits | internal/utils/response.go:55 | with no commas in fields or parameters, the joined text splits back into the sentences, in order |
| Config.GetEnv | internal/config/config.go:78-84 | a set, non-empty variable is its value, and otherwise the default |
| Config.Atoi | internal/config/config.go:93 | accepted text is a signed decimal numeral within the int64 range, read at its value |
| Config.GetEnvAsInt | internal/config/config.go:87-100 | the variable's integer when it reads as one, and otherwise the default |
| Config.Load | internal/config/config.go:47-75 | each text setting is its variable or its default, and the token duration is read as an integer with default 24 |
| Config.EmptyEnvironmentGivesDefaults | internal/config/config.go:54-74 | with nothing set, the defaults are 8080, localhost, 5432, postgres, postgres, planter, disable, your-secret-key, 24, "" and yandexgpt |
| Config.SetVariableWins | internal/config/config.go:78-84 | a non-empty variable becomes the setting, and an empty one leaves the default |
| Config.TokenDurationRoundTrip | internal/config/config.go:87-100 | every int64 written in decimal reads back as the token duration |
| Config.BadTokenDurationIsDefault | internal/config/config.go:93-97 | text that is not a numeral, or is above the int64 range, leaves the default 24 |
| Config.UnsetKeyMeansLocalOnly | internal/config/config.go:71 | with no completion key set, recommendations always come from the local scorer |

## Left out

- LocalScorer.Recommend: stores the exact score in hundredths. The float64 value the source stores can differ from it by rounding, for example 0.6000000000000001 for 0.4 + 0.2. Rounding never reorders different hundredths. It can split equal ones (`LocalScorer.EqualHundredthsCanDiffer`): the source then ranks the plant with the larger float64 sum first, while the model's insertion sort never moves a plant past an equal score. When such a tie falls across the cut to five, the model can keep a different plant from the source. Among exactly equal float64 scores, `sort.Slice` fixes no order at all.
- The recommendation score field is a `real`; the model's scores read by `%f` are exact decimals, without float64 rounding.
- `Scanf` covers the `%d`, `%s` and `%f` verbs and decimal numerals with `e`, `E`, `p` or `P` exponents. It does not cover `NaN`, `Inf`, hexadecimal floats, or the other verbs of `fmt`.
- Scanf.NumeralValue: a `p` exponent scales exactly. `math.Ldexp` rounds instead, and gives an infinity or zero, without an error, outside the float64 range.
- Go's `int` is taken to be 64 bits wide, as on the platforms the service targets (`LocalScorer.Wrap64`).
- HTTP transport, JSON encoding and decoding, request headers other than the key, and the 30-second timeout of `callYandexGPTAPI` are left out. The endpoint is a function from the request to a reply: no answer, or a status and a decoded or undecodable body.
- SQL: the repositories are maps and sequences. The `ORDER BY score DESC` of the recommended-plants read and the `ORDER BY next_watering` of the watering check are not modelled. Reads return rows in saved or given order.
- JWT signing and verification (`parseToken`, `GenerateToken`) are a function given to the middleware. bcrypt and the auth service are not part of this model.
- Concurrency: the `chatSessions` map and the watering job run sequentially in the model. The job's ticker is not modelled.
- Time is an integer number of seconds. The next watering is `frequency` times 86400 seconds later, which ignores daylight-saving changes that `AddDate` would respect.
- The wrapped causes of errors (`%w`) are dropped. Each error is its fixed message prefix.
- The chat repository's implementation is not part of this model. The message store is a sequence, read back per session in saved order.
- `godotenv.Load` and the log lines are left out. The environment is a map.
- `ToLower` lower-cases the ASCII, Latin-1 and basic Cyrillic capitals. Go's `strings.ToLower` also folds other scripts, such as Greek and Latin Extended, which the model leaves unchanged.
- `PageWindow`: the offset is an unbounded integer; Go's `(page - 1) * pageSize` can overflow for very large pages.
- The watering check's repository returns catalogue plants carrying `UserID` and `NextWatering`, while the service reads `userPlant.Plant.Name`, a field `UserPlant` does not have. The model's row is a user id, a plant id, the plant name and the next watering.
- `MarkAsRead`, `SaveQuestionnaire`, `GetChatSession`, `GetChatSessionsByUser`, the plant getters and the shop service pass calls through to a repository and are not modelled.
- The update-time stamp (`updated_at = NOW()`) is the `now` parameter.
- RecommendationService.Service.GetChatMessages: has no contract of its own; it returns `Chat.History`, whose contract and `Chat.HistoryOwnerOnly` state its properties.
- Tests that contradict the code are not followed. notification_service_test.go:161-171 expects no error on a repository failure; the model returns the error, as the code does. plant_service_test.go:247-252 expects an unowned plant to be added automatically; the model fails, as the code does.
- The answer layout the prompt requests is not read by the parser (see the introduction). The model keeps the code's behaviour.

## Findings

| source | as written | input that shows it | evidently intended | confidence | as-written member | corrected member |
|---|---|---|---|---|---|---|
| internal/services/recommendation_service.go:145-188 | the score is a float64 sum, compared with `score > 0.3` | a questionnaire asking MEDIUM light, pet safety and care level 3, against a plant with HIGH light, fertilizer frequency 1 and no notes: 0.2 + 0.1 rounds to 0.30000000000000004 and the plant is kept; a plant matching only the care level scores 0.3 and is dropped | a plant scoring exactly 0.30 is dropped, whichever rules make up the score ("Minimum 30% match" is a strict bound) | not executed | LocalScorer.AsWrittenThreshold | LocalScorer.ThresholdIsStrict |
