/**
 * `RecommendationService`: the strategy that picks the local scorer or the
 * language model, the saving of what it picked, the read that reuses stored
 * recommendations, and the chat operations over the in-memory cache.  The
 * repositories are fields of the service object; which of their calls fail is
 * given to each operation.
 */
module RecommendationService {
  import opened Wrappers
  import opened Uuids
  import opened Models
  import LocalScorer
  import ResponseParser
  import Prompt
  import Completion
  import Chat
  import opened Faults

  const SaveQuestionnaireError := "failed to save questionnaire"
  const GetQuestionnaireError := "failed to get questionnaire"
  const GetPlantsError := "failed to get plants"
  const SaveRecommendationError := "failed to save recommendation"
  const GetRecommendationsError := "failed to get recommendations"
  const GetRecommendedPlantsError := "failed to get recommended plants"
  const ParseError := "failed to parse Yandex GPT response"

  /** Which repository calls fail during one generation or read; saves are numbered from 0. */
  datatype StoreFaults = StoreFaults(
    questionnaireRead: bool,
    catalogRead: bool,
    failingSaves: set<nat>,
    recommendationsRead: bool,
    recommendedRead: bool)

  /** What `generateLocalRecommendations` may return for these inputs. */
  predicate IsLocalResult(q: Questionnaire, plants: seq<Plant>, recs: seq<Recommendation>)
  {
    var candidates := LocalScorer.Candidates(q, plants);
    |recs| == LocalScorer.Min(LocalScorer.MaxRecommendations, |candidates|)
    && LocalScorer.SortedByScore(recs)
    && multiset(recs) <= multiset(candidates)
    && LocalScorer.KeepsBest(recs, multiset(candidates) - multiset(recs))
  }

  /** `generateRecommendationsWithYandexGPT`: prompt, one completion call, parse. */
  function ModelRecommendations(endpoint: Completion.Endpoint, apiKey: string, model: string,
                                q: Questionnaire, plants: seq<Plant>): Result<seq<Recommendation>, string>
  {
    match Completion.Call(endpoint, apiKey, model, Prompt.PromptText(q, Prompt.PlantList(plants)), [])
    case Err(_) => Err(Chat.CallError)
    case Ok(text) =>
      match ResponseParser.Parse(text, q.id, plants)
      case Err(_) => Err(ParseError)
      case Ok(recs) => Ok(recs)
  }

  /**
   * The strategy of `GenerateRecommendations`: with no key only the local scorer;
   * with a key the model's answer, and the local scorer whenever that fails.
   */
  predicate Chosen(endpoint: Completion.Endpoint, apiKey: string, model: string,
                   q: Questionnaire, plants: seq<Plant>, recs: seq<Recommendation>)
  {
    if apiKey == "" then IsLocalResult(q, plants, recs)
    else
      match ModelRecommendations(endpoint, apiKey, model, q, plants)
      case Ok(answer) => recs == answer
      case Err(_) => IsLocalResult(q, plants, recs)
  }

  /** The stored recommendations of one questionnaire, in the order they were saved. */
  function ForQuestionnaire(recs: seq<Recommendation>, qid: Uuid): seq<Recommendation>
    decreases |recs|
  {
    if recs == [] then []
    else
      var init := recs[..|recs| - 1];
      var last := recs[|recs| - 1];
      assert recs == init + [last];
      ForQuestionnaire(init, qid) + (if last.questionnaireId == qid then [last] else [])
  }

  /** The stored list of a questionnaire holds exactly its recommendations. */
  lemma {:induction false} ForQuestionnaireIff(recs: seq<Recommendation>, qid: Uuid, x: Recommendation)
    ensures x in ForQuestionnaire(recs, qid) <==> x in recs && x.questionnaireId == qid
    decreases |recs|
  {
    if recs != [] {
      var init := recs[..|recs| - 1];
      ForQuestionnaireIff(init, qid, x);
      assert recs == init + [recs[|recs| - 1]];
    }
  }

  /** The catalog rows with this id. */
  function CatalogEntries(catalog: seq<Plant>, id: Uuid): (r: seq<Plant>)
    ensures forall p :: p in r <==> p in catalog && p.id == id
    decreases |catalog|
  {
    if catalog == [] then []
    else
      var init := catalog[..|catalog| - 1];
      var last := catalog[|catalog| - 1];
      assert catalog == init + [last];
      CatalogEntries(init, id) + (if last.id == id then [last] else [])
  }

  /** `GetRecommendedPlants`: the join of the recommendations with the catalog, one row per match. */
  function CatalogPlants(recs: seq<Recommendation>, catalog: seq<Plant>): seq<Plant>
    decreases |recs|
  {
    if recs == [] then []
    else CatalogPlants(recs[..|recs| - 1], catalog) + CatalogEntries(catalog, recs[|recs| - 1].plantId)
  }

  /** Every questionnaire is stored under its own id. */
  predicate Keyed(questionnaires: map<Uuid, Questionnaire>)
  {
    forall k :: k in questionnaires ==> questionnaires[k].id == k
  }

  /** Appending recommendations of one questionnaire appends them to its stored list. */
  lemma {:induction false} ForQuestionnaireAppend(a: seq<Recommendation>, b: seq<Recommendation>, qid: Uuid)
    requires forall k :: 0 <= k < |b| ==> b[k].questionnaireId == qid
    ensures ForQuestionnaire(a + b, qid) == ForQuestionnaire(a, qid) + b
    decreases |b|
  {
    if b == [] {
      assert a + b == a;
    } else {
      var init := b[..|b| - 1];
      var last := b[|b| - 1];
      ForQuestionnaireAppend(a, init, qid);
      assert a + b == (a + init) + [last];
      ForQuestionnaireSnoc(a + init, last, qid);
      assert ForQuestionnaire(a, qid) + init + [last] == ForQuestionnaire(a, qid) + b;
    }
  }

  lemma ForQuestionnaireSnoc(s: seq<Recommendation>, x: Recommendation, qid: Uuid)
    ensures ForQuestionnaire(s + [x], qid) == ForQuestionnaire(s, qid) + (if x.questionnaireId == qid then [x] else [])
  {
    assert (s + [x])[..|s|] == s;
  }

  /** A plant is in the join exactly when it is a catalog row that some recommendation names. */
  lemma {:induction false} CatalogPlantsIff(recs: seq<Recommendation>, catalog: seq<Plant>, p: Plant)
    ensures p in CatalogPlants(recs, catalog) <==> p in catalog && exists x :: x in recs && x.plantId == p.id
    decreases |recs|
  {
    if recs != [] {
      var init := recs[..|recs| - 1];
      var last := recs[|recs| - 1];
      CatalogPlantsIff(init, catalog, p);
      assert recs == init + [last];
      if p in catalog && p.id == last.plantId {
        assert last in recs;
      }
      if x :| x in recs && x.plantId == p.id && x != last {
        assert x in init;
      }
    }
  }

  /** Whichever path chose them, the recommendations belong to the questionnaire and name catalog plants. */
  lemma ChosenComeFromCatalog(endpoint: Completion.Endpoint, apiKey: string, model: string,
                              q: Questionnaire, plants: seq<Plant>, recs: seq<Recommendation>)
    requires Chosen(endpoint, apiKey, model, q, plants, recs)
    ensures forall k :: 0 <= k < |recs| ==>
              recs[k].questionnaireId == q.id && ResponseParser.FromCatalog(recs[k].plantId, plants)
  {
    var answer := ModelRecommendations(endpoint, apiKey, model, q, plants);
    if apiKey != "" && answer.Ok? {
      var text := Completion.Call(endpoint, apiKey, model, Prompt.PromptText(q, Prompt.PlantList(plants)), []).value;
      ResponseParser.ParsedRecordsComeFromCatalog(text, q.id, plants);
    } else {
      LocalResultFromCatalog(q, plants, recs);
    }
  }

  lemma LocalResultFromCatalog(q: Questionnaire, plants: seq<Plant>, recs: seq<Recommendation>)
    requires IsLocalResult(q, plants, recs)
    ensures forall k :: 0 <= k < |recs| ==>
              recs[k].questionnaireId == q.id && ResponseParser.FromCatalog(recs[k].plantId, plants)
  {
    LocalScorer.OutputComesFromCatalog(q, plants, recs);
    forall k | 0 <= k < |recs|
      ensures ResponseParser.FromCatalog(recs[k].plantId, plants)
    {
      assert recs[k] in recs;
      var p :| p in plants && recs[k].plantId == p.id;
      var i :| 0 <= i < |plants| && plants[i] == p;
    }
  }

  /** Without a key the endpoint and the model name play no part in the choice. */
  lemma EmptyKeyIgnoresModel(endpoint: Completion.Endpoint, other: Completion.Endpoint, model: string, otherModel: string,
                             q: Questionnaire, plants: seq<Plant>, recs: seq<Recommendation>)
    ensures Chosen(endpoint, "", model, q, plants, recs) <==> Chosen(other, "", otherModel, q, plants, recs)
    ensures Chosen(endpoint, "", model, q, plants, recs) <==> IsLocalResult(q, plants, recs)
  {
  }

  /** With a key, a call that gets no answer or a status other than 200 leads to the local scorer. */
  lemma FailedCallFallsBack(endpoint: Completion.Endpoint, apiKey: string, model: string,
                            q: Questionnaire, plants: seq<Plant>, recs: seq<Recommendation>)
    requires apiKey != ""
    requires var reply := endpoint(Completion.BuildRequest(apiKey, model, Prompt.PromptText(q, Prompt.PlantList(plants)), []));
             reply.SendFailed? || reply.status != 200
    ensures Chosen(endpoint, apiKey, model, q, plants, recs) <==> IsLocalResult(q, plants, recs)
  {
  }

  /** Nothing is chosen only when no plant clears the local threshold and the model gave no usable answer. */
  lemma EmptyChoiceMeansNoCandidate(endpoint: Completion.Endpoint, apiKey: string, model: string,
                                    q: Questionnaire, plants: seq<Plant>)
    requires Chosen(endpoint, apiKey, model, q, plants, [])
    ensures LocalScorer.Candidates(q, plants) == []
    ensures apiKey == "" || ModelRecommendations(endpoint, apiKey, model, q, plants).Err?
  {
  }

  class Service {
    const apiKey: string
    const model: string
    const endpoint: Completion.Endpoint
    var questionnaires: map<Uuid, Questionnaire>
    var catalog: seq<Plant>
    var recommendations: seq<Recommendation>
    var sessions: map<Uuid, ChatSession>
    var messages: seq<ChatMessage>
    var chatSessions: map<Uuid, seq<Completion.Message>>

    /** `NewRecommendationService` over repositories holding the given rows; the cache starts empty. */
    constructor (apiKey: string, model: string, endpoint: Completion.Endpoint,
                 questionnaires: map<Uuid, Questionnaire>, catalog: seq<Plant>,
                 recommendations: seq<Recommendation>,
                 sessions: map<Uuid, ChatSession>, messages: seq<ChatMessage>)
      ensures this.apiKey == apiKey && this.model == model && this.endpoint == endpoint
      ensures this.questionnaires == questionnaires && this.catalog == catalog
      ensures this.recommendations == recommendations
      ensures this.sessions == sessions && this.messages == messages && this.chatSessions == map[]
    {
      this.apiKey := apiKey;
      this.model := model;
      this.endpoint := endpoint;
      this.questionnaires := questionnaires;
      this.catalog := catalog;
      this.recommendations := recommendations;
      this.sessions := sessions;
      this.messages := messages;
      this.chatSessions := map[];
    }

    function ChatState(): Chat.ChatStore
      reads this
    {
      Chat.ChatStore(sessions, messages, chatSessions)
    }

    function RecommendedPlants(qid: Uuid): seq<Plant>
      reads this
    {
      CatalogPlants(ForQuestionnaire(recommendations, qid), catalog)
    }

    /** The store after saving the chosen `recs`, and the result that goes with it. */
    predicate SavedThen(before: seq<Recommendation>, after: seq<Recommendation>, recs: seq<Recommendation>,
                        qid: Uuid, faults: StoreFaults, r: Result<seq<Plant>, string>)
      reads this
    {
      var k := SavedCount(|recs|, faults.failingSaves);
      after == before + recs[..k]
      && r == (if k < |recs| then Err(SaveRecommendationError)
               else if faults.recommendedRead then Err(GetRecommendedPlantsError)
               else Ok(CatalogPlants(ForQuestionnaire(after, qid), catalog)))
    }

    /** What `GenerateRecommendations` may do to the stored recommendations, and return. */
    ghost predicate Generated(before: seq<Recommendation>, after: seq<Recommendation>,
                        qid: Uuid, faults: StoreFaults, r: Result<seq<Plant>, string>)
      reads this
    {
      if qid !in questionnaires || faults.questionnaireRead then r == Err(GetQuestionnaireError) && after == before
      else if faults.catalogRead then r == Err(GetPlantsError) && after == before
      else exists recs :: Chosen(endpoint, apiKey, model, questionnaires[qid], catalog, recs)
                          && SavedThen(before, after, recs, qid, faults, r)
    }

    /** A product is recommended for `qid` exactly when it is a catalog row named by a stored recommendation of `qid`. */
    lemma RecommendedPlantsIff(qid: Uuid, p: Plant)
      ensures p in RecommendedPlants(qid) <==>
              p in catalog && exists x :: x in recommendations && x.questionnaireId == qid && x.plantId == p.id
    {
      CatalogPlantsIff(ForQuestionnaire(recommendations, qid), catalog, p);
      forall x: Recommendation | x.plantId == p.id
        ensures x in ForQuestionnaire(recommendations, qid) <==> x in recommendations && x.questionnaireId == qid
      {
        ForQuestionnaireIff(recommendations, qid, x);
      }
    }

    /**
     * A successful generation stored the whole choice after what the questionnaire
     * already had, and returned exactly what a later read of the store returns.
     */
    lemma GeneratedStoresChoice(before: seq<Recommendation>, after: seq<Recommendation>,
                                qid: Uuid, faults: StoreFaults, r: Result<seq<Plant>, string>)
      requires Keyed(questionnaires)
      requires Generated(before, after, qid, faults, r) && r.Ok?
      ensures qid in questionnaires
      ensures exists recs :: Chosen(endpoint, apiKey, model, questionnaires[qid], catalog, recs)
                             && ForQuestionnaire(after, qid) == ForQuestionnaire(before, qid) + recs
      ensures r.value == CatalogPlants(ForQuestionnaire(after, qid), catalog)
    {
      var recs :| Chosen(endpoint, apiKey, model, questionnaires[qid], catalog, recs)
                  && SavedThen(before, after, recs, qid, faults, r);
      assert recs[..|recs|] == recs;
      ChosenComeFromCatalog(endpoint, apiKey, model, questionnaires[qid], catalog, recs);
      ForQuestionnaireAppend(before, recs, qid);
    }

    /** `SaveDetailedQuestionnaire`: fold the detailed answers into a questionnaire and store it. */
    method SaveDetailedQuestionnaire(userId: Option<Uuid>, d: DetailedQuestionnaireRequest, id: Uuid, now: int, fails: bool)
      returns (r: Result<Questionnaire, string>)
      modifies this`questionnaires
      ensures fails ==> r == Err(SaveQuestionnaireError) && questionnaires == old(questionnaires)
      ensures !fails ==> r == Ok(Prompt.FoldDetailed(userId, d, id, now))
                         && questionnaires == old(questionnaires)[id := r.value]
      ensures Keyed(old(questionnaires)) ==> Keyed(questionnaires)
    {
      var q := Prompt.FoldDetailed(userId, d, id, now);
      if fails {
        return Err(SaveQuestionnaireError);
      }
      questionnaires := questionnaires[id := q];
      return Ok(q);
    }

    /** The strategy: local without a key, otherwise the model with the local scorer as fallback. */
    method ChooseRecommendations(q: Questionnaire, plants: seq<Plant>) returns (recs: seq<Recommendation>)
      ensures Chosen(endpoint, apiKey, model, q, plants, recs)
    {
      if apiKey != "" {
        var prompt := Prompt.PreparePrompt(q, plants);
        var answer := Completion.Call(endpoint, apiKey, model, prompt, []);
        if answer.Ok? {
          var parsed := ResponseParser.ParseResponse(answer.value, q.id, plants);
          if parsed.Ok? {
            return parsed.value;
          }
        }
      }
      recs := LocalScorer.GenerateLocalRecommendations(q, plants);
    }

    /** The save loop: store each recommendation in turn, stopping at the first failing save. */
    method SaveRecommendations(recs: seq<Recommendation>, failing: set<nat>) returns (ok: bool)
      modifies this`recommendations
      ensures recommendations == old(recommendations) + recs[..SavedCount(|recs|, failing)]
      ensures ok <==> SavedCount(|recs|, failing) == |recs|
    {
      var i := 0;
      while i < |recs|
        invariant 0 <= i <= |recs|
        invariant recommendations == old(recommendations) + recs[..i]
        invariant forall j :: 0 <= j < i ==> j !in failing
      {
        if i in failing {
          return false;
        }
        recommendations := recommendations + [recs[i]];
        assert recs[..i + 1] == recs[..i] + [recs[i]];
        i := i + 1;
      }
      assert recs[..i] == recs;
      return true;
    }

    /** `GenerateRecommendations`. */
    method GenerateRecommendations(qid: Uuid, faults: StoreFaults) returns (r: Result<seq<Plant>, string>)
      modifies this`recommendations
      ensures Generated(old(recommendations), recommendations, qid, faults, r)
    {
      if qid !in questionnaires || faults.questionnaireRead {
        return Err(GetQuestionnaireError);
      }
      var q := questionnaires[qid];
      if faults.catalogRead {
        return Err(GetPlantsError);
      }
      var recs := ChooseRecommendations(q, catalog);
      var ok := SaveRecommendations(recs, faults.failingSaves);
      if !ok {
        r := Err(SaveRecommendationError);
      } else if faults.recommendedRead {
        r := Err(GetRecommendedPlantsError);
      } else {
        r := Ok(RecommendedPlants(qid));
      }
      assert SavedThen(old(recommendations), recommendations, recs, qid, faults, r);
    }

    /** `GetRecommendations`: stored recommendations are read back; only none at all triggers a generation. */
    method GetRecommendations(qid: Uuid, faults: StoreFaults) returns (r: Result<seq<Plant>, string>)
      modifies this`recommendations
      ensures faults.recommendationsRead ==> r == Err(GetRecommendationsError) && recommendations == old(recommendations)
      ensures !faults.recommendationsRead && ForQuestionnaire(old(recommendations), qid) != [] ==>
              recommendations == old(recommendations)
              && r == (if faults.recommendedRead then Err(GetRecommendedPlantsError) else Ok(RecommendedPlants(qid)))
      ensures !faults.recommendationsRead && ForQuestionnaire(old(recommendations), qid) == [] ==>
              Generated(old(recommendations), recommendations, qid, faults, r)
    {
      if faults.recommendationsRead {
        return Err(GetRecommendationsError);
      }
      var stored := ForQuestionnaire(recommendations, qid);
      if |stored| == 0 {
        r := GenerateRecommendations(qid, faults);
        return;
      }
      if faults.recommendedRead {
        return Err(GetRecommendedPlantsError);
      }
      return Ok(RecommendedPlants(qid));
    }

    /** `CreateChatSession`. */
    method CreateChatSession(userId: Uuid, id: Uuid, now: int, fails: bool) returns (r: Result<ChatSession, string>)
      modifies this`sessions, this`chatSessions
      ensures Chat.Outcome(ChatState(), r) == Chat.Create(old(ChatState()), userId, id, now, fails)
    {
      if fails {
        return Err(Chat.CreateSessionError);
      }
      var session := ChatSession(id, userId, Chat.ChatTitle, now, now);
      sessions := sessions[id := session];
      chatSessions := chatSessions[id := [Chat.SystemMessage]];
      return Ok(session);
    }

    /** `SendChatMessage`. */
    method SendChatMessage(sid: Uuid, userId: Uuid, text: string,
                           userMessageId: Uuid, assistantMessageId: Uuid, now: int, faults: Chat.ChatFaults)
      returns (r: Result<ChatMessage, string>)
      modifies this`sessions, this`messages, this`chatSessions
      ensures Chat.Outcome(ChatState(), r)
              == Chat.Send(old(ChatState()), endpoint, apiKey, model, sid, userId, text,
                           userMessageId, assistantMessageId, now, faults)
    {
      if sid !in sessions || faults.sessionRead {
        return Err(Chat.GetSessionError);
      }
      var session := sessions[sid];
      if session.userId != userId {
        return Err(Chat.NotOwnerError);
      }
      if faults.saveUser {
        return Err(Chat.SaveUserMessageError);
      }
      messages := messages + [Chat.UserMessage(sid, userId, text, userMessageId, now)];
      if faults.messagesRead {
        return Err(Chat.GetMessagesError);
      }
      var db := Chat.OfSession(messages, sid);
      var context := Chat.BuildContext(Chat.CachedFor(chatSessions, sid), db, text);
      var answer := Completion.Call(endpoint, apiKey, model, "", context);
      if answer.Err? {
        return Err(Chat.CallError);
      }
      if faults.saveAssistant {
        return Err(Chat.SaveAssistantMessageError);
      }
      var reply := ChatMessage(assistantMessageId, sid, userId, Completion.AssistantRole, answer.value, now);
      messages := messages + [reply];
      chatSessions := chatSessions[sid := context + [Completion.Message(Completion.AssistantRole, answer.value)]];
      if faults.touch {
        return Err(Chat.TouchSessionError);
      }
      sessions := sessions[sid := session.(lastUsed := now)];
      return Ok(reply);
    }

    /** `GetChatMessages`. */
    function GetChatMessages(sid: Uuid, userId: Uuid, sessionReadFails: bool, messagesReadError: Option<string>)
      : Result<seq<ChatMessage>, string>
      reads this
    {
      Chat.History(ChatState(), sid, userId, sessionReadFails, messagesReadError)
    }
  }
}
