/**
 * The request/response handling of `callYandexGPTAPI`: which messages go into a
 * completion request and how the endpoint's reply becomes a text or an error.
 * The HTTP exchange itself is a function from request to reply.
 */
module Completion {
  import opened Wrappers
  import opened Text

  datatype Message = Message(role: string, text: string)

  const UserRole := "user"
  const AssistantRole := "assistant"
  const SystemRole := "system"

  /** `CompletionOptions`; the temperature is the decimal 0.7 the service sends. */
  datatype CompletionOptions = CompletionOptions(temperature: real, maxTokens: nat)

  const Options := CompletionOptions(0.7, 2000)

  /** The request body plus the authorization header that goes with it. */
  datatype Request = Request(
    authorization: string,
    modelUri: string,
    options: CompletionOptions,
    messages: seq<Message>)

  /** One answer alternative of a decoded response body. */
  datatype Alternative = Alternative(message: Message)

  /** A body that decodes, or one that does not. */
  datatype Body = Undecodable | Decoded(alternatives: seq<Alternative>)

  /** What the endpoint does with a request: no answer at all, or a status and a body. */
  datatype Reply = SendFailed | Answered(status: int, body: Body)

  type Endpoint = Request -> Reply

  const SendError := "failed to send request"
  const StatusErrorPrefix := "API returned status code "
  const DecodeError := "failed to decode response"
  const NoAlternatives := "no alternatives in response"

  /**
   * The request for a prompt or a message list: a non-empty prompt is sent as the one
   * user message and the list is ignored; an empty prompt sends the list.  A nil list
   * and an empty one are the same here.
   */
  function BuildRequest(apiKey: string, model: string, prompt: string, messages: seq<Message>): (r: Request)
    ensures r.authorization == "Api-Key " + apiKey && r.modelUri == model && r.options == Options
    ensures prompt != "" ==> r.messages == [Message(UserRole, prompt)]
    ensures prompt == "" ==> r.messages == messages
  {
    Request("Api-Key " + apiKey, model, Options,
            if prompt != "" then [Message(UserRole, prompt)] else messages)
  }

  function StatusError(status: int): string
  {
    StatusErrorPrefix + IntToString(status)
  }

  /** The outcome of one reply: the first alternative's text, or the first check that fails. */
  function HandleReply(reply: Reply): (r: Result<string, string>)
    ensures r.Ok? <==> reply.Answered? && reply.status == 200 && reply.body.Decoded? && |reply.body.alternatives| > 0
    ensures r.Ok? ==> r.value == reply.body.alternatives[0].message.text
    ensures reply.SendFailed? ==> r == Err(SendError)
    ensures reply.Answered? && reply.status != 200 ==> r == Err(StatusError(reply.status))
  {
    match reply
    case SendFailed => Err(SendError)
    case Answered(status, body) =>
      if status != 200 then Err(StatusError(status))
      else match body
        case Undecodable => Err(DecodeError)
        case Decoded(alternatives) =>
          if |alternatives| == 0 then Err(NoAlternatives)
          else Ok(alternatives[0].message.text)
  }

  /** `callYandexGPTAPI`: build the request, send it, read the reply. */
  function Call(endpoint: Endpoint, apiKey: string, model: string, prompt: string, messages: seq<Message>): (r: Result<string, string>)
    ensures r.Err? ==> r.error == SendError || r.error == DecodeError || r.error == NoAlternatives
                       || HasPrefix(r.error, StatusErrorPrefix)
  {
    HandleReply(endpoint(BuildRequest(apiKey, model, prompt, messages)))
  }

  /** The status error names the status: it reads back from the message. */
  lemma StatusErrorReadsBack(status: int)
    ensures HasPrefix(StatusError(status), StatusErrorPrefix)
    ensures ParseDecimal(StatusError(status)[|StatusErrorPrefix|..]) == Some(status)
  {
    assert StatusError(status)[|StatusErrorPrefix|..] == IntToString(status);
    ParseIntToString(status);
  }

  /** Different statuses give different errors, and none of them is one of the other errors. */
  lemma StatusErrorsDistinct(a: int, b: int)
    ensures a != b ==> StatusError(a) != StatusError(b)
    ensures StatusError(a) != SendError && StatusError(a) != DecodeError && StatusError(a) != NoAlternatives
  {
    StatusErrorReadsBack(a);
    StatusErrorReadsBack(b);
    assert StatusError(a)[0] == 'A';
  }
}
