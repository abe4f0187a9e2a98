/**
 * The two external services the relay calls, seen as oracles: the vision provider
 * (text and label detection) and the chat-completion provider. Each request the relay
 * makes is recorded as a `Call`; what the provider answered is an input to the model.
 * Also the JavaScript error values that travel down the promise chains.
 */
module Providers {
  import opened Wrappers

  type Bytes = seq<bv8>

  /** What the vision provider answered to one `annotateImage` request. */
  datatype VisionOutcome =
    | VisionError(message: string)
      /** `fullText` is None when the result has no `fullTextAnnotation`;
          `labels` are the `description`s of `labelAnnotations`, in provider order. */
    | Detected(fullText: Option<string>, labels: seq<string>)

  /** What the chat provider answered to one `chat.completions.create` request. */
  datatype ChatOutcome =
    | ChatError(message: string)
      /** The `message.content` of every returned choice, in order. */
    | Choices(contents: seq<string>)

  datatype Role = System

  /** One chat message; every message the relay builds has `type: 'text'`. */
  datatype Message = Message(role: Role, content: string)

  /** A request the relay makes to a provider. */
  datatype Call =
    | VisionRequest(image: Bytes)
    | ChatRequest(messages: seq<Message>)

  datatype Nullish = Null | Undefined

  /** A JavaScript error value, as the relay's catch handlers see it. */
  datatype Failure =
      /** `new Error(message)` thrown by the relay's own code */
    | Thrown(message: string)
      /** a rejection of a provider call, carrying the provider's message */
    | Upstream(message: string)
      /** a TypeError from reading `property` of null or undefined */
    | NullDereference(receiver: Nullish, property: string)
      /** a TypeError from `JSON.stringify` meeting a cyclic object */
    | CircularJson
      /** Node's ERR_HTTP_HEADERS_SENT from writing a header after the response went out */
    | HeadersSent
  {
    /** `error.message`: the thrown or provider message unchanged, a fixed non-empty text otherwise. */
    function Message(): (m: string)
      ensures Thrown? || Upstream? ==> m == message
      ensures !(Thrown? || Upstream?) ==> m != ""
    {
      match this
      case Thrown(m) => m
      case Upstream(m) => m
      case NullDereference(receiver, property) =>
        "Cannot read properties of " + (if receiver == Null then "null" else "undefined")
        + " (reading '" + property + "')"
      case CircularJson => "Converting circular structure to JSON"
      case HeadersSent => "Cannot set headers after they are sent to the client"
    }
  }

  /** The settled value of one recognizer call together with the provider requests it made. */
  datatype Outcome<+T> = Outcome(result: Result<T, Failure>, calls: seq<Call>)

  /** The value `annotateImage` fulfils with. */
  datatype Annotation = Annotation(text: string, labels: seq<string>)
}
