/**
 * The live recognizer (server/recognizer.js): `annotateImage`, `validateResponse` and
 * `formatResponse`. The provider answers are inputs; each function returns how its
 * promise settles together with the provider requests it made.
 */
module Recognizer {
  import opened Wrappers
  import opened Ascii
  import opened Providers

  const NoBufferError := "No image buffer provided"
  const NoTextError := "No text found in image"
  const NoFormatTextError := "No text provided for formatting"

  /** The fixed instruction sent ahead of the text to be formatted. */
  const JsonDirective := "Format provided equipment labels text in json. and return the json containing the follwoiong properties device type, name, color, brand, last maintenance date, contact phone, contact website, manufacturer. Don't wrap in in markdown. If no value present for the property, return null"

  /**
   * `annotateImage(buffer)`: an absent buffer is refused before the provider is asked
   * (an empty one is not: JavaScript treats an empty Buffer as present); a result without
   * text is a failure; otherwise the text passes through unchanged and the label
   * descriptions are lower-cased, one for one and in provider order.
   */
  function AnnotateImage(buffer: Option<Bytes>, vision: VisionOutcome): (r: Outcome<Annotation>)
    ensures buffer.None? ==> r == Outcome(Err(Thrown(NoBufferError)), [])
    ensures buffer.Some? ==> r.calls == [VisionRequest(buffer.value)]
    ensures buffer.Some? && vision.VisionError? ==> r.result == Err(Upstream(vision.message))
    ensures buffer.Some? && vision.Detected? && vision.fullText.None? ==> r.result == Err(Thrown(NoTextError))
    ensures r.result.Ok? <==> buffer.Some? && vision.Detected? && vision.fullText.Some?
    ensures r.result.Ok? ==>
              && r.result.value.text == vision.fullText.value
              && |r.result.value.labels| == |vision.labels|
              && (forall i :: 0 <= i < |vision.labels| ==>
                    r.result.value.labels[i] == ToLower(vision.labels[i]))
              && (forall i :: 0 <= i < |vision.labels| ==> IsLower(r.result.value.labels[i]))
  {
    if buffer.None? then Outcome(Err(Thrown(NoBufferError)), [])
    else
      var calls := [VisionRequest(buffer.value)];
      match vision
      case VisionError(message) => Outcome(Err(Upstream(message)), calls)
      case Detected(fullText, labels) =>
        if fullText.None? then Outcome(Err(Thrown(NoTextError)), calls)
        else Outcome(Ok(Annotation(fullText.value, ToLowerAll(labels))), calls)
  }

  /** The argument of `validateResponse`, which may be any JavaScript value. */
  datatype LabelsArgument = NotAnArray | AnArray(items: seq<string>)

  /**
   * `validateResponse(labels)`: accepts every input. The array branch builds the set of
   * lower-cased labels and then ignores it.
   */
  function ValidateResponse(labels: LabelsArgument): (accepted: bool)
    ensures accepted
  {
    match labels
    case NotAnArray => true
    case AnArray(items) =>
      var unused := set l | l in ToLowerAll(items);
      true
  }

  /** The two messages sent for `text`: the directive, then the text itself. */
  function JsonRequest(text: string): (messages: seq<Message>)
    ensures |messages| == 2
    ensures messages[0] == Message(System, JsonDirective)
    ensures messages[1] == Message(System, text)
  {
    [Message(System, JsonDirective), Message(System, text)]
  }

  /**
   * `formatResponse(text)`: absent or empty text is refused before the model is asked;
   * otherwise one request of exactly two messages, the directive and then the text
   * verbatim, and the result is the content of the FIRST returned choice.
   */
  function FormatResponse(text: Option<string>, chat: ChatOutcome): (r: Outcome<string>)
    ensures text.None? || text == Some("") ==> r == Outcome(Err(Thrown(NoFormatTextError)), [])
    ensures text.Some? && text.value != "" ==>
              && |r.calls| == 1 && r.calls[0].ChatRequest?
              && |r.calls[0].messages| == 2
              && r.calls[0].messages[0] == Message(System, JsonDirective)
              && r.calls[0].messages[1] == Message(System, text.value)
    ensures r.calls != [] && chat.ChatError? ==> r.result == Err(Upstream(chat.message))
    ensures r.calls != [] && chat == Choices([]) ==> r.result == Err(NullDereference(Undefined, "message"))
    ensures r.result.Ok? <==> r.calls != [] && chat.Choices? && chat.contents != []
    ensures r.result.Ok? ==> r.result.value == chat.contents[0]
  {
    if text.None? || text.value == "" then Outcome(Err(Thrown(NoFormatTextError)), [])
    else
      var calls := [ChatRequest(JsonRequest(text.value))];
      match chat
      case ChatError(message) => Outcome(Err(Upstream(message)), calls)
      case Choices(contents) =>
        if contents == [] then Outcome(Err(NullDereference(Undefined, "message")), calls)
        else Outcome(Ok(contents[0]), calls)
  }
}
