/**
 * The older recognizer (scripts/recognizer.js): `anotateImage` without a no-text guard,
 * a strict `validateResponse` over a fixed vocabulary, and a `formatResponse` without an
 * input guard that keeps the LAST returned choice.
 */
module LegacyRecognizer {
  import opened Wrappers
  import opened Ascii
  import opened Providers

  /** The labels that mark a photo as showing equipment identification. */
  const Vocabulary: set<string> := {"label", "material property", "signage", "nameplate"}

  /** The fixed instruction sent ahead of the text to be formatted. */
  const YamlDirective := "Format provided equipment labels text in yaml. Don't wrap in in markdown"

  /**
   * `anotateImage(buffer)`: the buffer is encoded without a check (an absent one fails on
   * `toString`), and the text is read without a check (a result without a
   * `fullTextAnnotation` fails on `.text`); otherwise the text passes through unchanged and
   * the label descriptions are lower-cased, one for one and in provider order.
   */
  function AnotateImage(buffer: Option<Bytes>, vision: VisionOutcome): (r: Outcome<Annotation>)
    ensures buffer.None? ==> r == Outcome(Err(NullDereference(Undefined, "toString")), [])
    ensures buffer.Some? ==> r.calls == [VisionRequest(buffer.value)]
    ensures buffer.Some? && vision.VisionError? ==> r.result == Err(Upstream(vision.message))
    ensures buffer.Some? && vision.Detected? && vision.fullText.None? ==> r.result == Err(NullDereference(Null, "text"))
    ensures r.result.Ok? <==> buffer.Some? && vision.Detected? && vision.fullText.Some?
    ensures r.result.Ok? ==>
              && r.result.value.text == vision.fullText.value
              && |r.result.value.labels| == |vision.labels|
              && (forall i :: 0 <= i < |vision.labels| ==>
                    r.result.value.labels[i] == ToLower(vision.labels[i]))
  {
    if buffer.None? then Outcome(Err(NullDereference(Undefined, "toString")), [])
    else
      var calls := [VisionRequest(buffer.value)];
      match vision
      case VisionError(message) => Outcome(Err(Upstream(message)), calls)
      case Detected(fullText, labels) =>
        if fullText.None? then Outcome(Err(NullDereference(Null, "text")), calls)
        else Outcome(Ok(Annotation(fullText.value, ToLowerAll(labels))), calls)
  }

  /**
   * `validateResponse(labels)`: accepts exactly when some label is, character for
   * character, one of the vocabulary words. It does not lower-case.
   */
  function ValidateResponse(labels: seq<string>): (accepted: bool)
    ensures accepted <==> exists i :: 0 <= i < |labels| && labels[i] in Vocabulary
  {
    var l := set x | x in labels;
    || "label" in l
    || "material property" in l
    || "material property" in l
    || "signage" in l
    || "nameplate" in l
  }

  /** The verdict depends only on which labels occur: not on their order or repetition. */
  lemma ValidateDependsOnlyOnSet(a: seq<string>, b: seq<string>)
    requires forall x :: x in a <==> x in b
    ensures ValidateResponse(a) == ValidateResponse(b)
  {
  }

  /** More labels never turn an acceptance into a rejection. */
  lemma ValidateMonotone(a: seq<string>, b: seq<string>)
    requires forall x :: x in a ==> x in b
    ensures ValidateResponse(a) ==> ValidateResponse(b)
  {
  }

  /** Matching is exact: labels that each carry an ASCII capital are all rejected. */
  lemma ValidateRejectsCapitalised(labels: seq<string>)
    requires forall i :: 0 <= i < |labels| ==> !IsLower(labels[i])
    ensures !ValidateResponse(labels)
  {
    forall i | 0 <= i < |labels|
      ensures labels[i] !in Vocabulary
    {
      assert IsLower("label") && IsLower("material property");
      assert IsLower("signage") && IsLower("nameplate");
    }
  }

  /** For example, a capitalised vocabulary word is not recognised. */
  lemma ValidateIsCaseSensitive()
    ensures !ValidateResponse(["Nameplate", "Signage"])
    ensures ValidateResponse(["nameplate"])
  {
  }

  /**
   * Behind `anotateImage`, which lower-cases, matching ignores the case of ASCII letters:
   * the provider's descriptions are accepted exactly when one of them lower-cases to a
   * vocabulary word.
   */
  lemma AnnotatedMatchingIgnoresCase(descriptions: seq<string>)
    ensures ValidateResponse(ToLowerAll(descriptions))
            <==> exists i :: 0 <= i < |descriptions| && ToLower(descriptions[i]) in Vocabulary
  {
    var lowered := ToLowerAll(descriptions);
    if ValidateResponse(lowered) {
      var i :| 0 <= i < |lowered| && lowered[i] in Vocabulary;
      assert ToLower(descriptions[i]) in Vocabulary;
    }
    if exists i :: 0 <= i < |descriptions| && ToLower(descriptions[i]) in Vocabulary {
      var i :| 0 <= i < |descriptions| && ToLower(descriptions[i]) in Vocabulary;
      assert lowered[i] in Vocabulary;
    }
  }

  /** The two messages sent for `text`: the directive, then the text itself. */
  function YamlRequest(text: string): (messages: seq<Message>)
    ensures |messages| == 2
    ensures messages[0] == Message(System, YamlDirective)
    ensures messages[1] == Message(System, text)
  {
    [Message(System, YamlDirective), Message(System, text)]
  }

  /**
   * `formatResponse(text)`: no guard, so every text (the empty one too) yields one request
   * of exactly two messages, the directive and then the text verbatim; the result is the
   * content of the LAST returned choice (`choices.pop()`).
   */
  function FormatResponse(text: string, chat: ChatOutcome): (r: Outcome<string>)
    ensures |r.calls| == 1 && r.calls[0].ChatRequest?
    ensures |r.calls[0].messages| == 2
    ensures r.calls[0].messages[0] == Message(System, YamlDirective)
    ensures r.calls[0].messages[1] == Message(System, text)
    ensures chat.ChatError? ==> r.result == Err(Upstream(chat.message))
    ensures chat == Choices([]) ==> r.result == Err(NullDereference(Undefined, "message"))
    ensures r.result.Ok? <==> chat.Choices? && chat.contents != []
    ensures r.result.Ok? ==> r.result.value == chat.contents[|chat.contents| - 1]
  {
    var calls := [ChatRequest(YamlRequest(text))];
    match chat
    case ChatError(message) => Outcome(Err(Upstream(message)), calls)
    case Choices(contents) =>
      if contents == [] then Outcome(Err(NullDereference(Undefined, "message")), calls)
      else Outcome(Ok(contents[|contents| - 1]), calls)
  }
}
