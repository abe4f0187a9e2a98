/**
 * How the live relay (server/) and the older one (scripts/) compare on the same request
 * and the same provider answers.
 */
module Versions {
  import opened Wrappers
  import opened Providers
  import opened Http
  import Ascii
  import Recognizer
  import LegacyRecognizer
  import Relay
  import LegacyRelay

  /**
   * When the older validator accepts, the text is non-empty and the model returns a single
   * choice, both versions ask the providers the same way (bar the directive), hand the
   * formatter the same text and answer with the same single 200 carrying that choice.
   */
  lemma SingleChoiceVersionsAgree(image: Bytes, text: string, labels: seq<string>, content: string)
    requires text != ""
    requires LegacyRecognizer.ValidateResponse(Ascii.ToLowerAll(labels))
    ensures var vision := Detected(Some(text), labels);
      && Relay.Handle(Some(image), vision, Choices([content]))
         == Run([Attempt(200, SuccessBody(Text(content)))], Some(text),
                [VisionRequest(image), ChatRequest(Recognizer.JsonRequest(text))], None)
      && LegacyRelay.Handle(Some(image), vision, Choices([content]))
         == Run([Attempt(200, SuccessBody(Text(content)))], Some(text),
                [VisionRequest(image), ChatRequest(LegacyRecognizer.YamlRequest(text))], None)
  {
  }

  /** With several choices the live relay answers with the first, the older one with the last. */
  lemma ChoiceSelectionDiffers(file: Option<Bytes>, vision: VisionOutcome, first: string, last: string)
    requires file.Some? && vision.Detected? && vision.fullText.Some? && vision.fullText.value != ""
    requires LegacyRecognizer.ValidateResponse(Ascii.ToLowerAll(vision.labels))
    ensures Relay.Handle(file, vision, Choices([first, last])).attempts
            == [Attempt(200, SuccessBody(Text(first)))]
    ensures LegacyRelay.Handle(file, vision, Choices([first, last])).attempts
            == [Attempt(200, SuccessBody(Text(last)))]
  {
  }

  /**
   * Content the older validator rejects is formatted anyway by the live relay, while the
   * older relay never calls its formatter for it.
   */
  lemma LiveFormatsWhatLegacyRejects(file: Option<Bytes>, vision: VisionOutcome, chat: ChatOutcome)
    requires file.Some? && vision.Detected? && vision.fullText.Some?
    requires !LegacyRecognizer.ValidateResponse(Ascii.ToLowerAll(vision.labels))
    ensures Relay.Handle(file, vision, chat).formatterInput == vision.fullText
    ensures LegacyRelay.Handle(file, vision, chat).formatterInput.None?
  {
  }

  /**
   * A nameplate photo whose labels are "nameplate" and "building" and whose text is
   * "RECAIR 6E\nTK1" is answered by both versions with the single 200 carrying the model's
   * output for exactly that text.
   */
  lemma NameplateRoundTrip(image: Bytes, content: string)
    ensures var vision := Detected(Some("RECAIR 6E\nTK1"), ["nameplate", "building"]);
      && Relay.Handle(Some(image), vision, Choices([content])).attempts
         == [Attempt(200, SuccessBody(Text(content)))]
      && Relay.Handle(Some(image), vision, Choices([content])).formatterInput
         == Some("RECAIR 6E\nTK1")
      && LegacyRelay.Handle(Some(image), vision, Choices([content])).attempts
         == [Attempt(200, SuccessBody(Text(content)))]
      && LegacyRelay.Handle(Some(image), vision, Choices([content])).formatterInput
         == Some("RECAIR 6E\nTK1")
  {
    var labels := ["nameplate", "building"];
    Ascii.ToLowerFixesLower("nameplate");
    assert Ascii.ToLowerAll(labels)[0] == "nameplate";
    assert LegacyRecognizer.ValidateResponse(Ascii.ToLowerAll(labels));
    SingleChoiceVersionsAgree(image, "RECAIR 6E\nTK1", labels, content);
  }
}
