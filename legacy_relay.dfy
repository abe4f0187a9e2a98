/**
 * The older `/process-image` handler (scripts/server.js). It reads `req.file.buffer`
 * without checking for an upload, answers rejected content with a 400 from inside the
 * first `.then` and returns `res` into the next `.then`, which then tries to send
 * `{success: true, data: res}`; its catch has no `headersSent` guard.
 */
module LegacyRelay {
  import opened Wrappers
  import opened Providers
  import opened Http
  import Ascii
  import LegacyRecognizer

  /** The error `req.file.buffer` throws when there is no upload. */
  const NoUpload := NullDereference(Undefined, "buffer")

  /**
   * What one request does. On rejected content three `res.json` calls are made: the 400,
   * then `{success: true, data: res}` with the 400 still in force, which fails to serialise
   * because the response object is cyclic, then the catch's 500, which throws because the
   * 400 already went out; nothing catches that last error.
   */
  function Handle(file: Option<Bytes>, vision: VisionOutcome, chat: ChatOutcome): (run: Run)
    ensures file.Some? ==> run.attempts != [] && run.Delivered() == Some(run.attempts[0])
    ensures run.uncaught.Some? <==> file.None? || |run.attempts| == 3
    ensures |run.attempts| == 3 ==> run.formatterInput.None? && |run.calls| == 1
  {
    if file.None? then Run([], None, [], Some(NoUpload))
    else
      var annotated := LegacyRecognizer.AnotateImage(file, vision);
      match annotated.result
      case Err(e) => Run([Envelope(Err(e))], None, annotated.calls, None)
      case Ok(annotation) =>
        if !LegacyRecognizer.ValidateResponse(annotation.labels) then
          Run([Attempt(400, ErrorBody(InvalidContentError)),
               Attempt(400, SuccessBody(ResponseObject)),
               Envelope(Err(CircularJson))],
              None, annotated.calls, Some(HeadersSent))
        else
          var formatted := LegacyRecognizer.FormatResponse(annotation.text, chat);
          Run([Envelope(formatted.result)], Some(annotation.text),
              annotated.calls + formatted.calls, None)
  }

  /**
   * The route handler, run on the fresh response object of one request: what it does to
   * `res`, hands to the formatter, asks the providers and fails to catch is `Handle`'s.
   */
  method ProcessImage(file: Option<Bytes>, vision: VisionOutcome, chat: ChatOutcome, res: Response)
    returns (formatterInput: Option<string>, calls: seq<Call>, uncaught: Option<Failure>)
    requires res.Valid() && res.statusCode == 200 && res.attempts == [] && res.sent == None
    modifies res
    ensures res.Valid()
    ensures Run(res.attempts, formatterInput, calls, uncaught) == Handle(file, vision, chat)
  {
    if file.None? {
      return None, [], Some(NoUpload);
    }
    var annotated := LegacyRecognizer.AnotateImage(file, vision);
    calls := annotated.calls;
    formatterInput := None;
    uncaught := None;
    var failure: Option<Failure> := None;
    var next: Payload := Text("");
    if annotated.result.Err? {
      failure := Some(annotated.result.error);
    } else {
      var annotation := annotated.result.value;
      if !LegacyRecognizer.ValidateResponse(annotation.labels) {
        res.Status(400);
        failure := res.Json(ErrorBody(InvalidContentError));
        next := ResponseObject;
      } else {
        formatterInput := Some(annotation.text);
        var formatted := LegacyRecognizer.FormatResponse(annotation.text, chat);
        calls := calls + formatted.calls;
        if formatted.result.Err? {
          failure := Some(formatted.result.error);
        } else {
          next := Text(formatted.result.value);
        }
      }
    }
    if failure.None? {
      failure := res.Json(SuccessBody(next));
    }
    if failure.Some? {
      res.Status(500);
      uncaught := res.Json(ErrorDetails(ProcessingError, failure.value.Message()));
    }
  }

  /**
   * The double send: on rejected content the handler makes three `res.json` attempts; only
   * the first, the 400, goes out; the formatter is not called; and an error escapes.
   */
  lemma RejectionSendsThreeTimes(file: Option<Bytes>, vision: VisionOutcome, chat: ChatOutcome)
    requires file.Some? && vision.Detected? && vision.fullText.Some?
    requires !LegacyRecognizer.ValidateResponse(Ascii.ToLowerAll(vision.labels))
    ensures var run := Handle(file, vision, chat);
      && |run.attempts| == 3
      && run.Delivered() == Some(Attempt(400, ErrorBody(InvalidContentError)))
      && run.formatterInput.None?
      && run.calls == [VisionRequest(file.value)]
      && run.uncaught == Some(HeadersSent)
  {
  }

  /** A missing upload fails before any provider is asked, and the handler sends nothing itself. */
  lemma MissingFileEscapes(vision: VisionOutcome, chat: ChatOutcome)
    ensures Handle(None, vision, chat) == Run([], None, [], Some(NoUpload))
  {
  }

  /**
   * Accepted content: the formatter gets the recognised text verbatim, and the one
   * response is 200 with the LAST choice, 500 with the provider's message, or, when no
   * choice came back, 500 with the TypeError of reading `message` of undefined.
   */
  lemma AcceptedContentReply(file: Option<Bytes>, vision: VisionOutcome, chat: ChatOutcome)
    requires file.Some? && vision.Detected? && vision.fullText.Some?
    requires LegacyRecognizer.ValidateResponse(Ascii.ToLowerAll(vision.labels))
    ensures var run := Handle(file, vision, chat);
      && run.formatterInput == vision.fullText
      && run.calls == [VisionRequest(file.value),
                       ChatRequest(LegacyRecognizer.YamlRequest(vision.fullText.value))]
      && |run.attempts| == 1 && run.uncaught.None?
      && (chat.Choices? && chat.contents != [] ==>
            run.attempts[0] == Attempt(200, SuccessBody(Text(chat.contents[|chat.contents| - 1]))))
      && (chat.ChatError? ==>
            run.attempts[0] == Attempt(500, ErrorDetails(ProcessingError, chat.message)))
      && (chat == Choices([]) ==>
            run.attempts[0] == Attempt(500, ErrorDetails(ProcessingError,
                                 NullDereference(Undefined, "message").Message())))
  {
  }

  /**
   * A failed annotation is answered once with 500: a provider error passes its message
   * through, a result without text surfaces as the TypeError of reading `.text` of null.
   */
  lemma AnnotationFailureReply(file: Option<Bytes>, vision: VisionOutcome, chat: ChatOutcome)
    requires file.Some?
    requires vision.VisionError? || vision.fullText.None?
    ensures var run := Handle(file, vision, chat);
      && run.formatterInput.None?
      && run.calls == [VisionRequest(file.value)]
      && run.uncaught.None?
      && run.attempts == [Attempt(500, ErrorDetails(ProcessingError,
           if vision.VisionError? then vision.message
           else NullDereference(Null, "text").Message()))]
  {
  }

  /**
   * The handler as evidently intended: a rejection is answered with the single 400 and the
   * chain stops there.
   */
  function HandleCorrected(file: Option<Bytes>, vision: VisionOutcome, chat: ChatOutcome): (run: Run)
    ensures file.Some? ==> |run.attempts| == 1 && run.uncaught.None?
    ensures file.Some? && run.formatterInput.None? && run.calls == [VisionRequest(file.value)]
            && LegacyRecognizer.AnotateImage(file, vision).result.Ok?
            ==> run.attempts == [Attempt(400, ErrorBody(InvalidContentError))]
  {
    if file.None? then Run([], None, [], Some(NoUpload))
    else
      var annotated := LegacyRecognizer.AnotateImage(file, vision);
      match annotated.result
      case Err(e) => Run([Envelope(Err(e))], None, annotated.calls, None)
      case Ok(annotation) =>
        if !LegacyRecognizer.ValidateResponse(annotation.labels) then
          Run([Attempt(400, ErrorBody(InvalidContentError))], None, annotated.calls, None)
        else
          var formatted := LegacyRecognizer.FormatResponse(annotation.text, chat);
          Run([Envelope(formatted.result)], Some(annotation.text),
              annotated.calls + formatted.calls, None)
  }

  /**
   * The corrected handler answers every request with an upload exactly once, rejected
   * content with the 400 and nothing else, and the client sees the same response as with
   * the handler as written.
   */
  lemma CorrectedRespondsOnce(file: Option<Bytes>, vision: VisionOutcome, chat: ChatOutcome)
    requires file.Some?
    ensures var fixed := HandleCorrected(file, vision, chat);
      && |fixed.attempts| == 1 && fixed.uncaught.None?
      && fixed.Delivered() == Some(fixed.attempts[0])
      && fixed.Delivered() == Handle(file, vision, chat).Delivered()
      && fixed.formatterInput == Handle(file, vision, chat).formatterInput
      && fixed.calls == Handle(file, vision, chat).calls
  {
  }
}
