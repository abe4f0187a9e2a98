/**
 * The live `/process-image` handler (server/server.js): a missing upload is refused with
 * 400; otherwise annotate, validate and format run as one promise chain whose failure,
 * whatever its stage, is answered with 500 by a catch that first checks `res.headersSent`.
 */
module Relay {
  import opened Wrappers
  import opened Providers
  import opened Http
  import Ascii
  import Recognizer

  /**
   * What one request does, for a given validator (the live one is `Recognizer.ValidateResponse`,
   * which accepts everything; keeping it a parameter lets the model state what the handler
   * does with a rejection).
   */
  function HandleWith(validate: Recognizer.LabelsArgument -> bool,
                      file: Option<Bytes>, vision: VisionOutcome, chat: ChatOutcome): (run: Run)
    ensures |run.attempts| == 1 && run.uncaught.None?
    ensures run.attempts[0].status == 400 <==> file.None?
    ensures run.calls == [] <==> file.None?
    ensures |run.calls| <= 2
  {
    if file.None? then Run([Attempt(400, ErrorBody(NoFileError))], None, [], None)
    else
      var annotated := Recognizer.AnnotateImage(file, vision);
      match annotated.result
      case Err(e) => Run([Envelope(Err(e))], None, annotated.calls, None)
      case Ok(annotation) =>
        if !validate(Recognizer.AnArray(annotation.labels)) then
          Run([Envelope(Err(Thrown(InvalidContentError)))], None, annotated.calls, None)
        else
          var formatted := Recognizer.FormatResponse(Some(annotation.text), chat);
          Run([Envelope(formatted.result)], Some(annotation.text),
              annotated.calls + formatted.calls, None)
  }

  /** What one request to the live handler does: an upload is never answered with a 400. */
  function Handle(file: Option<Bytes>, vision: VisionOutcome, chat: ChatOutcome): (run: Run)
    ensures file.Some? ==>
              |run.attempts| == 1 && (run.attempts[0].status == 200 || run.attempts[0].status == 500)
    ensures file.Some? && vision.Detected? && vision.fullText.Some? ==> run.formatterInput.Some?
  {
    HandleWith(Recognizer.ValidateResponse, file, vision, chat)
  }

  /**
   * The route handler, run on the fresh response object of one request with `validate` as
   * its `validateResponse` (the live one is `Recognizer.ValidateResponse`): the attempts it
   * makes on `res`, the text it hands to the formatter and the provider requests are those
   * of `HandleWith`, and what went out is that one attempt.
   */
  method ProcessImage(validate: Recognizer.LabelsArgument -> bool,
                      file: Option<Bytes>, vision: VisionOutcome, chat: ChatOutcome, res: Response)
    returns (formatterInput: Option<string>, calls: seq<Call>)
    requires res.Valid() && res.statusCode == 200 && res.attempts == [] && res.sent == None
    modifies res
    ensures res.Valid()
    ensures Run(res.attempts, formatterInput, calls, None) == HandleWith(validate, file, vision, chat)
    ensures |res.attempts| == 1 && res.sent == Some(res.attempts[0])
  {
    if file.None? {
      res.Status(400);
      var _ := res.Json(ErrorBody(NoFileError));
      return None, [];
    }
    var annotated := Recognizer.AnnotateImage(file, vision);
    calls := annotated.calls;
    formatterInput := None;
    var failure: Option<Failure> := None;
    var data := "";
    if annotated.result.Err? {
      failure := Some(annotated.result.error);
    } else {
      var annotation := annotated.result.value;
      if !validate(Recognizer.AnArray(annotation.labels)) {
        failure := Some(Thrown(InvalidContentError));
      } else {
        formatterInput := Some(annotation.text);
        var formatted := Recognizer.FormatResponse(formatterInput, chat);
        calls := calls + formatted.calls;
        if formatted.result.Err? {
          failure := Some(formatted.result.error);
        } else {
          data := formatted.result.value;
        }
      }
    }
    if failure.None? {
      failure := res.Json(SuccessBody(Text(data)));
    }
    if failure.Some? && !res.HeadersSent() {
      res.Status(500);
      var _ := res.Json(ErrorDetails(ProcessingError, failure.value.Message()));
    }
  }

  /** Every request, whatever the providers answer, gets exactly one response, and it goes out. */
  lemma ExactlyOneResponse(validate: Recognizer.LabelsArgument -> bool,
                           file: Option<Bytes>, vision: VisionOutcome, chat: ChatOutcome)
    ensures var run := HandleWith(validate, file, vision, chat);
      |run.attempts| == 1 && run.Delivered() == Some(run.attempts[0]) && run.uncaught.None?
  {
  }

  /** No upload: 400 with "No image file received", and no provider is asked. */
  lemma MissingFileRefused(file: Option<Bytes>, vision: VisionOutcome, chat: ChatOutcome)
    requires file.None?
    ensures Handle(file, vision, chat)
            == Run([Attempt(400, ErrorBody(NoFileError))], None, [], None)
  {
  }

  /**
   * The formatter is called only after the annotation succeeded and the validator accepted
   * its labels, and then with the recognised text exactly as the provider returned it.
   */
  lemma FormatterOnlyAfterAcceptance(validate: Recognizer.LabelsArgument -> bool,
                                     file: Option<Bytes>, vision: VisionOutcome, chat: ChatOutcome)
    ensures var run := HandleWith(validate, file, vision, chat);
      run.formatterInput.Some? ==>
        && file.Some? && vision.Detected? && vision.fullText.Some?
        && validate(Recognizer.AnArray(Ascii.ToLowerAll(vision.labels)))
        && run.formatterInput == vision.fullText
  {
  }

  /**
   * A failed annotation (provider error or no text) stops the request: one vision request,
   * no formatter call, and 500 with the failure's message as `details`.
   */
  lemma AnnotationFailureStops(file: Option<Bytes>, vision: VisionOutcome, chat: ChatOutcome)
    requires file.Some?
    requires vision.VisionError? || vision.fullText.None?
    ensures var run := Handle(file, vision, chat);
      && run.formatterInput.None?
      && run.calls == [VisionRequest(file.value)]
      && run.attempts == [Attempt(500, ErrorDetails(ProcessingError,
           if vision.VisionError? then vision.message else Recognizer.NoTextError))]
  {
  }

  /**
   * A validator's rejection is thrown as an error and so ends in the catch: 500 with
   * "Invalid image content" as `details`, not a 400, and the formatter is not called.
   */
  lemma RejectionIsServerError(validate: Recognizer.LabelsArgument -> bool,
                               file: Option<Bytes>, vision: VisionOutcome, chat: ChatOutcome)
    requires file.Some? && vision.Detected? && vision.fullText.Some?
    requires !validate(Recognizer.AnArray(Ascii.ToLowerAll(vision.labels)))
    ensures var run := HandleWith(validate, file, vision, chat);
      && run.attempts == [Attempt(500, ErrorDetails(ProcessingError, InvalidContentError))]
      && run.formatterInput.None?
      && run.calls == [VisionRequest(file.value)]
  {
  }

  /** With the live validator that rejection never happens: every annotated text is formatted. */
  lemma EveryAnnotationIsFormatted(file: Option<Bytes>, vision: VisionOutcome, chat: ChatOutcome)
    requires file.Some? && vision.Detected? && vision.fullText.Some?
    ensures Handle(file, vision, chat).formatterInput == vision.fullText
  {
  }

  /**
   * The request succeeds exactly when an upload is present, the provider found non-empty
   * text and the model returned a choice; the answer is then status 200 carrying the first
   * choice.
   */
  lemma SuccessReply(file: Option<Bytes>, vision: VisionOutcome, chat: ChatOutcome)
    ensures var run := Handle(file, vision, chat);
      && (run.attempts[0].status == 200 <==>
            && file.Some? && vision.Detected? && vision.fullText.Some?
            && vision.fullText.value != "" && chat.Choices? && chat.contents != [])
      && (run.attempts[0].status == 200 ==>
            run.attempts == [Attempt(200, SuccessBody(Text(chat.contents[0])))])
  {
  }

  /** A formatting provider error reaches the client verbatim in `details`. */
  lemma ChatErrorPassesThrough(file: Option<Bytes>, vision: VisionOutcome, message: string)
    requires file.Some? && vision.Detected? && vision.fullText.Some? && vision.fullText.value != ""
    ensures var run := Handle(file, vision, ChatError(message));
      && run.attempts == [Attempt(500, ErrorDetails(ProcessingError, message))]
      && run.calls == [VisionRequest(file.value),
                       ChatRequest(Recognizer.JsonRequest(vision.fullText.value))]
  {
  }

  /**
   * An empty recognised text reaches `formatResponse`, which refuses it before asking the
   * model: 500 with "No text provided for formatting" and no chat request.
   */
  lemma EmptyTextNeverReachesModel(file: Option<Bytes>, labels: seq<string>, chat: ChatOutcome)
    requires file.Some?
    ensures var run := Handle(file, Detected(Some(""), labels), chat);
      && run.formatterInput == Some("")
      && run.calls == [VisionRequest(file.value)]
      && run.attempts == [Attempt(500, ErrorDetails(ProcessingError, Recognizer.NoFormatTextError))]
  {
  }

  /** Provider requests come in pipeline order: the vision request first, a chat request second. */
  lemma ProviderRequestOrder(validate: Recognizer.LabelsArgument -> bool,
                             file: Option<Bytes>, vision: VisionOutcome, chat: ChatOutcome)
    ensures var run := HandleWith(validate, file, vision, chat);
      && |run.calls| <= 2
      && (run.calls != [] ==> file.Some? && run.calls[0] == VisionRequest(file.value))
      && (|run.calls| == 2 ==> run.formatterInput.Some? && run.calls[1].ChatRequest?)
  {
  }
}
