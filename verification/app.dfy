/**
 The session state machine of the application component: one record of
 state, the initial values, the field setters, the logo upload, and the two
 asynchronous handlers. Each handler is split at its `await` into a begin
 step, which runs the validation guards and updates the record, and a
 complete step, which receives what the remote service settled with and
 updates the record again using only the values captured at begin.
 */
module App {
  import opened Wrappers
  import opened JsString
  import DataUrl

  /** An uploaded logo: the base64 payload (`undefined` when the data URL
      had no comma), the file name and the media type. */
  datatype Logo = Logo(b64: Option<string>, name: string, mimeType: string)

  /** The whole state of a session; every transition returns a new record. */
  datatype Session = Session(
    description: string,
    imageUrl: Option<string>,
    isLoading: bool,
    isEnhancing: bool,
    error: Option<string>,
    title: string,
    logo: Option<Logo>)

  const EmptyDescriptionMessage: string := "Please enter a video description."
  const GenerateFailedMessage: string :=
    "Failed to generate thumbnail. Please check your API key and try again."
  const NoImageMessage: string := "Generate an image before enhancing."
  const EmptyTitleMessage: string := "Please enter a title to add to the thumbnail."
  const EnhanceFailedMessage: string :=
    "Failed to enhance thumbnail. The model may not be suitable for image editing. Please try again."

  /** The state at application start: everything empty, nothing in flight. */
  const Initial: Session := Session("", None, false, false, None, "", None)

  /** What the image-generation service is asked for. */
  datatype GenerateRequest = GenerateRequest(description: string)

  /** What the image-editing service is asked for: the image payload, the
      title text and the optional logo, all as captured at begin. */
  datatype EnhanceRequest = EnhanceRequest(imageData: Option<string>, title: string, logo: Option<Logo>)

  /** The outcome of a begin step: a validation guard fired and no service
      call is made, or the request was started. */
  datatype Begin<+R> = Rejected(next: Session) | Started(next: Session, request: R)

  /** A file the user picked for the logo, already read as a data URL. */
  datatype PickedFile = PickedFile(name: string, dataUrl: string)

  /** The default title, `description.split('\n')[0].trim()`: the first
      line with surrounding whitespace removed. It never holds a line break
      and never starts or ends with whitespace; a one-line description gives
      its own trimmed text. */
  function DefaultTitle(description: string): (title: string)
    ensures title == Trim(Before(description, '\n'))
    ensures '\n' !in title
    ensures title != [] ==> !IsWhitespace(title[0]) && !IsWhitespace(title[|title| - 1])
    ensures '\n' !in description ==> title == Trim(description)
  {
    SplitFirst(description, '\n');
    var line := Split(description, '\n')[0];
    TrimOmits(line, '\n');
    Trim(line)
  }

  /** The textarea's change handler: the description takes the typed text
      and no other field changes. */
  function SetDescription(s: Session, description: string): (r: Session)
    ensures r.description == description
    ensures r.imageUrl == s.imageUrl && r.isLoading == s.isLoading && r.isEnhancing == s.isEnhancing
    ensures r.error == s.error && r.title == s.title && r.logo == s.logo
  {
    s.(description := description)
  }

  /** The title input's change handler: the title takes the typed text and
      no other field changes. */
  function SetTitle(s: Session, title: string): (r: Session)
    ensures r.title == title
    ensures r.description == s.description && r.imageUrl == s.imageUrl
    ensures r.isLoading == s.isLoading && r.isEnhancing == s.isEnhancing
    ensures r.error == s.error && r.logo == s.logo
  {
    s.(title := title)
  }

  /** The logo input's change handler, after the file has been read. With no
      file nothing happens; a data URL without a colon makes the media-type
      slice throw before the logo is stored; otherwise the logo is stored.
      In every case no other field changes. */
  function LogoChange(s: Session, file: Option<PickedFile>): (r: Session)
    ensures r == s.(logo := r.logo)
    ensures r.logo != s.logo ==> file.Some?
    ensures file.Some? && ':' in file.value.dataUrl ==>
      && r.logo.Some?
      && r.logo.value.name == file.value.name
      && r.logo.value.mimeType == Before(Before(After(file.value.dataUrl, ':').value, ':'), ';')
      && r.logo.value.b64 == (if ',' in file.value.dataUrl
                              then Some(Before(After(file.value.dataUrl, ',').value, ','))
                              else None)
    ensures file.Some? && ':' !in file.value.dataUrl ==> r == s
  {
    match file
    case None => s
    case Some(f) =>
      match DataUrl.MediaType(f.dataUrl)
      case None => s
      case Some(mimeType) => s.(logo := Some(Logo(DataUrl.Payload(f.dataUrl), f.name, mimeType)))
  }

  /** A logo read by the browser as a base64 data URL is stored with exactly
      the media type and payload that URL was built from. */
  lemma LogoFromBrowserDataUrl(s: Session, name: string, mimeType: string, payload: string)
    requires DataUrl.IsPlainMediaType(mimeType) && DataUrl.IsBase64(payload)
    ensures LogoChange(s, Some(PickedFile(name, DataUrl.Compose(mimeType, payload))))
            == s.(logo := Some(Logo(Some(payload), name, mimeType)))
  {
    DataUrl.MediaTypeOfCompose(mimeType, payload);
    DataUrl.PayloadOfCompose(mimeType, payload);
  }

  /** Begin of `handleGenerate`. A description made only of whitespace sets
      the validation error and nothing else, and no request is made.
      Otherwise loading starts and the error, image, title and logo are
      cleared, and the service is asked about the current description. */
  function GenerateBegin(s: Session): (b: Begin<GenerateRequest>)
    ensures b.Rejected? <==> forall i :: 0 <= i < |s.description| ==> IsWhitespace(s.description[i])
    ensures b.Rejected? ==> b.next == s.(error := Some(EmptyDescriptionMessage))
    ensures b.Started? ==> b.request.description == s.description
    ensures b.Started? ==>
      && b.next.isLoading && b.next.error.None? && b.next.imageUrl.None?
      && b.next.title == [] && b.next.logo.None?
      && b.next.description == s.description && b.next.isEnhancing == s.isEnhancing
  {
    if IsBlank(s.description) then
      Rejected(s.(error := Some(EmptyDescriptionMessage)))
    else
      Started(s.(isLoading := true, error := None, imageUrl := None, title := [], logo := None),
              GenerateRequest(s.description))
  }

  /** Complete of `handleGenerate`, applied to the state current when the
      service settles. On success the image is the service's result and the
      title is derived from the description captured at begin; on failure
      the fixed generation message is the error. Loading ends either way,
      and nothing else changes. */
  function GenerateComplete(s: Session, request: GenerateRequest, result: Outcome<string>): (r: Session)
    ensures !r.isLoading
    ensures result.Success? ==>
      r.imageUrl == Some(result.value) && r.title == DefaultTitle(request.description) && r.error == s.error
    ensures result.Failure? ==>
      r.error == Some(GenerateFailedMessage) && r.imageUrl == s.imageUrl && r.title == s.title
    ensures r.description == s.description && r.isEnhancing == s.isEnhancing && r.logo == s.logo
  {
    match result
    case Success(url) => s.(imageUrl := Some(url), title := DefaultTitle(request.description), isLoading := false)
    case Failure => s.(error := Some(GenerateFailedMessage), isLoading := false)
  }

  /** Begin of `handleEnhance`. The guards run in order: without an image
      (null or "") the error asks for one, otherwise a blank title sets the
      title error; a rejected enhance changes only the error. Otherwise
      enhancing starts, the error is cleared, and the service receives the
      payload slice of the current image with the current title and logo. */
  function EnhanceBegin(s: Session): (b: Begin<EnhanceRequest>)
    ensures b.Rejected? <==>
      !Truthy(s.imageUrl) || forall i :: 0 <= i < |s.title| ==> IsWhitespace(s.title[i])
    ensures b.Rejected? && !Truthy(s.imageUrl) ==> b.next == s.(error := Some(NoImageMessage))
    ensures b.Rejected? && Truthy(s.imageUrl) ==> b.next == s.(error := Some(EmptyTitleMessage))
    ensures b.Started? ==> b.next == s.(isEnhancing := true, error := None)
    ensures b.Started? ==>
      && b.request.title == s.title && b.request.logo == s.logo
      && (b.request.imageData.Some? <==> ',' in s.imageUrl.value)
      && (b.request.imageData.Some? ==>
            b.request.imageData.value == Before(After(s.imageUrl.value, ',').value, ','))
  {
    if !Truthy(s.imageUrl) then
      Rejected(s.(error := Some(NoImageMessage)))
    else if IsBlank(s.title) then
      Rejected(s.(error := Some(EmptyTitleMessage)))
    else
      Started(s.(isEnhancing := true, error := None),
              EnhanceRequest(DataUrl.Payload(s.imageUrl.value), s.title, s.logo))
  }

  /** Complete of `handleEnhance`, applied to the state current when the
      service settles. On success the result replaces the image, keeping no
      copy of the previous one; on failure the image stays and the fixed
      enhancement message is the error. Enhancing ends either way, and
      nothing else changes. */
  function EnhanceComplete(s: Session, result: Outcome<string>): (r: Session)
    ensures !r.isEnhancing
    ensures result.Success? ==> r.imageUrl == Some(result.value) && r.error == s.error
    ensures result.Failure? ==> r.imageUrl == s.imageUrl && r.error == Some(EnhanceFailedMessage)
    ensures r.description == s.description && r.title == s.title && r.logo == s.logo
    ensures r.isLoading == s.isLoading
  {
    match result
    case Success(url) => s.(imageUrl := Some(url), isEnhancing := false)
    case Failure => s.(error := Some(EnhanceFailedMessage), isEnhancing := false)
  }

  /** A whole successful generate, from any prior state: the image is the
      service's result, the title is the default title of the description,
      error and logo are cleared and loading has ended. */
  lemma GenerateSucceeds(s: Session, url: string)
    requires !IsBlank(s.description)
    ensures GenerateBegin(s).Started?
    ensures GenerateComplete(GenerateBegin(s).next, GenerateBegin(s).request, Success(url))
            == Session(s.description, Some(url), false, s.isEnhancing, None, DefaultTitle(s.description), None)
  {
  }

  /** A whole failed generate, from any prior state: the fixed message is the
      error, and image, title and logo stay as begin cleared them. */
  lemma GenerateFails(s: Session)
    requires !IsBlank(s.description)
    ensures GenerateComplete(GenerateBegin(s).next, GenerateBegin(s).request, Failure)
            == Session(s.description, None, false, s.isEnhancing, Some(GenerateFailedMessage), [], None)
  {
  }

  /** Generate carries nothing over: two states that agree on the description
      and the enhancing flag begin a generate identically, whatever image,
      title, logo or error they held before. */
  lemma GenerateBeginForgetsHistory(s1: Session, s2: Session)
    requires s1.description == s2.description && s1.isEnhancing == s2.isEnhancing
    requires !IsBlank(s1.description)
    ensures GenerateBegin(s1) == GenerateBegin(s2)
  {
  }

  /** A description of several lines is titled with its trimmed first line,
      whatever the later lines hold. */
  lemma DefaultTitleOfLines(first: string, rest: string)
    requires '\n' !in first
    ensures DefaultTitle(first + ['\n'] + rest) == Trim(first)
  {
    BeforeAfterOfFirst(first, '\n', rest);
  }

  /** The two-line description "How to bake bread", "Step by step guide"
      is titled "How to bake bread". */
  lemma DefaultTitleOfTwoLines()
    ensures DefaultTitle("How to bake bread\nStep by step guide") == "How to bake bread"
  {
    var line, rest := "How to bake bread", "Step by step guide";
    assert "How to bake bread\nStep by step guide" == line + ['\n'] + rest;
    assert Trim(line) == line by {
      assert TrimStart(line) == line;
      assert TrimEnd(line) == line;
    }
    assert DefaultTitle(line + ['\n'] + rest) == Trim(line) by {
      DefaultTitleOfLines(line, rest);
    }
  }

  /** A description that passes the blank check can still give an empty
      default title, when its first line is blank. */
  lemma NonBlankDescriptionEmptyTitle()
    ensures !IsBlank("\nfoo")
    ensures DefaultTitle("\nfoo") == []
  {
    assert !IsWhitespace("\nfoo"[1]);
    BeforeAfterOfFirst([], '\n', "foo");
    assert "\nfoo" == [] + ['\n'] + "foo";
  }

  /** Enhancing an image the generation service returned as a base64 data
      URL sends that URL's payload, with the current title and logo. */
  lemma EnhanceSendsPayload(s: Session, mimeType: string, payload: string)
    requires DataUrl.IsPlainMediaType(mimeType) && DataUrl.IsBase64(payload)
    requires s.imageUrl == Some(DataUrl.Compose(mimeType, payload))
    requires !IsBlank(s.title)
    ensures EnhanceBegin(s) == Started(s.(isEnhancing := true, error := None),
                                       EnhanceRequest(Some(payload), s.title, s.logo))
  {
    DataUrl.PayloadOfCompose(mimeType, payload);
  }

  /** A whole successful enhance: only the image changes (to the service's
      result, the old one is not kept), the error is cleared, and enhancing
      is back to its value before begin. */
  lemma EnhanceSucceeds(s: Session, url: string)
    requires Truthy(s.imageUrl) && !IsBlank(s.title)
    ensures EnhanceComplete(EnhanceBegin(s).next, Success(url))
            == s.(imageUrl := Some(url), error := None, isEnhancing := false)
  {
  }

  /** A whole failed enhance keeps the image and reports the fixed message. */
  lemma EnhanceFails(s: Session)
    requires Truthy(s.imageUrl) && !IsBlank(s.title)
    ensures EnhanceComplete(EnhanceBegin(s).next, Failure)
            == s.(error := Some(EnhanceFailedMessage), isEnhancing := false)
  {
  }
}
