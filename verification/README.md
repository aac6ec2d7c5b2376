# Thumbnail Generator — a verified model of its session logic

The application is a single-page tool. A user types a video description and
asks a generative-image service for a thumbnail. The user can then ask an
image-editing service to "enhance" that thumbnail with a title and an
optional logo. This project models the part of it that has logic: the
session state machine of the application component (`App.tsx`) and the pure
display and enable rules of the two panels (`components/ThumbnailDisplay.tsx`,
`components/DescriptionInput.tsx`).

Modules:

- `Wrappers`: `Option` (JavaScript's `null`/`undefined`) and `Outcome`, the way
  a remote call settles (resolved value or rejection).
- `JsString`: the JavaScript string behaviour the code relies on. It has the
  exact ECMAScript whitespace set, `trim`, `split` on one character (with
  `Join` as its inverse), array indexing that yields `undefined`, and
  truthiness of `string | null`.
- `DataUrl`: the two ad-hoc slices of a `data:` URL. The payload is
  `split(',')[1]` and the media type is `split(':')[1].split(';')[0]`. They
  are proved to invert the base64 `data:` URL form of section 3 of RFC 2397
  for media types without parameters (no `:`, `;` or `,` in them) and
  payloads in the base64 alphabet; other `data:` URLs are not covered by
  that proof.
- `App`: the session record, its initial value, the setters, the logo upload,
  and the two handlers. Each handler is split at its `await` into a begin
  step and a complete step. The complete step takes the service's answer as
  a parameter and uses only what begin captured.
- `ThumbnailDisplay` and `DescriptionInput`: view choice, button guards,
  labels and the download link.
- `Ui`: the application wiring (which session fields each panel receives)
  and the actions the rendered interface offers. Requests in flight are kept
  beside the session and settle in any order. Invariants are proved over
  every reachable state.

Behaviour of the code worth noting:

- The generate handler checks no "in flight" flag. While a generate runs,
  the disabled generate button keeps a second generate away, and the
  loading view replaces the image view and with it the regenerate button.
  The disabled textarea blocks description edits, not generates.
- Enhance sends only the text between the first and the second comma of the
  image URL, not the image itself. That text is `undefined` when the URL has
  no comma.
- `if (!imageUrl)`, `if (error)` and `logoName ? … : …` test JavaScript
  truthiness, so an empty string counts as absent.
- Nothing stops a generate from starting while an enhance runs, so both
  flags can be set at once (see Findings).

## Model

| member | source | states |
|---|---|---|
| JsString.TrimStart | App.tsx:19 | the leading run it drops is all whitespace and what remains is a suffix not starting with whitespace |
| JsString.TrimEnd | App.tsx:19 | the trailing run it drops is all whitespace and what remains is a prefix not ending with whitespace |
| JsString.Trim | App.tsx:34 | `trim` returns a slice of its input; everything cut off at either end is whitespace, and the slice neither starts nor ends with whitespace |
| JsString.IsBlank | App.tsx:19 | `!s.trim()` holds exactly when every character is ECMAScript whitespace |
| JsString.TrimIdempotent | App.tsx:34 | trimming a trimmed string changes nothing |
| JsString.TrimOmits | App.tsx:34 | a character absent from a string is absent from its trim |
| JsString.Split | App.tsx:34 | `split` on one character gives at least one part, no part contains the separator, and the parts joined by the separator give back the input |
| JsString.SplitJoin | App.tsx:58 | splitting a join of separator-free parts recovers the parts, so `Split` is the unique such cut |
| JsString.SplitFirst | App.tsx:58 | part 0 is the text before the first separator; part 1 exists exactly when the separator occurs; the later parts split the text after it |
| JsString.At | App.tsx:58 | indexing past the end of the parts yields `undefined`, otherwise the element |
| JsString.IndexOf | App.tsx:58 | `None` exactly when the character is absent, otherwise the position of its first occurrence |
| DataUrl.Payload | App.tsx:84 | `split(',')[1]`, also used at App.tsx:58, is defined exactly when the URL has a comma, and then it is the comma-free text between the first and the second comma |
| DataUrl.MediaType | App.tsx:83 | defined exactly when the URL has a colon (otherwise the code throws); it is the text after the first colon up to the next colon or semicolon |
| DataUrl.MediaTypeOfCompose | App.tsx:83 | on a base64 `data:` URL with a plain media type, the media-type slice returns that media type |
| DataUrl.PayloadOfCompose | App.tsx:84 | on a base64 `data:` URL, the payload slice returns the base64 payload |
| App.DefaultTitle | App.tsx:33-35 | the default title is the trimmed text before the first line break; it holds no line break, has no surrounding whitespace, and is the trimmed description when there is only one line |
| App.DefaultTitleOfLines | App.tsx:34 | a multi-line description is titled with its trimmed first line whatever the later lines hold |
| App.DefaultTitleOfTwoLines | App.tsx:34 | "How to bake bread\nStep by step guide" is titled "How to bake bread" |
| App.NonBlankDescriptionEmptyTitle | App.tsx:19-35 | "\nfoo" passes the blank-description guard yet gets an empty default title |
| App.SetDescription | App.tsx:69-71 | the description takes the typed text and no other field changes |
| App.SetTitle | App.tsx:73-75 | the title takes the typed text and no other field changes |
| App.LogoChange | App.tsx:77-89 | only the logo field can change; no file or a data URL without a colon leaves the session unchanged; otherwise the logo gets the file name, the media-type slice and the payload slice (`undefined` without a comma) |
| App.LogoFromBrowserDataUrl | App.tsx:80-87 | a logo read as a base64 data URL is stored with exactly its media type and payload |
| App.GenerateBegin | App.tsx:18-28 | rejected exactly when the description is all whitespace, and then only the error changes (no request); otherwise loading starts, error, image, title and logo are cleared, and the request carries the current description |
| App.GenerateComplete | App.tsx:30-41 | loading ends; success stores the result as the image and the default title of the captured description; failure sets the fixed message and keeps image and title; description, enhancing flag and logo never change |
| App.GenerateSucceeds | App.tsx:24-41 | a whole successful generate from any state yields the result image, the default title, no error, no logo, loading off |
| App.GenerateFails | App.tsx:24-41 | a whole failed generate from any state yields the fixed message with image, title and logo still cleared |
| App.GenerateBeginForgetsHistory | App.tsx:24-28 | states that agree on description and enhancing flag begin a generate identically, whatever image, title, logo or error they held |
| App.EnhanceBegin | App.tsx:44-56 | rejected exactly when there is no (truthy) image or the title is all whitespace; the image guard wins; a rejection changes only the error; otherwise enhancing starts, the error is cleared, and the request carries the payload slice of the image with the current title and logo |
| App.EnhanceComplete | App.tsx:57-66 | enhancing ends; success replaces the image; failure keeps the image and sets the fixed message; description, title, logo and loading never change |
| App.EnhanceSendsPayload | App.tsx:58-59 | for a base64 data-URL image the service receives exactly that URL's payload with the current title and logo |
| App.EnhanceSucceeds | App.tsx:54-66 | a whole successful enhance changes only the image (the old one is not kept) and clears the error |
| App.EnhanceFails | App.tsx:61-66 | a whole failed enhance keeps the image and sets only the fixed message |
| ThumbnailDisplay.RenderContent | components/ThumbnailDisplay.tsx:39-140 | loading view exactly when loading; error view exactly when not loading with a truthy error; image view exactly when neither and the image is truthy; placeholder otherwise; the views show the error text and the image URL |
| ThumbnailDisplay.ViewIgnoresEnhancing | components/ThumbnailDisplay.tsx:39-62 | the enhancing flag never changes which view is shown |
| ThumbnailDisplay.EnhancingKeepsImage | components/ThumbnailDisplay.tsx:62-123 | during an enhance over a shown image with no error, the image view stays and the button reads "Enhancing..." |
| ThumbnailDisplay.EnhanceEnabled | components/ThumbnailDisplay.tsx:113 | the enhance button is enabled exactly when no enhance runs and the title has a non-whitespace character |
| ThumbnailDisplay.EnhanceButtonLabel | components/ThumbnailDisplay.tsx:116-123 | the progress label is shown exactly while enhancing |
| ThumbnailDisplay.RegenerateEnabledWhenShown | components/ThumbnailDisplay.tsx:40-85 | the regenerate button is enabled whenever the image view that holds it is shown |
| ThumbnailDisplay.Download | components/ThumbnailDisplay.tsx:29-37 | nothing without a truthy image; otherwise a link to the image itself named youtube_thumbnail.jpeg |
| ThumbnailDisplay.DownloadWhenShown | components/ThumbnailDisplay.tsx:29-74 | whenever the download button is shown it links to the shown image |
| ThumbnailDisplay.LogoLabel | components/ThumbnailDisplay.tsx:109 | "Logo: " plus the name exactly when a truthy logo name is given, so the name can be read back; the upload prompt otherwise |
| DescriptionInput.GenerateDisabled | components/DescriptionInput.tsx:32 | the generate button is disabled exactly while loading or while the description is all whitespace |
| DescriptionInput.ButtonLabel | components/DescriptionInput.tsx:35-66 | "Generating..." exactly while loading, "Generate Thumbnail" otherwise |
| Ui.DisplayProps | App.tsx:104-115 | the result panel gets the session's image, flags, error and title unchanged, and the logo only by its file name |
| Ui.InputProps | App.tsx:96-101 | the description panel gets the session's description and loading flag unchanged |
| Ui.Apply | App.tsx:96-115 | only the generate and regenerate clicks or a generate settling change the generate in flight, only the enhance click or an enhance settling change the enhance in flight, a settled request is gone, and an edit stores the typed text |
| Ui.RegenerateRunsGenerateHandler | App.tsx:99-114 | the regenerate button and the generate button run the same handler, which never touches the enhance in flight |
| Ui.Offered | components/ThumbnailDisplay.tsx:62-113 | in session terms: the textarea exactly when not loading; generate exactly when not loading and the description is not blank; the title input, the logo picker and regenerate exactly when the image is shown (not loading, no truthy error, truthy image), so neither generate control looks at the enhancing flag; enhance exactly when the image is shown, no enhance runs and the title is not blank |
| Ui.LabelsTrackRequests | components/DescriptionInput.tsx:35-66 | on every reachable state the generate button reads "Generating..." exactly when a generate is in flight and the enhance button reads "Enhancing..." exactly when an enhance is in flight |
| Ui.GenerateButtonSkipsBlankBranch | components/DescriptionInput.tsx:32 | an enabled generate button never leads into the blank-description branch |
| Ui.StartShowsPlaceholder | App.tsx:9-15 | the initial state shows the placeholder, disables generate, and has nothing in flight |
| Ui.EditWhileIdle | components/DescriptionInput.tsx:23-29 | the description can be edited whenever no generate is in flight, and the edit changes only the description |
| Ui.ClickGenerateWhileIdle | components/DescriptionInput.tsx:30-32 | with no generate in flight and a description that is not blank, the button starts a generate about that description |
| Ui.ClickEnhanceOnImage | components/ThumbnailDisplay.tsx:111-113 | on the image view with no enhance running and a title that is not blank, the button starts an enhance and keeps the image |
| Ui.ClickRegenerateOnImage | components/ThumbnailDisplay.tsx:83-85 | on the image view with a description that is not blank, the regenerate button starts a generate whatever the enhancing flag says (on a blank description it stays enabled and the handler takes its rejection branch) |
| Ui.SettleGenerate | App.tsx:30-41 | a generate in flight can always settle, completing on the current session with the request captured at begin |
| Ui.SettleEnhance | App.tsx:57-66 | an enhance in flight can always settle, completing on the current session |
| Ui.StepKeepsConsistent | App.tsx:96-115 | every step either interface accepts keeps the loading flag equal to "a generate is in flight", the enhancing flag equal to "an enhance is in flight", and the in-flight description equal to the shown one |
| Ui.RunKeepsConsistent | components/DescriptionInput.tsx:28-32 | every state reachable through the interface is consistent in that sense, so the description cannot change between generate begin and complete |
| Ui.SettledTitleMatchesDescription | components/DescriptionInput.tsx:28 | a reachable successful generate titles the image from the description still on screen |
| Ui.FirstImage | App.tsx:18-41 | typing a description and generating successfully shows the image with the default title and nothing in flight |
| Ui.OverlapReachable | components/ThumbnailDisplay.tsx:83-85 | as written, a generate and an enhance can be in flight together, and a late enhancement then replaces the newer image |
| Ui.GuardedStepKeepsExclusive | components/ThumbnailDisplay.tsx:83-85 | with both generate controls also disabled while enhancing, every step keeps the flags consistent and never both set |
| Ui.GuardedRunKeepsExclusive | components/DescriptionInput.tsx:30-32 | with the guarded controls no reachable state has both a generate and an enhance in flight |

## Findings

| source | as written | input that shows it | evidently intended | confidence | as-written member | corrected member |
|---|---|---|---|---|---|---|
| components/ThumbnailDisplay.tsx:85 | the regenerate button is disabled only by `isLoading`, and the generate button (components/DescriptionInput.tsx:32) never sees `isEnhancing`, so a generate can begin while an enhance is in flight | description "a"; generate, service returns image I1; click enhance; click regenerate (both flags now true); the generate settles with I2, then the enhance settles with E, an edit of I1: E replaces I2 on screen | at most one of generating and enhancing at a time, so an enhancement cannot overwrite a newer image | medium, not executed | Ui.OverlapReachable | Ui.GuardedRunKeepsExclusive |

`Ui.Step` and `Ui.Run` take the controls as a parameter. `Ui.AsWritten`
is the interface as written. `Ui.Guarded` is the corrected interface; it
differs only in also refusing the generate and regenerate clicks while an
enhance runs. The invariants `Ui.StepKeepsConsistent` and
`Ui.RunKeepsConsistent` are proved for both.

## Left out

- The remote services (`generateThumbnail`, `enhanceThumbnail` in
  `services/geminiService`) are not part of this model. Each is an oracle
  whose answer, `Success(url)` or `Failure`, is a parameter of the complete
  step. The request it would receive is returned by the begin step.
- The asynchronous `FileReader` read in the logo handler: the read file is a
  parameter (name and data URL). The change is applied as if the read
  finished at once, so the gap between picking and loading is not modelled.
- The DOM work of the download (creating, clicking and removing a link): only
  the null guard, the target and the file name are kept.
- JSX layout, CSS, icons, `console.error`, the footer and the `Header`
  component are not part of this model; they only present.
- React hook semantics (batched `useState` updates, `useCallback`
  memoisation, re-render scheduling): each handler phase is one atomic
  record update, and a complete step applies to the state current at
  settlement.
- Base64 validity and image content: image and logo payloads are opaque
  strings.
- Strings are sequences of Unicode scalar values, not UTF-16 code units. All
  separators and whitespace characters involved lie in the Basic
  Multilingual Plane, so the slices and `trim` agree with JavaScript.
- ThumbnailDisplay.RegenerateEnabled and DescriptionInput.TextareaDisabled
  carry no contract of their own. Each is one flag, and it is stated through
  Ui.ClickRegenerateOnImage, ThumbnailDisplay.RegenerateEnabledWhenShown and
  Ui.EditWhileIdle.
