/**
 The application as a user drives it. The application component hands parts
 of its session to the two panels; the panels decide which controls can be
 used; each control runs a handler. Requests in flight are kept beside the
 session, each with what its handler captured at begin, and settle as
 separate actions in any order. Under this model the loading and enhancing
 flags are proved to mirror the requests in flight, and the description is
 proved to stay fixed while a generate is in flight.
 */
module Ui {
  import opened Wrappers
  import opened JsString
  import opened App
  import TD = ThumbnailDisplay
  import DI = DescriptionInput

  /** The properties the application gives the result panel; the logo
      appears only by its file name. */
  function DisplayProps(s: Session): (p: TD.Props)
    ensures p.imageUrl == s.imageUrl && p.isLoading == s.isLoading && p.isEnhancing == s.isEnhancing
    ensures p.error == s.error && p.title == s.title
    ensures p.logoName.Some? <==> s.logo.Some?
    ensures p.logoName.Some? ==> p.logoName.value == s.logo.value.name
  {
    TD.Props(s.imageUrl, s.isLoading, s.isEnhancing, s.error, s.title,
             if s.logo.Some? then Some(s.logo.value.name) else None)
  }

  /** The properties the application gives the description panel. */
  function InputProps(s: Session): (p: DI.Props)
    ensures p.description == s.description && p.isLoading == s.isLoading
  {
    DI.Props(s.description, s.isLoading)
  }

  /** The session together with the requests still in flight. */
  datatype World = World(session: Session, generating: Option<GenerateRequest>, enhancing: Option<EnhanceRequest>)

  /** Application start: the initial session and nothing in flight. */
  const Start: World := World(Initial, None, None)

  /** What can happen next: a user gesture, or a request settling. */
  datatype Action =
    | EditDescription(description: string)
    | EditTitle(title: string)
    | PickLogo(file: Option<PickedFile>)
    | ClickGenerate
    | ClickRegenerate
    | ClickEnhance
    | GenerateSettles(result: Outcome<string>)
    | EnhanceSettles(result: Outcome<string>)

  /** The effect of an action on the world. A click runs the handler's begin
      step and, when it starts a request, keeps that request in flight; a
      settling request runs the complete step on the current session. Only
      a generate click or a generate settling changes the generate in
      flight, only an enhance click or an enhance settling changes the
      enhance in flight, and a settled request is no longer in flight. */
  function Apply(w: World, a: Action): (r: World)
    ensures r.generating == w.generating || a.ClickGenerate? || a.ClickRegenerate? || a.GenerateSettles?
    ensures r.enhancing == w.enhancing || a.ClickEnhance? || a.EnhanceSettles?
    ensures a.GenerateSettles? ==> r.generating.None?
    ensures a.EnhanceSettles? ==> r.enhancing.None?
    ensures a.EditDescription? ==> r.session.description == a.description
    ensures a.EditTitle? ==> r.session.title == a.title
  {
    match a
    case EditDescription(d) => w.(session := SetDescription(w.session, d))
    case EditTitle(t) => w.(session := SetTitle(w.session, t))
    case PickLogo(f) => w.(session := LogoChange(w.session, f))
    case ClickGenerate => BeginGenerate(w)
    case ClickRegenerate => BeginGenerate(w)
    case ClickEnhance => BeginEnhance(w)
    case GenerateSettles(r) =>
      if w.generating.None? then w
      else w.(session := GenerateComplete(w.session, w.generating.value, r), generating := None)
    case EnhanceSettles(r) =>
      if w.enhancing.None? then w
      else w.(session := EnhanceComplete(w.session, r), enhancing := None)
  }

  /** The generate handler, run from the generate or the regenerate button. */
  function BeginGenerate(w: World): World {
    match GenerateBegin(w.session)
    case Rejected(s) => w.(session := s)
    case Started(s, request) => w.(session := s, generating := Some(request))
  }

  /** The enhance handler, run from the enhance button. */
  function BeginEnhance(w: World): World {
    match EnhanceBegin(w.session)
    case Rejected(s) => w.(session := s)
    case Started(s, request) => w.(session := s, enhancing := Some(request))
  }

  /** The regenerate button and the generate button run the same handler. */
  lemma {:induction false} RegenerateRunsGenerateHandler(w: World)
    ensures Apply(w, ClickRegenerate) == Apply(w, ClickGenerate)
    ensures Apply(w, ClickRegenerate).enhancing == w.enhancing
  {
  }

  /** Which actions the rendered interface offers. The title input, the logo
      picker and the regenerate and enhance buttons exist only in the image
      view; the others are always rendered and honour their disabled flags.
      Stated in session terms: neither generate control looks at the
      enhancing flag. */
  function Offered(w: World, a: Action): (on: bool)
    ensures
      var s := w.session;
      var imageShown := !s.isLoading && !Truthy(s.error) && Truthy(s.imageUrl);
      && (a.EditDescription? ==> (on <==> !s.isLoading))
      && (a.ClickGenerate? ==> (on <==> !s.isLoading && !IsBlank(s.description)))
      && (a.EditTitle? || a.PickLogo? || a.ClickRegenerate? ==> (on <==> imageShown))
      && (a.ClickEnhance? ==> (on <==> imageShown && !s.isEnhancing && !IsBlank(s.title)))
      && (a.GenerateSettles? ==> (on <==> w.generating.Some?))
      && (a.EnhanceSettles? ==> (on <==> w.enhancing.Some?))
  {
    match a
    case EditDescription(_) => !DI.TextareaDisabled(InputProps(w.session))
    case EditTitle(_) => ShowsImage(w.session)
    case PickLogo(_) => ShowsImage(w.session)
    case ClickGenerate => !DI.GenerateDisabled(InputProps(w.session))
    case ClickRegenerate => ShowsImage(w.session) && TD.RegenerateEnabled(DisplayProps(w.session))
    case ClickEnhance => ShowsImage(w.session) && TD.EnhanceEnabled(DisplayProps(w.session))
    case GenerateSettles(_) => w.generating.Some?
    case EnhanceSettles(_) => w.enhancing.Some?
  }

  /** The result panel shows the image view, with its title input, logo
      picker and buttons. */
  predicate ShowsImage(s: Session) {
    TD.RenderContent(DisplayProps(s)).ImageView?
  }

  /** The interface as written, and the same interface with a guard that
      also disables both generate controls while an enhance is in flight. */
  datatype Controls = AsWritten | Guarded

  /** The actions the given controls accept: those offered, less, under the
      guard, a generate control clicked while an enhance is in flight. */
  predicate Accepts(c: Controls, w: World, a: Action) {
    Offered(w, a) && !(c.Guarded? && (a.ClickGenerate? || a.ClickRegenerate?) && w.session.isEnhancing)
  }

  /** One step: `None` when the controls do not accept the action. */
  function Step(c: Controls, w: World, a: Action): Option<World> {
    if Accepts(c, w, a) then Some(Apply(w, a)) else None
  }

  /** A sequence of steps, `None` as soon as one is not accepted. */
  function Run(c: Controls, w: World, actions: seq<Action>): Option<World>
    decreases |actions|
  {
    if actions == [] then Some(w)
    else
      match Step(c, w, actions[0])
      case None => None
      case Some(next) => Run(c, next, actions[1..])
  }

  /** The flags mirror the requests in flight, and a generate in flight was
      asked about the description currently held. */
  predicate Consistent(w: World) {
    && (w.session.isLoading <==> w.generating.Some?)
    && (w.session.isEnhancing <==> w.enhancing.Some?)
    && (w.generating.Some? ==> w.generating.value.description == w.session.description)
  }

  /** Every step either interface accepts keeps the world consistent. While
      a generate is in flight the disabled generate button keeps a second
      generate away, the loading view replaces the image view and with it
      the regenerate button, and the disabled textarea keeps the description
      fixed; the disabled enhance button keeps a second enhance away. */
  lemma {:induction false} StepKeepsConsistent(c: Controls, w: World, a: Action)
    requires Consistent(w)
    requires Step(c, w, a).Some?
    ensures Consistent(Step(c, w, a).value)
  {
    match a
    case ClickGenerate =>
    case ClickRegenerate =>
    case ClickEnhance =>
    case _ =>
  }

  /** Every world either interface reaches from a consistent one, application
      start included, is consistent. */
  lemma {:induction false} RunKeepsConsistent(c: Controls, w: World, actions: seq<Action>)
    requires Consistent(w)
    requires Run(c, w, actions).Some?
    ensures Consistent(Run(c, w, actions).value)
    decreases |actions|
  {
    if actions != [] {
      StepKeepsConsistent(c, w, actions[0]);
      RunKeepsConsistent(c, Step(c, w, actions[0]).value, actions[1..]);
    }
  }

  /** On every world reachable from application start, each panel's button
      shows its progress label exactly while its request is in flight. */
  lemma {:induction false} LabelsTrackRequests(actions: seq<Action>)
    requires Run(AsWritten, Start, actions).Some?
    ensures
      var w := Run(AsWritten, Start, actions).value;
      && (DI.ButtonLabel(InputProps(w.session)) == DI.GeneratingLabel <==> w.generating.Some?)
      && (TD.EnhanceButtonLabel(DisplayProps(w.session)) == TD.EnhancingLabel <==> w.enhancing.Some?)
  {
    RunKeepsConsistent(AsWritten, Start, actions);
  }

  /** When a reachable generate succeeds, the title is derived from the
      description shown on screen, since it could not be edited meanwhile. */
  lemma {:induction false} SettledTitleMatchesDescription(actions: seq<Action>, url: string)
    requires Run(AsWritten, Start, actions).Some?
    requires Run(AsWritten, Start, actions).value.generating.Some?
    ensures Step(AsWritten, Run(AsWritten, Start, actions).value, GenerateSettles(Success(url))).Some?
    ensures
      var w := Run(AsWritten, Start, actions).value;
      var next := Step(AsWritten, w, GenerateSettles(Success(url))).value;
      next.session.title == DefaultTitle(w.session.description)
      && next.session.imageUrl == Some(url) && !next.session.isLoading
  {
    RunKeepsConsistent(AsWritten, Start, actions);
  }

  /** An enabled generate button never leads into the blank-description
      branch of the handler. */
  lemma {:induction false} GenerateButtonSkipsBlankBranch(s: Session)
    requires !DI.GenerateDisabled(InputProps(s))
    ensures GenerateBegin(s).Started?
  {
  }

  /** At start the placeholder is shown and the generate button is
      disabled, because the description is empty. */
  lemma {:induction false} StartShowsPlaceholder()
    ensures TD.RenderContent(DisplayProps(Start.session)) == TD.Placeholder
    ensures DI.GenerateDisabled(InputProps(Start.session))
    ensures Consistent(Start)
  {
    assert Start.session == Initial;
    assert TD.RenderContent(DisplayProps(Initial)) == TD.Placeholder by {
      var p := DisplayProps(Initial);
      assert !p.isLoading && p.error.None? && p.imageUrl.None?;
    }
    assert DI.GenerateDisabled(InputProps(Initial)) by {
      assert InputProps(Initial).description == [];
    }
  }

  /** The gestures that reach an overlap: type a description, generate,
      start an enhance, then regenerate while it runs. */
  function OverlapTrace(description: string, first: string): seq<Action> {
    FirstImageTrace(description, first) + [ClickEnhance, ClickRegenerate]
  }

  /** The gestures that produce a first image: type a description, generate,
      and let the service answer. */
  function FirstImageTrace(description: string, first: string): seq<Action> {
    [EditDescription(description), ClickGenerate, GenerateSettles(Success(first))]
  }

  /** As written, a generate and an enhance can be in flight together: the
      regenerate button is only disabled by the loading flag, so it can be
      clicked during an enhance. If the new generate then settles first, the
      late enhancement of the old image replaces the new image. */
  lemma {:induction false} OverlapReachable(description: string, first: string, second: string, enhanced: string)
    requires '\n' !in description && !IsBlank(description) && first != []
    ensures Run(AsWritten, Start, OverlapTrace(description, first)).Some?
    ensures
      var w := Run(AsWritten, Start, OverlapTrace(description, first)).value;
      w.session.isLoading && w.session.isEnhancing
    ensures
      var after := Run(AsWritten, Start, OverlapTrace(description, first)
                              + [GenerateSettles(Success(second)), EnhanceSettles(Success(enhanced))]);
      after.Some? && after.value.session.imageUrl == Some(enhanced)
  {
    var trace := OverlapTrace(description, first);
    var tail := [GenerateSettles(Success(second)), EnhanceSettles(Success(enhanced))];
    var w5 := OverlapStart(description, first);
    var w7 := OverlapFinish(w5, second, enhanced);
    assert Run(AsWritten, Start, trace) == Some(w5);
    assert Run(AsWritten, w5, tail) == Some(w7);
    RunSplit(Start, trace, tail);
  }

  /** The world after the overlap trace: both requests in flight. */
  lemma {:induction false} OverlapStart(description: string, first: string) returns (w5: World)
    requires '\n' !in description && !IsBlank(description) && first != []
    ensures Run(AsWritten, Start, OverlapTrace(description, first)) == Some(w5)
    ensures w5.session.isLoading && w5.session.isEnhancing && w5.enhancing.Some?
    ensures w5.generating.Some? && w5.session.error.None?
  {
    TrimIdempotent(description);
    var w3 := FirstImage(description, first);
    w5 := EnhanceThenRegenerate(w3);
    RunSplit(Start, FirstImageTrace(description, first), [ClickEnhance, ClickRegenerate]);
  }

  /** On an image view with a title, nothing in flight and no error, the
      enhance button and then the regenerate button put both requests in
      flight. */
  lemma {:induction false} EnhanceThenRegenerate(w3: World) returns (w5: World)
    requires w3.generating.None? && w3.enhancing.None?
    requires !w3.session.isLoading && !w3.session.isEnhancing && w3.session.error.None?
    requires Truthy(w3.session.imageUrl)
    requires !IsBlank(w3.session.title) && !IsBlank(w3.session.description)
    ensures Run(AsWritten, w3, [ClickEnhance, ClickRegenerate]) == Some(w5)
    ensures w5.session.isLoading && w5.session.isEnhancing && w5.enhancing.Some?
    ensures w5.generating.Some? && w5.session.error.None?
  {
    var w4 := ClickEnhanceOnImage(w3);
    w5 := ClickRegenerateOnImage(w4);
    RunTwo(w3, ClickEnhance, ClickRegenerate, w4, w5);
  }

  /** Typing a description and generating from it successfully shows the
      image, titled by the description. */
  lemma {:induction false} FirstImage(description: string, first: string) returns (w3: World)
    requires !IsBlank(description) && first != []
    ensures Run(AsWritten, Start, FirstImageTrace(description, first)) == Some(w3)
    ensures w3 == World(Session(description, Some(first), false, false, None, DefaultTitle(description), None), None, None)
  {
    var trace := FirstImageTrace(description, first);
    var w1 := EditWhileIdle(Start, description);
    var w2 := ClickGenerateWhileIdle(w1);
    w3 := SettleGenerate(w2, Success(first));
    assert Run(AsWritten, w1, trace[1..]) == Some(w3) by {
      assert trace[1..] == [ClickGenerate, GenerateSettles(Success(first))];
      RunTwo(w1, ClickGenerate, GenerateSettles(Success(first)), w2, w3);
    }
    RunStep(Start, trace);
  }

  /** The description can be edited whenever no generate is in flight. */
  lemma {:induction false} EditWhileIdle(w: World, description: string) returns (next: World)
    requires !w.session.isLoading
    ensures Step(AsWritten, w, EditDescription(description)) == Some(next)
    ensures next == w.(session := w.session.(description := description))
  {
    next := Apply(w, EditDescription(description));
  }

  /** With no generate in flight, the generate button on a description that
      is not blank starts a generate. */
  lemma {:induction false} ClickGenerateWhileIdle(w: World) returns (next: World)
    requires !w.session.isLoading && !IsBlank(w.session.description)
    ensures Step(AsWritten, w, ClickGenerate) == Some(next)
    ensures next == w.(session := GenerateBegin(w.session).next,
                       generating := Some(GenerateRequest(w.session.description)))
  {
    next := Apply(w, ClickGenerate);
  }

  /** On the image view, with no enhance running and a title that is not
      blank, the enhance button starts an enhance. */
  lemma {:induction false} ClickEnhanceOnImage(w: World) returns (next: World)
    requires TD.RenderContent(DisplayProps(w.session)).ImageView?
    requires !w.session.isEnhancing && !IsBlank(w.session.title)
    ensures Step(AsWritten, w, ClickEnhance) == Some(next)
    ensures next == w.(session := EnhanceBegin(w.session).next,
                       enhancing := Some(EnhanceBegin(w.session).request))
    ensures next.session.isEnhancing && next.session.error.None? && next.session.imageUrl == w.session.imageUrl
    ensures next.session.description == w.session.description && !next.session.isLoading
  {
    next := Apply(w, ClickEnhance);
  }

  /** On the image view the regenerate button is on offer whatever the
      enhancing flag says, and with a description that is not blank it
      starts a generate. */
  lemma {:induction false} ClickRegenerateOnImage(w: World) returns (next: World)
    requires TD.RenderContent(DisplayProps(w.session)).ImageView?
    requires !IsBlank(w.session.description)
    ensures Step(AsWritten, w, ClickRegenerate) == Some(next)
    ensures next == w.(session := GenerateBegin(w.session).next,
                       generating := Some(GenerateRequest(w.session.description)))
  {
    next := Apply(w, ClickRegenerate);
  }

  /** From both requests in flight, the generate settling first and the
      enhance second leaves the enhancement on screen. */
  lemma {:induction false} OverlapFinish(w5: World, second: string, enhanced: string) returns (w7: World)
    requires w5.session.isLoading && w5.session.isEnhancing && w5.enhancing.Some?
    requires w5.generating.Some? && w5.session.error.None?
    ensures Run(AsWritten, w5, [GenerateSettles(Success(second)), EnhanceSettles(Success(enhanced))]) == Some(w7)
    ensures w7.session.imageUrl == Some(enhanced)
  {
    var tail := [GenerateSettles(Success(second)), EnhanceSettles(Success(enhanced))];
    assert tail == [tail[0], tail[1]];
    var w6 := SettleGenerate(w5, Success(second));
    w7 := SettleEnhance(w6, Success(enhanced));
    RunTwo(w5, tail[0], tail[1], w6, w7);
  }

  /** A generate in flight may always settle; the complete step runs on the
      current session with the request captured at begin. */
  lemma {:induction false} SettleGenerate(w: World, r: Outcome<string>) returns (next: World)
    requires w.generating.Some?
    ensures Step(AsWritten, w, GenerateSettles(r)) == Some(next)
    ensures next == w.(session := GenerateComplete(w.session, w.generating.value, r), generating := None)
  {
    next := Apply(w, GenerateSettles(r));
  }

  /** An enhance in flight may always settle; the complete step runs on the
      current session. */
  lemma {:induction false} SettleEnhance(w: World, r: Outcome<string>) returns (next: World)
    requires w.enhancing.Some?
    ensures Step(AsWritten, w, EnhanceSettles(r)) == Some(next)
    ensures next == w.(session := EnhanceComplete(w.session, r), enhancing := None)
  {
    next := Apply(w, EnhanceSettles(r));
  }

  /** Running a sequence whose first step is on offer is running the rest
      from where that step leads. */
  lemma {:induction false} RunStep(w: World, actions: seq<Action>)
    requires actions != [] && Step(AsWritten, w, actions[0]).Some?
    ensures Run(AsWritten, w, actions) == Run(AsWritten, Step(AsWritten, w, actions[0]).value, actions[1..])
  {
  }

  /** Two steps in a row, each on offer. */
  lemma {:induction false} RunTwo(w: World, a: Action, b: Action, mid: World, last: World)
    requires Step(AsWritten, w, a) == Some(mid) && Step(AsWritten, mid, b) == Some(last)
    ensures Run(AsWritten, w, [a, b]) == Some(last)
  {
    var actions := [a, b];
    assert Run(AsWritten, mid, [b]) == Some(last) by {
      RunStep(mid, [b]);
      assert [b][1..] == [];
    }
    assert actions[0] == a && actions[1..] == [b];
    RunStep(w, actions);
  }

  /** Running two sequences one after the other is running their
      concatenation. */
  lemma {:induction false} RunSplit(w: World, first: seq<Action>, second: seq<Action>)
    ensures Run(AsWritten, w, first + second) ==
      (match Run(AsWritten, w, first) case None => None case Some(mid) => Run(AsWritten, mid, second))
    decreases |first|
  {
    if first == [] {
      assert first + second == second;
    } else {
      var both := first + second;
      assert both != [] && both[0] == first[0] && both[1..] == first[1..] + second;
      match Step(AsWritten, w, first[0])
      case None =>
      case Some(next) => RunSplit(next, first[1..], second);
    }
  }

  /** Consistent, and never generating and enhancing at once. */
  predicate Exclusive(w: World) {
    Consistent(w) && !(w.session.isLoading && w.session.isEnhancing)
  }

  /** With the guarded controls every step keeps the world exclusive. */
  lemma {:induction false} GuardedStepKeepsExclusive(w: World, a: Action)
    requires Exclusive(w)
    requires Step(Guarded, w, a).Some?
    ensures Exclusive(Step(Guarded, w, a).value)
  {
    StepKeepsConsistent(Guarded, w, a);
  }

  /** With the guarded controls every reachable world is exclusive, so an
      enhancement always settles with no generate in flight and can no
      longer overwrite a newer image. */
  lemma {:induction false} GuardedRunKeepsExclusive(w: World, actions: seq<Action>)
    requires Exclusive(w)
    requires Run(Guarded, w, actions).Some?
    ensures Exclusive(Run(Guarded, w, actions).value)
    decreases |actions|
  {
    if actions != [] {
      GuardedStepKeepsExclusive(w, actions[0]);
      GuardedRunKeepsExclusive(Step(Guarded, w, actions[0]).value, actions[1..]);
    }
  }
}
