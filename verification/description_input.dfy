/**
 The description panel: the textarea, disabled while a generate is in
 flight, and the generate button, disabled while loading or on a blank
 description (the generate handler itself does not look at the loading
 flag).
 */
module DescriptionInput {
  import opened JsString

  /** The properties the panel is rendered from. */
  datatype Props = Props(description: string, isLoading: bool)

  const GeneratingLabel: string := "Generating..."
  const GenerateLabel: string := "Generate Thumbnail"

  /** `disabled={isLoading || !description.trim()}`: the button is disabled
      exactly while loading or while the description is all whitespace. */
  predicate GenerateDisabled(p: Props)
    ensures GenerateDisabled(p) <==>
      p.isLoading || forall i :: 0 <= i < |p.description| ==> IsWhitespace(p.description[i])
  {
    p.isLoading || IsBlank(p.description)
  }

  /** `disabled={isLoading}` on the textarea: the description cannot be
      edited while a generate is in flight. */
  predicate TextareaDisabled(p: Props) {
    p.isLoading
  }

  /** The button's label: the progress label exactly while loading. */
  function ButtonLabel(p: Props): (text: string)
    ensures text == GeneratingLabel <==> p.isLoading
    ensures text == GenerateLabel <==> !p.isLoading
  {
    if p.isLoading then GeneratingLabel else GenerateLabel
  }
}
