/**
 The result panel: which of its four views is shown, the guards of its
 buttons, the label of the enhance button and of the logo picker, and the
 download link. All are pure functions of the panel's properties.
 */
module ThumbnailDisplay {
  import opened Wrappers
  import opened JsString

  /** The properties the panel is rendered from. */
  datatype Props = Props(
    imageUrl: Option<string>,
    isLoading: bool,
    isEnhancing: bool,
    error: Option<string>,
    title: string,
    logoName: Option<string>)

  /** The four views of the panel. */
  datatype View = Loading | ErrorView(message: string) | ImageView(url: string) | Placeholder

  /** A download link: its target and the file name it saves under. */
  datatype DownloadLink = DownloadLink(href: string, fileName: string)

  const DownloadFileName: string := "youtube_thumbnail.jpeg"
  const EnhancingLabel: string := "Enhancing..."
  const EnhanceLabel: string := "Enhance with AI"
  const LogoPrompt: string := "Upload Logo (Optional)"
  const LogoPrefix: string := "Logo: "

  /** `renderContent`: loading wins, then a truthy error, then a truthy image,
      and the placeholder otherwise. The error and image views show exactly
      the error text and the image URL. */
  function RenderContent(p: Props): (v: View)
    ensures v.Loading? <==> p.isLoading
    ensures v.ErrorView? <==> !p.isLoading && Truthy(p.error)
    ensures v.ImageView? <==> !p.isLoading && !Truthy(p.error) && Truthy(p.imageUrl)
    ensures v.Placeholder? <==> !p.isLoading && !Truthy(p.error) && !Truthy(p.imageUrl)
    ensures v.ErrorView? ==> v.message == p.error.value
    ensures v.ImageView? ==> v.url == p.imageUrl.value
  {
    if p.isLoading then Loading
    else if Truthy(p.error) then ErrorView(p.error.value)
    else if Truthy(p.imageUrl) then ImageView(p.imageUrl.value)
    else Placeholder
  }

  /** The enhance button, `disabled={isEnhancing || !title.trim()}`, is
      enabled exactly when no enhance is running and the title holds a
      character that is not whitespace. */
  predicate EnhanceEnabled(p: Props)
    ensures EnhanceEnabled(p) <==>
      !p.isEnhancing && exists i :: 0 <= i < |p.title| && !IsWhitespace(p.title[i])
  {
    !(p.isEnhancing || IsBlank(p.title))
  }

  /** The regenerate button, `disabled={isLoading}`. */
  predicate RegenerateEnabled(p: Props) {
    !p.isLoading
  }

  /** The enhance button's label: the progress label exactly while enhancing. */
  function EnhanceButtonLabel(p: Props): (text: string)
    ensures text == EnhancingLabel <==> p.isEnhancing
    ensures text == EnhanceLabel <==> !p.isEnhancing
  {
    if p.isEnhancing then EnhancingLabel else EnhanceLabel
  }

  /** `downloadImage`: nothing without a (truthy) image; otherwise a link to
      the image itself, saved under the fixed file name. */
  function Download(p: Props): (link: Option<DownloadLink>)
    ensures link.None? <==> !Truthy(p.imageUrl)
    ensures link.Some? ==> link.value.href == p.imageUrl.value && link.value.fileName == DownloadFileName
  {
    if !Truthy(p.imageUrl) then None else Some(DownloadLink(p.imageUrl.value, DownloadFileName))
  }

  /** The logo picker's label names the chosen logo after a fixed prefix, or
      prompts for one when there is no (truthy) logo name. The two forms
      cannot be confused, and the name can be read back from the label. */
  function LogoLabel(p: Props): (text: string)
    ensures Truthy(p.logoName) <==> |text| >= |LogoPrefix| && text[..|LogoPrefix|] == LogoPrefix
    ensures Truthy(p.logoName) ==> text[|LogoPrefix|..] == p.logoName.value
    ensures !Truthy(p.logoName) ==> text == LogoPrompt
  {
    if Truthy(p.logoName) then LogoPrefix + p.logoName.value
    else
      assert LogoPrompt[0] != LogoPrefix[0];
      LogoPrompt
  }

  /** The enhancing flag plays no part in choosing the view. */
  lemma ViewIgnoresEnhancing(p: Props, enhancing: bool)
    ensures RenderContent(p.(isEnhancing := enhancing)) == RenderContent(p)
  {
  }

  /** While an enhance runs over a shown image with no error, the image view
      stays up and its button reads "Enhancing...". */
  lemma EnhancingKeepsImage(p: Props)
    requires p.isEnhancing && !p.isLoading && !Truthy(p.error) && Truthy(p.imageUrl)
    ensures RenderContent(p) == ImageView(p.imageUrl.value)
    ensures EnhanceButtonLabel(p) == "Enhancing..."
  {
  }

  /** The regenerate button lives in the image view, which is only shown when
      not loading, so it is enabled whenever it is shown. */
  lemma RegenerateEnabledWhenShown(p: Props)
    requires RenderContent(p).ImageView?
    ensures RegenerateEnabled(p)
  {
  }

  /** The download button lives in the image view, so whenever it is shown
      clicking it produces a link to the shown image. */
  lemma DownloadWhenShown(p: Props)
    requires RenderContent(p).ImageView?
    ensures Download(p) == Some(DownloadLink(RenderContent(p).url, "youtube_thumbnail.jpeg"))
  {
  }
}
