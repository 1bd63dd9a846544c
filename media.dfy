/** What a project shows: the card thumbnail and overlay glyph
    (`getThumbnail`, `overlayIcon`), the modal's first-match-wins
    `renderMedia`, whether the gallery controls appear, and the hrefs of the
    modal's action links. `base` is the site's asset base path, an opaque
    prefix. */
module Media {
  import opened Wrappers
  import opened JsText
  import opened Catalog

  /** JavaScript truthiness of an optional string field. */
  predicate Truthy(o: Option<string>) {
    o.Some? && o.value != ""
  }

  /** A possibly missing string as a template literal renders it. */
  function JsStr(o: Option<string>): (r: string)
    ensures o.None? ==> r == "undefined"
    ensures o.Some? ==> r == o.value
  {
    if o.Some? then o.value else "undefined"
  }

  /** `arr[i]` as a template literal renders it: "undefined" out of range. */
  function JsAt(s: seq<string>, i: int): (r: string)
    ensures 0 <= i < |s| ==> r == s[i]
    ensures !(0 <= i < |s|) ==> r == "undefined"
  {
    if 0 <= i < |s| then s[i] else "undefined"
  }

  /** `project.images && project.images.length > 0`. */
  predicate HasImages(p: Project) {
    p.images.Some? && |p.images.value| > 0
  }

  // ---------------------------------------------------------------- card

  datatype Thumbnail = ThumbImage(src: string) | ThumbVideo(src: string) | ThumbPlaceholder(glyph: string)

  const DefaultCategoryIcon := "📁"

  /** The category glyphs of the single-file app. */
  const AppCategoryIcons: map<string, string> :=
    map["web" := "🌐", "video" := "🎬", "design" := "🎨", "documents" := "📄", "prototype" := "📱"]

  /** `categoryIcons[theme.id] || '📁'`. */
  function CategoryIcon(icons: map<string, string>, id: string): (r: string)
    ensures r != ""
    ensures id in icons && icons[id] != "" ==> r == icons[id]
    ensures !(id in icons && icons[id] != "") ==> r == DefaultCategoryIcon
  {
    if id in icons && icons[id] != "" then icons[id] else DefaultCategoryIcon
  }

  /** `getThumbnail()`: the first image, else the single image, else the
      video of a video project, else the category placeholder. */
  function GetThumbnail(p: Project, th: Theme, base: string, icons: map<string, string>): (r: Thumbnail)
    ensures r.ThumbImage? <==> HasImages(p) || Truthy(p.image)
    ensures r.ThumbVideo? <==> !HasImages(p) && !Truthy(p.image) && p.kind == "video" && Truthy(p.src)
    ensures r.ThumbVideo? ==> r.src == base + p.src.value
    ensures r.ThumbPlaceholder? ==> r.glyph == CategoryIcon(icons, th.id)
  {
    if HasImages(p) then ThumbImage(base + p.images.value[0])
    else if Truthy(p.image) then ThumbImage(base + p.image.value)
    else if p.kind == "video" && Truthy(p.src) then ThumbVideo(base + p.src.value)
    else ThumbPlaceholder(CategoryIcon(icons, th.id))
  }

  /** A non-empty `images` wins over `image` and over a video. */
  lemma ThumbnailPrefersImages(p: Project, th: Theme, base: string, icons: map<string, string>)
    requires HasImages(p)
    ensures GetThumbnail(p, th, base, icons) == ThumbImage(base + p.images.value[0])
  {
  }

  /** `image` is used exactly when `images` is absent or empty. */
  lemma ThumbnailUsesImageWithoutImages(p: Project, th: Theme, base: string, icons: map<string, string>)
    requires Truthy(p.image)
    ensures !HasImages(p) ==> GetThumbnail(p, th, base, icons) == ThumbImage(base + p.image.value)
    ensures HasImages(p) ==> GetThumbnail(p, th, base, icons) == ThumbImage(base + p.images.value[0])
  {
  }

  /** Without a usable asset the card shows its category's glyph. */
  lemma ThumbnailPlaceholder(p: Project, th: Theme, base: string, icons: map<string, string>)
    requires !HasImages(p) && !Truthy(p.image) && !(p.kind == "video" && Truthy(p.src))
    ensures GetThumbnail(p, th, base, icons) == ThumbPlaceholder(CategoryIcon(icons, th.id))
    ensures th.id !in icons ==> GetThumbnail(p, th, base, icons) == ThumbPlaceholder(DefaultCategoryIcon)
  {
  }

  /** With the single-file app's glyph map, a web theme's placeholder is the
      globe and an unknown theme's is the folder. */
  lemma AppPlaceholderGlyphs(p: Project, th: Theme, base: string)
    requires !HasImages(p) && !Truthy(p.image) && !(p.kind == "video" && Truthy(p.src))
    ensures th.id == "web" ==> GetThumbnail(p, th, base, AppCategoryIcons) == ThumbPlaceholder("🌐")
    ensures th.id !in AppCategoryIcons ==> GetThumbnail(p, th, base, AppCategoryIcons) == ThumbPlaceholder("📁")
  {
  }

  const KnownKinds: set<string> := {"video", "web", "pdf", "image-gallery"}

  /** `overlayIcon()`: a glyph for each known project type, an eye otherwise. */
  function OverlayIcon(kind: string): (r: string)
    ensures r in {"▶", "↗", "📥", "🖼", "👁"}
    ensures r == "👁" <==> kind !in KnownKinds
    ensures kind == "video" ==> r == "▶"
    ensures kind == "web" ==> r == "↗"
    ensures kind == "pdf" ==> r == "📥"
    ensures kind == "image-gallery" ==> r == "🖼"
  {
    match kind
    case "video" => "▶"
    case "web" => "↗"
    case "pdf" => "📥"
    case "image-gallery" => "🖼"
    case _ => "👁"
  }

  /** Distinct known types never share an overlay glyph. */
  lemma OverlayIconDistinguishesKinds(k1: string, k2: string)
    requires k1 in KnownKinds && k2 in KnownKinds && k1 != k2
    ensures OverlayIcon(k1) != OverlayIcon(k2)
  {
  }

  // --------------------------------------------------------------- modal

  /** The element `renderMedia()` returns; `NoMedia` is its `null`. */
  datatype MediaView = VideoPlayer(src: string) | StaticImage(src: string) | Frame(src: string) | NoMedia

  /** `link.startsWith('http')`: the link is treated as absolute. */
  predicate IsAbsoluteLink(link: string) {
    StartsWith(link, "http")
  }

  /** `project.images?.[0]` is truthy. */
  predicate FirstImageTruthy(p: Project) {
    HasImages(p) && p.images.value[0] != ""
  }

  /** `renderMedia()`: the first branch whose test holds decides. The pdf
      branch does not look at `src`; a gallery with an index past its
      images renders the string "undefined". */
  function RenderMedia(p: Project, galleryIdx: int, base: string): (r: MediaView)
    ensures r.VideoPlayer? <==> p.kind == "video" && Truthy(p.src)
    ensures r.NoMedia? <==> !(p.kind == "video" && Truthy(p.src)) && !(p.kind == "web" && Truthy(p.link))
                            && p.kind != "pdf" && !(p.kind == "image-gallery" && p.images.Some?)
  {
    if p.kind == "video" && Truthy(p.src) then VideoPlayer(base + p.src.value)
    else if p.kind == "web" && Truthy(p.link) then
      if IsAbsoluteLink(p.link.value) then
        if FirstImageTruthy(p) then StaticImage(base + p.images.value[0]) else Frame(p.link.value)
      else Frame(base + p.link.value)
    else if p.kind == "pdf" then
      if Truthy(p.image) then StaticImage(base + p.image.value) else Frame(base + JsStr(p.src))
    else if p.kind == "image-gallery" && p.images.Some? then
      StaticImage(base + JsAt(p.images.value, galleryIdx))
    else NoMedia
  }

  /** A video with a source plays, whatever images, image or link hold. */
  lemma VideoWins(p: Project, galleryIdx: int, base: string)
    requires p.kind == "video" && Truthy(p.src)
    ensures RenderMedia(p, galleryIdx, base) == VideoPlayer(base + p.src.value)
  {
  }

  /** A web project with an absolute link shows its first image when it has
      one and otherwise frames the raw link. */
  lemma WebAbsoluteLink(p: Project, galleryIdx: int, base: string)
    requires p.kind == "web" && Truthy(p.link) && IsAbsoluteLink(p.link.value)
    ensures FirstImageTruthy(p) ==> RenderMedia(p, galleryIdx, base) == StaticImage(base + p.images.value[0])
    ensures !FirstImageTruthy(p) ==> RenderMedia(p, galleryIdx, base) == Frame(p.link.value)
  {
  }

  /** A web project with any other link frames it under the base path. */
  lemma WebRelativeLink(p: Project, galleryIdx: int, base: string)
    requires p.kind == "web" && Truthy(p.link) && !IsAbsoluteLink(p.link.value)
    ensures RenderMedia(p, galleryIdx, base) == Frame(base + p.link.value)
  {
  }

  /** A pdf shows its preview image if any, otherwise frames its source,
      which renders as "undefined" when the source is missing. */
  lemma PdfPreviewOrFrame(p: Project, galleryIdx: int, base: string)
    requires p.kind == "pdf"
    ensures Truthy(p.image) ==> RenderMedia(p, galleryIdx, base) == StaticImage(base + p.image.value)
    ensures !Truthy(p.image) && p.src.Some? ==> RenderMedia(p, galleryIdx, base) == Frame(base + p.src.value)
    ensures !Truthy(p.image) && p.src.None? ==> RenderMedia(p, galleryIdx, base) == Frame(base + "undefined")
  {
  }

  /** A gallery shows the image at the current index. */
  lemma GalleryShowsCurrentImage(p: Project, galleryIdx: int, base: string)
    requires p.kind == "image-gallery" && p.images.Some? && 0 <= galleryIdx < |p.images.value|
    ensures RenderMedia(p, galleryIdx, base) == StaticImage(base + p.images.value[galleryIdx])
  {
  }

  /** Every type outside the four known ones renders no media. */
  lemma UnknownKindHasNoMedia(p: Project, galleryIdx: int, base: string)
    requires p.kind !in KnownKinds
    ensures RenderMedia(p, galleryIdx, base) == NoMedia
  {
  }

  /** The gallery's previous/next buttons and dots are rendered. */
  predicate GalleryControlsShown(p: Project) {
    p.kind == "image-gallery" && p.images.Some? && |p.images.value| > 1
  }

  /** The "view live" link: only for a web project with a link; an absolute
      link is used as it is, any other is put under the base path. */
  function ViewLiveHref(p: Project, base: string): (r: Option<string>)
    ensures r.Some? <==> p.kind == "web" && Truthy(p.link)
    ensures r.Some? && IsAbsoluteLink(p.link.value) ==> r.value == p.link.value
    ensures r.Some? && !IsAbsoluteLink(p.link.value) ==> r.value == base + p.link.value
  {
    if p.kind == "web" && Truthy(p.link) then
      Some(if IsAbsoluteLink(p.link.value) then p.link.value else base + p.link.value)
    else None
  }

  /** The download link: only for a pdf with a source, under the base path. */
  function DownloadHref(p: Project, base: string): (r: Option<string>)
    ensures r.Some? <==> p.kind == "pdf" && Truthy(p.src)
    ensures r.Some? ==> r.value == base + p.src.value
  {
    if p.kind == "pdf" && Truthy(p.src) then Some(base + p.src.value) else None
  }

  /** When a web project's media is a frame, it frames the page the "view
      live" link opens. */
  lemma WebFrameIsLiveLink(p: Project, galleryIdx: int, base: string)
    requires p.kind == "web" && Truthy(p.link)
    requires RenderMedia(p, galleryIdx, base).Frame?
    ensures ViewLiveHref(p, base) == Some(RenderMedia(p, galleryIdx, base).src)
  {
  }

  /** When a pdf with a source is framed, the frame shows the document the
      download link points to. */
  lemma PdfFrameIsDownload(p: Project, galleryIdx: int, base: string)
    requires p.kind == "pdf" && Truthy(p.src) && !Truthy(p.image)
    ensures DownloadHref(p, base) == Some(RenderMedia(p, galleryIdx, base).src)
  {
  }
}
