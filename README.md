# Portfolio site core, modelled in Dafny

The portfolio is a single-page React site. It shows projects grouped into
themes (categories), a category filter, a footer search box, project cards,
and a project modal with an image gallery. The text is localized in four
languages. This model covers the logic under the markup:

- **Localized text** (`localize.dfy`). `t(obj, lang)` and the context's
  `tObj(obj)` turn a missing value, a plain string, or a `{lang: string}`
  object into one string. For an object the fallback order is: the
  requested language, then `en`, then `""`. JavaScript's `||` treats an
  empty entry as missing. The language provider (`LanguageStore`) holds
  `lang` and the stored `'lang'` key of local storage.
  - It starts from the stored value when that value is non-empty, else
    `en`.
  - `switchLanguage` writes both the state and the stored key.
  - `i18n` is the current language's bundle.
  - `useLanguage` fails outside a provider.
- **Catalog and filter/search** (`catalog.dfy`, `filter_search.dfy`).
  `getFilteredProjects` flattens the themes into `(project, theme)` pairs,
  in theme order and then project order. It keeps only the pairs of the
  active category, or every pair for `'all'`. When the trimmed query is
  non-empty, it keeps only the pairs whose lower-cased resolved title or
  description contains the lower-cased query. That query is *not*
  trimmed. The method `GetFilteredProjects` keeps the source's nested push
  loops and its filter pass, and is proved equal to the specification
  `Visible`.
- **Media selection** (`media.dfy`).
  - The card thumbnail takes the first match of: `images[0]`, `image`, a
    video of a video project, the category glyph. The overlay glyph
    depends only on the type.
  - The modal's `renderMedia` is a first-match-wins dispatch over
    `type`. It returns no media (`null`) when no branch applies.
  - The modal's "view live" and download hrefs are modelled too. `base`
    stands for the site's asset base path and is treated as an opaque
    prefix.
- **Gallery** (`gallery.dfy`). `galleryIdx` starts at 0 when the modal
  mounts. The arrows and the ‹/› buttons step it modulo `|images|`, and a
  dot click jumps to that dot. The class `ProjectModalView` keeps the
  index in range, so a gallery with images always shows a real image.
- **App state** (`app.dfy`). The class `App` holds:
  - the language chosen with the navbar buttons;
  - the active category and the footer query;
  - the open modal (`modalProject`, `modalTheme`);
  - the page-scroll lock that the mounted modal holds.

  Its invariant says the scroll is locked exactly while the modal is
  shown. Enter with a non-blank query, or the search button, resets the
  category to `'all'`.

`src/App.jsx` also has its own copies of `ProjectCard` (lines 36-88) and
`ProjectModal` (lines 91-172). Their rendering logic is the same as the
component files', so each is modelled once and the table cites the
component files. They differ in where `lang`, `i18n` and the glyph map
come from:
- The copies take `lang` and `i18n` as props and call `t(…, lang)`
  (`src/App.jsx:36-39`, `91-94`). The components read them from
  `useLanguage()` (`ProjectCard.jsx:8-11`, `ProjectModal.jsx:8-11`).
- The app's `lang` is always one of the four button codes. The context's
  `lang` is the stored value, which is not checked.
- The single-file app's category glyphs are the constant map at
  `src/App.jsx:20-26`, which is `Media.AppCategoryIcons`. The component
  reads `data/categoryIcons`, which is not part of this model, so
  `GetThumbnail` takes the glyph map as a parameter.

In these places the model follows the code, which a reader might not
expect:
- Neither the stored language nor `switchLanguage`'s argument is checked
  against `en/fr/es/zh`.
- Matching uses the untrimmed query.
- The modal shows nothing, not a placeholder, when no branch applies.
- The `pdf` branch frames `BASE + src` even when `src` is missing. The
  template literal then renders `"undefined"`.
- There is no contact-submission logic: the form only calls
  `preventDefault`.

## Model

| member | source | states |
|---|---|---|
| `JsText.TrimEmptyIffBlank` | src/App.jsx:223 | `query.trim()` is empty exactly when every character of the query is JavaScript whitespace, so the emptiness test means "the query is blank" |
| `JsText.ContainsIffOccurs` | src/App.jsx:227 | the scanning `includes` is true exactly when the needle occurs as a contiguous slice at some position of the text |
| `JsText.Lower` | src/App.jsx:225-227 | lower-casing keeps the length and maps each ASCII capital to its small letter, leaving every other character alone |
| `Localize.Resolve` | src/App.jsx:13-17 | missing text gives ""; a plain string is returned unchanged; for an object the result is "" or one of its entries, is the requested language's entry whenever that is non-empty, and is "" exactly when neither the requested language nor `en` has a non-empty entry |
| `Localize.ResolveIsFallbackChain` | src/context/LanguageContext.jsx:21-28 | resolving an object equals walking the fallback chain [requested language, `en`] and taking the first non-empty entry, else "" |
| `Localize.ResolveFallsBackToEnglish` | src/App.jsx:16 | a language with a missing or empty entry reads exactly as English does |
| `Localize.ResolvePlainIgnoresLanguage` | src/App.jsx:15 | a plain string resolves to itself in every language |
| `Localize.InitialLang` | src/context/LanguageContext.jsx:11 | the starting language is never empty: it is the stored value when that is a non-empty string, otherwise `en` |
| `Localize.InitialLangNotValidated` | src/context/LanguageContext.jsx:11 | any non-empty stored code, supported or not, becomes the starting language |
| `Localize.Switched` | src/context/LanguageContext.jsx:13-16 | after `switchLanguage(l)` both the current language and the stored key hold `l` |
| `Localize.SwitchIdempotent` | src/context/LanguageContext.jsx:13-16 | switching to the same language twice leaves the same state as switching once |
| `Localize.SwitchPersists` | src/context/LanguageContext.jsx:11-16 | after a switch to a non-empty code, re-reading the stored key at start-up gives back the current language |
| `Localize.LanguageStore.constructor` | src/context/LanguageContext.jsx:11 | the provider starts from the stored value by the start-up rule and leaves the store untouched |
| `Localize.LanguageStore.SwitchLanguage` | src/context/LanguageContext.jsx:13-16 | the new state is the switched state of the old one: language and stored key both set to the argument |
| `Localize.LanguageStore.I18n` | src/context/LanguageContext.jsx:18 | `i18n` is the bundle of the current language, and undefined exactly when that language has no bundle |
| `Localize.LanguageStore.TObj` | src/context/LanguageContext.jsx:21-28 | `tObj` is the resolver applied with the provider's current language |
| `Localize.UseLanguage` | src/context/LanguageContext.jsx:37-40 | the hook fails, with the provider error message, exactly when there is no provider, and otherwise returns the context unchanged |
| `Catalog.FlattenLength` | src/App.jsx:189 | the project count computed by `reduce` equals the number of pairs in the flattened catalog |
| `Catalog.FlattenConcat` | src/App.jsx:216-222 | flattening keeps theme order: the pairs of earlier themes all come before those of later themes |
| `Catalog.FlattenMembers` | src/App.jsx:216-222 | a pair is in the flattened catalog exactly when its theme is in the catalog and its project is in that theme |
| `Catalog.Filter` | src/App.jsx:224-228 | the filtered sequence is no longer than the input, and every element kept occurs in the input and satisfies the predicate |
| `Catalog.FilterConcat` | src/App.jsx:215-229 | filtering a concatenation is the concatenation of the filtered parts, so filtering while pushing equals filtering afterwards |
| `Catalog.FilterMembers` | src/App.jsx:224-228 | an element is kept exactly when it occurs in the input and satisfies the predicate |
| `Catalog.FilterKeepsAll` | src/App.jsx:224 | a predicate that holds everywhere keeps the sequence unchanged |
| `Catalog.FilterDropsAll` | src/App.jsx:224 | a predicate that holds nowhere yields the empty sequence |
| `Catalog.FilterIsSubseq` | src/App.jsx:224-228 | the filter result is an order-preserving subsequence of its input |
| `Catalog.SubseqTransitive` | src/App.jsx:215-230 | a subsequence of a subsequence is a subsequence, so the category pass followed by the search pass still preserves catalog order |
| `FilterSearch.GetFilteredProjects` | src/App.jsx:214-231 | the nested push loops followed by the query filter produce exactly the visible pairs: the category-selected pairs in catalog order, further filtered by the query when it is not blank |
| `FilterSearch.VisibleIsSubseq` | src/App.jsx:214-231 | what the grid shows is always an order-preserving subsequence of the flattened catalog |
| `FilterSearch.AllWithBlankQuery` | src/App.jsx:214-222 | with `'all'` and a blank query every pair is shown in theme-then-project order, and there are as many as the project count |
| `FilterSearch.ThemeItemsSelection` | src/App.jsx:218 | the pairs of one theme are selected all together or dropped all together |
| `FilterSearch.CategoryFilterFlattensSelectedThemes` | src/App.jsx:216-222 | selecting pairs by category equals flattening only the selected themes, so each selected theme contributes all its projects in their original order |
| `FilterSearch.CategoryWithBlankQuery` | src/App.jsx:216-222 | with a category id and a blank query the grid shows the projects of the themes with that id in catalog order, and every shown pair has that theme id |
| `FilterSearch.UniqueCategoryWithBlankQuery` | src/App.jsx:216-222 | when exactly one theme carries the id, a blank query shows exactly that theme's projects, in order |
| `FilterSearch.SearchKeepsExactlyMatches` | src/App.jsx:223-228 | with a non-blank query a pair is shown exactly when it is in the catalog, its category is selected, and its lower-cased resolved title or description contains the lower-cased query; a dropped pair of a selected category matches in neither |
| `FilterSearch.SearchOnlyRemoves` | src/App.jsx:223-230 | any query yields a subsequence of the same category selection without a query: search removes pairs and never reorders them |
| `FilterSearch.SearchDependsOnLanguage` | src/App.jsx:225-227 | search reads the current language's text: a project titled "Chat" in French and "Cat" in English is found by "chat" in French and not in English |
| `Media.JsStr` | src/components/ProjectModal/ProjectModal.jsx:44 | a missing string interpolated into a template literal renders as "undefined" |
| `Media.JsAt` | src/components/ProjectModal/ProjectModal.jsx:47 | reading an image list inside its bounds gives that image; outside them it renders as "undefined" |
| `Media.CategoryIcon` | src/components/ProjectCard/ProjectCard.jsx:23 | the placeholder glyph is never empty: it is the theme's glyph when the map has a non-empty one, otherwise the folder glyph |
| `Media.GetThumbnail` | src/components/ProjectCard/ProjectCard.jsx:13-24 | exactly one kind of thumbnail is chosen: an image exactly when there is a non-empty `images` or an `image`, a video exactly when neither exists and the project is a video with a source (its source is `BASE + src`), otherwise the category placeholder |
| `Media.AppPlaceholderGlyphs` | src/App.jsx:19-53 | with the single-file app's glyph map, a project with no image and no playable video shows 🌐 for a web theme and 📁 for a theme id the map lacks |
| `Media.ThumbnailPrefersImages` | src/components/ProjectCard/ProjectCard.jsx:14-16 | a non-empty `images` makes the thumbnail its first image, whatever `image`, type or source hold |
| `Media.ThumbnailUsesImageWithoutImages` | src/components/ProjectCard/ProjectCard.jsx:17-19 | `image` is shown only when `images` is absent or empty; otherwise `images[0]` still wins |
| `Media.ThumbnailPlaceholder` | src/components/ProjectCard/ProjectCard.jsx:23 | without a usable asset the card shows its category glyph, and the folder glyph for an unknown category |
| `Media.OverlayIcon` | src/components/ProjectCard/ProjectCard.jsx:26-34 | the overlay glyph is one of five: ▶ for video, ↗ for web, 📥 for pdf, 🖼 for image-gallery, and the eye exactly when the type is none of these |
| `Media.OverlayIconDistinguishesKinds` | src/components/ProjectCard/ProjectCard.jsx:26-34 | two different known types never share an overlay glyph |
| `Media.RenderMedia` | src/components/ProjectModal/ProjectModal.jsx:29-50 | the modal plays a video exactly when the project is a video with a source, and shows nothing exactly when none of the four branch tests holds |
| `Media.VideoWins` | src/components/ProjectModal/ProjectModal.jsx:30-32 | a video with a source always plays that source, whatever `images`, `image` or `link` hold |
| `Media.WebAbsoluteLink` | src/components/ProjectModal/ProjectModal.jsx:34-38 | a web project whose link starts with "http" shows `images[0]` when it is truthy, else frames the raw link |
| `Media.WebRelativeLink` | src/components/ProjectModal/ProjectModal.jsx:39 | a web project with any other link frames the link under the base path |
| `Media.PdfPreviewOrFrame` | src/components/ProjectModal/ProjectModal.jsx:41-45 | a pdf shows its `image` preview if present; otherwise it frames `BASE + src`, rendering "undefined" when `src` is missing |
| `Media.GalleryShowsCurrentImage` | src/components/ProjectModal/ProjectModal.jsx:46-48 | a gallery with an in-range index shows the image at that index |
| `Media.UnknownKindHasNoMedia` | src/components/ProjectModal/ProjectModal.jsx:49 | any type other than the four known ones renders no media at all |
| `Media.ViewLiveHref` | src/components/ProjectModal/ProjectModal.jsx:74-78 | the "view live" link exists exactly for a web project with a link; its href is the link itself when it starts with "http", else the link under the base path |
| `Media.DownloadHref` | src/components/ProjectModal/ProjectModal.jsx:79-83 | the download link exists exactly for a pdf with a source, and points at the source under the base path |
| `Media.WebFrameIsLiveLink` | src/components/ProjectModal/ProjectModal.jsx:33-40 | whenever a web project's media is a frame, it frames the same address the "view live" link opens |
| `Media.PdfFrameIsDownload` | src/components/ProjectModal/ProjectModal.jsx:41-45 | a pdf with a source and no preview frames the same document the download link points to |
| `Gallery.Next` | src/components/ProjectModal/ProjectModal.jsx:17 | the forward step stays in `[0, n)`: it moves to the following image and wraps from the last one to the first |
| `Gallery.Prev` | src/components/ProjectModal/ProjectModal.jsx:18 | the backward step stays in `[0, n)`: it moves to the preceding image and wraps from the first one to the last |
| `Gallery.PrevAfterNext` | src/components/ProjectModal/ProjectModal.jsx:17-18 | stepping forward and then back returns to the same index |
| `Gallery.NextAfterPrev` | src/components/ProjectModal/ProjectModal.jsx:17-18 | stepping back and then forward returns to the same index |
| `Gallery.NextStepsIsOffset` | src/components/ProjectModal/ProjectModal.jsx:17 | `k` forward presses from `i` land on `(i + k) mod n` |
| `Gallery.FullTourReturns` | src/components/ProjectModal/ProjectModal.jsx:17 | `n` forward presses in an `n`-image gallery come back to the starting image |
| `Gallery.ProjectModalView.constructor` | src/components/ProjectModal/ProjectModal.jsx:9 | a freshly mounted modal starts at index 0, which satisfies the bounds invariant |
| `Gallery.ProjectModalView.HandleKey` | src/components/ProjectModal/ProjectModal.jsx:14-19 | Escape requests closing for every type; in a gallery the arrows step the index forward or back with wrap-around; every other key and type leaves the index alone; the bounds invariant is kept |
| `Gallery.ProjectModalView.ClickPrev` | src/components/ProjectModal/ProjectModal.jsx:61 | the ‹ button steps back with wrap-around and keeps the index in bounds |
| `Gallery.ProjectModalView.ClickNext` | src/components/ProjectModal/ProjectModal.jsx:67 | the › button steps forward with wrap-around and keeps the index in bounds |
| `Gallery.ProjectModalView.ClickDot` | src/components/ProjectModal/ProjectModal.jsx:63-65 | clicking dot `i` sets the index to `i` |
| `Gallery.ProjectModalView.ActiveDotIsShownImage` | src/components/ProjectModal/ProjectModal.jsx:62-65 | the dot marked active is the one for the image the modal shows |
| `Gallery.ProjectModalView.Shown` | src/components/ProjectModal/ProjectModal.jsx:46-47 | thanks to the bounds invariant, a gallery with images always shows one of its images, never "undefined" |
| `PortfolioApp.App.constructor` | src/App.jsx:176-183 | the app starts in English, with `'all'`, an empty query, no modal and the page scroll free |
| `PortfolioApp.App.SetLang` | src/App.jsx:259-263 | a language button sets the language to its code and changes nothing else |
| `PortfolioApp.App.SetActiveFilter` | src/App.jsx:389-404 | a category button sets the active filter and changes nothing else |
| `PortfolioApp.App.SetSearchQuery` | src/App.jsx:497 | typing sets the query and changes nothing else |
| `PortfolioApp.App.SearchKeyDown` | src/App.jsx:498-503 | Enter with a non-blank query sets the filter to `'all'`; any other key, or a blank query, leaves it unchanged |
| `PortfolioApp.App.SearchButtonClick` | src/App.jsx:505 | the search button always sets the filter to `'all'` |
| `PortfolioApp.App.OpenModal` | src/App.jsx:233-236 | opening sets both the project and the theme, so the modal is shown and the page scroll is locked |
| `PortfolioApp.App.ClickCard` | src/components/ProjectCard/ProjectCard.jsx:37 | clicking a card opens the modal on exactly that card's own project and theme |
| `PortfolioApp.App.CloseModal` | src/App.jsx:238-241 | closing clears both the project and the theme, so the modal is no longer shown and the page scroll is released |
| `PortfolioApp.App.ModalKeyDown` | src/components/ProjectModal/ProjectModal.jsx:13-19 | Escape inside the modal closes it and releases the scroll, whatever the project type; other keys keep the modal open; in a gallery the right and left arrows move the index to the next and previous image with wrap-around, and otherwise the index is unchanged |
| `PortfolioApp.App.FilteredProjects` | src/App.jsx:408 | the grid renders the visible pairs of the current filter, query and language |
| `PortfolioApp.FooterSearchSearchesEverything` | src/App.jsx:498-505 | after the footer search resets the filter, a pair is shown exactly when it is in the catalog and matches the query, whatever category was selected before |

## Left out

- `Localize.Resolve`: a key lookup finds only the map's own entries. JavaScript's lookup also finds inherited properties such as `constructor`, `toString` or `__proto__`, which is not modelled.
- `Localize.LanguageStore.I18n`: a stored language such as `constructor` would find an inherited `Object.prototype` member in the source; the model finds only bundle entries.
- `Media.CategoryIcon`: a theme id such as `toString` would find an inherited property in the source; the model finds only the map's own glyphs.
- JSX markup, CSS classes, animation delays, and the Hero, About, Portfolio, Footer, Navbar and Contact components. They only render bundle strings and forward props.
- Alt texts, iframe titles, and the video attributes (controls, autoplay, muted, preload). They do not change which medium is chosen.
- Scroll tracking (`getBoundingClientRect`, the `scrolled` threshold), `scrollTo` with `scrollIntoView`, and the mobile menu toggle. These are browser geometry and DOM calls. The footer search's scroll to the grid is not modelled either.
- `addEventListener`/`removeEventListener` wiring. The `body.style.overflow` effect is modelled only as the boolean `App.scrollLocked`.
- React's re-rendering when the language changes. `FilteredProjects` is recomputed from the current state on demand.
- Local storage is the field `LanguageStore.stored`, not real storage.
- The projects JSON, the i18n bundles and `data/categoryIcons` are not part of this model. They are inputs: the themes, the translation map, and the glyph map parameter.
- `Gallery.ProjectModalView.HandleKey`: for a gallery whose `images` is an empty array, the arrow keys would make the index NaN. The model requires a non-empty list for the arrows and does not model NaN.
- `JsText.Lower`: lower-cases ASCII letters only. Unicode case mapping, including mappings that change the length, is not modelled.
- Project fields are modelled as strings or missing. JSON values of other types, such as numbers or `null`, are not modelled.
- `PortfolioApp.App.SetLang`: requires one of the four button codes, since only the buttons call it. The language context's `switchLanguage` accepts any code, and `Localize.LanguageStore.SwitchLanguage` models it that way.
- There is no contact-form state machine: the source form only calls `preventDefault`.
- The site under `webs/RSEQ-redopage/js/main.js` (mouse-follow effects and an `IntersectionObserver`) is not part of this model. It has DOM side effects only.
