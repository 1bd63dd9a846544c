/** The single-page app's own state: the language chosen with the navbar
    buttons, the active category, the footer search query, and the open
    modal with the page-scroll lock its mounted view holds. */
module PortfolioApp {
  import opened Wrappers
  import opened JsText
  import opened Catalog
  import opened FilterSearch
  import opened Media
  import opened Gallery

  /** The codes of the navbar's language buttons. */
  const SupportedLangs: seq<string> := ["en", "fr", "es", "zh"]

  class App {
    const themes: seq<Theme>
    var lang: string
    var activeFilter: string
    var searchQuery: string
    var modalProject: Option<Project>
    var modalTheme: Option<Theme>
    /** `document.body.style.overflow === 'hidden'`. */
    var scrollLocked: bool

    /** `modalProject && modalTheme`: the modal is rendered. */
    predicate ModalShown()
      reads this
    {
      modalProject.Some? && modalTheme.Some?
    }

    /** The language is one of the buttons' codes, and the page scroll is
        locked exactly while a modal is mounted. */
    predicate Valid()
      reads this
    {
      lang in SupportedLangs && scrollLocked == ModalShown()
    }

    constructor (themes: seq<Theme>)
      ensures Valid()
      ensures this.themes == themes && lang == "en" && activeFilter == All && searchQuery == ""
      ensures !ModalShown() && modalProject.None? && modalTheme.None?
    {
      this.themes := themes;
      lang := "en";
      activeFilter := All;
      searchQuery := "";
      modalProject := None;
      modalTheme := None;
      scrollLocked := false;
    }

    /** A language button: `setLang(l)`. */
    method SetLang(l: string)
      requires Valid() && l in SupportedLangs
      modifies this
      ensures Valid()
      ensures lang == l
      ensures activeFilter == old(activeFilter) && searchQuery == old(searchQuery)
      ensures modalProject == old(modalProject) && modalTheme == old(modalTheme) && scrollLocked == old(scrollLocked)
    {
      lang := l;
    }

    /** A category button: `'all'` or a theme id. */
    method SetActiveFilter(f: string)
      requires Valid()
      modifies this
      ensures Valid()
      ensures activeFilter == f
      ensures lang == old(lang) && searchQuery == old(searchQuery)
      ensures modalProject == old(modalProject) && modalTheme == old(modalTheme) && scrollLocked == old(scrollLocked)
    {
      activeFilter := f;
    }

    /** Typing in the footer search box. */
    method SetSearchQuery(q: string)
      requires Valid()
      modifies this
      ensures Valid()
      ensures searchQuery == q
      ensures lang == old(lang) && activeFilter == old(activeFilter)
      ensures modalProject == old(modalProject) && modalTheme == old(modalTheme) && scrollLocked == old(scrollLocked)
    {
      searchQuery := q;
    }

    /** A key in the footer search box: Enter with a non-blank query shows
        every category (the scroll to the grid is not modelled). */
    method SearchKeyDown(key: string)
      requires Valid()
      modifies this
      ensures Valid()
      ensures key == "Enter" && !IsBlank(searchQuery) ==> activeFilter == All
      ensures !(key == "Enter" && !IsBlank(searchQuery)) ==> activeFilter == old(activeFilter)
      ensures lang == old(lang) && searchQuery == old(searchQuery)
      ensures modalProject == old(modalProject) && modalTheme == old(modalTheme) && scrollLocked == old(scrollLocked)
    {
      TrimEmptyIffBlank(searchQuery);
      if key == "Enter" && Trim(searchQuery) != "" {
        activeFilter := All;
      }
    }

    /** The footer search button shows every category. */
    method SearchButtonClick()
      requires Valid()
      modifies this
      ensures Valid()
      ensures activeFilter == All
      ensures lang == old(lang) && searchQuery == old(searchQuery)
      ensures modalProject == old(modalProject) && modalTheme == old(modalTheme) && scrollLocked == old(scrollLocked)
    {
      activeFilter := All;
    }

    /** `openModal(project, theme)`, called by a card with its own pair;
        the modal view mounts and locks the page scroll. */
    method OpenModal(project: Project, theme: Theme)
      requires Valid()
      modifies this
      ensures Valid() && ModalShown()
      ensures modalProject == Some(project) && modalTheme == Some(theme) && scrollLocked
      ensures lang == old(lang) && activeFilter == old(activeFilter) && searchQuery == old(searchQuery)
    {
      modalProject := Some(project);
      modalTheme := Some(theme);
      scrollLocked := true;
    }

    /** A click on a card of the grid opens that card's own pair. */
    method ClickCard(card: Item)
      requires Valid()
      modifies this
      ensures Valid() && ModalShown()
      ensures modalProject == Some(card.project) && modalTheme == Some(card.theme)
      ensures lang == old(lang) && activeFilter == old(activeFilter) && searchQuery == old(searchQuery)
    {
      OpenModal(card.project, card.theme);
    }

    /** `closeModal()` (close button, backdrop, Escape): both fields are
        cleared, the view unmounts and the page scroll is released. */
    method CloseModal()
      requires Valid()
      modifies this
      ensures Valid() && !ModalShown()
      ensures modalProject == None && modalTheme == None && !scrollLocked
      ensures lang == old(lang) && activeFilter == old(activeFilter) && searchQuery == old(searchQuery)
    {
      modalProject := None;
      modalTheme := None;
      scrollLocked := false;
    }

    /** A key pressed while the modal is open: the view's handler runs, and
        Escape closes the modal whatever the project type. */
    method ModalKeyDown(view: ProjectModalView, key: string)
      requires Valid() && ModalShown() && view.Valid()
      requires view.project == modalProject.value && CanNavigate(view.project, key)
      modifies this, view
      ensures Valid() && view.Valid()
      ensures IsGallery(view.project) && key == "ArrowRight"
              ==> view.galleryIdx == Next(old(view.galleryIdx), |view.project.images.value|)
      ensures IsGallery(view.project) && key == "ArrowLeft"
              ==> view.galleryIdx == Prev(old(view.galleryIdx), |view.project.images.value|)
      ensures !(IsGallery(view.project) && (key == "ArrowRight" || key == "ArrowLeft"))
              ==> view.galleryIdx == old(view.galleryIdx)
      ensures key == "Escape" ==> !ModalShown() && !scrollLocked
      ensures key != "Escape" ==> modalProject == old(modalProject) && modalTheme == old(modalTheme)
      ensures lang == old(lang) && activeFilter == old(activeFilter) && searchQuery == old(searchQuery)
    {
      var close := view.HandleKey(key);
      if close {
        CloseModal();
      }
    }

    /** The cards of the grid for the current state. */
    method FilteredProjects() returns (items: seq<Item>)
      ensures items == Visible(themes, activeFilter, searchQuery, lang)
    {
      items := GetFilteredProjects(themes, activeFilter, searchQuery, lang);
    }
  }

  /** After the footer search, the grid shows every pair of the catalog
      that matches the query, whatever category was selected before. */
  lemma FooterSearchSearchesEverything(themes: seq<Theme>, query: string, lang: string, it: Item)
    requires !IsBlank(query)
    ensures it in Visible(themes, All, query, lang) <==> it in Flatten(themes) && Matches(it, query, lang)
  {
    SearchKeepsExactlyMatches(themes, All, query, lang, it);
  }
}
