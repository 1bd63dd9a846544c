/** The portfolio grid's `getFilteredProjects`: the catalog flattened into
    `(project, theme)` pairs, restricted to the active category, then, when
    the query is not blank, to the pairs whose resolved title or description
    contains the query, ignoring case. */
module FilterSearch {
  import opened Wrappers
  import opened Localize
  import opened JsText
  import opened Catalog

  /** The filter value that selects every category. */
  const All := "all"

  /** `activeFilter === 'all' || activeFilter === theme.id`. */
  predicate ThemeSelected(activeFilter: string, th: Theme) {
    activeFilter == All || activeFilter == th.id
  }

  function ThemeIs(activeFilter: string): Theme -> bool {
    (th: Theme) => ThemeSelected(activeFilter, th)
  }

  function ByTheme(activeFilter: string): Item -> bool {
    (it: Item) => ThemeSelected(activeFilter, it.theme)
  }

  /** The search test of one pair. The query is lower-cased but not trimmed:
      surrounding spaces take part in the match. */
  predicate Matches(it: Item, query: string, lang: string) {
    Contains(Lower(Resolve(it.project.title, lang)), Lower(query))
    || Contains(Lower(Resolve(it.project.description, lang)), Lower(query))
  }

  function ByQuery(query: string, lang: string): Item -> bool {
    (it: Item) => Matches(it, query, lang)
  }

  /** The pairs the grid shows, as a specification. The trimmed query only
      decides whether searching happens at all. */
  function Visible(themes: seq<Theme>, activeFilter: string, searchQuery: string, lang: string): seq<Item> {
    var selected := Filter(Flatten(themes), ByTheme(activeFilter));
    if Trim(searchQuery) != "" then Filter(selected, ByQuery(searchQuery, lang)) else selected
  }

  /** `getFilteredProjects()`: push the selected pairs theme by theme and
      project by project, then filter them by the query. */
  method GetFilteredProjects(themes: seq<Theme>, activeFilter: string, searchQuery: string, lang: string)
    returns (items: seq<Item>)
    ensures items == Visible(themes, activeFilter, searchQuery, lang)
  {
    items := [];
    var i := 0;
    while i < |themes|
      invariant 0 <= i <= |themes|
      invariant items == Filter(Flatten(themes[..i]), ByTheme(activeFilter))
    {
      var theme := themes[i];
      var j := 0;
      while j < |theme.projects|
        invariant 0 <= j <= |theme.projects|
        invariant items == Filter(Flatten(themes[..i]), ByTheme(activeFilter))
                           + Filter(ThemeItems(theme)[..j], ByTheme(activeFilter))
      {
        var project := theme.projects[j];
        if activeFilter == All || activeFilter == theme.id {
          items := items + [Item(project, theme)];
        }
        PushStep(theme, j, activeFilter);
        j := j + 1;
      }
      FlattenStep(themes, i, activeFilter);
      i := i + 1;
    }
    assert themes[..i] == themes;
    if Trim(searchQuery) != "" {
      var selected := items;
      var kept := [];
      var k := 0;
      while k < |selected|
        invariant 0 <= k <= |selected|
        invariant kept == Filter(selected[..k], ByQuery(searchQuery, lang))
      {
        var project := selected[k].project;
        var title := Lower(Resolve(project.title, lang));
        var desc := Lower(Resolve(project.description, lang));
        if Contains(title, Lower(searchQuery)) || Contains(desc, Lower(searchQuery)) {
          kept := kept + [selected[k]];
        }
        FilterStep(selected, k, ByQuery(searchQuery, lang));
        k := k + 1;
      }
      assert selected[..k] == selected;
      items := kept;
    }
  }

  /** One step of a filter loop over `s`: element `k` is appended when kept. */
  lemma FilterStep<T>(s: seq<T>, k: nat, keep: T -> bool)
    requires k < |s|
    ensures Filter(s[..k + 1], keep) == Filter(s[..k], keep) + (if keep(s[k]) then [s[k]] else [])
  {
    assert s[..k + 1] == s[..k] + [s[k]];
    FilterConcat(s[..k], [s[k]], keep);
  }

  /** One step of the inner push loop. */
  lemma PushStep(theme: Theme, j: nat, activeFilter: string)
    requires j < |theme.projects|
    ensures Filter(ThemeItems(theme)[..j + 1], ByTheme(activeFilter))
            == Filter(ThemeItems(theme)[..j], ByTheme(activeFilter))
               + (if activeFilter == All || activeFilter == theme.id then [Item(theme.projects[j], theme)] else [])
  {
    FilterStep(ThemeItems(theme), j, ByTheme(activeFilter));
  }

  /** One step of the outer push loop: theme `i` contributes its selected pairs. */
  lemma FlattenStep(themes: seq<Theme>, i: nat, activeFilter: string)
    requires i < |themes|
    ensures Filter(Flatten(themes[..i + 1]), ByTheme(activeFilter))
            == Filter(Flatten(themes[..i]), ByTheme(activeFilter))
               + Filter(ThemeItems(themes[i])[..|themes[i].projects|], ByTheme(activeFilter))
  {
    assert ThemeItems(themes[i])[..|themes[i].projects|] == ThemeItems(themes[i]);
    assert themes[..i + 1][..i] == themes[..i];
    FilterConcat(Flatten(themes[..i]), ThemeItems(themes[i]), ByTheme(activeFilter));
  }

  /** The grid never reorders: what it shows is an order-preserving
      subsequence of the flattened catalog. */
  lemma VisibleIsSubseq(themes: seq<Theme>, activeFilter: string, searchQuery: string, lang: string)
    ensures IsSubseq(Visible(themes, activeFilter, searchQuery, lang), Flatten(themes))
  {
    var selected := Filter(Flatten(themes), ByTheme(activeFilter));
    FilterIsSubseq(Flatten(themes), ByTheme(activeFilter));
    if Trim(searchQuery) != "" {
      FilterIsSubseq(selected, ByQuery(searchQuery, lang));
      SubseqTransitive(Filter(selected, ByQuery(searchQuery, lang)), selected, Flatten(themes));
    }
  }

  /** Filter `'all'` with a blank query shows every pair of the catalog in
      theme-then-project order, as many as the project count. */
  lemma AllWithBlankQuery(themes: seq<Theme>, searchQuery: string, lang: string)
    requires IsBlank(searchQuery)
    ensures Visible(themes, All, searchQuery, lang) == Flatten(themes)
    ensures |Visible(themes, All, searchQuery, lang)| == TotalProjects(themes)
  {
    TrimEmptyIffBlank(searchQuery);
    var flat := Flatten(themes);
    assert forall i :: 0 <= i < |flat| ==> ByTheme(All)(flat[i]);
    FilterKeepsAll(flat, ByTheme(All));
    FlattenLength(themes);
  }

  /** The pairs of one theme are all selected or all dropped together. */
  lemma ThemeItemsSelection(th: Theme, activeFilter: string)
    ensures Filter(ThemeItems(th), ByTheme(activeFilter))
            == if ThemeSelected(activeFilter, th) then ThemeItems(th) else []
  {
    var s := ThemeItems(th);
    if ThemeSelected(activeFilter, th) {
      assert forall i :: 0 <= i < |s| ==> ByTheme(activeFilter)(s[i]);
      FilterKeepsAll(s, ByTheme(activeFilter));
    } else {
      assert forall i :: 0 <= i < |s| ==> !ByTheme(activeFilter)(s[i]);
      FilterDropsAll(s, ByTheme(activeFilter));
    }
  }

  /** Selecting pairs by category is the same as flattening only the selected
      categories: each selected theme contributes all of its projects, in
      their original order. */
  lemma {:induction false} CategoryFilterFlattensSelectedThemes(themes: seq<Theme>, activeFilter: string)
    ensures Filter(Flatten(themes), ByTheme(activeFilter)) == Flatten(Filter(themes, ThemeIs(activeFilter)))
  {
    if themes != [] {
      var init, last := themes[..|themes| - 1], themes[|themes| - 1];
      CategoryFilterFlattensSelectedThemes(init, activeFilter);
      FilterConcat(Flatten(init), ThemeItems(last), ByTheme(activeFilter));
      ThemeItemsSelection(last, activeFilter);
      assert themes == init + [last];
      FilterConcat(init, [last], ThemeIs(activeFilter));
      var kept := Filter(init, ThemeIs(activeFilter));
      if ThemeSelected(activeFilter, last) {
        assert Filter([last], ThemeIs(activeFilter)) == [last];
        assert (kept + [last])[..|kept + [last]| - 1] == kept;
        assert Flatten(kept + [last]) == Flatten(kept) + ThemeItems(last);
      } else {
        assert Filter([last], ThemeIs(activeFilter)) == [];
        assert kept + [] == kept;
      }
    }
  }

  /** With a category selected and a blank query, every shown pair belongs to
      that category, and the result is the projects of the categories with
      that id, in catalog order. */
  lemma CategoryWithBlankQuery(themes: seq<Theme>, id: string, searchQuery: string, lang: string)
    requires IsBlank(searchQuery)
    ensures Visible(themes, id, searchQuery, lang) == Flatten(Filter(themes, ThemeIs(id)))
    ensures id != All ==> forall it :: it in Visible(themes, id, searchQuery, lang) ==> it.theme.id == id
  {
    TrimEmptyIffBlank(searchQuery);
    CategoryFilterFlattensSelectedThemes(themes, id);
  }

  /** When exactly one category carries the id, a blank query shows exactly
      that category's projects, in order. */
  lemma UniqueCategoryWithBlankQuery(themes: seq<Theme>, k: nat, searchQuery: string, lang: string)
    requires k < |themes| && themes[k].id != All
    requires forall i :: 0 <= i < |themes| && i != k ==> themes[i].id != themes[k].id
    requires IsBlank(searchQuery)
    ensures Visible(themes, themes[k].id, searchQuery, lang) == ThemeItems(themes[k])
  {
    CategoryWithBlankQuery(themes, themes[k].id, searchQuery, lang);
    OnlyThemeWithId(themes, k);
    assert [themes[k]][..0] == [];
  }

  /** Selecting an id that exactly one category carries selects that category. */
  lemma {:induction false} OnlyThemeWithId(themes: seq<Theme>, k: nat)
    requires k < |themes| && themes[k].id != All
    requires forall i :: 0 <= i < |themes| && i != k ==> themes[i].id != themes[k].id
    ensures Filter(themes, ThemeIs(themes[k].id)) == [themes[k]]
  {
    var id := themes[k].id;
    var rest := themes[1..];
    if k == 0 {
      assert forall i :: 0 <= i < |rest| ==> rest[i].id != id by {
        forall i | 0 <= i < |rest| ensures rest[i].id != id {
          assert rest[i] == themes[i + 1];
        }
      }
      NoThemeWithId(rest, id);
    } else {
      assert themes[0].id != id;
      assert rest[k - 1] == themes[k];
      assert forall i :: 0 <= i < |rest| && i != k - 1 ==> rest[i].id != id by {
        forall i | 0 <= i < |rest| && i != k - 1 ensures rest[i].id != id {
          assert rest[i] == themes[i + 1];
        }
      }
      OnlyThemeWithId(rest, k - 1);
    }
  }

  lemma NoThemeWithId(themes: seq<Theme>, id: string)
    requires id != All
    requires forall i :: 0 <= i < |themes| ==> themes[i].id != id
    ensures Filter(themes, ThemeIs(id)) == []
  {
    FilterDropsAll(themes, ThemeIs(id));
  }

  /** With a non-blank query a pair is shown exactly when it is in the
      catalog, its category is selected, and its lower-cased title or
      description contains the lower-cased query; every dropped pair of the
      selected categories matches in neither. */
  lemma SearchKeepsExactlyMatches(themes: seq<Theme>, activeFilter: string, searchQuery: string, lang: string, it: Item)
    requires !IsBlank(searchQuery)
    ensures it in Visible(themes, activeFilter, searchQuery, lang)
            <==> it in Flatten(themes) && ThemeSelected(activeFilter, it.theme) && Matches(it, searchQuery, lang)
  {
    TrimEmptyIffBlank(searchQuery);
    var selected := Filter(Flatten(themes), ByTheme(activeFilter));
    FilterMembers(Flatten(themes), ByTheme(activeFilter), it);
    FilterMembers(selected, ByQuery(searchQuery, lang), it);
  }

  /** Search only removes pairs: with any query the result is a subsequence
      of the same category selection without a query. */
  lemma SearchOnlyRemoves(themes: seq<Theme>, activeFilter: string, searchQuery: string, lang: string)
    ensures IsSubseq(Visible(themes, activeFilter, searchQuery, lang), Visible(themes, activeFilter, "", lang))
  {
    var selected := Filter(Flatten(themes), ByTheme(activeFilter));
    assert Trim("") == "";
    if Trim(searchQuery) != "" {
      FilterIsSubseq(selected, ByQuery(searchQuery, lang));
    } else {
      SubseqReflexive(selected);
    }
  }

  /** Search reads the text of the current language: the same query can
      find a project in one language and miss it in another. */
  lemma SearchDependsOnLanguage()
    ensures var p := Project(Localized(map["en" := "Cat", "fr" := "Chat"]), Absent, "web",
                             None, None, None, None, None);
            var themes := [Theme("web", Plain("Web"), [p])];
            Visible(themes, All, "chat", "fr") == [Item(p, themes[0])]
            && Visible(themes, All, "chat", "en") == []
  {
    var p := Project(Localized(map["en" := "Cat", "fr" := "Chat"]), Absent, "web",
                     None, None, None, None, None);
    var th := Theme("web", Plain("Web"), [p]);
    var it := Item(p, th);
    assert Flatten([th]) == [it] by {
      assert [th][..0] == [];
      assert ThemeItems(th) == [it];
    }
    assert Trim("chat") == "chat";
    assert Filter([it], ByTheme(All)) == [it];
    assert Lower("chat") == "chat";
    assert Lower("Chat") == "chat";
    assert Lower("Cat") == "cat";
    assert Contains("chat", "chat");
    assert !Contains("cat", "chat");
    assert !Contains("", "chat");
    assert Matches(it, "chat", "fr");
    assert !Matches(it, "chat", "en");
  }

  lemma {:induction false} SubseqReflexive<T>(s: seq<T>)
    ensures IsSubseq(s, s)
  {
    if s != [] {
      SubseqReflexive(s[1..]);
    }
  }
}
