/** The project catalog: themes (categories) each holding an ordered list of
    projects, flattened into `(project, theme)` pairs in theme order and then
    project order, and the order-preserving filter applied to those pairs. */
module Catalog {
  import opened Wrappers
  import opened Localize

  /** A project record of the content. `kind` is the JSON `type` field
      ("web", "video", "pdf", "image-gallery" or anything else); each optional
      field is `None` when the JSON omits it. */
  datatype Project = Project(
    title: Text,
    description: Text,
    kind: string,
    image: Option<string>,
    images: Option<seq<string>>,
    src: Option<string>,
    link: Option<string>,
    technologies: Option<seq<string>>)

  datatype Theme = Theme(id: string, title: Text, projects: seq<Project>)

  /** One card of the grid: `{ project, theme }`. */
  datatype Item = Item(project: Project, theme: Theme)

  /** The pairs contributed by one theme, in project order. */
  function ThemeItems(th: Theme): seq<Item> {
    seq(|th.projects|, j requires 0 <= j < |th.projects| => Item(th.projects[j], th))
  }

  /** The nested `themes.forEach(theme => theme.projects.forEach(...))` walk,
      one theme at a time from the left. */
  function Flatten(themes: seq<Theme>): seq<Item> {
    if themes == [] then []
    else Flatten(themes[..|themes| - 1]) + ThemeItems(themes[|themes| - 1])
  }

  /** `themes.reduce((acc, th) => acc + th.projects.length, 0)`. */
  function TotalProjects(themes: seq<Theme>): nat {
    if themes == [] then 0
    else TotalProjects(themes[..|themes| - 1]) + |themes[|themes| - 1].projects|
  }

  /** The project count shown on the page is the number of cards of the
      unfiltered catalog. */
  lemma {:induction false} FlattenLength(themes: seq<Theme>)
    ensures |Flatten(themes)| == TotalProjects(themes)
  {
    if themes != [] {
      FlattenLength(themes[..|themes| - 1]);
    }
  }

  /** Flattening keeps theme order: the pairs of earlier themes come first. */
  lemma {:induction false} FlattenConcat(a: seq<Theme>, b: seq<Theme>)
    ensures Flatten(a + b) == Flatten(a) + Flatten(b)
  {
    if b == [] {
      assert a + b == a;
    } else {
      var c := b[..|b| - 1];
      assert (a + b)[..|a + b| - 1] == a + c;
      FlattenConcat(a, c);
    }
  }

  /** A pair is a card of the catalog exactly when its theme is in the
      catalog and its project is in that theme. */
  lemma {:induction false} FlattenMembers(themes: seq<Theme>, p: Project, th: Theme)
    ensures Item(p, th) in Flatten(themes) <==> th in themes && p in th.projects
  {
    if themes != [] {
      var init, last := themes[..|themes| - 1], themes[|themes| - 1];
      FlattenMembers(init, p, th);
      assert themes == init + [last];
      if Item(p, th) in ThemeItems(last) {
        var j :| 0 <= j < |last.projects| && ThemeItems(last)[j] == Item(p, th);
        assert th == last && p in th.projects;
      }
      if th == last && p in th.projects {
        var j :| 0 <= j < |th.projects| && th.projects[j] == p;
        assert ThemeItems(last)[j] == Item(p, th);
      }
    }
  }

  /** `Array.prototype.filter`: the elements that satisfy `keep`, in order. */
  function Filter<T>(s: seq<T>, keep: T -> bool): (r: seq<T>)
    ensures |r| <= |s|
    ensures forall x :: x in r ==> x in s && keep(x)
  {
    if s == [] then []
    else if keep(s[0]) then [s[0]] + Filter(s[1..], keep)
    else Filter(s[1..], keep)
  }

  /** Filtering commutes with concatenation, so a filter applied while
      pushing gives the same as a filter applied afterwards. */
  lemma {:induction false} FilterConcat<T>(a: seq<T>, b: seq<T>, keep: T -> bool)
    ensures Filter(a + b, keep) == Filter(a, keep) + Filter(b, keep)
  {
    if a == [] {
      assert a + b == b;
    } else {
      assert (a + b)[0] == a[0];
      assert (a + b)[1..] == a[1..] + b;
      FilterConcat(a[1..], b, keep);
      if keep(a[0]) {
        assert Filter(a + b, keep) == [a[0]] + (Filter(a[1..], keep) + Filter(b, keep));
      }
    }
  }

  /** An element is kept exactly when it occurs and satisfies the predicate. */
  lemma {:induction false} FilterMembers<T>(s: seq<T>, keep: T -> bool, x: T)
    ensures x in Filter(s, keep) <==> x in s && keep(x)
  {
    if s != [] {
      FilterMembers(s[1..], keep, x);
      assert x in s <==> x == s[0] || x in s[1..];
    }
  }

  /** A filter that keeps every element returns the sequence unchanged. */
  lemma {:induction false} FilterKeepsAll<T>(s: seq<T>, keep: T -> bool)
    requires forall i :: 0 <= i < |s| ==> keep(s[i])
    ensures Filter(s, keep) == s
  {
    if s != [] {
      FilterKeepsAll(s[1..], keep);
    }
  }

  /** A filter that keeps no element returns the empty sequence. */
  lemma {:induction false} FilterDropsAll<T>(s: seq<T>, keep: T -> bool)
    requires forall i :: 0 <= i < |s| ==> !keep(s[i])
    ensures Filter(s, keep) == []
  {
    if s != [] {
      FilterDropsAll(s[1..], keep);
    }
  }

  /** `a` is an order-preserving subsequence of `b`: `a` can be matched
      against `b` left to right, skipping elements of `b`. */
  predicate IsSubseq<T(==)>(a: seq<T>, b: seq<T>) {
    if a == [] then true
    else if b == [] then false
    else if a[0] == b[0] then IsSubseq(a[1..], b[1..])
    else IsSubseq(a, b[1..])
  }

  /** A filter only removes elements; it never reorders them. */
  lemma {:induction false} FilterIsSubseq<T>(s: seq<T>, keep: T -> bool)
    ensures IsSubseq(Filter(s, keep), s)
  {
    if s != [] {
      FilterIsSubseq(s[1..], keep);
      var rest := Filter(s[1..], keep);
      if !keep(s[0]) {
        assert Filter(s, keep) == rest;
        if rest != [] {
          assert rest[0] in rest;
          assert rest[0] != s[0];
        }
      } else {
        assert Filter(s, keep) == [s[0]] + rest;
        assert ([s[0]] + rest)[1..] == rest;
      }
    }
  }

  /** Dropping the first element of a subsequence leaves a subsequence. */
  lemma {:induction false} SubseqDropHead<T>(a: seq<T>, b: seq<T>)
    requires a != [] && IsSubseq(a, b)
    ensures IsSubseq(a[1..], b)
    decreases |b|, 1
  {
    if a[0] == b[0] {
      SubseqCons(a[1..], b);
    } else {
      SubseqDropHead(a, b[1..]);
      SubseqCons(a[1..], b);
    }
  }

  /** A subsequence of the tail of `b` is a subsequence of `b`. */
  lemma {:induction false} SubseqCons<T>(x: seq<T>, b: seq<T>)
    requires b != [] && IsSubseq(x, b[1..])
    ensures IsSubseq(x, b)
    decreases |b|, 0
  {
    if x != [] && x[0] == b[0] {
      SubseqDropHead(x, b[1..]);
    }
  }

  /** Being a subsequence is transitive, so a filter of a filter is still an
      order-preserving subsequence of the original. */
  lemma {:induction false} SubseqTransitive<T>(a: seq<T>, b: seq<T>, c: seq<T>)
    requires IsSubseq(a, b) && IsSubseq(b, c)
    ensures IsSubseq(a, c)
    decreases |c|
  {
    if a != [] {
      assert b != [] && c != [];
      if b[0] == c[0] {
        if a[0] == b[0] {
          SubseqTransitive(a[1..], b[1..], c[1..]);
        } else {
          SubseqTransitive(a, b[1..], c[1..]);
        }
      } else {
        SubseqTransitive(a, b, c[1..]);
        if a[0] == c[0] {
          SubseqDropHead(a, c[1..]);
        }
      }
    }
  }
}
