/** The project modal's gallery: the wrap-around index `galleryIdx`, moved
    by the arrow keys, the previous/next buttons and the dots. */
module Gallery {
  import opened Catalog
  import opened Media

  /** `(prev + 1) % n`. With a non-negative index JavaScript's remainder
      agrees with Dafny's. */
  function Next(i: int, n: int): (r: int)
    requires 0 <= i && n > 0
    ensures 0 <= r < n
    ensures i < n - 1 ==> r == i + 1
    ensures i == n - 1 ==> r == 0
  {
    (i + 1) % n
  }

  /** `(prev - 1 + n) % n`. */
  function Prev(i: int, n: int): (r: int)
    requires 0 <= i && n > 0
    ensures 0 <= r < n
    ensures 0 < i <= n ==> r == i - 1
    ensures i == 0 ==> r == n - 1
  {
    (i - 1 + n) % n
  }

  /** Stepping forward then back returns to the same image. */
  lemma PrevAfterNext(i: int, n: int)
    requires 0 <= i < n
    ensures Prev(Next(i, n), n) == i
  {
  }

  /** Stepping back then forward returns to the same image. */
  lemma NextAfterPrev(i: int, n: int)
    requires 0 <= i < n
    ensures Next(Prev(i, n), n) == i
  {
  }

  /** `k` presses of the forward arrow. */
  function NextSteps(i: int, n: int, k: nat): (r: int)
    requires 0 <= i && n > 0
    ensures 0 <= r
  {
    if k == 0 then i else Next(NextSteps(i, n, k - 1), n)
  }

  lemma {:induction false} MulAtLeast(d: int, n: int)
    requires d >= 1 && n > 0
    ensures d * n >= n
  {
    if d > 1 {
      MulAtLeast(d - 1, n);
      assert d * n == (d - 1) * n + n;
    }
  }

  /** The remainder is the only `r` in `[0, n)` with `a == q * n + r`. */
  lemma ModUnique(a: int, n: int, q: int, r: int)
    requires n > 0 && 0 <= r < n && a == q * n + r
    ensures a % n == r
  {
    var q', r' := a / n, a % n;
    assert a == q' * n + r';
    assert (q - q') * n == r' - r;
    if q > q' {
      MulAtLeast(q - q', n);
    } else if q < q' {
      MulAtLeast(q' - q, n);
    }
  }

  lemma ModSucc(a: int, n: int)
    requires 0 <= a && n > 0
    ensures (a % n + 1) % n == (a + 1) % n
  {
    var q, r := a / n, a % n;
    assert a == q * n + r;
    if r + 1 < n {
      ModUnique(a + 1, n, q, r + 1);
      ModUnique(r + 1, n, 0, r + 1);
    } else {
      assert a + 1 == (q + 1) * n + 0;
      ModUnique(a + 1, n, q + 1, 0);
      ModUnique(n, n, 1, 0);
    }
  }

  /** `k` forward presses land on `(i + k) mod n`. */
  lemma {:induction false} NextStepsIsOffset(i: int, n: int, k: nat)
    requires 0 <= i < n
    ensures NextSteps(i, n, k) == (i + k) % n
  {
    if k > 0 {
      NextStepsIsOffset(i, n, k - 1);
      ModSucc(i + k - 1, n);
    }
  }

  /** A full tour of `n` forward presses comes back to the starting image. */
  lemma FullTourReturns(i: int, n: int)
    requires 0 <= i < n
    ensures NextSteps(i, n, n) == i
  {
    NextStepsIsOffset(i, n, n);
    ModUnique(i + n, n, 1, i);
  }

  /** The project has an `images` list and the gallery type. */
  predicate IsGallery(p: Project) {
    p.kind == "image-gallery" && p.images.Some?
  }

  /** What the arrow keys require: a gallery's list is not empty. */
  predicate CanNavigate(p: Project, key: string) {
    IsGallery(p) && (key == "ArrowRight" || key == "ArrowLeft") ==> |p.images.value| > 0
  }

  /** One mounted modal. */
  class ProjectModalView {
    const project: Project
    var galleryIdx: int

    /** The index is 0, or a valid position in the gallery's images. */
    predicate Valid()
      reads this
    {
      galleryIdx == 0 || (IsGallery(project) && 0 <= galleryIdx < |project.images.value|)
    }

    /** Mounting starts at the first image. */
    constructor (project: Project)
      ensures this.project == project
      ensures galleryIdx == 0 && Valid()
    {
      this.project := project;
      galleryIdx := 0;
    }

    /** The `keydown` handler. Returns whether `onClose` was called. */
    method HandleKey(key: string) returns (closeRequested: bool)
      requires Valid() && CanNavigate(project, key)
      modifies this
      ensures Valid()
      ensures closeRequested <==> key == "Escape"
      ensures IsGallery(project) && key == "ArrowRight"
              ==> galleryIdx == Next(old(galleryIdx), |project.images.value|)
      ensures IsGallery(project) && key == "ArrowLeft"
              ==> galleryIdx == Prev(old(galleryIdx), |project.images.value|)
      ensures !(IsGallery(project) && (key == "ArrowRight" || key == "ArrowLeft"))
              ==> galleryIdx == old(galleryIdx)
    {
      closeRequested := key == "Escape";
      if project.kind == "image-gallery" && project.images.Some? {
        var n := |project.images.value|;
        if key == "ArrowRight" {
          galleryIdx := (galleryIdx + 1) % n;
        }
        if key == "ArrowLeft" {
          galleryIdx := (galleryIdx - 1 + n) % n;
        }
      }
    }

    /** The "‹" button, rendered only with the gallery controls. */
    method ClickPrev()
      requires Valid() && GalleryControlsShown(project)
      modifies this
      ensures Valid()
      ensures galleryIdx == Prev(old(galleryIdx), |project.images.value|)
    {
      var n := |project.images.value|;
      galleryIdx := (galleryIdx - 1 + n) % n;
    }

    /** The "›" button. */
    method ClickNext()
      requires Valid() && GalleryControlsShown(project)
      modifies this
      ensures Valid()
      ensures galleryIdx == Next(old(galleryIdx), |project.images.value|)
    {
      var n := |project.images.value|;
      galleryIdx := (galleryIdx + 1) % n;
    }

    /** Dot `i`; there is one dot per image. */
    method ClickDot(i: int)
      requires GalleryControlsShown(project) && 0 <= i < |project.images.value|
      modifies this
      ensures Valid()
      ensures galleryIdx == i
    {
      galleryIdx := i;
    }

    /** The dot drawn as active. */
    predicate DotActive(i: int)
      reads this
    {
      i == galleryIdx
    }

    /** The modal's media. Because the index stays in range, a gallery with
        images always shows one of them, never "undefined". */
    function Shown(base: string): (r: MediaView)
      reads this
      requires Valid()
      ensures IsGallery(project) && |project.images.value| > 0
              ==> 0 <= galleryIdx < |project.images.value|
                  && r == StaticImage(base + project.images.value[galleryIdx])
    {
      RenderMedia(project, galleryIdx, base)
    }

    /** The dot drawn as active is the one whose image the modal shows. */
    lemma ActiveDotIsShownImage(i: int, base: string)
      requires Valid() && IsGallery(project) && |project.images.value| > 0
      requires 0 <= i < |project.images.value| && DotActive(i)
      ensures Shown(base) == StaticImage(base + project.images.value[i])
    {
    }
  }
}
