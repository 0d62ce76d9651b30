/**
 * The image gallery component (src/components/ImageGallery.tsx): a list of
 * tagged images, a category filter, a carousel index into the filtered list,
 * and the file name synthesised for a download.
 */
module ImageGallery {

  import opened Wrappers

  /** The closed set of image categories. */
  datatype Category = Crop | Variety | Pest | Disease | Cultivation {

    /** The string literal the source uses for the category. */
    function Name(): (s: string)
      ensures s != "" && s != All
    {
      match this
      case Crop => "crop"
      case Variety => "variety"
      case Pest => "pest"
      case Disease => "disease"
      case Cultivation => "cultivation"
    }
  }

  /** The category selection that disables filtering. */
  const All: string := "all"

  datatype ImageData = ImageData(
    id: string,
    url: string,
    title: string,
    caption: Option<string>,
    category: Category,
    isPrimary: Option<bool>)

  lemma CategoryNameInjective(a: Category, b: Category)
    ensures a.Name() == b.Name() <==> a == b
  {
  }

  // ---------------------------------------------------------------------------
  // Filtering
  // ---------------------------------------------------------------------------

  /** `images.filter(img => img.category === selected)`. */
  function FilterBy(images: seq<ImageData>, selected: string): (r: seq<ImageData>)
    ensures |r| <= |images|
  {
    if images == [] then []
    else
      var prefix, last := images[..|images| - 1], images[|images| - 1];
      FilterBy(prefix, selected) + (if last.category.Name() == selected then [last] else [])
  }

  /** Every image the filter keeps carries the selected category. */
  lemma {:induction false} FilterByOnlySelected(images: seq<ImageData>, selected: string)
    ensures forall k :: 0 <= k < |FilterBy(images, selected)| ==> FilterBy(images, selected)[k].category.Name() == selected
  {
    if images != [] {
      FilterByOnlySelected(images[..|images| - 1], selected);
    }
  }

  /** The filtered list holds exactly the images of the selected category. */
  lemma {:induction false} FilterByMembers(images: seq<ImageData>, selected: string, x: ImageData)
    ensures x in FilterBy(images, selected) <==> x in images && x.category.Name() == selected
  {
    if images != [] {
      var prefix, last := images[..|images| - 1], images[|images| - 1];
      assert images == prefix + [last];
      FilterByMembers(prefix, selected, x);
    }
  }

  /** The list the gallery shows for a category selection. */
  function Filtered(images: seq<ImageData>, selected: string): (r: seq<ImageData>)
    ensures selected == All ==> r == images
    ensures selected != All ==> forall k :: 0 <= k < |r| ==> r[k].category.Name() == selected
  {
    if selected == All then images
    else
      FilterByOnlySelected(images, selected);
      FilterBy(images, selected)
  }

  /** `r` is an order-preserving subsequence of `s`. */
  ghost predicate IsSubsequence<T>(r: seq<T>, s: seq<T>)
    decreases |s|
  {
    if r == [] then true
    else if s == [] then false
    else
      (r[|r| - 1] == s[|s| - 1] && IsSubsequence(r[..|r| - 1], s[..|s| - 1]))
      || IsSubsequence(r, s[..|s| - 1])
  }

  /** The positions of the images tagged with the selected category. */
  ghost function MatchingPositions(images: seq<ImageData>, selected: string): set<int>
  {
    set k | 0 <= k < |images| && images[k].category.Name() == selected
  }

  lemma {:induction false} FilterBySubsequence(images: seq<ImageData>, selected: string)
    ensures IsSubsequence(FilterBy(images, selected), images)
  {
    if images != [] {
      var prefix, last := images[..|images| - 1], images[|images| - 1];
      var f := FilterBy(prefix, selected);
      FilterBySubsequence(prefix, selected);
      if last.category.Name() == selected {
        assert FilterBy(images, selected) == f + [last];
        assert (f + [last])[..|f|] == f;
      } else {
        assert FilterBy(images, selected) == f;
      }
    }
  }

  lemma MatchingPositionsSnoc(images: seq<ImageData>, selected: string)
    requires images != []
    ensures var n := |images| - 1;
      MatchingPositions(images, selected)
      == MatchingPositions(images[..n], selected)
         + (if images[n].category.Name() == selected then {n} else {})
  {
    var n := |images| - 1;
    var prefix := images[..n];
    forall k | 0 <= k < n
      ensures images[k] == prefix[k]
    {
    }
  }

  /** The filtered list has exactly as many entries as the input has images of that category. */
  lemma {:induction false} FilterByCount(images: seq<ImageData>, selected: string)
    ensures |FilterBy(images, selected)| == |MatchingPositions(images, selected)|
  {
    if images == [] {
      assert MatchingPositions(images, selected) == {};
    } else {
      var n := |images| - 1;
      FilterByCount(images[..n], selected);
      MatchingPositionsSnoc(images, selected);
      assert n !in MatchingPositions(images[..n], selected);
    }
  }

  /** Filtering distributes over concatenation: the order of the input is kept. */
  lemma {:induction false} FilterByAppend(a: seq<ImageData>, b: seq<ImageData>, selected: string)
    ensures FilterBy(a + b, selected) == FilterBy(a, selected) + FilterBy(b, selected)
  {
    if b != [] {
      var n := |b| - 1;
      assert (a + b)[..|a + b| - 1] == a + b[..n];
      assert (a + b)[|a + b| - 1] == b[n];
      FilterByAppend(a, b[..n], selected);
    } else {
      assert a + b == a;
    }
  }

  /** A list whose images all carry the selected category is kept whole. */
  lemma {:induction false} FilterByAllMatching(images: seq<ImageData>, selected: string)
    requires forall k :: 0 <= k < |images| ==> images[k].category.Name() == selected
    ensures FilterBy(images, selected) == images
  {
    if images != [] {
      var n := |images| - 1;
      FilterByAllMatching(images[..n], selected);
      assert images[..n] + [images[n]] == images;
    }
  }

  /** A list with no image of the selected category filters to nothing. */
  lemma {:induction false} FilterByNoneMatching(images: seq<ImageData>, selected: string)
    requires forall k :: 0 <= k < |images| ==> images[k].category.Name() != selected
    ensures FilterBy(images, selected) == []
  {
    if images != [] {
      FilterByNoneMatching(images[..|images| - 1], selected);
    }
  }

  // ---------------------------------------------------------------------------
  // The category list: 'all' followed by the distinct categories, first seen first
  // ---------------------------------------------------------------------------

  /** `images.map(img => img.category)`. */
  function CategoryNames(images: seq<ImageData>): (r: seq<string>)
    ensures |r| == |images|
    ensures forall k :: 0 <= k < |r| ==> r[k] == images[k].category.Name()
  {
    seq(|images|, k requires 0 <= k < |images| => images[k].category.Name())
  }

  ghost predicate NoDuplicates<T>(s: seq<T>)
  {
    forall i, j :: 0 <= i < j < |s| ==> s[i] != s[j]
  }

  /** The contents of `new Set(xs)` in insertion order. */
  function Distinct(xs: seq<string>): (r: seq<string>)
    ensures forall x :: x in r <==> x in xs
    ensures NoDuplicates(r)
  {
    if xs == [] then []
    else
      var prefix, last := xs[..|xs| - 1], xs[|xs| - 1];
      assert xs == prefix + [last];
      var seen := Distinct(prefix);
      if last in seen then seen else seen + [last]
  }

  /** Index of the first occurrence of `x` in `xs`. */
  function FirstIndex<T(==)>(xs: seq<T>, x: T): (i: nat)
    requires x in xs
    ensures i < |xs| && xs[i] == x
    ensures forall k :: 0 <= k < i ==> xs[k] != x
  {
    if xs[0] == x then 0 else 1 + FirstIndex(xs[1..], x)
  }

  lemma {:induction false} FirstIndexOfPrefix<T>(prefix: seq<T>, last: T, x: T)
    requires x in prefix
    ensures FirstIndex(prefix + [last], x) == FirstIndex(prefix, x)
  {
    var i := FirstIndex(prefix, x);
    var j := FirstIndex(prefix + [last], x);
    assert (prefix + [last])[i] == x;
    assert j <= i;
    assert prefix[j] == x;
  }

  /** The distinct values come out in the order of their first occurrence. */
  lemma {:induction false} DistinctFirstSeenOrder(xs: seq<string>)
    ensures forall i, j :: 0 <= i < j < |Distinct(xs)| ==>
      FirstIndex(xs, Distinct(xs)[i]) < FirstIndex(xs, Distinct(xs)[j])
  {
    if xs != [] {
      var prefix, last := xs[..|xs| - 1], xs[|xs| - 1];
      assert xs == prefix + [last];
      var seen := Distinct(prefix);
      DistinctFirstSeenOrder(prefix);
      forall x | x in seen
        ensures FirstIndex(xs, x) == FirstIndex(prefix, x) < |prefix|
      {
        FirstIndexOfPrefix(prefix, last, x);
      }
      if last !in seen {
        assert last !in prefix;
        assert FirstIndex(xs, last) == |prefix|;
      }
    }
  }

  /** `['all', ...new Set(images.map(img => img.category))]`. */
  function Categories(images: seq<ImageData>): (r: seq<string>)
    ensures |r| >= 1 && r[0] == All
  {
    [All] + Distinct(CategoryNames(images))
  }

  /**
   * The category list holds 'all' once, then each category present in the
   * input exactly once and nothing else, in order of first occurrence.
   */
  lemma CategoriesSpec(images: seq<ImageData>)
    ensures NoDuplicates(Categories(images))
    ensures forall s :: s in Categories(images)[1..] <==>
      exists k :: 0 <= k < |images| && images[k].category.Name() == s
    ensures forall i, j :: 1 <= i < j < |Categories(images)| ==>
      FirstIndex(CategoryNames(images), Categories(images)[i])
      < FirstIndex(CategoryNames(images), Categories(images)[j])
  {
    var names := CategoryNames(images);
    var r := Categories(images);
    assert r[1..] == Distinct(names);
    forall s | s in r[1..]
      ensures exists k :: 0 <= k < |images| && images[k].category.Name() == s
    {
      var k := FirstIndex(names, s);
      assert images[k].category.Name() == s;
    }
    forall s | exists k :: 0 <= k < |images| && images[k].category.Name() == s
      ensures s in r[1..]
    {
      var k :| 0 <= k < |images| && images[k].category.Name() == s;
      assert names[k] == s;
    }
    forall i | 1 <= i < |r|
      ensures r[i] != All
    {
      assert r[i] in names;
    }
    DistinctFirstSeenOrder(names);
  }

  /** Choosing any offered category shows at least one image of a non-empty input. */
  lemma ListedCategoryNonEmpty(images: seq<ImageData>, selected: string)
    requires |images| > 0
    requires selected in Categories(images)
    ensures |Filtered(images, selected)| > 0
  {
    if selected != All {
      CategoriesSpec(images);
      var r := Categories(images);
      var i :| 0 <= i < |r| && r[i] == selected;
      assert r[1..][i - 1] == selected;
      var k :| 0 <= k < |images| && images[k].category.Name() == selected;
      FilterByMembers(images, selected, images[k]);
    }
  }

  // ---------------------------------------------------------------------------
  // Carousel arithmetic
  // ---------------------------------------------------------------------------

  /** JavaScript's `%`: the remainder takes the sign of the dividend. */
  function JsRemainder(a: int, n: int): (r: int)
    requires n != 0
    ensures a >= 0 ==> 0 <= r < if n > 0 then n else -n
    ensures a < 0 ==> r <= 0
    ensures var m := if n > 0 then n else -n;
      -m < r < m && a == (if a >= 0 then a / m else -((-a) / m)) * m + r
  {
    var m := if n > 0 then n else -n;
    if a >= 0 then a % m else -((-a) % m)
  }

  /** `(prev + 1) % filteredImages.length`. */
  function Next(i: int, n: int): (r: int)
    requires n > 0
    ensures 0 <= i < n ==> 0 <= r < n && r == (if i == n - 1 then 0 else i + 1)
  {
    JsRemainder(i + 1, n)
  }

  /** `(prev - 1 + filteredImages.length) % filteredImages.length`. */
  function Prev(i: int, n: int): (r: int)
    requires n > 0
    ensures 0 <= i < n ==> 0 <= r < n && r == (if i == 0 then n - 1 else i - 1)
  {
    JsRemainder(i - 1 + n, n)
  }

  lemma PrevUndoesNext(i: int, n: int)
    requires 0 <= i < n
    ensures Prev(Next(i, n), n) == i
    ensures Next(Prev(i, n), n) == i
  {
  }

  /** The index after `k` presses of the next button. */
  function Advance(i: int, n: int, k: nat): int
    requires n > 0
  {
    if k == 0 then i else Next(Advance(i, n, k - 1), n)
  }

  lemma {:induction false} AdvanceCompose(i: int, n: int, a: nat, b: nat)
    requires n > 0
    ensures Advance(i, n, a + b) == Advance(Advance(i, n, a), n, b)
  {
    if b > 0 {
      AdvanceCompose(i, n, a, b - 1);
    }
  }

  /** Before the wrap-around the index just counts up. */
  lemma {:induction false} AdvanceCountsUp(i: int, n: int, k: nat)
    requires 0 <= i && i + k < n
    ensures Advance(i, n, k) == i + k
  {
    if k > 0 {
      AdvanceCountsUp(i, n, k - 1);
    }
  }

  /** Pressing next once per image returns to the starting image. */
  lemma FullCycle(i: int, n: int)
    requires 0 <= i < n
    ensures Advance(i, n, n) == i
  {
    AdvanceCountsUp(i, n, n - 1 - i);
    AdvanceCompose(i, n, n - 1 - i, i + 1);
    AdvanceCompose(n - 1, n, 1, i);
    AdvanceCountsUp(0, n, i);
  }

  // ---------------------------------------------------------------------------
  // Download file name
  // ---------------------------------------------------------------------------

  /** The characters matched by the regular expression class `\s`. */
  predicate IsSpace(c: char)
    ensures c == ' ' || c == '\t' || c == '\n' || c == '\U{00A0}' ==> IsSpace(c)
    ensures IsSpace(c) ==> c != '_' && !('a' <= c <= 'z') && !('A' <= c <= 'Z') && !('0' <= c <= '9')
  {
    || c == ' ' || c == '\t' || c == '\n' || c == '\r'
    || c == '\U{000B}' || c == '\U{000C}' || c == '\U{00A0}' || c == '\U{1680}'
    || ('\U{2000}' <= c <= '\U{200A}')
    || c == '\U{2028}' || c == '\U{2029}' || c == '\U{202F}' || c == '\U{205F}'
    || c == '\U{3000}' || c == '\U{FEFF}'
  }

  ghost predicate NoSpace(s: string)
  {
    forall k :: 0 <= k < |s| ==> !IsSpace(s[k])
  }

  ghost predicate AllSpace(s: string)
  {
    forall k :: 0 <= k < |s| ==> IsSpace(s[k])
  }

  /** Drops the whitespace run at the start of `s`. */
  function SkipSpaces(s: string): (r: string)
    ensures |r| <= |s| && r == s[|s| - |r|..]
    ensures AllSpace(s[..|s| - |r|])
    ensures r == [] || !IsSpace(r[0])
  {
    if s != [] && IsSpace(s[0]) then SkipSpaces(s[1..]) else s
  }

  /** `s.replace(/\s+/g, '_')`. */
  function Underscored(s: string): (r: string)
    ensures NoSpace(r)
    ensures |r| <= |s|
    decreases |s|
  {
    if s == [] then []
    else if IsSpace(s[0]) then "_" + Underscored(SkipSpaces(s))
    else [s[0]] + Underscored(s[1..])
  }

  lemma {:induction false} SkipSpacesRun(w: string, t: string)
    requires AllSpace(w)
    requires t == [] || !IsSpace(t[0])
    ensures SkipSpaces(w + t) == t
  {
    if w != [] {
      assert (w + t)[1..] == w[1..] + t;
      SkipSpacesRun(w[1..], t);
    } else {
      assert w + t == t;
    }
  }

  /** A maximal whitespace run becomes exactly one underscore. */
  lemma UnderscoredRun(w: string, t: string)
    requires w != [] && AllSpace(w)
    requires t == [] || !IsSpace(t[0])
    ensures Underscored(w + t) == "_" + Underscored(t)
  {
    SkipSpacesRun(w, t);
    assert (w + t)[0] == w[0];
  }

  /** Text without whitespace is copied unchanged. */
  lemma {:induction false} UnderscoredWord(p: string, t: string)
    requires NoSpace(p)
    ensures Underscored(p + t) == p + Underscored(t)
  {
    if p != [] {
      assert (p + t)[0] == p[0] && !IsSpace(p[0]);
      assert (p + t)[1..] == p[1..] + t;
      assert NoSpace(p[1..]) by {
        forall k | 0 <= k < |p[1..]| ensures !IsSpace(p[1..][k]) { assert p[1..][k] == p[k + 1]; }
      }
      UnderscoredWord(p[1..], t);
      assert [p[0]] + (p[1..] + Underscored(t)) == p + Underscored(t);
    } else {
      assert p + t == t;
    }
  }

  /** `toLowerCase` on one character (ASCII letters only). */
  function LowerChar(c: char): (d: char)
    ensures !('A' <= d <= 'Z')
    ensures IsSpace(d) <==> IsSpace(c)
  {
    if 'A' <= c <= 'Z' then (c as int - 'A' as int + 'a' as int) as char else c
  }

  function Lower(s: string): (r: string)
    ensures |r| == |s|
    ensures forall k :: 0 <= k < |s| ==> r[k] == LowerChar(s[k])
  {
    seq(|s|, k requires 0 <= k < |s| => LowerChar(s[k]))
  }

  /** `${title.replace(/\s+/g, '_').toLowerCase()}.jpg`. */
  function DownloadFileName(title: string): (r: string)
    ensures |r| >= 4 && r[|r| - 4..] == ".jpg"
    ensures NoSpace(r)
    ensures forall k :: 0 <= k < |r| ==> !('A' <= r[k] <= 'Z')
    ensures |r| <= |title| + 4
  {
    Lower(Underscored(title)) + ".jpg"
  }

  /** A title that is already one lower-case word keeps its spelling. */
  lemma PlainTitleFileName(title: string)
    requires NoSpace(title)
    requires forall k :: 0 <= k < |title| ==> !('A' <= title[k] <= 'Z')
    ensures DownloadFileName(title) == title + ".jpg"
  {
    UnderscoredWord(title, []);
    assert title + [] == title;
    assert Lower(title) == title;
  }

  // ---------------------------------------------------------------------------
  // The component's state
  // ---------------------------------------------------------------------------

  /** What the gallery renders. */
  datatype Screen =
    | NoImages              // the input list is empty
    | NoneInCategory        // the selected category has no image
    | Grid(shown: seq<ImageData>, current: ImageData, navigable: bool)

  class Gallery {
    const images: seq<ImageData>
    var selectedImage: int
    var selectedCategory: string

    /** `filteredImages`. */
    function Shown(): seq<ImageData>
      reads this
    {
      Filtered(images, selectedCategory)
    }

    /** The carousel index points into the shown list whenever that is non-empty. */
    ghost predicate Valid()
      reads this
    {
      0 <= selectedImage && (|Shown()| > 0 ==> selectedImage < |Shown()|)
    }

    constructor (images: seq<ImageData>)
      ensures this.images == images
      ensures selectedImage == 0 && selectedCategory == All
      ensures Valid()
    {
      this.images := images;
      selectedImage := 0;
      selectedCategory := All;
    }

    /** The carousel's next button. */
    method NextImage()
      requires Valid() && |Shown()| > 0
      modifies this`selectedImage
      ensures Valid()
      ensures selectedImage == Next(old(selectedImage), |Shown()|)
    {
      selectedImage := JsRemainder(selectedImage + 1, |Shown()|);
    }

    /** The carousel's previous button. */
    method PrevImage()
      requires Valid() && |Shown()| > 0
      modifies this`selectedImage
      ensures Valid()
      ensures selectedImage == Prev(old(selectedImage), |Shown()|)
    {
      selectedImage := JsRemainder(selectedImage - 1 + |Shown()|, |Shown()|);
    }

    /** A category button: select the category and go back to the first image. */
    method ChooseCategory(category: string)
      modifies this
      ensures selectedCategory == category && selectedImage == 0
      ensures Valid()
    {
      selectedCategory := category;
      selectedImage := 0;
    }

    /** A grid card or thumbnail: jump to that position of the shown list. */
    method SelectImage(index: int)
      requires 0 <= index < |Shown()|
      modifies this`selectedImage
      ensures selectedImage == index && Valid()
      ensures Shown()[selectedImage] == old(Shown())[index]
    {
      selectedImage := index;
    }

    /** The rendered view; navigation buttons and thumbnails need two images or more. */
    function View(): (s: Screen)
      reads this
      requires Valid()
      ensures s.NoImages? <==> |images| == 0
      ensures s.NoneInCategory? <==> |images| > 0 && |Shown()| == 0
      ensures s.Grid? ==> s.shown == Shown()
      ensures s.Grid? ==> s.current == Shown()[selectedImage] && (s.navigable <==> |Shown()| > 1)
    {
      var shown := Shown();
      if |images| == 0 then NoImages
      else if |shown| == 0 then
        assert selectedCategory != All;
        NoneInCategory
      else Grid(shown, shown[selectedImage], |shown| > 1)
    }

    /** The name of the file the download button saves. */
    function CurrentFileName(): (name: string)
      reads this
      requires Valid() && |Shown()| > 0
      ensures name == DownloadFileName(Shown()[selectedImage].title)
      ensures |name| >= 4 && name[|name| - 4..] == ".jpg" && NoSpace(name)
    {
      DownloadFileName(Shown()[selectedImage].title)
    }
  }

  /** A gallery over a non-empty list never shows the empty-category view after a category button. */
  lemma CategoryButtonsNeverEmpty(g: Gallery)
    requires g.Valid() && |g.images| > 0
    requires g.selectedCategory in Categories(g.images)
    ensures g.View().Grid?
  {
    ListedCategoryNonEmpty(g.images, g.selectedCategory);
  }

  /** The walk-through: crop, pest, crop; filter to crop; next twice wraps around. */
  method Walkthrough()
  {
    var a := ImageData("1", "a.png", "A", None, Crop, None);
    var b := ImageData("2", "b.png", "B", None, Pest, None);
    var c := ImageData("3", "c.png", "C", None, Crop, None);
    var g := new Gallery([a, b, c]);
    g.ChooseCategory("crop");
    assert [a, b, c][..2] == [a, b] && [a, b][..1] == [a] && [a][..0] == [];
    assert FilterBy([a], "crop") == [a];
    assert FilterBy([a, b], "crop") == [a];
    assert g.Shown() == [a, c];
    g.NextImage();
    assert g.selectedImage == 1;
    g.NextImage();
    assert g.selectedImage == 0;
  }
}
