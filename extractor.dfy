/** Heading detection from layout spans (src/extractor.py): the three largest
    distinct font sizes name the levels H1, H2 and H3, and every other span is
    classified by its text shape. */
module Extractor {
  import opened Options
  import opened Text

  /** One text span as the layout reader yields it. Font sizes are compared
      for exact equality only, so they are modelled as integers. */
  datatype Span = Span(text: string, size: int)

  /** The spans of one page, in block, line and span order. */
  type Page = seq<Span>

  datatype Level = H1 | H2 | H3

  /** A detected heading: `section_title`, `level`, `page_number` and `text`. */
  datatype Heading = Heading(title: string, level: Level, page: int, text: string)

  /** A span together with the 1-based number of the page it is on. */
  datatype PlacedSpan = PlacedSpan(span: Span, page: int)

  // ---------------------------------------------------------------------
  // The spans of a document in reading order

  function PlacePage(spans: seq<Span>, page: int): seq<PlacedSpan> {
    seq(|spans|, i requires 0 <= i < |spans| => PlacedSpan(spans[i], page))
  }

  /** Every span of the document, page after page, with its page number. */
  function Placed(pages: seq<Page>): seq<PlacedSpan> {
    if pages == [] then []
    else Placed(pages[..|pages| - 1]) + PlacePage(pages[|pages| - 1], |pages|)
  }

  function Sizes(ps: seq<PlacedSpan>): seq<int> {
    seq(|ps|, i requires 0 <= i < |ps| => ps[i].span.size)
  }

  /** The `font_sizes` list of the first pass. */
  function FontSizes(pages: seq<Page>): seq<int> {
    Sizes(Placed(pages))
  }

  // ---------------------------------------------------------------------
  // `sorted(set(font_sizes), reverse=True)` and the `size_to_level` table

  function MaxOf(xs: seq<int>): (m: int)
    requires xs != []
    ensures m in xs
  {
    if |xs| == 1 then xs[0]
    else
      var t := MaxOf(xs[1..]);
      if xs[0] >= t then xs[0] else t
  }

  lemma {:induction false} MaxOfIsMax(xs: seq<int>)
    requires xs != []
    ensures forall x :: x in xs ==> x <= MaxOf(xs)
  {
    if |xs| > 1 {
      MaxOfIsMax(xs[1..]);
      assert forall x :: x in xs ==> x == xs[0] || x in xs[1..];
    }
  }

  function Without(xs: seq<int>, v: int): (r: seq<int>)
    ensures |r| <= |xs| && (v in xs ==> |r| < |xs|)
  {
    if xs == [] then []
    else (if xs[0] == v then [] else [xs[0]]) + Without(xs[1..], v)
  }

  lemma {:induction false} WithoutMembers(xs: seq<int>, v: int)
    ensures forall x :: x in Without(xs, v) <==> x in xs && x != v
  {
    if xs != [] {
      WithoutMembers(xs[1..], v);
      assert xs == [xs[0]] + xs[1..];
    }
  }

  /** The distinct values of `xs`, largest first. */
  function DistinctDesc(xs: seq<int>): seq<int>
    decreases |xs|
  {
    if xs == [] then []
    else
      var m := MaxOf(xs);
      [m] + DistinctDesc(Without(xs, m))
  }

  /** `sorted(set(xs), reverse=True)`: the same values as `xs`, each once, in
      strictly decreasing order. */
  lemma {:induction false} DistinctDescFacts(xs: seq<int>)
    ensures forall x :: x in DistinctDesc(xs) <==> x in xs
    ensures forall i, j :: 0 <= i < j < |DistinctDesc(xs)| ==> DistinctDesc(xs)[i] > DistinctDesc(xs)[j]
    decreases |xs|
  {
    if xs != [] {
      var m := MaxOf(xs);
      var rest := Without(xs, m);
      MaxOfIsMax(xs);
      WithoutMembers(xs, m);
      DistinctDescFacts(rest);
      ConsDecreasing(m, DistinctDesc(rest));
    }
  }

  /** A strictly decreasing list stays so behind a value larger than all of
      its elements. */
  lemma ConsDecreasing(m: int, r: seq<int>)
    requires forall x :: x in r ==> x < m
    requires forall i, j :: 0 <= i < j < |r| ==> r[i] > r[j]
    ensures forall i, j :: 0 <= i < j < |[m] + r| ==> ([m] + r)[i] > ([m] + r)[j]
  {
    var c := [m] + r;
    forall i, j | 0 <= i < j < |c|
      ensures c[i] > c[j]
    {
      assert c[j] == r[j - 1] && r[j - 1] in r;
      if i > 0 {
        assert c[i] == r[i - 1];
      }
    }
  }

  /** The level a size gets when `k` distinct sizes of the document are larger. */
  function LevelForRank(k: nat): Option<Level> {
    if k == 0 then Some(H1)
    else if k == 1 then Some(H2)
    else if k == 2 then Some(H3)
    else None
  }

  /** `size_to_level` built from the distinct sizes `unique`, largest first. */
  function SizeLevels(unique: seq<int>): map<int, Level> {
    var m1 := if |unique| > 0 then map[unique[0] := H1] else map[];
    var m2 := if |unique| > 1 then m1[unique[1] := H2] else m1;
    if |unique| > 2 then m2[unique[2] := H3] else m2
  }

  /** `size_to_level.get(size)`. */
  function Lookup(levels: map<int, Level>, size: int): Option<Level> {
    if size in levels then Some(levels[size]) else None
  }

  /** The distinct sizes of the document strictly larger than `size`. */
  function LargerSizes(sizes: seq<int>, size: int): set<int> {
    set y | y in sizes && y > size
  }

  // ---------------------------------------------------------------------
  // Classification of one span

  /** A character of the body of `[A-Z][A-Z\s\d\-\.]+`. */
  predicate IsCapsBodyChar(c: char) {
    IsUpper(c) || IsSpace(c) || IsDigit(c) || c == '-' || c == '.'
  }

  /** `re.match(r"^[A-Z][A-Z\s\d\-\.]+$", t)`. */
  predicate AllCapsShape(t: string) {
    |t| >= 2 && IsUpper(t[0]) && forall i :: 1 <= i < |t| ==> IsCapsBodyChar(t[i])
  }

  predicate IsRomanDigit(c: char) {
    c == 'I' || c == 'V' || c == 'X'
  }

  /** `t` starts with one or more `inRun` characters followed by a period. */
  predicate RunThenDot(t: string, inRun: char -> bool) {
    var n := RunLength(t, inRun);
    1 <= n < |t| && t[n] == '.'
  }

  /** `re.match(r"^(\d+\.|[IVX]+\.)", t)`. */
  predicate NumberedPrefix(t: string) {
    RunThenDot(t, IsDigit) || RunThenDot(t, IsRomanDigit)
  }

  /** The classification cascade for a stripped text at a font size. */
  function Classify(text: string, size: int, levels: map<int, Level>): (r: Option<Level>)
    ensures r == Some(H1) ==> Lookup(levels, size) == Some(H1)
    ensures r.None? ==> size !in levels
  {
    if size in levels then Some(levels[size])
    else if AllCapsShape(text) && WordCount(text) < 10 then Some(H2)
    else if NumberedPrefix(text) then Some(H3)
    else None
  }

  /** The same cascade with the size rule stated by rank: `k` is the number
      of distinct sizes of the document larger than the span's. */
  function RankCascade(text: string, k: nat): Option<Level> {
    if k < 3 then LevelForRank(k)
    else if AllCapsShape(text) && WordCount(text) < 10 then Some(H2)
    else if NumberedPrefix(text) then Some(H3)
    else None
  }

  /** The heading one span yields, if any. */
  function HeadingOf(q: PlacedSpan, levels: map<int, Level>): (r: Option<Heading>)
    ensures r.Some? ==> r.value.title == Strip(q.span.text) && |r.value.title| >= 3
    ensures r.Some? ==> r.value.text == r.value.title && r.value.page == q.page
  {
    var text := Strip(q.span.text);
    if |text| < 3 then None
    else
      match Classify(text, q.span.size, levels)
      case Some(level) => Some(Heading(text, level, q.page, text))
      case None => None
  }

  function HeadingsOf(ps: seq<PlacedSpan>, levels: map<int, Level>): seq<Heading> {
    if ps == [] then []
    else
      HeadingsOf(ps[..|ps| - 1], levels) +
      match HeadingOf(ps[|ps| - 1], levels)
      case Some(h) => [h]
      case None => []
  }

  /** The level table of a document. */
  function DocLevels(pages: seq<Page>): map<int, Level> {
    SizeLevels(DistinctDesc(FontSizes(pages)))
  }

  /** What `extract_sections_from_pdf` returns for a document. */
  function ExtractSpec(pages: seq<Page>): (r: seq<Heading>)
    ensures |r| <= |FontSizes(pages)|
  {
    var fontSizes := FontSizes(pages);
    HeadingsOfLength(Placed(pages), SizeLevels(DistinctDesc(fontSizes)));
    if fontSizes == [] then []
    else HeadingsOf(Placed(pages), SizeLevels(DistinctDesc(fontSizes)))
  }

  // ---------------------------------------------------------------------
  // The two passes

  /** `extract_sections_from_pdf` on a document already read into pages. */
  method ExtractSections(pages: seq<Page>) returns (headings: seq<Heading>)
    ensures headings == ExtractSpec(pages)
  {
    // first pass: collect all font sizes
    var fontSizes := CollectFontSizes(pages);
    if |fontSizes| == 0 {
      return [];
    }

    // H1 = largest, H2 = second largest, H3 = third largest font size
    var uniqueSizes := DistinctDesc(fontSizes);
    var sizeToLevel: map<int, Level> := map[];
    if |uniqueSizes| > 0 {
      sizeToLevel := sizeToLevel[uniqueSizes[0] := H1];
    }
    if |uniqueSizes| > 1 {
      sizeToLevel := sizeToLevel[uniqueSizes[1] := H2];
    }
    if |uniqueSizes| > 2 {
      sizeToLevel := sizeToLevel[uniqueSizes[2] := H3];
    }

    // second pass: classify every span
    headings := ClassifySpans(pages, sizeToLevel);
  }

  /** The first pass: the font size of every span, in reading order. */
  method CollectFontSizes(pages: seq<Page>) returns (fontSizes: seq<int>)
    ensures fontSizes == FontSizes(pages)
  {
    fontSizes := [];
    var p := 0;
    while p < |pages|
      invariant 0 <= p <= |pages|
      invariant fontSizes == Sizes(Placed(pages[..p]))
    {
      var j := 0;
      while j < |pages[p]|
        invariant 0 <= j <= |pages[p]|
        invariant fontSizes == Sizes(Placed(pages[..p]) + PlacePage(pages[p][..j], p + 1))
      {
        PlacePageStep(pages[p], j, p + 1);
        fontSizes := fontSizes + [pages[p][j].size];
        j := j + 1;
      }
      PlacedStep(pages, p);
      p := p + 1;
    }
    assert pages[..p] == pages;
  }

  /** The second pass: the heading, if any, of every span, in reading order. */
  method ClassifySpans(pages: seq<Page>, sizeToLevel: map<int, Level>) returns (headings: seq<Heading>)
    ensures headings == HeadingsOf(Placed(pages), sizeToLevel)
  {
    headings := [];
    var p := 0;
    while p < |pages|
      invariant 0 <= p <= |pages|
      invariant headings == HeadingsOf(Placed(pages[..p]), sizeToLevel)
    {
      headings := ClassifyPage(pages[p], p + 1, sizeToLevel, Placed(pages[..p]), headings);
      PlacedStep(pages, p);
      p := p + 1;
    }
    assert pages[..p] == pages;
  }

  /** The second pass over the spans of page `pageNum`, appending to the
      headings `headings` found on the spans `done` before it. */
  method ClassifyPage(spans: seq<Span>, pageNum: int, sizeToLevel: map<int, Level>,
                      ghost done: seq<PlacedSpan>, headingsBefore: seq<Heading>)
    returns (headings: seq<Heading>)
    requires headingsBefore == HeadingsOf(done, sizeToLevel)
    ensures headings == HeadingsOf(done + PlacePage(spans, pageNum), sizeToLevel)
  {
    headings := headingsBefore;
    ghost var seen := done;
    var j := 0;
    while j < |spans|
      invariant 0 <= j <= |spans|
      invariant seen == done + PlacePage(spans[..j], pageNum)
      invariant headings == HeadingsOf(seen, sizeToLevel)
    {
      PlacePageStep(spans, j, pageNum);
      HeadingsOfSnoc(seen, PlacedSpan(spans[j], pageNum), sizeToLevel);
      var heading := ClassifySpan(spans[j], pageNum, sizeToLevel);
      if heading.Some? {
        headings := headings + [heading.value];
      }
      seen := seen + [PlacedSpan(spans[j], pageNum)];
      j := j + 1;
    }
    assert spans[..j] == spans;
  }

  /** The body of the second pass for one span: skip short texts, then the
      size rule, the all-caps rule and the numbering rule in that order. */
  method ClassifySpan(s: Span, pageNum: int, sizeToLevel: map<int, Level>) returns (heading: Option<Heading>)
    ensures heading == HeadingOf(PlacedSpan(s, pageNum), sizeToLevel)
  {
    var text := Strip(s.text);
    if |text| < 3 {
      return None;
    }
    var level := Lookup(sizeToLevel, s.size);
    var isHeading := false;
    if level.Some? {
      isHeading := true;
    } else if AllCapsShape(text) && WordCount(text) < 10 {
      isHeading := true;
      level := Some(H2);
    } else if NumberedPrefix(text) {
      isHeading := true;
      level := Some(H3);
    }
    heading := None;
    assert isHeading ==> level.Some?;
    if isHeading {
      heading := Some(Heading(text, level.GetOr(H3), pageNum, text));
    }
  }

  lemma PlacePageStep(spans: seq<Span>, j: nat, page: int)
    requires j < |spans|
    ensures PlacePage(spans[..j + 1], page) == PlacePage(spans[..j], page) + [PlacedSpan(spans[j], page)]
  {
  }

  lemma PlacedStep(pages: seq<Page>, p: nat)
    requires p < |pages|
    ensures Placed(pages[..p + 1]) == Placed(pages[..p]) + PlacePage(pages[p], p + 1)
    ensures Placed(pages[..p + 1]) == Placed(pages[..p]) + PlacePage(pages[p][..|pages[p]|], p + 1)
  {
    assert pages[..p + 1][..p] == pages[..p];
    assert pages[p][..|pages[p]|] == pages[p];
  }

  lemma HeadingsOfSnoc(ps: seq<PlacedSpan>, q: PlacedSpan, levels: map<int, Level>)
    ensures HeadingsOf(ps + [q], levels) == HeadingsOf(ps, levels) +
      match HeadingOf(q, levels)
      case Some(h) => [h]
      case None => []
  {
    assert (ps + [q])[..|ps|] == ps;
  }

  lemma HeadingsOfSnocSome(ps: seq<PlacedSpan>, q: PlacedSpan, levels: map<int, Level>, h: Heading)
    requires HeadingOf(q, levels) == Some(h)
    ensures HeadingsOf(ps + [q], levels) == HeadingsOf(ps, levels) + [h]
  {
    HeadingsOfSnoc(ps, q, levels);
  }

  // ---------------------------------------------------------------------
  // Lemmas about the placed spans

  /** Every placed span is a span of the document, tagged with its page. */
  lemma {:induction false} PlacedFrom(pages: seq<Page>, q: PlacedSpan) returns (j: nat)
    requires q in Placed(pages)
    ensures 1 <= q.page <= |pages| && j < |pages[q.page - 1]| && pages[q.page - 1][j] == q.span
  {
    var n := |pages|;
    var init := pages[..n - 1];
    if q in Placed(init) {
      j := PlacedFrom(init, q);
      assert init[q.page - 1] == pages[q.page - 1];
    } else {
      var ps := PlacePage(pages[n - 1], n);
      var i :| 0 <= i < |ps| && ps[i] == q;
      j := i;
    }
  }

  /** Every span of the document is placed, with its page number. */
  lemma {:induction false} PlacedAll(pages: seq<Page>, p: nat, j: nat) returns (i: nat)
    requires p < |pages| && j < |pages[p]|
    ensures i < |Placed(pages)| && Placed(pages)[i] == PlacedSpan(pages[p][j], p + 1)
    ensures Locate(pages, i) == (p, j)
  {
    var n := |pages|;
    var init := pages[..n - 1];
    if p < n - 1 {
      i := PlacedAll(init, p, j);
    } else {
      i := |Placed(init)| + j;
      assert PlacePage(pages[p], p + 1)[j] == PlacedSpan(pages[p][j], p + 1);
    }
  }

  /** The page index and span index of placed span `i`. */
  function Locate(pages: seq<Page>, i: nat): (pj: (nat, nat))
    requires i < |Placed(pages)|
    ensures pj.0 < |pages| && pj.1 < |pages[pj.0]|
    ensures Placed(pages)[i] == PlacedSpan(pages[pj.0][pj.1], pj.0 + 1)
    decreases |pages|
  {
    var init := pages[..|pages| - 1];
    if i < |Placed(init)| then
      var pj := Locate(init, i);
      assert init[pj.0] == pages[pj.0];
      pj
    else
      var j := i - |Placed(init)|;
      assert PlacePage(pages[|pages| - 1], |pages|)[j] == PlacedSpan(pages[|pages| - 1][j], |pages|);
      (|pages| - 1, j)
  }

  /** Position `a` comes before position `b` in reading order. */
  predicate ReadsBefore(a: (nat, nat), b: (nat, nat)) {
    a.0 < b.0 || (a.0 == b.0 && a.1 < b.1)
  }

  /** Placed spans follow reading order: page by page, span by span. */
  lemma {:induction false} LocateOrdered(pages: seq<Page>, i: nat, i2: nat)
    requires i < i2 < |Placed(pages)|
    ensures ReadsBefore(Locate(pages, i), Locate(pages, i2))
  {
    var init := pages[..|pages| - 1];
    if i2 < |Placed(init)| {
      LocateOrdered(init, i, i2);
    }
  }

  /** The size of every span is among the document's font sizes. */
  lemma SpanSizeListed(pages: seq<Page>, p: nat, j: nat)
    requires p < |pages| && j < |pages[p]|
    ensures pages[p][j].size in FontSizes(pages)
  {
    var i := PlacedAll(pages, p, j);
    assert FontSizes(pages)[i] == pages[p][j].size;
  }

  /** Placed spans are in page order. */
  lemma {:induction false} PlacedOrdered(pages: seq<Page>)
    ensures forall i, j :: 0 <= i <= j < |Placed(pages)| ==> Placed(pages)[i].page <= Placed(pages)[j].page
  {
    if pages != [] {
      var n := |pages|;
      var init := pages[..n - 1];
      PlacedOrdered(init);
      var ps := Placed(pages);
      forall i | 0 <= i < |Placed(init)|
        ensures ps[i].page <= n - 1
      {
        var _ := PlacedFrom(init, Placed(init)[i]);
      }
    }
  }

  /** A document with no span at all has no placed span. */
  lemma {:induction false} PlacedNone(pages: seq<Page>)
    requires forall p :: 0 <= p < |pages| ==> pages[p] == []
    ensures Placed(pages) == []
  {
    if pages != [] {
      PlacedNone(pages[..|pages| - 1]);
    }
  }

  // ---------------------------------------------------------------------
  // Lemmas about the heading filter

  lemma {:induction false} HeadingsOfSource(ps: seq<PlacedSpan>, levels: map<int, Level>, h: Heading)
    returns (q: PlacedSpan)
    requires h in HeadingsOf(ps, levels)
    ensures q in ps && HeadingOf(q, levels) == Some(h)
  {
    var init := ps[..|ps| - 1];
    if h in HeadingsOf(init, levels) {
      q := HeadingsOfSource(init, levels, h);
      assert q in ps;
    } else {
      q := ps[|ps| - 1];
    }
  }

  lemma {:induction false} HeadingsOfComplete(ps: seq<PlacedSpan>, levels: map<int, Level>, q: PlacedSpan)
    requires q in ps && HeadingOf(q, levels).Some?
    ensures HeadingOf(q, levels).value in HeadingsOf(ps, levels)
  {
    var init := ps[..|ps| - 1];
    if q != ps[|ps| - 1] {
      var i :| 0 <= i < |ps| && ps[i] == q;
      assert init[i] == q;
      HeadingsOfComplete(init, levels, q);
    }
  }

  lemma {:induction false} HeadingsOfLength(ps: seq<PlacedSpan>, levels: map<int, Level>)
    ensures |HeadingsOf(ps, levels)| <= |ps|
  {
    if ps != [] {
      HeadingsOfLength(ps[..|ps| - 1], levels);
    }
  }

  /** The values present in `os`, in order. */
  function Present<T>(os: seq<Option<T>>): seq<T> {
    if os == [] then []
    else
      Present(os[..|os| - 1]) +
      match os[|os| - 1]
      case Some(x) => [x]
      case None => []
  }

  /** The values of `os` are those at the strictly increasing indices `r`,
      which take in every index holding a value. */
  lemma {:induction false} PresentIndices<T>(os: seq<Option<T>>) returns (r: seq<nat>)
    ensures |r| == |Present(os)|
    ensures forall k :: 0 <= k < |r| ==> r[k] < |os| && os[r[k]] == Some(Present(os)[k])
    ensures forall k, l :: 0 <= k < l < |r| ==> r[k] < r[l]
    ensures forall i :: 0 <= i < |os| && os[i].Some? ==> i in r
  {
    if os == [] {
      r := [];
    } else {
      var n := |os| - 1;
      var init := os[..n];
      var r0 := PresentIndices(init);
      assert forall i :: 0 <= i < n ==> os[i] == init[i];
      if os[n].Some? {
        r := r0 + [n];
        assert Present(os) == Present(init) + [os[n].value];
      } else {
        r := r0;
        assert Present(os) == Present(init);
      }
    }
  }

  /** What each span of `ps` yields. */
  function Yields(ps: seq<PlacedSpan>, levels: map<int, Level>): seq<Option<Heading>> {
    seq(|ps|, i requires 0 <= i < |ps| => HeadingOf(ps[i], levels))
  }

  lemma {:induction false} HeadingsOfPresent(ps: seq<PlacedSpan>, levels: map<int, Level>)
    ensures HeadingsOf(ps, levels) == Present(Yields(ps, levels))
  {
    if ps != [] {
      var init := ps[..|ps| - 1];
      HeadingsOfPresent(init, levels);
      assert Yields(ps, levels)[..|ps| - 1] == Yields(init, levels);
    }
  }

  /** The headings of `ps` are those of the spans at the strictly
      increasing indices `r`, which take in every span that yields one. */
  lemma HeadingsOfIndices(ps: seq<PlacedSpan>, levels: map<int, Level>) returns (r: seq<nat>)
    ensures |r| == |HeadingsOf(ps, levels)|
    ensures forall k :: 0 <= k < |r| ==> r[k] < |ps| && HeadingOf(ps[r[k]], levels) == Some(HeadingsOf(ps, levels)[k])
    ensures forall k, l :: 0 <= k < l < |r| ==> r[k] < r[l]
    ensures forall i :: 0 <= i < |ps| && HeadingOf(ps[i], levels).Some? ==> i in r
  {
    HeadingsOfPresent(ps, levels);
    var os := Yields(ps, levels);
    r := PresentIndices(os);
    forall i | 0 <= i < |ps| && HeadingOf(ps[i], levels).Some?
      ensures i in r
    {
      assert os[i] == HeadingOf(ps[i], levels);
    }
  }

  lemma {:induction false} HeadingsOfPageBound(ps: seq<PlacedSpan>, levels: map<int, Level>, bound: int)
    requires forall i :: 0 <= i < |ps| ==> ps[i].page <= bound
    ensures forall h :: h in HeadingsOf(ps, levels) ==> h.page <= bound
  {
    if ps != [] {
      HeadingsOfPageBound(ps[..|ps| - 1], levels, bound);
    }
  }

  predicate InPageOrder(hs: seq<Heading>) {
    forall i, j :: 0 <= i <= j < |hs| ==> hs[i].page <= hs[j].page
  }

  lemma {:induction false} HeadingsOfOrdered(ps: seq<PlacedSpan>, levels: map<int, Level>)
    requires forall i, j :: 0 <= i <= j < |ps| ==> ps[i].page <= ps[j].page
    ensures InPageOrder(HeadingsOf(ps, levels))
  {
    if ps != [] {
      var init := ps[..|ps| - 1];
      var last := ps[|ps| - 1];
      HeadingsOfOrdered(init, levels);
      HeadingsOfPageBound(init, levels, last.page);
      var hs0 := HeadingsOf(init, levels);
      match HeadingOf(last, levels)
      case None =>
        assert HeadingsOf(ps, levels) == hs0;
      case Some(h) =>
        var hs := hs0 + [h];
        assert HeadingsOf(ps, levels) == hs;
        assert h.page == last.page;
        forall i, j | 0 <= i <= j < |hs|
          ensures hs[i].page <= hs[j].page
        {
          if j < |hs0| {
            assert hs[i] == hs0[i] && hs[j] == hs0[j];
          } else if i < |hs0| {
            assert hs[i] == hs0[i] && hs0[i] in hs0;
          }
        }
    }
  }

  // ---------------------------------------------------------------------
  // Lemmas about the level table

  lemma {:induction false} PrefixSetCard(r: seq<int>, k: nat)
    requires k <= |r|
    requires forall i, j :: 0 <= i < j < |r| ==> r[i] > r[j]
    ensures |set i | 0 <= i < k :: r[i]| == k
  {
    if k > 0 {
      PrefixSetCard(r, k - 1);
      assert (set i | 0 <= i < k :: r[i]) == (set i | 0 <= i < k - 1 :: r[i]) + {r[k - 1]};
    }
  }

  /** In a strictly decreasing list of sizes, the one at index `k` gets the
      level for `k` larger sizes. */
  lemma SizeLevelsAt(r: seq<int>, k: nat)
    requires k < |r|
    requires forall i, j :: 0 <= i < j < |r| ==> r[i] > r[j]
    ensures Lookup(SizeLevels(r), r[k]) == LevelForRank(k)
  {
    if |r| > 1 { assert r[0] > r[1]; }
    if |r| > 2 { assert r[0] > r[2] && r[1] > r[2]; }
    if k > 2 { assert r[0] > r[k] && r[1] > r[k] && r[2] > r[k]; }
  }

  /** The sizes larger than the one at index `k` of the distinct sizes, largest
      first, are exactly the `k` before it. */
  lemma LargerSizesPrefix(sizes: seq<int>, k: nat)
    requires k < |DistinctDesc(sizes)|
    ensures |LargerSizes(sizes, DistinctDesc(sizes)[k])| == k
  {
    var r := DistinctDesc(sizes);
    DistinctDescFacts(sizes);
    assert LargerSizes(sizes, r[k]) == set i | 0 <= i < k :: r[i] by {
      forall y | y in LargerSizes(sizes, r[k])
        ensures y in set i | 0 <= i < k :: r[i]
      {
        var i :| 0 <= i < |r| && r[i] == y;
        assert i < k;
      }
    }
    PrefixSetCard(r, k);
  }

  /** A size of the document gets a level exactly when fewer than three
      distinct sizes are larger: H1 for the largest, H2 for the second, H3 for
      the third. A size the document does not have gets no level. */
  lemma SizeLevelByRank(sizes: seq<int>, size: int)
    ensures size in sizes ==>
      Lookup(SizeLevels(DistinctDesc(sizes)), size) == LevelForRank(|LargerSizes(sizes, size)|)
    ensures size !in sizes ==> Lookup(SizeLevels(DistinctDesc(sizes)), size) == None
  {
    var r := DistinctDesc(sizes);
    DistinctDescFacts(sizes);
    if size in sizes {
      var k :| 0 <= k < |r| && r[k] == size;
      LargerSizesPrefix(sizes, k);
      SizeLevelsAt(r, k);
    } else {
      assert size !in r;
    }
  }

  /** The classification of a size of the document by the level table is the
      cascade by rank. */
  lemma ClassifyByRank(text: string, size: int, levels: map<int, Level>, k: nat)
    requires Lookup(levels, size) == LevelForRank(k)
    ensures Classify(text, size, levels) == RankCascade(text, k)
  {
  }

  // ---------------------------------------------------------------------
  // Properties of a whole document

  lemma ExtractSpecIs(pages: seq<Page>)
    ensures Placed(pages) != [] ==> ExtractSpec(pages) == HeadingsOf(Placed(pages), DocLevels(pages))
    ensures Placed(pages) == [] ==> ExtractSpec(pages) == []
  {
    assert |FontSizes(pages)| == |Placed(pages)|;
  }

  /** A document without spans yields no heading. */
  lemma NoSpansNoHeadings(pages: seq<Page>)
    requires forall p :: 0 <= p < |pages| ==> pages[p] == []
    ensures ExtractSpec(pages) == []
  {
    PlacedNone(pages);
    ExtractSpecIs(pages);
  }

  lemma SpanHeading(pages: seq<Page>, levels: map<int, Level>, q: PlacedSpan, h: Heading) returns (j: nat)
    requires q in Placed(pages) && HeadingOf(q, levels) == Some(h)
    ensures 1 <= h.page <= |pages| && j < |pages[h.page - 1]|
    ensures h.title == Strip(pages[h.page - 1][j].text) && |h.title| >= 3 && h.text == h.title
    ensures Classify(h.title, pages[h.page - 1][j].size, levels) == Some(h.level)
  {
    j := PlacedFrom(pages, q);
  }

  /** Every heading comes from a span `j` of its page whose stripped text is
      its title (at least three characters, and equal to its `text`), at the
      level the cascade gives that span. */
  lemma HeadingSource(pages: seq<Page>, h: Heading) returns (j: nat)
    requires h in ExtractSpec(pages)
    ensures 1 <= h.page <= |pages| && j < |pages[h.page - 1]|
    ensures h.title == Strip(pages[h.page - 1][j].text) && |h.title| >= 3 && h.text == h.title
    ensures Classify(h.title, pages[h.page - 1][j].size, DocLevels(pages)) == Some(h.level)
  {
    ExtractSpecIs(pages);
    var q := HeadingsOfSource(Placed(pages), DocLevels(pages), h);
    j := SpanHeading(pages, DocLevels(pages), q, h);
  }

  /** Headings come out in reading order, one for each span the cascade
      classifies: heading `k` comes from span `src[k].1` of page
      `src[k].0 + 1`, these positions strictly increase by page and then by
      span, and every classified span is among them. */
  lemma HeadingsInReadingOrder(pages: seq<Page>) returns (src: seq<(nat, nat)>)
    ensures |src| == |ExtractSpec(pages)|
    ensures forall k :: 0 <= k < |src| ==>
      src[k].0 < |pages| && src[k].1 < |pages[src[k].0]| &&
      HeadingOf(PlacedSpan(pages[src[k].0][src[k].1], src[k].0 + 1), DocLevels(pages)) == Some(ExtractSpec(pages)[k])
    ensures forall k, l :: 0 <= k < l < |src| ==> ReadsBefore(src[k], src[l])
    ensures forall p, j ::
      0 <= p < |pages| && 0 <= j < |pages[p]| && HeadingOf(PlacedSpan(pages[p][j], p + 1), DocLevels(pages)).Some?
      ==> (p, j) in src
  {
    var r := OneHeadingPerSpan(pages);
    src := Locations(pages, r);
    LocationsOrdered(pages, r, src);
    LocationsHeadings(pages, DocLevels(pages), ExtractSpec(pages), r, src);
    LocationsComplete(pages, DocLevels(pages), r, src);
  }

  /** The page and span positions of the placed spans `r`. */
  function Locations(pages: seq<Page>, r: seq<nat>): (src: seq<(nat, nat)>)
    requires forall k :: 0 <= k < |r| ==> r[k] < |Placed(pages)|
    ensures |src| == |r|
  {
    seq(|r|, k requires 0 <= k < |r| => Locate(pages, r[k]))
  }

  lemma LocationsOrdered(pages: seq<Page>, r: seq<nat>, src: seq<(nat, nat)>)
    requires forall k :: 0 <= k < |r| ==> r[k] < |Placed(pages)|
    requires forall k, l :: 0 <= k < l < |r| ==> r[k] < r[l]
    requires src == Locations(pages, r)
    ensures forall k, l :: 0 <= k < l < |src| ==> ReadsBefore(src[k], src[l])
  {
    forall k, l | 0 <= k < l < |src|
      ensures ReadsBefore(src[k], src[l])
    {
      LocateOrdered(pages, r[k], r[l]);
    }
  }

  lemma LocationsHeadings(pages: seq<Page>, levels: map<int, Level>, hs: seq<Heading>, r: seq<nat>, src: seq<(nat, nat)>)
    requires |r| == |hs|
    requires forall k :: 0 <= k < |r| ==> r[k] < |Placed(pages)| && HeadingOf(Placed(pages)[r[k]], levels) == Some(hs[k])
    requires src == Locations(pages, r)
    ensures forall k :: 0 <= k < |src| ==>
      src[k].0 < |pages| && src[k].1 < |pages[src[k].0]| &&
      HeadingOf(PlacedSpan(pages[src[k].0][src[k].1], src[k].0 + 1), levels) == Some(hs[k])
  {
    forall k | 0 <= k < |src|
      ensures src[k].0 < |pages| && src[k].1 < |pages[src[k].0]|
      ensures PlacedSpan(pages[src[k].0][src[k].1], src[k].0 + 1) == Placed(pages)[r[k]]
    {
      assert src[k] == Locate(pages, r[k]);
    }
  }

  lemma LocationsComplete(pages: seq<Page>, levels: map<int, Level>, r: seq<nat>, src: seq<(nat, nat)>)
    requires forall k :: 0 <= k < |r| ==> r[k] < |Placed(pages)|
    requires forall i :: 0 <= i < |Placed(pages)| && HeadingOf(Placed(pages)[i], levels).Some? ==> i in r
    requires src == Locations(pages, r)
    ensures forall p, j ::
      0 <= p < |pages| && 0 <= j < |pages[p]| && HeadingOf(PlacedSpan(pages[p][j], p + 1), levels).Some?
      ==> (p, j) in src
  {
    forall p, j | 0 <= p < |pages| && 0 <= j < |pages[p]| && HeadingOf(PlacedSpan(pages[p][j], p + 1), levels).Some?
      ensures (p, j) in src
    {
      var i := PlacedAll(pages, p, j);
      var k :| 0 <= k < |r| && r[k] == i;
      assert src[k] == (p, j);
    }
  }

  /** In particular, headings come out in page order. */
  lemma HeadingsInPageOrder(pages: seq<Page>)
    ensures InPageOrder(ExtractSpec(pages))
  {
    ExtractSpecIs(pages);
    PlacedOrdered(pages);
    HeadingsOfOrdered(Placed(pages), DocLevels(pages));
  }

  /** Each span of the document yields at most one heading, at its place in
      reading order: heading `k` comes from placed span `r[k]`, the indices
      strictly increase, and every span the cascade classifies is among
      them. */
  lemma OneHeadingPerSpan(pages: seq<Page>) returns (r: seq<nat>)
    ensures |r| == |ExtractSpec(pages)| <= |Placed(pages)|
    ensures forall k :: 0 <= k < |r| ==>
      r[k] < |Placed(pages)| && HeadingOf(Placed(pages)[r[k]], DocLevels(pages)) == Some(ExtractSpec(pages)[k])
    ensures forall k, l :: 0 <= k < l < |r| ==> r[k] < r[l]
    ensures forall i :: 0 <= i < |Placed(pages)| && HeadingOf(Placed(pages)[i], DocLevels(pages)).Some? ==> i in r
  {
    ExtractSpecIs(pages);
    r := HeadingsOfIndices(Placed(pages), DocLevels(pages));
    HeadingsOfLength(Placed(pages), DocLevels(pages));
  }

  /** The classification of span `j` of page `p` is the cascade by the rank
      of its size among the document's distinct sizes. */
  lemma SpanClassification(pages: seq<Page>, p: nat, j: nat)
    requires p < |pages| && j < |pages[p]|
    ensures Classify(Strip(pages[p][j].text), pages[p][j].size, DocLevels(pages))
         == RankCascade(Strip(pages[p][j].text), |LargerSizes(FontSizes(pages), pages[p][j].size)|)
  {
    SpanSizeListed(pages, p, j);
    SizeLevelByRank(FontSizes(pages), pages[p][j].size);
    ClassifyByRank(Strip(pages[p][j].text), pages[p][j].size, DocLevels(pages),
                   |LargerSizes(FontSizes(pages), pages[p][j].size)|);
  }

  /** A span of at least three stripped characters whose size has `k` larger
      distinct sizes in the document yields a heading exactly when the cascade
      by rank gives it a level: the size rule first, whatever the text, then
      the all-caps rule (H2), then the numbering rule (H3). */
  lemma SpanRule(pages: seq<Page>, p: nat, j: nat)
    requires p < |pages| && j < |pages[p]|
    requires |Strip(pages[p][j].text)| >= 3
    ensures var t := Strip(pages[p][j].text);
      var cascade := RankCascade(t, |LargerSizes(FontSizes(pages), pages[p][j].size)|);
      && (cascade.Some? ==> Heading(t, cascade.value, p + 1, t) in ExtractSpec(pages))
      && (cascade.None? ==> HeadingOf(PlacedSpan(pages[p][j], p + 1), DocLevels(pages)) == None)
  {
    var q := PlacedSpan(pages[p][j], p + 1);
    var _ := PlacedAll(pages, p, j);
    ExtractSpecIs(pages);
    SpanClassification(pages, p, j);
    if HeadingOf(q, DocLevels(pages)).Some? {
      HeadingsOfComplete(Placed(pages), DocLevels(pages), q);
    }
  }

  /** Every font size of the document is the size of one of its spans. */
  lemma FontSizeSource(pages: seq<Page>, y: int) returns (p: nat, j: nat)
    requires y in FontSizes(pages)
    ensures p < |pages| && j < |pages[p]| && pages[p][j].size == y
  {
    var i :| 0 <= i < |FontSizes(pages)| && FontSizes(pages)[i] == y;
    var q := Placed(pages)[i];
    j := PlacedFrom(pages, q);
    p := q.page - 1;
  }

  /** No span of the document is set in a size larger than `size`. */
  predicate NoSpanLarger(pages: seq<Page>, size: int) {
    forall p, j :: 0 <= p < |pages| && 0 <= j < |pages[p]| ==> pages[p][j].size <= size
  }

  /** Only the size rule gives `H1`, and only to the largest size: a span
      classified `H1`, whatever its text, has the largest size of the
      document. */
  lemma H1Rule(pages: seq<Page>, p: nat, j: nat, t: string)
    requires p < |pages| && j < |pages[p]|
    requires Classify(t, pages[p][j].size, DocLevels(pages)) == Some(H1)
    ensures NoSpanLarger(pages, pages[p][j].size)
  {
    var size := pages[p][j].size;
    var sizes := FontSizes(pages);
    SpanSizeListed(pages, p, j);
    SizeLevelByRank(sizes, size);
    OnlyTableGivesH1(t, size, DocLevels(pages));
    assert |LargerSizes(sizes, size)| == 0;
    forall p2, j2 | 0 <= p2 < |pages| && 0 <= j2 < |pages[p2]|
      ensures pages[p2][j2].size <= size
    {
      SpanSizeListed(pages, p2, j2);
      NoneLarger(sizes, size, pages[p2][j2].size);
    }
  }

  /** The shape rules give only H2 and H3. */
  lemma OnlyTableGivesH1(t: string, size: int, levels: map<int, Level>)
    requires Classify(t, size, levels) == Some(H1)
    ensures Lookup(levels, size) == Some(H1)
  {
  }

  lemma NoneLarger(sizes: seq<int>, size: int, y: int)
    requires |LargerSizes(sizes, size)| == 0 && y in sizes
    ensures y <= size
  {
    assert y > size ==> y in LargerSizes(sizes, size);
  }

  /** An H1 heading always comes from a span of the document's largest size:
      the shape rules only give H2 and H3. */
  lemma H1IsLargest(pages: seq<Page>, h: Heading) returns (j: nat)
    requires h in ExtractSpec(pages) && h.level == H1
    ensures 1 <= h.page <= |pages| && j < |pages[h.page - 1]|
    ensures h.title == Strip(pages[h.page - 1][j].text)
    ensures NoSpanLarger(pages, pages[h.page - 1][j].size)
  {
    j := HeadingSource(pages, h);
    H1Rule(pages, h.page - 1, j, h.title);
  }

  /** Every span of the document is set in font size `size`. */
  predicate AllOfSize(pages: seq<Page>, size: int) {
    forall p, j :: 0 <= p < |pages| && 0 <= j < |pages[p]| ==> pages[p][j].size == size
  }

  /** When every span has the same size, that size is the largest and maps
      to H1. */
  lemma SingleSizeLevel(pages: seq<Page>, size: int, p: nat, j: nat)
    requires AllOfSize(pages, size)
    requires p < |pages| && j < |pages[p]|
    ensures LargerSizes(FontSizes(pages), size) == {}
    ensures Lookup(DocLevels(pages), size) == Some(H1)
  {
    SpanSizeListed(pages, p, j);
    SizeLevelByRank(FontSizes(pages), size);
    forall y | y in FontSizes(pages)
      ensures y <= size
    {
      var p2, j2 := FontSizeSource(pages, y);
    }
    assert LargerSizes(FontSizes(pages), size) == {};
  }

  /** A size with an entry in the level table gets that level, whatever the
      text. */
  lemma TableLevelWins(text: string, size: int, levels: map<int, Level>, level: Level, tabled: Level)
    requires Lookup(levels, size) == Some(tabled)
    requires Classify(text, size, levels) == Some(level)
    ensures level == tabled
  {
  }

  lemma SingleSizeLevelOf(pages: seq<Page>, size: int, p: nat, j: nat, t: string, level: Level)
    requires AllOfSize(pages, size)
    requires p < |pages| && j < |pages[p]|
    requires Classify(t, pages[p][j].size, DocLevels(pages)) == Some(level)
    ensures level == H1
  {
    SingleSizeLevel(pages, size, p, j);
    TableLevelWins(t, pages[p][j].size, DocLevels(pages), level, H1);
  }

  /** When every span has the same font size, every heading is H1. */
  lemma SingleSizeHeadingIsH1(pages: seq<Page>, size: int, h: Heading)
    requires AllOfSize(pages, size)
    requires h in ExtractSpec(pages)
    ensures h.level == H1
  {
    var j := HeadingSource(pages, h);
    SingleSizeLevelOf(pages, size, h.page - 1, j, h.title, h.level);
  }

  /** When every span has the same font size, every span of at least three
      stripped characters yields an H1 heading. */
  lemma SingleSizeSpanIsH1(pages: seq<Page>, size: int, p: nat, j: nat)
    requires AllOfSize(pages, size)
    requires p < |pages| && j < |pages[p]| && |Strip(pages[p][j].text)| >= 3
    ensures Heading(Strip(pages[p][j].text), H1, p + 1, Strip(pages[p][j].text)) in ExtractSpec(pages)
  {
    SpanRule(pages, p, j);
    SingleSizeLevel(pages, size, p, j);
  }

  /** When every span has the same font size, every span of at least three
      stripped characters is an H1 heading, and there is no other heading:
      the shape rules never apply. */
  lemma SingleSizeAllH1(pages: seq<Page>, size: int)
    requires AllOfSize(pages, size)
    ensures forall h :: h in ExtractSpec(pages) ==> h.level == H1
    ensures forall p, j :: 0 <= p < |pages| && 0 <= j < |pages[p]| && |Strip(pages[p][j].text)| >= 3 ==>
      Heading(Strip(pages[p][j].text), H1, p + 1, Strip(pages[p][j].text)) in ExtractSpec(pages)
  {
    forall h | h in ExtractSpec(pages)
      ensures h.level == H1
    {
      SingleSizeHeadingIsH1(pages, size, h);
    }
    forall p, j | 0 <= p < |pages| && 0 <= j < |pages[p]| && |Strip(pages[p][j].text)| >= 3
      ensures Heading(Strip(pages[p][j].text), H1, p + 1, Strip(pages[p][j].text)) in ExtractSpec(pages)
    {
      SingleSizeSpanIsH1(pages, size, p, j);
    }
  }

  lemma TwoSpansPlaced(a: Span, b: Span)
    ensures Placed([[a, b]]) == [PlacedSpan(a, 1), PlacedSpan(b, 1)]
    ensures FontSizes([[a, b]]) == [a.size, b.size]
  {
    var pages: seq<Page> := [[a, b]];
    assert pages[..0] == [];
  }

  lemma TwoSpansHeading(a: Span, b: Span, j: nat, level: Level)
    requires j < 2 && a.size > b.size
    requires level == (if j == 0 then H1 else H2)
    requires var t := [a, b][j].text; |t| >= 3 && !IsSpace(t[0]) && !IsSpace(t[|t| - 1])
    ensures var q := PlacedSpan([a, b][j], 1);
      HeadingOf(q, DocLevels([[a, b]])) == Some(Heading(q.span.text, level, 1, q.span.text))
  {
    var pages: seq<Page> := [[a, b]];
    var t := pages[0][j].text;
    TwoSpansPlaced(a, b);
    StripUntrimmed(t);
    SpanClassification(pages, 0, j);
    assert LargerSizes(FontSizes(pages), pages[0][j].size) == if j == 0 then {} else {a.size};
  }

  /** A title above body text set in a smaller size, say "INTRODUCTION" at
      size 18 and "This is the intro text." at size 10 on page 1, gives two
      headings, the body text at H2: each of the three largest sizes is mapped
      to a level whatever the text. */
  lemma TitleAndBody(title: string, body: string, big: int, small: int)
    requires big > small
    requires |title| >= 3 && !IsSpace(title[0]) && !IsSpace(title[|title| - 1])
    requires |body| >= 3 && !IsSpace(body[0]) && !IsSpace(body[|body| - 1])
    ensures ExtractSpec([[Span(title, big), Span(body, small)]])
         == [Heading(title, H1, 1, title), Heading(body, H2, 1, body)]
  {
    var a := Span(title, big);
    var b := Span(body, small);
    var pages: seq<Page> := [[a, b]];
    var levels := DocLevels(pages);
    var q1 := PlacedSpan(a, 1);
    var q2 := PlacedSpan(b, 1);
    TwoSpansPlaced(a, b);
    TwoSpansHeading(a, b, 0, H1);
    TwoSpansHeading(a, b, 1, H2);
    HeadingsOfPair(q1, q2, levels, Heading(title, H1, 1, title), Heading(body, H2, 1, body));
    ExtractSpecIs(pages);
  }

  /** Two spans that each yield a heading yield those two, in order. */
  lemma HeadingsOfPair(q1: PlacedSpan, q2: PlacedSpan, levels: map<int, Level>, h1: Heading, h2: Heading)
    requires HeadingOf(q1, levels) == Some(h1) && HeadingOf(q2, levels) == Some(h2)
    ensures HeadingsOf([q1, q2], levels) == [h1, h2]
  {
    HeadingsOfSnocSome([], q1, levels, h1);
    assert [] + [q1] == [q1];
    HeadingsOfSnocSome([q1], q2, levels, h2);
    assert [q1] + [q2] == [q1, q2];
  }
}
