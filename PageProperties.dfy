/**
  What the page-to-text builder guarantees: the main-content de-duplication
  keeps long, pairwise unrelated blocks in element order and covers every
  long text it skips; links are unique and in first-occurrence order; and the
  section markers come out in their fixed order, each exactly when its
  section's selector matched something.
*/
module PageProperties {
  import opened Wrappers
  import opened JsStrings
  import opened Sequences
  import opened PageModel

  /** Every kept block is one of the scanned texts and is longer than 20 units. */
  lemma {:induction false} KeptBlocksAreLongInputs(texts: seq<string>)
    ensures forall b :: b in KeptBlocks(texts) ==> b in texts && JsLength(b) > MIN_BLOCK_LENGTH
    decreases |texts|
  {
    if texts != [] {
      var init := texts[..|texts| - 1];
      KeptBlocksAreLongInputs(init);
      assert texts == init + [texts[|texts| - 1]];
    }
  }

  /** No kept block contains another, so in particular no block is kept twice. */
  lemma {:induction false} KeptBlocksPairwiseUnrelated(texts: seq<string>)
    ensures forall i, j :: 0 <= i < j < |KeptBlocks(texts)| ==>
              !Related(KeptBlocks(texts)[i], KeptBlocks(texts)[j]) && KeptBlocks(texts)[i] != KeptBlocks(texts)[j]
    decreases |texts|
  {
    if texts != [] {
      var init := texts[..|texts| - 1];
      var t := texts[|texts| - 1];
      KeptBlocksPairwiseUnrelated(init);
      var kept := KeptBlocks(init);
      var r := KeptBlocks(texts);
      forall i, j | 0 <= i < j < |r|
        ensures !Related(r[i], r[j]) && r[i] != r[j]
      {
        if j == |kept| {
          assert r[j] == t && Admits(kept, t) && r[i] == kept[i] && kept[i] in kept;
          ContainsItself(t);
        }
      }
    }
  }

  /** Blocks are only ever appended: scanning more elements keeps what an earlier prefix kept, in the same order. */
  lemma {:induction false} KeptBlocksGrowByAppending(texts: seq<string>, k: nat)
    requires k <= |texts|
    ensures KeptBlocks(texts[..k]) <= KeptBlocks(texts)
    decreases |texts| - k
  {
    if k < |texts| {
      var init := texts[..|texts| - 1];
      assert init[..k] == texts[..k];
      KeptBlocksGrowByAppending(init, k);
      assert texts[..|texts|] == texts;
    } else {
      assert texts[..k] == texts;
    }
  }

  /** Some block in `blocks` contains `t` or is contained in it. */
  predicate CoveredBy(blocks: seq<string>, t: string) {
    exists b :: b in blocks && Related(b, t)
  }

  lemma CoveredByLonger(a: seq<string>, b: seq<string>, t: string)
    requires a <= b && CoveredBy(a, t)
    ensures CoveredBy(b, t)
  {
    var x :| x in a && Related(x, t);
    assert x in b;
  }

  /**
    A long text that was skipped was skipped because of a block kept before
    it: every text longer than 20 units contains, or is contained in, a block
    kept by the time it was scanned (itself, when it was kept).
  */
  lemma CoveredByEarlierBlock(texts: seq<string>, k: nat)
    requires k < |texts| && JsLength(texts[k]) > MIN_BLOCK_LENGTH
    ensures CoveredBy(KeptBlocks(texts[..k + 1]), texts[k])
    ensures CoveredBy(KeptBlocks(texts), texts[k])
  {
    CoveredWhenScanned(texts, k);
    KeptBlocksGrowByAppending(texts, k + 1);
    CoveredByLonger(KeptBlocks(texts[..k + 1]), KeptBlocks(texts), texts[k]);
  }

  lemma CoveredWhenScanned(texts: seq<string>, k: nat)
    requires k < |texts| && JsLength(texts[k]) > MIN_BLOCK_LENGTH
    ensures CoveredBy(KeptBlocks(texts[..k + 1]), texts[k])
  {
    var t := texts[k];
    var p := texts[..k + 1];
    var before := KeptBlocks(texts[..k]);
    assert p[..|p| - 1] == texts[..k] && p[|p| - 1] == t;
    var now := KeptBlocks(p);
    assert now == if Admits(before, t) then before + [t] else before;
    if Admits(before, t) {
      ContainsItself(t);
      assert t in now && Related(t, t);
    } else {
      var x :| x in before && Related(x, t);
      assert x in now;
    }
  }

  /** The MAIN CONTENT blocks of a region: trimmed texts of its elements, long, pairwise unrelated, covering all long texts. */
  lemma MainContentBlocks(els: seq<Element>)
    ensures forall b :: b in KeptBlocks(Texts(els)) ==>
              IsTrimmed(b) && JsLength(b) > MIN_BLOCK_LENGTH && exists i :: 0 <= i < |els| && b == TextOf(els[i])
    ensures forall i :: 0 <= i < |els| && JsLength(TextOf(els[i])) > MIN_BLOCK_LENGTH ==>
              CoveredBy(KeptBlocks(Texts(els)), TextOf(els[i]))
  {
    var texts := Texts(els);
    KeptBlocksAreLongInputs(texts);
    forall i | 0 <= i < |els| && JsLength(TextOf(els[i])) > MIN_BLOCK_LENGTH
      ensures CoveredBy(KeptBlocks(texts), TextOf(els[i]))
    {
      CoveredByEarlierBlock(texts, i);
    }
  }

  /** The LINKS entries are distinct, and are exactly the eligible "text -> href" strings. */
  lemma LinkEntries(links: seq<Element>)
    ensures NoDuplicates(LinkInfos(links))
    ensures forall x :: x in LinkInfos(links) <==> exists i :: 0 <= i < |links| && LinkCandidate(links[i]) == [x]
  {
    var candidates := FlatMap(links, LinkCandidate);
    DedupNoDuplicates(candidates);
    DedupSameValues(candidates);
    forall x | x in LinkInfos(links)
      ensures exists i :: 0 <= i < |links| && LinkCandidate(links[i]) == [x]
    {
      FlatMapMembers(links, LinkCandidate, x);
    }
    forall x, i | 0 <= i < |links| && LinkCandidate(links[i]) == [x]
      ensures x in LinkInfos(links)
    {
      FlatMapIncludes(links, LinkCandidate, i, x);
    }
  }

  /** LINKS entries appear in the order in which each first occurs among the page's links. */
  lemma LinkEntriesOrder(links: seq<Element>)
    ensures var candidates := FlatMap(links, LinkCandidate);
            var infos := LinkInfos(links);
            forall i, j :: 0 <= i < j < |infos| ==>
              infos[i] in candidates && infos[j] in candidates &&
              FirstIndex(candidates, infos[i]) < FirstIndex(candidates, infos[j])
  {
    var candidates := FlatMap(links, LinkCandidate);
    DedupFirstOccurrenceOrder(candidates);
    assert LinkInfos(links) == Dedup(candidates);
  }

  // ---- Section markers ----

  /** The marker-like lines of `lines`, in order. */
  function Markers(lines: seq<string>): seq<string> {
    if lines == [] then []
    else Markers(lines[..|lines| - 1]) + (if MarkerLike(lines[|lines| - 1]) then [lines[|lines| - 1]] else [])
  }

  lemma {:induction false} MarkersAppend(a: seq<string>, b: seq<string>)
    ensures Markers(a + b) == Markers(a) + Markers(b)
    decreases |b|
  {
    if b == [] {
      assert a + b == a;
    } else {
      assert (a + b)[..|a + b| - 1] == a + b[..|b| - 1];
      MarkersAppend(a, b[..|b| - 1]);
    }
  }

  lemma {:induction false} NoMarkersIn(lines: seq<string>)
    requires FreeOfMarkers(lines)
    ensures Markers(lines) == []
    decreases |lines|
  {
    if lines != [] {
      NoMarkersIn(lines[..|lines| - 1]);
    }
  }

  lemma FlatMapFreeOfMarkers<T>(xs: seq<T>, f: T -> seq<string>)
    requires forall x :: x in xs ==> FreeOfMarkers(f(x))
    ensures FreeOfMarkers(FlatMap(xs, f))
  {
    forall l | l in FlatMap(xs, f)
      ensures !MarkerLike(l)
    {
      FlatMapMembers(xs, f, l);
    }
  }

  /** The markers of a section: its own marker when the selector matched, nothing otherwise. */
  lemma SectionMarkers(marker: string, matched: nat, lines: seq<string>)
    requires MarkerLike(marker) && FreeOfMarkers(lines)
    ensures Markers(Section(marker, matched, lines)) == if matched == 0 then [] else [marker]
  {
    NoMarkersIn(lines);
    if matched > 0 {
      MarkersAppend([marker], lines);
      assert Markers([marker]) == Markers([]) + [marker];
    }
  }

  /** The selectors guarantee these tags: headings are h1..h6, interactive elements are form controls. */
  predicate WellFormedRegion(r: Region) {
    (forall e :: e in r.headings ==> IsHeadingTag(e.tag))
    && (forall e :: e in r.controls ==> IsControlTag(e.tag))
  }

  predicate WellFormedPage(page: Page) {
    WellFormedRegion(page.body)
    && forall s :: s in page.selectorMatches ==> WellFormedRegion(page.selectorMatches[s])
  }

  lemma HeadingTagShape(tag: string)
    requires IsHeadingTag(tag)
    ensures |tag| == 2 && tag[0] == 'h'
  {
  }

  lemma HeadingLineFree(e: Element)
    requires IsHeadingTag(e.tag)
    ensures FreeOfMarkers(HeadingLine(e))
  {
    if TextOf(e) != "" {
      HeadingRenderSecond(e);
    }
    assert HeadingLine(e) == [ProcessElement(e, 0)];
  }

  /** A rendered heading begins with a newline and then the heading's upper-case tag. */
  lemma HeadingRenderSecond(e: Element)
    requires IsHeadingTag(e.tag) && TextOf(e) != ""
    ensures |ProcessElement(e, 0)| >= 2 && ProcessElement(e, 0)[1] == 'H'
  {
    UpperHeadingTag(e.tag);
    ProcessElementFormats(e, 0);
    LineSecondChar(Repeat("  ", 0), ToUpperAscii(e.tag), ": " + TextOf(e) + "\n");
  }

  lemma UpperHeadingTag(tag: string)
    requires IsHeadingTag(tag)
    ensures ToUpperAscii(tag) != [] && ToUpperAscii(tag)[0] == 'H'
  {
    HeadingTagShape(tag);
  }

  lemma LineSecondChar(indent: string, tag: string, rest: string)
    requires indent == [] && tag != []
    ensures var line := "\n" + indent + tag + rest; |line| >= 2 && line[1] == tag[0]
  {
    assert "\n" + indent + tag + rest == "\n" + (tag + rest);
  }

  lemma ControlLineFree(e: Element)
    requires IsControlTag(e.tag)
    ensures FreeOfMarkers(ControlLine(e))
  {
    var r := ControlLine(e);
    ControlTagHead(e.tag);
    if r != [] {
      assert r == [r[0]];
    }
  }

  lemma ControlTagHead(tag: string)
    requires IsControlTag(tag)
    ensures tag != "" && UpperAscii(tag[0]) != '\n'
  {
  }

  lemma MainLinesFree(els: seq<Element>)
    ensures FreeOfMarkers(MainLines(els))
  {
    var blocks := KeptBlocks(Texts(els));
    MainContentBlocks(els);
    forall l | l in MainLines(els)
      ensures !MarkerLike(l)
    {
      var i :| 0 <= i < |blocks| && l == blocks[i] + "\n";
      assert blocks[i] in blocks;
      TrimmedNotMarker(blocks[i], "\n");
    }
  }

  /** The line starts with a visible character, which no marker does. */
  predicate BeginsVisible(line: string) {
    line != [] && !IsJsWhitespace(line[0])
  }

  lemma LinkCandidateVisible(e: Element)
    ensures forall x :: x in LinkCandidate(e) ==> BeginsVisible(x)
  {
    if LinkCandidate(e) != [] {
      var t := TextOf(e);
      var href := Attribute(e, "href");
      assert LinkCandidate(e) == [t + " -> " + href.value];
      TrimmedBeginsVisible(t, " -> ", href.value);
    }
  }

  lemma TrimmedBeginsVisible(t: string, a: string, b: string)
    requires t != [] && IsTrimmed(t)
    ensures BeginsVisible(t + a + b)
  {
    assert (t + a + b)[0] == t[0];
  }

  lemma LinkLinesFree(links: seq<Element>)
    ensures FreeOfMarkers(AsLines(LinkInfos(links)))
  {
    var candidates := FlatMap(links, LinkCandidate);
    var infos := LinkInfos(links);
    assert infos == Dedup(candidates);
    DedupSameValues(candidates);
    forall l | l in AsLines(infos)
      ensures !MarkerLike(l)
    {
      var k :| 0 <= k < |infos| && l == infos[k] + "\n";
      assert infos[k] in candidates;
      FlatMapMembers(links, LinkCandidate, infos[k]);
      var i :| 0 <= i < |links| && infos[k] in LinkCandidate(links[i]);
      LinkCandidateVisible(links[i]);
      assert l[0] == infos[k][0];
    }
  }

  /** The section markers a page's text carries, in their fixed order. */
  function ExpectedMarkers(page: Page): seq<string> {
    var root := MainRoot(page);
    (if |page.navigation| > 0 then [NAVIGATION_MARKER] else [])
    + (if |root.headings| > 0 then [HEADINGS_MARKER] else [])
    + [MAIN_CONTENT_MARKER]
    + (if |root.links| > 0 then [LINKS_MARKER] else [])
    + (if |root.images| > 0 then [IMAGES_MARKER] else [])
    + (if |root.controls| > 0 then [INTERACTIVE_MARKER] else [])
  }

  lemma HeaderMarkers(page: Page)
    ensures Markers(HeaderLines(page)) == []
  {
    var header := HeaderLines(page);
    forall l | l in header
      ensures !MarkerLike(l)
    {
      assert l[0] == 'P' || l[0] == 'D';
    }
    NoMarkersIn(header);
  }

  /** The markers of a section rendering each of `xs` with `f`, none of whose lines looks like a marker. */
  lemma SectionMarkersFor<T>(marker: string, xs: seq<T>, f: T -> seq<string>)
    requires MarkerLike(marker)
    requires forall x :: x in xs ==> FreeOfMarkers(f(x))
    ensures Markers(Section(marker, |xs|, FlatMap(xs, f))) == if |xs| > 0 then [marker] else []
  {
    FlatMapFreeOfMarkers(xs, f);
    SectionMarkers(marker, |xs|, FlatMap(xs, f));
  }

  /** The sections' own markers, assembled in push order, after a header without markers. */
  lemma AssembledMarkers(header: seq<string>, nav: seq<string>, heads: seq<string>, main: seq<string>,
                         links: seq<string>, images: seq<string>, controls: seq<string>,
                         hasNav: bool, hasHeads: bool, hasLinks: bool, hasImages: bool, hasControls: bool)
    requires Markers(header) == []
    requires Markers(nav) == if hasNav then [NAVIGATION_MARKER] else []
    requires Markers(heads) == if hasHeads then [HEADINGS_MARKER] else []
    requires Markers(main) == [MAIN_CONTENT_MARKER]
    requires Markers(links) == if hasLinks then [LINKS_MARKER] else []
    requires Markers(images) == if hasImages then [IMAGES_MARKER] else []
    requires Markers(controls) == if hasControls then [INTERACTIVE_MARKER] else []
    ensures Markers(header + nav + heads + main + links + images + controls)
            == (if hasNav then [NAVIGATION_MARKER] else [])
               + (if hasHeads then [HEADINGS_MARKER] else [])
               + [MAIN_CONTENT_MARKER]
               + (if hasLinks then [LINKS_MARKER] else [])
               + (if hasImages then [IMAGES_MARKER] else [])
               + (if hasControls then [INTERACTIVE_MARKER] else [])
  {
    MarkersOfParts(header, nav, heads, main, links, images, controls);
  }

  lemma NavigationMarkers(page: Page)
    ensures Markers(Section(NAVIGATION_MARKER, |page.navigation|, FlatMap(page.navigation, NavLine)))
            == if |page.navigation| > 0 then [NAVIGATION_MARKER] else []
  {
    forall e | e in page.navigation
      ensures FreeOfMarkers(NavLine(e))
    {
    }
    SectionMarkersFor(NAVIGATION_MARKER, page.navigation, NavLine);
  }

  lemma HeadingMarkers(root: Region)
    requires forall e :: e in root.headings ==> IsHeadingTag(e.tag)
    ensures Markers(Section(HEADINGS_MARKER, |root.headings|, FlatMap(root.headings, HeadingLine)))
            == if |root.headings| > 0 then [HEADINGS_MARKER] else []
  {
    forall e | e in root.headings
      ensures FreeOfMarkers(HeadingLine(e))
    {
      HeadingLineFree(e);
    }
    SectionMarkersFor(HEADINGS_MARKER, root.headings, HeadingLine);
  }

  lemma MainMarkers(root: Region)
    ensures Markers(MainSection(root)) == [MAIN_CONTENT_MARKER]
  {
    MainLinesFree(root.textBlocks);
    SectionMarkers(MAIN_CONTENT_MARKER, 1, MainLines(root.textBlocks));
    assert MainSection(root) == Section(MAIN_CONTENT_MARKER, 1, MainLines(root.textBlocks));
  }

  lemma LinkMarkers(root: Region)
    ensures Markers(Section(LINKS_MARKER, |root.links|, AsLines(LinkInfos(root.links))))
            == if |root.links| > 0 then [LINKS_MARKER] else []
  {
    LinkLinesFree(root.links);
    SectionMarkers(LINKS_MARKER, |root.links|, AsLines(LinkInfos(root.links)));
  }

  lemma ImageMarkers(root: Region)
    ensures Markers(Section(IMAGES_MARKER, |root.images|, FlatMap(root.images, ImageLine)))
            == if |root.images| > 0 then [IMAGES_MARKER] else []
  {
    forall e | e in root.images
      ensures FreeOfMarkers(ImageLine(e))
    {
    }
    SectionMarkersFor(IMAGES_MARKER, root.images, ImageLine);
  }

  lemma ControlMarkers(root: Region)
    requires forall e :: e in root.controls ==> IsControlTag(e.tag)
    ensures Markers(Section(INTERACTIVE_MARKER, |root.controls|, FlatMap(root.controls, ControlLine)))
            == if |root.controls| > 0 then [INTERACTIVE_MARKER] else []
  {
    forall e | e in root.controls
      ensures FreeOfMarkers(ControlLine(e))
    {
      ControlLineFree(e);
    }
    SectionMarkersFor(INTERACTIVE_MARKER, root.controls, ControlLine);
  }

  /**
    Section order: among the pushed lines, the marker lines are NAVIGATION,
    HEADINGS, MAIN CONTENT, LINKS, IMAGES, INTERACTIVE ELEMENTS in that
    order; MAIN CONTENT is always there and each other one exactly when its
    selector matched an element. No pushed content line is marker-like. This
    is about the lines before they are joined: page text can still spell out
    a marker inside a line, for instance a navigation text "=== LINKS ===".
  */
  lemma SectionOrder(page: Page)
    requires WellFormedPage(page)
    ensures Markers(PageLines(page)) == ExpectedMarkers(page)
  {
    var root := MainRoot(page);
    assert WellFormedRegion(root);
    var nav := Section(NAVIGATION_MARKER, |page.navigation|, FlatMap(page.navigation, NavLine));
    var heads := Section(HEADINGS_MARKER, |root.headings|, FlatMap(root.headings, HeadingLine));
    var links := Section(LINKS_MARKER, |root.links|, AsLines(LinkInfos(root.links)));
    var images := Section(IMAGES_MARKER, |root.images|, FlatMap(root.images, ImageLine));
    var controls := Section(INTERACTIVE_MARKER, |root.controls|, FlatMap(root.controls, ControlLine));
    assert PageLines(page) == HeaderLines(page) + nav + heads + MainSection(root) + links + images + controls;
    HeaderMarkers(page);
    NavigationMarkers(page);
    HeadingMarkers(root);
    MainMarkers(root);
    LinkMarkers(root);
    ImageMarkers(root);
    ControlMarkers(root);
    AssembledMarkers(HeaderLines(page), nav, heads, MainSection(root), links, images, controls,
                     |page.navigation| > 0, |root.headings| > 0, |root.links| > 0, |root.images| > 0, |root.controls| > 0);
  }

  lemma MarkersOfParts(a: seq<string>, b: seq<string>, c: seq<string>, d: seq<string>,
                       e: seq<string>, f: seq<string>, g: seq<string>)
    requires Markers(a) == []
    ensures Markers(a + b + c + d + e + f + g)
            == Markers(b) + Markers(c) + Markers(d) + Markers(e) + Markers(f) + Markers(g)
  {
    var ab := a + b;
    MarkersAppend(a, b);
    assert Markers(ab) == Markers(b);
    var abc := ab + c;
    MarkersAppend(ab, c);
    var abcd := abc + d;
    MarkersAppend(abc, d);
    var abcde := abcd + e;
    MarkersAppend(abcd, e);
    var abcdef := abcde + f;
    MarkersAppend(abcde, f);
    MarkersAppend(abcdef, g);
  }
}
