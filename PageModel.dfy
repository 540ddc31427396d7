/**
  The rendered-page strategy's text builder (the `extractStructuredContent`
  script the web-page loader evaluates in the browser), as a pure
  specification over an abstract snapshot of the page.

  The DOM is given as sequences of element records: what `querySelectorAll`
  returned for each selector list, in document order, after the script,
  style, noscript, iframe, object and embed elements were removed.
*/
module PageModel {
  import opened Wrappers
  import opened JsStrings
  import opened Sequences

  /** One element as the script sees it. */
  datatype Element = Element(
    tag: string,                      // `element.tagName.toLowerCase()`
    textContent: string,              // `element.textContent`, untrimmed
    attributes: map<string, string>,  // `getAttribute(name)`; a missing key reads as null
    hasStructuredDescendant: bool)    // `element.querySelector('h1,h2,h3,h4,h5,h6,p,li,a,button') != null`

  /** What `querySelectorAll` on the main-content root returns for each of the script's selector lists. */
  datatype Region = Region(
    headings: seq<Element>,   // 'h1, h2, h3, h4, h5, h6'
    textBlocks: seq<Element>, // 'p, div, span, li, td, th, blockquote, pre'
    links: seq<Element>,      // 'a[href]'
    images: seq<Element>,     // 'img[alt]'
    controls: seq<Element>)   // 'form, input, textarea, button, select'

  datatype Page = Page(
    title: string,                     // `document.title`
    metaDescription: Option<Element>,  // `document.querySelector('meta[name="description"]')`
    navigation: seq<Element>,          // 'nav, .nav, .navbar, .navigation, .menu' over the whole document
    selectorMatches: map<string, Region>, // main-content selectors that match, with the first match's region
    body: Region)                      // `document.body`

  /** The main-content candidates, tried in this order. */
  const MAIN_SELECTORS: seq<string> :=
    ["main", "[role=\"main\"]", ".main-content", ".content", "#content", "article", "section", ".container", "body"]

  const NAVIGATION_MARKER: string := "\n=== NAVIGATION ===\n"
  const HEADINGS_MARKER: string := "\n=== HEADINGS ===\n"
  const MAIN_CONTENT_MARKER: string := "\n=== MAIN CONTENT ===\n"
  const LINKS_MARKER: string := "\n=== LINKS ===\n"
  const IMAGES_MARKER: string := "\n=== IMAGES ===\n"
  const INTERACTIVE_MARKER: string := "\n=== INTERACTIVE ELEMENTS ===\n"

  /** A main-content block must be longer than this many UTF-16 units. */
  const MIN_BLOCK_LENGTH: nat := 20
  /** A paragraph is rendered by `processElement` only when longer than this. */
  const MIN_PARAGRAPH_LENGTH: nat := 10

  function Attribute(e: Element, name: string): Option<string> {
    if name in e.attributes then Some(e.attributes[name]) else None
  }

  /** JavaScript truthiness of an attribute value: present and not "". */
  predicate Truthy(v: Option<string>) {
    v.Some? && v.value != ""
  }

  /** `value || fallback` for an attribute value. */
  function OrElse(v: Option<string>, fallback: string): string {
    if Truthy(v) then v.value else fallback
  }

  /** `el.textContent?.trim()` */
  function TextOf(e: Element): string {
    Trim(e.textContent)
  }

  predicate IsHeadingTag(tag: string) {
    tag in {"h1", "h2", "h3", "h4", "h5", "h6"}
  }

  predicate IsControlTag(tag: string) {
    tag in {"form", "input", "textarea", "button", "select"}
  }

  /** A line the section markers could be confused with: it starts with a newline and '='. */
  predicate MarkerLike(line: string) {
    |line| >= 2 && line[0] == '\n' && line[1] == '='
  }

  predicate FreeOfMarkers(lines: seq<string>) {
    forall l :: l in lines ==> !MarkerLike(l)
  }

  /** A trimmed, non-empty text never begins a marker. */
  lemma TrimmedNotMarker(t: string, rest: string)
    requires t != [] && IsTrimmed(t)
    ensures !MarkerLike(t + rest)
  {
    assert (t + rest)[0] == t[0];
  }

  /** `processElement(element, level)`: the rendering of one element (see ProcessElementFormats). */
  function ProcessElement(e: Element, level: nat): (r: string)
    ensures TextOf(e) == "" ==> r == ""
    ensures r != "" ==> r[|r| - 1] == '\n'
  {
    var text := TextOf(e);
    var indent := Repeat("  ", level);
    if text == "" then ""
    else if IsHeadingTag(e.tag) then "\n" + indent + ToUpperAscii(e.tag) + ": " + text + "\n"
    else if e.tag == "p" then
      (if JsLength(text) > MIN_PARAGRAPH_LENGTH then "\n" + indent + text + "\n" else "")
    else if e.tag == "li" then indent + "\U{2022} " + text + "\n"
    else if e.tag == "a" then
      var href := Attribute(e, "href");
      if Truthy(href) then indent + "Link: " + text + " (" + href.value + ")\n" else ""
    else if e.tag == "img" then
      var alt := Attribute(e, "alt");
      var src := Attribute(e, "src");
      if Truthy(alt) || Truthy(src) then
        indent + "Image: " + OrElse(alt, "No alt text") + " (" + OrElse(src, "No source") + ")\n"
      else ""
    else if e.tag == "button" then indent + "Button: " + text + "\n"
    else if JsLength(text) > MIN_BLOCK_LENGTH && !e.hasStructuredDescendant then indent + text + "\n"
    else ""
  }

  /** The formats of the tags the headings section renders, and the paragraph threshold. */
  lemma ProcessElementFormats(e: Element, level: nat)
    ensures IsHeadingTag(e.tag) && TextOf(e) != "" ==>
              ProcessElement(e, level) == "\n" + Repeat("  ", level) + ToUpperAscii(e.tag) + ": " + TextOf(e) + "\n"
    ensures e.tag == "p" ==> (ProcessElement(e, level) != "" <==> JsLength(TextOf(e)) > MIN_PARAGRAPH_LENGTH)
    ensures e.tag == "li" && TextOf(e) != "" ==> ProcessElement(e, level) == Repeat("  ", level) + "\U{2022} " + TextOf(e) + "\n"
  {
  }

  /** `t` sits right after `a` in `a + t + b`. */
  lemma OccursBetween(a: string, t: string, b: string)
    ensures OccursAt(a + t + b, t, |a|)
  {
    assert (a + t + b)[|a|..|a| + |t|] == t;
  }

  /** Whatever a non-image element renders carries its trimmed text. */
  lemma ProcessElementKeepsText(e: Element, level: nat)
    ensures ProcessElement(e, level) != "" && e.tag != "img" ==> Contains(ProcessElement(e, level), TextOf(e))
  {
    var r := ProcessElement(e, level);
    var text := TextOf(e);
    var indent := Repeat("  ", level);
    if r != "" && e.tag != "img" {
      var before: string, after: string;
      if IsHeadingTag(e.tag) {
        before, after := "\n" + indent + ToUpperAscii(e.tag) + ": ", "\n";
      } else if e.tag == "p" {
        before, after := "\n" + indent, "\n";
      } else if e.tag == "li" {
        before, after := indent + "\U{2022} ", "\n";
      } else if e.tag == "a" {
        var href := Attribute(e, "href");
        before, after := indent + "Link: ", " (" + href.value + ")\n";
      } else if e.tag == "button" {
        before, after := indent + "Button: ", "\n";
      } else {
        before, after := indent, "\n";
      }
      assert r == before + text + after;
      OccursBetween(before, text, after);
    }
  }

  /** The header line: "Page Title: ..." when the title is not empty. */
  function TitleLines(title: string): (r: seq<string>)
    ensures r == [] <==> title == ""
    ensures r != [] ==> |r| == 1 && StartsWith(r[0], "Page Title: ") && EndsWith(r[0], title + "\n")
  {
    if title != "" then ["Page Title: " + title + "\n"] else []
  }

  /** The description line; a meta tag without a content attribute prints "null", as the template literal does. */
  function DescriptionLines(meta: Option<Element>): (r: seq<string>)
    ensures |r| == if meta.Some? then 1 else 0
    ensures meta.Some? ==> StartsWith(r[0], "Description: ")
    ensures meta.Some? && Attribute(meta.value, "content").None? ==> r[0] == "Description: null\n"
    ensures meta.Some? && Attribute(meta.value, "content").Some? ==>
              EndsWith(r[0], Attribute(meta.value, "content").value + "\n")
  {
    match meta
    case None => []
    case Some(m) =>
      var content := Attribute(m, "content");
      ["Description: " + (if content.Some? then content.value else "null") + "\n"]
  }

  /** One navigation element's line: its trimmed text, when there is any. */
  function NavLine(e: Element): (r: seq<string>)
    ensures FreeOfMarkers(r)
  {
    var t := TextOf(e);
    if t != "" then TrimmedNotMarker(t, "\n"); [t + "\n"] else []
  }

  /** One heading's contribution: whatever `processElement` renders, "" included. */
  function HeadingLine(e: Element): seq<string> {
    [ProcessElement(e, 0)]
  }

  /** The text of each main-content element, trimmed, in document order. */
  function Texts(els: seq<Element>): (r: seq<string>)
    ensures |r| == |els| && forall i :: 0 <= i < |els| ==> r[i] == TextOf(els[i])
  {
    seq(|els|, i requires 0 <= i < |els| => TextOf(els[i]))
  }

  /** One text includes the other (`existing.includes(text) || text.includes(existing)`). */
  predicate Related(a: string, b: string) {
    Contains(a, b) || Contains(b, a)
  }

  /** `Array.from(seen).some(existing => existing.includes(text) || text.includes(existing))` */
  predicate AnyRelated(seen: set<string>, text: string) {
    exists existing :: existing in seen && Related(existing, text)
  }

  /** A text joins the main content when it is long enough and unrelated to every block kept so far. */
  predicate Admits(kept: seq<string>, t: string) {
    JsLength(t) > MIN_BLOCK_LENGTH && forall k :: k in kept ==> !Related(k, t)
  }

  /** The main-content blocks kept from `texts`, scanned in order against the growing set of kept blocks. */
  function KeptBlocks(texts: seq<string>): (kept: seq<string>)
    ensures |kept| <= |texts|
  {
    if texts == [] then []
    else
      var kept := KeptBlocks(texts[..|texts| - 1]);
      var t := texts[|texts| - 1];
      if Admits(kept, t) then kept + [t] else kept
  }

  /** Each block pushed with its newline. */
  function AsLines(blocks: seq<string>): (r: seq<string>)
    ensures |r| == |blocks| && forall i :: 0 <= i < |blocks| ==> r[i] == blocks[i] + "\n"
  {
    seq(|blocks|, i requires 0 <= i < |blocks| => blocks[i] + "\n")
  }

  /** The MAIN CONTENT lines of a region's text elements. */
  function MainLines(els: seq<Element>): seq<string> {
    AsLines(KeptBlocks(Texts(els)))
  }

  /** "text -> href" for a link with a non-empty href and non-empty trimmed text. */
  function LinkCandidate(e: Element): (r: seq<string>)
    ensures |r| <= 1
  {
    var href := Attribute(e, "href");
    var t := TextOf(e);
    if Truthy(href) && t != "" then [t + " -> " + href.value] else []
  }

  /** The LINKS entries: each distinct "text -> href", at its first occurrence. */
  function LinkInfos(els: seq<Element>): (infos: seq<string>)
    ensures NoDuplicates(infos)
  {
    DedupNoDuplicates(FlatMap(els, LinkCandidate));
    Dedup(FlatMap(els, LinkCandidate))
  }

  /** An image line, for an alt text that is not blank. */
  function ImageLine(e: Element): (r: seq<string>)
    ensures FreeOfMarkers(r)
  {
    var alt := Attribute(e, "alt");
    if alt.Some? && Trim(alt.value) != "" then
      ["Image: " + alt.value + " (" + OrElse(Attribute(e, "src"), "No source") + ")\n"]
    else []
  }

  /** `textContent.trim() || placeholder || value`, None when all three are falsy. */
  function ControlText(e: Element): (r: Option<string>)
    ensures r.Some? ==> r.value != ""
  {
    var t := TextOf(e);
    if t != "" then Some(t)
    else if Truthy(Attribute(e, "placeholder")) then Attribute(e, "placeholder")
    else if Truthy(Attribute(e, "value")) then Attribute(e, "value")
    else None
  }

  /** " (type)" when the type attribute is truthy. */
  function KindPart(kind: Option<string>): string {
    if Truthy(kind) then " (" + kind.value + ")" else ""
  }

  /** " [name]" when the name attribute is truthy. */
  function NamePart(name: Option<string>): string {
    if Truthy(name) then " [" + name.value + "]" else ""
  }

  /** ": text" when there is a text. */
  function TextPart(text: Option<string>): string {
    if text.Some? then ": " + text.value else ""
  }

  /** `formInfo + '\n'` for a tag already upper-cased: " (type)" right after the tag, then " [name]", then ": text". */
  function FormInfo(tag: string, kind: Option<string>, name: Option<string>, text: Option<string>): (line: string)
    ensures StartsWith(line, tag) && |line| > 0 && line[|line| - 1] == '\n'
    ensures tag != "" ==> line[0] == tag[0]
    ensures Truthy(kind) ==> OccursAt(line, " (" + kind.value + ")", |tag|)
    ensures Truthy(name) ==> Contains(line, " [" + name.value + "]")
    ensures text.Some? ==> EndsWith(line, ": " + text.value + "\n")
  {
    LineParts(tag, KindPart(kind), NamePart(name), TextPart(text) + "\n");
    tag + KindPart(kind) + NamePart(name) + (TextPart(text) + "\n")
  }

  /** An interactive element's line: TAG, then " (type)", " [name]" and ": text" for those present. */
  function ControlLine(e: Element): (r: seq<string>)
    ensures r != [] <==> ControlText(e).Some? || Truthy(Attribute(e, "type")) || Truthy(Attribute(e, "name"))
    ensures r != [] ==> |r| == 1 && |r[0]| > 0 && r[0][|r[0]| - 1] == '\n'
    ensures r != [] ==> StartsWith(r[0], ToUpperAscii(e.tag))
    ensures r != [] && e.tag != "" ==> r[0][0] == UpperAscii(e.tag[0])
    ensures r != [] && Truthy(Attribute(e, "type")) ==>
              OccursAt(r[0], " (" + Attribute(e, "type").value + ")", |e.tag|)
    ensures r != [] && Truthy(Attribute(e, "name")) ==> Contains(r[0], " [" + Attribute(e, "name").value + "]")
    ensures r != [] && ControlText(e).Some? ==> EndsWith(r[0], ": " + ControlText(e).value + "\n")
  {
    var text := ControlText(e);
    var kind := Attribute(e, "type");
    var name := Attribute(e, "name");
    if text.Some? || Truthy(kind) || Truthy(name) then
      [FormInfo(ToUpperAscii(e.tag), kind, name, text)]
    else []
  }

  /** Where each of four consecutive parts sits in their concatenation. */
  lemma LineParts(a: string, b: string, c: string, d: string)
    ensures var line := a + b + c + d;
            StartsWith(line, a) && OccursAt(line, b, |a|) && OccursAt(line, c, |a| + |b|)
            && Contains(line, c) && EndsWith(line, d)
            && (a != "" ==> line[0] == a[0])
  {
    var line := a + b + c + d;
    assert line[..|a|] == a;
    assert line[|a|..|a| + |b|] == b;
    assert line[|a| + |b|..|a| + |b| + |c|] == c;
    assert OccursAt(line, c, |a| + |b|);
    assert line[|line| - |d|..] == d;
  }

  /** The first candidate in list order that matched, or the body when none did. */
  function FirstMatch(selectors: seq<string>, found: map<string, Region>, fallback: Region): (r: Region)
    ensures (forall i :: 0 <= i < |selectors| ==> selectors[i] !in found) ==> r == fallback
    ensures (exists i :: 0 <= i < |selectors| && selectors[i] in found) ==>
              exists i :: 0 <= i < |selectors| && selectors[i] in found && r == found[selectors[i]]
                          && forall j :: 0 <= j < i ==> selectors[j] !in found
  {
    if selectors == [] then fallback
    else if selectors[0] in found then found[selectors[0]]
    else
      var rest := selectors[1..];
      assert forall i :: 0 <= i < |rest| ==> rest[i] == selectors[i + 1];
      FirstMatch(rest, found, fallback)
  }

  /** The region the script treats as main content. */
  function MainRoot(page: Page): (root: Region)
    ensures root == page.body || exists s :: s in page.selectorMatches && root == page.selectorMatches[s]
  {
    FirstMatch(MAIN_SELECTORS, page.selectorMatches, page.body)
  }

  /** A section: its marker followed by its lines, or nothing when the selector matched no element. */
  function Section(marker: string, matched: nat, lines: seq<string>): seq<string> {
    if matched == 0 then [] else [marker] + lines
  }

  /** The lines before the sections: title and description. */
  function HeaderLines(page: Page): (r: seq<string>)
    ensures |r| == (if page.title != "" then 1 else 0) + (if page.metaDescription.Some? then 1 else 0)
    ensures page.title != "" ==> r[0] == TitleLines(page.title)[0]
  {
    TitleLines(page.title) + DescriptionLines(page.metaDescription)
  }

  /** The MAIN CONTENT section, whose marker is always pushed. */
  function MainSection(root: Region): seq<string> {
    [MAIN_CONTENT_MARKER] + MainLines(root.textBlocks)
  }

  /** Every line the script pushes, in push order. */
  function PageLines(page: Page): (lines: seq<string>)
    ensures HeaderLines(page) <= lines
  {
    var root := MainRoot(page);
    HeaderLines(page)
    + Section(NAVIGATION_MARKER, |page.navigation|, FlatMap(page.navigation, NavLine))
    + Section(HEADINGS_MARKER, |root.headings|, FlatMap(root.headings, HeadingLine))
    + MainSection(root)
    + Section(LINKS_MARKER, |root.links|, AsLines(LinkInfos(root.links)))
    + Section(IMAGES_MARKER, |root.images|, FlatMap(root.images, ImageLine))
    + Section(INTERACTIVE_MARKER, |root.controls|, FlatMap(root.controls, ControlLine))
  }

  /** The page text: `content.join('')`. It always carries the MAIN CONTENT marker. */
  function PageText(page: Page): (text: string)
    ensures Contains(text, MAIN_CONTENT_MARKER)
  {
    var lines := PageLines(page);
    var root := MainRoot(page);
    var before := HeaderLines(page)
      + Section(NAVIGATION_MARKER, |page.navigation|, FlatMap(page.navigation, NavLine))
      + Section(HEADINGS_MARKER, |root.headings|, FlatMap(root.headings, HeadingLine));
    assert lines[|before|] == MAIN_CONTENT_MARKER;
    ConcatContainsParts(lines, |before|);
    Concat(lines)
  }
}
