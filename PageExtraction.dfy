/**
  The `extractStructuredContent` script as the browser runs it: a scan of the
  page that pushes lines onto a `content` array, growing two sets of texts
  already seen, then joins the array. Each loop is proved to push exactly what
  the specification in PageModel says.
*/
module PageExtraction {
  import opened Wrappers
  import opened JsStrings
  import opened Sequences
  import opened PageModel

  /** `document.querySelector(selector)` for a main-content candidate. */
  function QuerySelector(page: Page, selector: string): Option<Region> {
    if selector in page.selectorMatches then Some(page.selectorMatches[selector]) else None
  }

  /** The `for ... of mainSelectors` loop that stops at the first match, then the fallback to the body. */
  method ChooseMainRoot(page: Page) returns (root: Region)
    ensures root == MainRoot(page)
    ensures forall i :: 0 <= i < |MAIN_SELECTORS| && MAIN_SELECTORS[i] in page.selectorMatches
              && (forall k :: 0 <= k < i ==> MAIN_SELECTORS[k] !in page.selectorMatches)
              ==> root == page.selectorMatches[MAIN_SELECTORS[i]]
    ensures (forall k :: 0 <= k < |MAIN_SELECTORS| ==> MAIN_SELECTORS[k] !in page.selectorMatches)
              ==> root == page.body
  {
    var mainContent: Option<Region> := None;
    var i := 0;
    while i < |MAIN_SELECTORS|
      invariant 0 <= i <= |MAIN_SELECTORS| && mainContent.None?
      invariant forall k :: 0 <= k < i ==> MAIN_SELECTORS[k] !in page.selectorMatches
      invariant FirstMatch(MAIN_SELECTORS[i..], page.selectorMatches, page.body) == MainRoot(page)
    {
      assert MAIN_SELECTORS[i..] == [MAIN_SELECTORS[i]] + MAIN_SELECTORS[i + 1..];
      mainContent := QuerySelector(page, MAIN_SELECTORS[i]);
      if mainContent.Some? {
        assert FirstMatch(MAIN_SELECTORS[i..], page.selectorMatches, page.body) == mainContent.value;
        break;
      }
      i := i + 1;
    }
    if mainContent.None? {
      assert MAIN_SELECTORS[i..] == [];
      mainContent := Some(page.body);
    }
    root := mainContent.value;
  }

  /** The navigation loop: each element's trimmed text, when it has any. */
  method NavigationLines(nav: seq<Element>) returns (lines: seq<string>)
    ensures lines == FlatMap(nav, NavLine)
  {
    lines := [];
    for i := 0 to |nav|
      invariant lines == FlatMap(nav[..i], NavLine)
    {
      FlatMapStep(nav, i, NavLine);
      var navText := TextOf(nav[i]);
      if navText != "" {
        lines := lines + [navText + "\n"];
      }
    }
    assert nav[..|nav|] == nav;
  }

  /** The headings loop: one `processElement(header)` result per heading. */
  method HeadingLines(headers: seq<Element>) returns (lines: seq<string>)
    ensures lines == FlatMap(headers, HeadingLine)
  {
    lines := [];
    for i := 0 to |headers|
      invariant lines == FlatMap(headers[..i], HeadingLine)
    {
      FlatMapStep(headers, i, HeadingLine);
      lines := lines + [ProcessElement(headers[i], 0)];
    }
    assert headers[..|headers|] == headers;
  }

  /**
    The main-content loop: a text is pushed when it is longer than 20 units,
    not yet in `processedTexts`, and neither contains nor is contained in any
    text already there; pushed texts join `processedTexts`.
  */
  method MainContentLines(textElements: seq<Element>) returns (lines: seq<string>)
    ensures lines == MainLines(textElements)
  {
    var processedTexts: set<string> := {};
    ghost var kept: seq<string> := [];
    ghost var texts := Texts(textElements);
    lines := [];
    for i := 0 to |textElements|
      invariant kept == KeptBlocks(texts[..i])
      invariant forall k :: k in processedTexts <==> k in kept
      invariant lines == AsLines(kept)
    {
      var text := TextOf(textElements[i]);
      KeptBlocksStep(texts, i);
      AdmitsBySeenSet(kept, processedTexts, text);
      if text != "" && JsLength(text) > MIN_BLOCK_LENGTH && text !in processedTexts {
        var isContained := AnyRelated(processedTexts, text);
        if !isContained {
          AsLinesAppend(kept, text);
          lines := lines + [text + "\n"];
          processedTexts := processedTexts + {text};
          kept := kept + [text];
        }
      }
    }
    assert texts[..|textElements|] == texts;
  }

  lemma KeptBlocksStep(texts: seq<string>, i: nat)
    requires i < |texts|
    ensures KeptBlocks(texts[..i + 1]) ==
              if Admits(KeptBlocks(texts[..i]), texts[i]) then KeptBlocks(texts[..i]) + [texts[i]]
              else KeptBlocks(texts[..i])
  {
    assert texts[..i + 1][..i] == texts[..i];
  }

  lemma AsLinesAppend(blocks: seq<string>, b: string)
    ensures AsLines(blocks + [b]) == AsLines(blocks) + [b + "\n"]
  {
  }

  /** The checks the loop makes against `processedTexts` decide exactly what `Admits` decides. */
  lemma AdmitsBySeenSet(kept: seq<string>, seen: set<string>, text: string)
    requires forall k :: k in seen <==> k in kept
    ensures Admits(kept, text) <==>
              text != "" && JsLength(text) > MIN_BLOCK_LENGTH && text !in seen && !AnyRelated(seen, text)
  {
    ContainsItself(text);
  }

  /** The links loop: each distinct "text -> href" once, remembered in `uniqueLinks`. */
  method LinkLines(links: seq<Element>) returns (lines: seq<string>)
    ensures lines == AsLines(LinkInfos(links))
  {
    var uniqueLinks: set<string> := {};
    ghost var infos: seq<string> := [];
    lines := [];
    for i := 0 to |links|
      invariant infos == LinkInfos(links[..i])
      invariant forall x :: x in uniqueLinks <==> x in infos
      invariant lines == AsLines(infos)
    {
      LinkInfosStep(links, i);
      var href := Attribute(links[i], "href");
      var text := TextOf(links[i]);
      if Truthy(href) && text != "" {
        var linkInfo := text + " -> " + href.value;
        if linkInfo !in uniqueLinks {
          AsLinesAppend(infos, linkInfo);
          uniqueLinks := uniqueLinks + {linkInfo};
          lines := lines + [linkInfo + "\n"];
          infos := infos + [linkInfo];
        }
      }
    }
    assert links[..|links|] == links;
  }

  lemma LinkInfosStep(links: seq<Element>, i: nat)
    requires i < |links|
    ensures LinkCandidate(links[i]) == [] ==> LinkInfos(links[..i + 1]) == LinkInfos(links[..i])
    ensures LinkCandidate(links[i]) != [] ==>
              var x := LinkCandidate(links[i])[0];
              LinkInfos(links[..i + 1]) ==
                if x in LinkInfos(links[..i]) then LinkInfos(links[..i]) else LinkInfos(links[..i]) + [x]
  {
    FlatMapStep(links, i, LinkCandidate);
    var before := FlatMap(links[..i], LinkCandidate);
    var c := LinkCandidate(links[i]);
    if c != [] {
      assert c == [c[0]];
      assert (before + c)[..|before + c| - 1] == before;
    } else {
      assert before + c == before;
    }
  }

  /** The images loop: a line per image whose alt text is not blank. */
  method ImageLines(images: seq<Element>) returns (lines: seq<string>)
    ensures lines == FlatMap(images, ImageLine)
  {
    lines := [];
    for i := 0 to |images|
      invariant lines == FlatMap(images[..i], ImageLine)
    {
      FlatMapStep(images, i, ImageLine);
      var alt := Attribute(images[i], "alt");
      var src := Attribute(images[i], "src");
      if alt.Some? && Trim(alt.value) != "" {
        lines := lines + ["Image: " + alt.value + " (" + OrElse(src, "No source") + ")\n"];
      }
    }
    assert images[..|images|] == images;
  }

  /** The interactive-elements loop, one callback call per element. */
  method ControlLines(forms: seq<Element>) returns (lines: seq<string>)
    ensures lines == FlatMap(forms, ControlLine)
  {
    lines := [];
    for i := 0 to |forms|
      invariant lines == FlatMap(forms[..i], ControlLine)
    {
      FlatMapStep(forms, i, ControlLine);
      var pushed := ControlCallback(forms[i]);
      lines := lines + pushed;
    }
    assert forms[..|forms|] == forms;
  }

  /** The callback of the interactive-elements loop: `formInfo` is built piece by piece and pushed when there is anything to say. */
  method ControlCallback(form: Element) returns (pushed: seq<string>)
    ensures pushed == ControlLine(form)
  {
    var text := ControlText(form);
    var kind := Attribute(form, "type");
    var name := Attribute(form, "name");
    pushed := [];
    if text.Some? || Truthy(kind) || Truthy(name) {
      var formInfo := ToUpperAscii(form.tag);
      if Truthy(kind) {
        AppendAssociates(formInfo, " (" + kind.value, ")");
        AppendAssociates(formInfo, " (", kind.value);
        formInfo := formInfo + " (" + kind.value + ")";
      }
      ghost var withKind := formInfo;
      assert withKind == ToUpperAscii(form.tag) + KindPart(kind);
      if Truthy(name) {
        AppendAssociates(formInfo, " [" + name.value, "]");
        AppendAssociates(formInfo, " [", name.value);
        formInfo := formInfo + " [" + name.value + "]";
      }
      assert formInfo == withKind + NamePart(name);
      ghost var withName := formInfo;
      if text.Some? {
        AppendAssociates(formInfo, ": ", text.value);
        formInfo := formInfo + ": " + text.value;
      }
      assert formInfo == withName + TextPart(text);
      AppendAssociates(withName, TextPart(text), "\n");
      pushed := [formInfo + "\n"];
    }
  }

  lemma AppendAssociates(a: string, b: string, c: string)
    ensures a + b + c == a + (b + c)
  {
  }

  /** The title and description lines. */
  method HeaderSection(page: Page) returns (content: seq<string>)
    ensures content == HeaderLines(page)
  {
    content := [];
    if page.title != "" {
      content := content + ["Page Title: " + page.title + "\n"];
    }
    if page.metaDescription.Some? {
      var description := Attribute(page.metaDescription.value, "content");
      content := content + ["Description: " + (if description.Some? then description.value else "null") + "\n"];
    }
  }

  /** The NAVIGATION section: pushed only when some navigation element matched. */
  method NavigationSection(page: Page) returns (section: seq<string>)
    ensures section == Section(NAVIGATION_MARKER, |page.navigation|, FlatMap(page.navigation, NavLine))
  {
    section := [];
    if |page.navigation| > 0 {
      var navLines := NavigationLines(page.navigation);
      section := [NAVIGATION_MARKER] + navLines;
    }
  }

  /** The HEADINGS section of the main-content root. */
  method HeadingSection(root: Region) returns (section: seq<string>)
    ensures section == Section(HEADINGS_MARKER, |root.headings|, FlatMap(root.headings, HeadingLine))
  {
    section := [];
    if |root.headings| > 0 {
      var headingLines := HeadingLines(root.headings);
      section := [HEADINGS_MARKER] + headingLines;
    }
  }

  /** The LINKS section of the main-content root. */
  method LinkSection(root: Region) returns (section: seq<string>)
    ensures section == Section(LINKS_MARKER, |root.links|, AsLines(LinkInfos(root.links)))
  {
    section := [];
    if |root.links| > 0 {
      var linkLines := LinkLines(root.links);
      section := [LINKS_MARKER] + linkLines;
    }
  }

  /** The IMAGES section of the main-content root. */
  method ImageSection(root: Region) returns (section: seq<string>)
    ensures section == Section(IMAGES_MARKER, |root.images|, FlatMap(root.images, ImageLine))
  {
    section := [];
    if |root.images| > 0 {
      var imageLines := ImageLines(root.images);
      section := [IMAGES_MARKER] + imageLines;
    }
  }

  /** The INTERACTIVE ELEMENTS section of the main-content root. */
  method ControlSection(root: Region) returns (section: seq<string>)
    ensures section == Section(INTERACTIVE_MARKER, |root.controls|, FlatMap(root.controls, ControlLine))
  {
    section := [];
    if |root.controls| > 0 {
      var controlLines := ControlLines(root.controls);
      section := [INTERACTIVE_MARKER] + controlLines;
    }
  }

  /** `extractStructuredContent()`: the whole scan, returning `content.join('')`. */
  method ExtractStructuredContent(page: Page) returns (text: string)
    ensures text == PageText(page)
  {
    var content := HeaderSection(page);
    var mainContent := ChooseMainRoot(page);
    var navSection := NavigationSection(page);
    content := content + navSection;
    var headingSection := HeadingSection(mainContent);
    content := content + headingSection;
    var mainLines := MainContentLines(mainContent.textBlocks);
    content := content + ([MAIN_CONTENT_MARKER] + mainLines);
    var linkSection := LinkSection(mainContent);
    content := content + linkSection;
    var imageSection := ImageSection(mainContent);
    content := content + imageSection;
    var controlSection := ControlSection(mainContent);
    content := content + controlSection;
    assert content == PageLines(page);
    text := Concat(content);
  }
}
