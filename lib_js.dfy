/** The Node library entry point of src/lib.js: it runs the converter of
    src/convert.js, cuts the content back out of the page it returns, renames
    the `.lexical-content` selectors for another prefix, and bundles the
    stylesheet, the content box and the script of the code-block buttons. */
module LibJs {
  import opened Js
  import opened Strings
  import opened Lexical
  import ConvertJs

  // ---------------------------------------------------------------------------
  // Cutting the content out of the page

  const StartMarker := "<div class=\"lexical-content\">"
  const EndMarker := "</div>"

  lemma NotContainedIndex(s: string, p: string)
    requires !Contains(s, p)
    ensures IndexOf(s, p, 0) == -1
  {
  }

  /** A first occurrence in a prefix is the first occurrence in the whole. */
  lemma IndexOfPrefix(a: string, b: string, p: string)
    requires IndexOf(a, p, 0) != -1
    ensures IndexOf(a + b, p, 0) == IndexOf(a, p, 0)
  {
    var k := IndexOf(a, p, 0);
    assert StartsAt(a + b, p, k) by {
      assert (a + b)[k..k + |p|] == a[k..k + |p|];
    }
    forall j: nat | j < k
      ensures !StartsAt(a + b, p, j)
    {
      assert !StartsAt(a, p, j);
      assert (a + b)[j..j + |p|] == a[j..j + |p|];
    }
    var k' := IndexOf(a + b, p, 0);
    assert k' != -1 && k' <= k;
  }

  /** The html of `convert`: the text after the first
      `<div class="lexical-content">` up to the last `</div>` that starts
      at or before the first `<script>` (or the end), trimmed; empty when
      the marker is missing or that `</div>` does not come after it. */
  function Extract(full: string): (r: string)
    ensures IndexOf(full, StartMarker, 0) == -1 ==> r == ""
  {
    var startIndex := IndexOf(full, StartMarker, 0);
    if startIndex == -1 then ""
    else
      var contentStart := startIndex + |StartMarker|;
      var scriptIndex := IndexOf(full, "<script>", 0);
      var searchEnd := if scriptIndex != -1 then scriptIndex else |full|;
      var contentEnd := LastIndexOf(full, EndMarker, searchEnd);
      if contentEnd > contentStart then Trim(full[contentStart..contentEnd]) else ""
  }

  /** Content boxed after a head that opens the box once, with no script
      anywhere, comes back trimmed, nested `div`s and all. */
  lemma ExtractRoundTrip(head: string, content: string)
    requires IndexOf(head + StartMarker, StartMarker, 0) == |head|
    requires !Contains(head + StartMarker + content + EndMarker, "<script>")
    ensures Extract(head + StartMarker + content + EndMarker) == Trim(content)
  {
    var page := head + StartMarker + content + EndMarker;
    IndexOfPrefix(head + StartMarker, content, StartMarker);
    IndexOfPrefix(head + StartMarker + content, EndMarker, StartMarker);
    NotContainedIndex(page, "<script>");
    LastOccurrence(head + StartMarker + content, EndMarker);
    var contentStart := |head| + |StartMarker|;
    if content != "" {
      assert page[contentStart..|page| - |EndMarker|] == content;
    }
  }

  /** The html `convert` reads back from the page the converter wraps its
      content in is that content, trimmed, provided the content itself
      opens no script, whatever the page's script. */
  lemma ExtractPage(c: string, script: string)
    requires !Contains(c, "<script>")
    ensures Extract(ConvertJs.Page(c, script)) == Trim(c)
  {
    var t := "\n    " + EndMarker + "\n    \n    ";
    ExtractPageFramed(c, script);
    TailRegroup(ConvertJs.PageHead + c, t, "<script>", script);
  }

  lemma TailRegroup(a: string, t: string, s: string, b: string)
    ensures a + (t + s) + b == a + (t + (s + b))
  {
  }

  /** The converter's page, spelt out as a frame around the content, with
      any script after the opening `<script>` tag. */
  lemma ExtractPageFramed(c: string, body: string)
    requires !Contains(c, "<script>")
    ensures Extract((ConvertJs.HeadLines + "    " + StartMarker + "\n        ") + c
                    + ("\n    " + EndMarker + "\n    \n    " + ("<script>" + body)))
         == Trim(c)
  {
    HeadFrame();
    PaddingBlank();
    StartsWithPrefix("<script>", body);
    ExtractFramed(ConvertJs.HeadLines, "    ", "\n        ", c, "\n    ", "\n    \n    ", "<script>" + body);
  }

  /** The head of the converter's page opens neither the box nor a script,
      and does not end inside either. */
  lemma HeadFrame()
    ensures !Contains(ConvertJs.HeadLines, StartMarker) && !Contains(ConvertJs.HeadLines, "<script>")
    ensures ConvertJs.HeadLines != []
    ensures ConvertJs.HeadLines[|ConvertJs.HeadLines| - 1] !in StartMarker
    ensures ConvertJs.HeadLines[|ConvertJs.HeadLines| - 1] !in "<script>"
  {
    ConvertJs.HeadNoOpen();
    ConvertJs.HeadNoScript();
    ConvertJs.HeadEndsOutside();
  }

  /** The padding of the converter's page is whitespace. */
  lemma PaddingBlank()
    ensures IsBlank("    ") && IsBlank("\n        ") && IsBlank("\n    ") && IsBlank("\n    \n    ")
  {
  }

  /** Content framed as the converter frames it comes back trimmed: a head
      that opens neither the box nor a script, whitespace, the box's opening
      tag, whitespace, the content, whitespace, `</div>`, whitespace and a
      script. The `</div>` `Extract` stops at is the one just before the
      script, whatever `div`s the content holds. */
  lemma ExtractFramed(h: string, w1: string, w2: string, c: string, w3: string, w4: string, s: string)
    requires !Contains(h, StartMarker) && !Contains(h, "<script>")
    requires h != [] && h[|h| - 1] !in StartMarker && h[|h| - 1] !in "<script>"
    requires IsBlank(w1) && IsBlank(w2) && IsBlank(w3) && IsBlank(w4)
    requires w2 != [] && w3 != [] && w4 != []
    requires !Contains(c, "<script>")
    requires StartsAt(s, "<script>", 0)
    ensures Extract((h + w1 + StartMarker + w2) + c + (w3 + EndMarker + w4 + s)) == Trim(c)
  {
    FramedOpen(h, w1, w2, c, w3, w4, s);
    FramedClose(h, w1, w2, c, w3, w4, s);
    ExtractPadded(h, w1, w2, c, w3, w4, s);
  }

  /** `Extract` reads the text between the first box opening and the last
      `</div>` at or before the first script: when those are the frame's,
      the padded content comes back trimmed. */
  lemma ExtractPadded(h: string, w1: string, w2: string, c: string, w3: string, w4: string, s: string)
    requires IsBlank(w2) && IsBlank(w3) && w2 != []
    requires var page := (h + w1 + StartMarker + w2) + c + (w3 + EndMarker + w4 + s);
      && IndexOf(page, StartMarker, 0) == |h| + |w1|
      && IndexOf(page, "<script>", 0) == |page| - |s|
      && LastIndexOf(page, EndMarker, |page| - |s|) == |page| - |s| - |w4| - |EndMarker|
    ensures Extract((h + w1 + StartMarker + w2) + c + (w3 + EndMarker + w4 + s)) == Trim(c)
  {
    var page := (h + w1 + StartMarker + w2) + c + (w3 + EndMarker + w4 + s);
    FramedSlice(h, w1, w2, c, w3, w4, s);
    ExtractWindow(page, |h| + |w1|, |page| - |s|, |page| - |s| - |w4| - |EndMarker|, w2, c, w3);
  }

  /** Between the frame's box opening and its `</div>` lies the padded
      content. */
  lemma FramedSlice(h: string, w1: string, w2: string, c: string, w3: string, w4: string, s: string)
    ensures var page := (h + w1 + StartMarker + w2) + c + (w3 + EndMarker + w4 + s);
      page[|h| + |w1| + |StartMarker|..|page| - |s| - |w4| - |EndMarker|] == w2 + c + w3
  {
    FrameShapes(h, w1, StartMarker, w2, c, w3, EndMarker, w4, s);
  }

  /** `Extract` reads the text between the first box opening, at `open`,
      and the last `</div>` at or before the first script, at `close`. */
  lemma ExtractWindow(full: string, open: int, script: nat, close: int, w2: string, c: string, w3: string)
    requires IndexOf(full, StartMarker, 0) == open
    requires IndexOf(full, "<script>", 0) == script
    requires LastIndexOf(full, EndMarker, script) == close
    requires 0 <= open && open + |StartMarker| < close <= |full|
    requires full[open + |StartMarker|..close] == w2 + c + w3
    requires IsBlank(w2) && IsBlank(w3)
    ensures Extract(full) == Trim(c)
  {
    assert Extract(full) == Trim(full[open + |StartMarker|..close]);
    TrimFramed(w2, c, w3);
  }

  /** The first box opening of a framed page is the frame's. */
  lemma FramedOpen(h: string, w1: string, w2: string, c: string, w3: string, w4: string, s: string)
    requires !Contains(h, StartMarker) && h != [] && h[|h| - 1] !in StartMarker
    requires IsBlank(w1) && w2 != []
    ensures var page := (h + w1 + StartMarker + w2) + c + (w3 + EndMarker + w4 + s);
      && IndexOf(page, StartMarker, 0) == |h| + |w1|
  {
    FrameShapes(h, w1, StartMarker, w2, c, w3, EndMarker, w4, s);
    FirstAfterBlank(h, w1, StartMarker + w2 + c + w3 + EndMarker + w4 + s, StartMarker);
  }

  /** The first script of a framed page is the frame's, and the last
      `</div>` at or before it is the frame's. */
  lemma FramedClose(h: string, w1: string, w2: string, c: string, w3: string, w4: string, s: string)
    requires !Contains(h, "<script>") && h != [] && h[|h| - 1] !in "<script>"
    requires IsBlank(w1) && IsBlank(w2) && IsBlank(w3) && IsBlank(w4)
    requires w2 != [] && w3 != [] && w4 != []
    requires !Contains(c, "<script>")
    requires StartsAt(s, "<script>", 0)
    ensures var page := (h + w1 + StartMarker + w2) + c + (w3 + EndMarker + w4 + s);
      && IndexOf(page, "<script>", 0) == |page| - |s|
      && LastIndexOf(page, EndMarker, |page| - |s|) == |page| - |s| - |w4| - |EndMarker|
  {
    FrameShapes(h, w1, StartMarker, w2, c, w3, EndMarker, w4, s);
    FramedScript(h, w1, w2, c, w3, w4);
    IndexOfAfter(h + w1 + StartMarker + w2 + c + w3 + EndMarker + w4, s, "<script>", 0);
    FramedEnd(h + w1 + StartMarker + w2 + c + w3, w4, s);
  }

  /** Nothing before the script of a framed page opens one. */
  lemma FramedScript(h: string, w1: string, w2: string, c: string, w3: string, w4: string)
    requires !Contains(h, "<script>") && h != [] && h[|h| - 1] !in "<script>"
    requires IsBlank(w1) && IsBlank(w2) && IsBlank(w3) && IsBlank(w4)
    requires w2 != [] && w3 != [] && w4 != []
    requires !Contains(c, "<script>")
    ensures var a := h + w1 + StartMarker + w2 + c + w3 + EndMarker + w4;
      !Contains(a, "<script>") && a[|a| - 1] !in "<script>"
  {
    var p := "<script>";
    BlankNoScript(w1);
    BlankNoScript(w2);
    BlankNoScript(w3);
    BlankNoScript(w4);
    MissingChar(StartMarker, p, 'p');
    MissingChar(EndMarker, p, 's');
    NotContainsAppend(h, w1, p);
    NotContainsAppend(h + w1, StartMarker, p);
    NotContainsAppend(h + w1 + StartMarker, w2, p);
    NotContainsAppend(h + w1 + StartMarker + w2, c, p);
    NotContainsAppend(h + w1 + StartMarker + w2 + c, w3, p);
    NotContainsAppend(h + w1 + StartMarker + w2 + c + w3, EndMarker, p);
    NotContainsAppend(h + w1 + StartMarker + w2 + c + w3 + EndMarker, w4, p);
  }

  /** Whitespace holds no script, and none of its characters is one of
      `<script>`. */
  lemma BlankNoScript(w: string)
    requires IsBlank(w)
    ensures !Contains(w, "<script>")
    ensures forall i :: 0 <= i < |w| ==> w[i] !in "<script>"
  {
    MissingChar(w, "<script>", '<');
  }

  /** In `a + "</div>" + w + s`, with `s` opening a script, the last
      `</div>` at or before the script is the one after `a`. */
  lemma FramedEnd(a: string, w: string, s: string)
    requires IsBlank(w) && StartsAt(s, "<script>", 0)
    ensures var page := a + EndMarker + w + s;
      LastIndexOf(page, EndMarker, |a| + |EndMarker| + |w|) == |a|
  {
    var page := a + EndMarker + w + s;
    var from := |a| + |EndMarker| + |w|;
    assert StartsAt(page, EndMarker, |a|) by {
      assert page[|a|..|a| + |EndMarker|] == EndMarker;
    }
    forall j: nat | |a| < j <= from ensures !StartsAt(page, EndMarker, j) {
      if j < |a| + |EndMarker| {
        assert page[j] == EndMarker[j - |a|];
      } else if j < from {
        assert IsSpace(page[j]);
      } else if j + |EndMarker| <= |page| {
        assert page[j + 1] == s[1];
        assert page[j..j + |EndMarker|][1] == page[j + 1];
      }
    }
    LastIndexAt(page, EndMarker, |a|, from);
  }

  /** A text that ends with `p` has its last `p` there. */
  lemma LastOccurrence(s: string, p: string)
    ensures LastIndexOf(s + p, p, |s + p|) == |s|
  {
    assert StartsAt(s + p, p, |s|) by {
      assert (s + p)[|s|..|s| + |p|] == p;
    }
  }

  // ---------------------------------------------------------------------------
  // The stylesheet

  const DefaultPrefix := "lexical-content"

  /** `prefix !== 'lexical-content' ? css.replace(/\.lexical-content/g, `.${prefix}`) : css`,
      then the minifier when asked for. */
  function Restyle(css: string, prefix: Value, minify: bool, minifier: string -> string): string
  {
    var renamed := if prefix != Str(DefaultPrefix) then ReplaceAll(css, "." + DefaultPrefix, "." + ToText(prefix)) else css;
    if minify then minifier(renamed) else renamed
  }

  /** The test for the default prefix only saves work: renaming to the
      default prefix would leave the stylesheet as it is. */
  lemma DefaultPrefixKeeps(css: string, minifier: string -> string)
    ensures Restyle(css, Str(DefaultPrefix), false, minifier) == css
    ensures Restyle(css, Str(DefaultPrefix), false, minifier) == ReplaceAll(css, "." + DefaultPrefix, "." + DefaultPrefix)
  {
    ReplaceAllSelf(css, "." + DefaultPrefix);
  }

  /** A stylesheet without a `.lexical-content` selector is left alone
      whatever the prefix. */
  lemma RestyleWithoutSelector(css: string, prefix: Value, minifier: string -> string)
    requires !Contains(css, "." + DefaultPrefix)
    ensures Restyle(css, prefix, false, minifier) == css
  {
    if prefix != Str(DefaultPrefix) {
      ReplaceAllAbsent(css, "." + DefaultPrefix, "." + ToText(prefix));
    }
  }

  /** A destructured option: its value, or the default when it is
      `undefined`. */
  function Option(options: map<string, Value>, key: string, default: Value): (v: Value)
    ensures key !in options ==> v == default
  {
    var v := Get(options, key);
    if v == Undefined then default else v
  }

  /** `getCSS({ prefix = 'lexical-content', minify = false })`. */
  function CssFor(cssContent: string, options: map<string, Value>, minifier: string -> string): string
  {
    Restyle(cssContent, Option(options, "prefix", Str(DefaultPrefix)),
            Truthy(Option(options, "minify", Bool(false))), minifier)
  }

  // ---------------------------------------------------------------------------
  // The bundle

  /** The script of the code-block buttons appended to every bundle. */
  const InteractiveJs: string :=
    "\n"
    + "<script>\n"
    + "function copyCode(codeId) {\n"
    + "  const codeBlock = document.getElementById(codeId);\n"
    + "  const codeContent = codeBlock.querySelector('pre code');\n"
    + "  const text = codeContent.innerText || codeContent.textContent;\n"
    + "  \n"
    + "  navigator.clipboard.writeText(text).then(() => {\n"
    + "    const copyBtn = codeBlock.querySelector('.copy-btn');\n"
    + "    const originalText = copyBtn.innerHTML;\n"
    + "    copyBtn.innerHTML = '\U{2713} Copied';\n"
    + "    copyBtn.classList.add('copied');\n"
    + "    \n"
    + "    setTimeout(() => {\n"
    + "      copyBtn.innerHTML = originalText;\n"
    + "      copyBtn.classList.remove('copied');\n"
    + "    }, 2000);\n"
    + "  }).catch(err => {\n"
    + "    const textArea = document.createElement('textarea');\n"
    + "    textArea.value = text;\n"
    + "    document.body.appendChild(textArea);\n"
    + "    textArea.select();\n"
    + "    document.execCommand('copy');\n"
    + "    document.body.removeChild(textArea);\n"
    + "    \n"
    + "    const copyBtn = codeBlock.querySelector('.copy-btn');\n"
    + "    const originalText = copyBtn.innerHTML;\n"
    + "    copyBtn.innerHTML = '\U{2713} Copied';\n"
    + "    copyBtn.classList.add('copied');\n"
    + "    \n"
    + "    setTimeout(() => {\n"
    + "      copyBtn.innerHTML = originalText;\n"
    + "      copyBtn.classList.remove('copied');\n"
    + "    }, 2000);\n"
    + "  });\n"
    + "}\n"
    + "\n"
    + "function toggleCodeFold(codeId) {\n"
    + "  const codeBlock = document.getElementById(codeId);\n"
    + "  const foldBtn = codeBlock.querySelector('.fold-btn');\n"
    + "  \n"
    + "  if (codeBlock.classList.contains('collapsed')) {\n"
    + "    codeBlock.classList.remove('collapsed');\n"
    + "    foldBtn.innerHTML = '\U{229F} Fold';\n"
    + "    foldBtn.title = 'Fold code';\n"
    + "  } else {\n"
    + "    codeBlock.classList.add('collapsed');\n"
    + "    foldBtn.innerHTML = '\U{229E} Unfold';\n"
    + "    foldBtn.title = 'Unfold code';\n"
    + "  }\n"
    + "}\n"
    + "\n"
    + "function toggleLineHighlight(lineElement) {\n"
    + "  const lineNumber = lineElement.getAttribute('data-line');\n"
    + "  const codeBlock = lineElement.closest('.code-block');\n"
    + "  const codeLine = codeBlock.querySelector(`.code-line[data-line=\"${lineNumber}\"]`);\n"
    + "  \n"
    + "  lineElement.classList.toggle('highlighted');\n"
    + "  if (codeLine) {\n"
    + "    codeLine.classList.toggle('highlighted');\n"
    + "  }\n"
    + "}\n"
    + "\n"
    + "document.addEventListener('DOMContentLoaded', function() {\n"
    + "  const codeBlocks = document.querySelectorAll('.code-block');\n"
    + "  codeBlocks.forEach(block => {\n"
    + "    block.setAttribute('tabindex', '0');\n"
    + "    block.style.outline = 'none';\n"
    + "    \n"
    + "    block.addEventListener('focus', function() {\n"
    + "      this.style.boxShadow = '0 0 0 2px #0366d6';\n"
    + "    });\n"
    + "    \n"
    + "    block.addEventListener('blur', function() {\n"
    + "      this.style.boxShadow = 'none';\n"
    + "    });\n"
    + "  });\n"
    + "});\n"
    + "</script>\n"

  /** The result of `convert`. */
  datatype Converted = Converted(html: string, css: string, htmlWithCSS: string)

  /** `convert(lexicalData, { includeCSS = true, cssPrefix =
      'lexical-content', minifyCSS = false })` once the converter has given
      `full`: the extracted content, the restyled stylesheet, and the bundle
      of both followed by `script` (always `InteractiveJs`). An exception of
      the converter passes through. */
  function Bundle(cssContent: string, options: map<string, Value>, full: Result<string>, minifier: string -> string, script: string): (r: Result<Converted>)
    ensures full.Throw? <==> r.Throw?
    ensures r.Throw? ==> r.message == full.message
  {
    match full
    case Throw(m) => Throw(m)
    case Ok(page) =>
      var includeCss := Truthy(Option(options, "includeCSS", Bool(true)));
      var prefix := Option(options, "cssPrefix", Str(DefaultPrefix));
      var html := Extract(page);
      var css := Restyle(cssContent, prefix, Truthy(Option(options, "minifyCSS", Bool(false))), minifier);
      var box := "<div class=\"" + ToText(prefix) + "\">" + html + "</div>" + script;
      Ok(Converted(html, css, if includeCss then "<style>" + css + "</style>" + box else box))
  }

  /** The bundle is the stylesheet (unless `includeCSS` is falsy), the
      content in a box named by the prefix, and the script; its html is the
      extracted content, whatever the options. */
  lemma BundleShape(cssContent: string, options: map<string, Value>, page: string, minifier: string -> string, script: string)
    ensures var c := Bundle(cssContent, options, Ok(page), minifier, script).value;
      var prefix := Option(options, "cssPrefix", Str(DefaultPrefix));
      var box := "<div class=\"" + ToText(prefix) + "\">" + Extract(page) + "</div>" + script;
      c.html == Extract(page)
      && (Truthy(Option(options, "includeCSS", Bool(true))) ==> c.htmlWithCSS == "<style>" + c.css + "</style>" + box)
      && (!Truthy(Option(options, "includeCSS", Bool(true))) ==> c.htmlWithCSS == box)
  {
  }

  /** `getCSS` renames and minifies as `convert` does, for the same prefix
      and minify flag. */
  lemma GetCssAsConvert(cssContent: string, prefix: Value, minify: Value, page: string, minifier: string -> string, script: string)
    requires prefix != Undefined && minify != Undefined
    ensures CssFor(cssContent, map["prefix" := prefix, "minify" := minify], minifier)
      == Bundle(cssContent, map["cssPrefix" := prefix, "minifyCSS" := minify], Ok(page), minifier, script).value.css
  {
  }

  /** `convertToHTML` gives the same content as `convert` with any options. */
  lemma HtmlIgnoresOptions(cssContent: string, o1: map<string, Value>, o2: map<string, Value>, full: Result<string>, minifier: string -> string, script: string)
    requires full.Ok?
    ensures Bundle(cssContent, o1, full, minifier, script).value.html == Bundle(cssContent, o2, full, minifier, script).value.html
  {
  }

  /** What `this.converter.convert(lexicalData)` returns, by the contract of
      the converter of src/convert.js. */
  function PageOf(ids: nat -> string, doc: Document, draws: nat, pageScript: string): Result<string>
  {
    match doc
    case NoEditorState => Throw(ReadError("undefined", "root"))
    case EditorState(root) => Ok(ConvertJs.Page(ConvertJs.DocumentTrace(ConvertJs.ClassRules, ids, root, draws).html, pageScript))
  }

  /** The html `convert` returns for a page of the converter is the
      converter's content, trimmed, whenever that content opens no script. */
  lemma BundleHtml(cssContent: string, options: map<string, Value>, content: string, pageScript: string, minifier: string -> string, script: string)
    requires !Contains(content, "<script>")
    ensures Bundle(cssContent, options, Ok(ConvertJs.Page(content, pageScript)), minifier, script).value.html == Trim(content)
  {
    ExtractPage(content, pageScript);
  }

  /** The same for a document: its html is the converter's content for it,
      trimmed, unless that content opens a script. */
  lemma DocumentHtml(cssContent: string, options: map<string, Value>, ids: nat -> string, doc: Document, draws: nat, pageScript: string, minifier: string -> string, script: string)
    requires doc.EditorState?
    ensures var o := ConvertJs.DocumentTrace(ConvertJs.ClassRules, ids, doc.root, draws);
      var r := Bundle(cssContent, options, PageOf(ids, doc, draws, pageScript), minifier, script);
      !Contains(o.html, "<script>") ==> r.Ok? && r.value.html == Trim(o.html)
  {
    var o := ConvertJs.DocumentTrace(ConvertJs.ClassRules, ids, doc.root, draws);
    if !Contains(o.html, "<script>") {
      BundleHtml(cssContent, options, o.html, pageScript, minifier, script);
    }
  }

  /** The library object: the converter it owns and the stylesheet it
      loaded once. */
  class LexicalConverter {
    const converter: ConvertJs.LexicalToHtmlConverter
    const cssContent: string
    /** `minifyCSS`, a chain of regular-expression replacements. */
    const minifier: string -> string
    /** The script every bundle ends with: `InteractiveJs`. */
    const script: string

    constructor(ids: nat -> string, cssContent: string, minifier: string -> string)
      ensures fresh(converter) && converter.State() == ConvertJs.St(0, [], 0) && converter.ids == ids
      ensures converter.script == ConvertJs.PageScript
      ensures this.cssContent == cssContent && this.minifier == minifier && script == InteractiveJs
    {
      converter := new ConvertJs.LexicalToHtmlConverter(ids);
      this.cssContent := cssContent;
      this.minifier := minifier;
      script := InteractiveJs;
    }

    /** `convert(lexicalData, options)`. */
    method Convert(doc: Document, options: map<string, Value>) returns (r: Result<Converted>)
      modifies converter
      ensures r == Bundle(cssContent, options, PageOf(converter.ids, doc, old(converter.draws), converter.script), minifier, script)
      ensures doc.NoEditorState? ==> converter.State() == ConvertJs.St(0, [], old(converter.draws))
      ensures doc.EditorState? ==>
        var o := ConvertJs.DocumentTrace(ConvertJs.ClassRules, converter.ids, doc.root, old(converter.draws));
        converter.State() == o.st
        && (!Contains(o.html, "<script>") ==> r.Ok? && r.value.html == Trim(o.html))
    {
      var full := converter.Convert(doc);
      r := Bundle(cssContent, options, full, minifier, script);
      if doc.EditorState? {
        DocumentHtml(cssContent, options, converter.ids, doc, old(converter.draws), converter.script, minifier, script);
      }
    }

    /** `getCSS(options)`. */
    function GetCss(options: map<string, Value>): string
    {
      CssFor(cssContent, options, minifier)
    }

    /** `convertToHTML(lexicalData)`: the html of `convert` without the
        stylesheet. */
    method ConvertToHtml(doc: Document) returns (r: Result<string>)
      modifies converter
      ensures var c := Bundle(cssContent, map["includeCSS" := Bool(false)], PageOf(converter.ids, doc, old(converter.draws), converter.script), minifier, script);
        r == if c.Throw? then Throw(c.message) else Ok(c.value.html)
      ensures doc.NoEditorState? ==> converter.State() == ConvertJs.St(0, [], old(converter.draws))
      ensures doc.EditorState? ==>
        var o := ConvertJs.DocumentTrace(ConvertJs.ClassRules, converter.ids, doc.root, old(converter.draws));
        converter.State() == o.st && (!Contains(o.html, "<script>") ==> r == Ok(Trim(o.html)))
    {
      var c := Convert(doc, map["includeCSS" := Bool(false)]);
      r := if c.Throw? then Throw(c.message) else Ok(c.value.html);
    }
  }
}
