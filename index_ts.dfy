/** The TypeScript library entry point of src/index.ts: it runs the
    `HtmlConverter` of src/converters, keeps its markup as it is, renames
    the `.lexical-content` selectors for another prefix as src/lib.js does,
    and bundles the stylesheet with the content box, without a script. */
module IndexTs {
  import opened Js
  import opened Lexical
  import LibJs
  import TsConverter
  import Strings

  /** `convert(lexicalData, { includeCSS = true, cssPrefix =
      'lexical-content', minifyCSS = false })` once the converter has given
      its markup `html`: the markup as it is, the restyled stylesheet, and the
      bundle of both. */
  function Bundle(cssContent: string, options: map<string, Value>, html: string, minifier: string -> string): (r: LibJs.Converted)
    ensures r.html == html
    ensures r.css == LibJs.Restyle(cssContent, LibJs.Option(options, "cssPrefix", Str(LibJs.DefaultPrefix)),
                                   Truthy(LibJs.Option(options, "minifyCSS", Bool(false))), minifier)
  {
    var includeCss := Truthy(LibJs.Option(options, "includeCSS", Bool(true)));
    var prefix := LibJs.Option(options, "cssPrefix", Str(LibJs.DefaultPrefix));
    var css := LibJs.Restyle(cssContent, prefix, Truthy(LibJs.Option(options, "minifyCSS", Bool(false))), minifier);
    var box := "<div class=\"" + ToText(prefix) + "\">" + html + "</div>";
    LibJs.Converted(html, css, if includeCss then "<style>" + css + "</style>" + box else box)
  }

  /** The two entry points agree on the stylesheet; the bundle of src/lib.js
      is this bundle made from the content cut out of the page, followed by
      its script. */
  lemma AgreesWithLib(cssContent: string, options: map<string, Value>, page: string, minifier: string -> string, script: string)
    ensures var lib := LibJs.Bundle(cssContent, options, Ok(page), minifier, script).value;
      var ts := Bundle(cssContent, options, LibJs.Extract(page), minifier);
      lib.css == ts.css && lib.html == ts.html && lib.htmlWithCSS == ts.htmlWithCSS + script
  {
    var html := LibJs.Extract(page);
    var prefix := LibJs.Option(options, "cssPrefix", Str(LibJs.DefaultPrefix));
    var ts := Bundle(cssContent, options, html, minifier);
    var head := "<div class=\"" + ToText(prefix) + "\">";
    var box := head + html + "</div>";
    assert head + html + "</div>" + script == box + script;
    Strings.Regroup("<style>" + ts.css + "</style>", box, script);
  }

  /** With `includeCSS` falsy the bundle is the box alone. */
  lemma WithoutCss(cssContent: string, options: map<string, Value>, html: string, minifier: string -> string)
    requires "includeCSS" in options && options["includeCSS"] != Undefined && !Truthy(options["includeCSS"])
    ensures Bundle(cssContent, options, html, minifier).htmlWithCSS
      == "<div class=\"" + ToText(LibJs.Option(options, "cssPrefix", Str(LibJs.DefaultPrefix))) + "\">" + html + "</div>"
  {
  }

  /** The library object: the converter it owns, made with the default
      options, and the stylesheet it loaded once. */
  class LexicalConverter {
    const converter: TsConverter.HtmlConverter
    const cssContent: string
    /** `minifyCSS`, a chain of regular-expression replacements. */
    const minifier: string -> string

    constructor(ids: nat -> string, cssContent: string, minifier: string -> string)
      ensures fresh(converter) && converter.options == TsConverter.MergeOptions(map[])
      ensures converter.ids == ids && converter.rules == TsConverter.HtmlRules
      ensures this.cssContent == cssContent && this.minifier == minifier
    {
      converter := new TsConverter.HtmlConverter(map[], ids);
      this.cssContent := cssContent;
      this.minifier := minifier;
    }

    /** `convert(lexicalData, options)`. */
    method Convert(doc: Document, options: map<string, Value>) returns (r: LibJs.Converted)
      modifies converter
      ensures r == Bundle(cssContent, options,
                          TsConverter.ConvertSpec(converter.options, converter.rules, converter.ids, doc, old(converter.draws)).html,
                          minifier)
      ensures converter.State() == TsConverter.DocumentTrace(converter.rules, converter.ids, doc, old(converter.draws)).st
    {
      var result := converter.Convert(doc);
      r := Bundle(cssContent, options, result.html, minifier);
    }

    /** `getCSS(options)`: the same renaming as src/lib.js. */
    function GetCss(options: map<string, Value>): string
    {
      LibJs.CssFor(cssContent, options, minifier)
    }

    /** `convertToHTML(lexicalData)`: the converter's markup unchanged. */
    method ConvertToHtml(doc: Document) returns (html: string)
      modifies converter
      ensures html == TsConverter.ConvertSpec(converter.options, converter.rules, converter.ids, doc, old(converter.draws)).html
      ensures converter.State() == TsConverter.DocumentTrace(converter.rules, converter.ids, doc, old(converter.draws)).st
    {
      var result := converter.Convert(doc);
      html := result.html;
    }
  }
}
