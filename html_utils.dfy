/** The string primitives every converter builds on: HTML entity escaping,
    the text-format bit mask, attribute strings, tag wrapping, the fixed
    nesting of inline format tags, CSS sanitising and the standalone
    document template. */
module HtmlUtils {
  import opened Js
  import opened Strings

  // ---------------------------------------------------------------------------
  // escapeHtml

  /** `escapeHtml`: five global replacements, `&` first so that the entities
      introduced by the later passes are not escaped again. */
  function EscapeHtml(text: string): string
  {
    var amp := ReplaceAll(text, "&", "&amp;");
    var lt := ReplaceAll(amp, "<", "&lt;");
    var gt := ReplaceAll(lt, ">", "&gt;");
    var quot := ReplaceAll(gt, "\"", "&quot;");
    ReplaceAll(quot, "'", "&#x27;")
  }

  /** The characters `escapeHtml` rewrites. */
  predicate IsSpecial(c: char)
  {
    c == '&' || c == '<' || c == '>' || c == '"' || c == '\''
  }

  /** The entity each character stands for after escaping. */
  function EscapeChar(c: char): (r: string)
    ensures IsSpecial(c) <==> r != [c]
  {
    if c == '&' then "&amp;"
    else if c == '<' then "&lt;"
    else if c == '>' then "&gt;"
    else if c == '"' then "&quot;"
    else if c == '\'' then "&#x27;"
    else [c]
  }

  /** Reference definition: escaping character by character. */
  function EscapeEach(s: string): string
  {
    if s == [] then "" else EscapeChar(s[0]) + EscapeEach(s[1..])
  }

  lemma EscapeHtmlAppend(a: string, b: string)
    ensures EscapeHtml(a + b) == EscapeHtml(a) + EscapeHtml(b)
  {
    var a1, b1 := ReplaceAll(a, "&", "&amp;"), ReplaceAll(b, "&", "&amp;");
    ReplaceCharAppend(a, b, '&', "&amp;");
    var a2, b2 := ReplaceAll(a1, "<", "&lt;"), ReplaceAll(b1, "<", "&lt;");
    ReplaceCharAppend(a1, b1, '<', "&lt;");
    var a3, b3 := ReplaceAll(a2, ">", "&gt;"), ReplaceAll(b2, ">", "&gt;");
    ReplaceCharAppend(a2, b2, '>', "&gt;");
    var a4, b4 := ReplaceAll(a3, "\"", "&quot;"), ReplaceAll(b3, "\"", "&quot;");
    ReplaceCharAppend(a3, b3, '"', "&quot;");
    ReplaceCharAppend(a4, b4, '\'', "&#x27;");
  }

  /** The later passes leave an entity that holds none of their characters alone. */
  lemma EscapeHtmlEntityTail(e: string, from: nat)
    requires 1 <= from <= 4
    requires from <= 1 ==> '<' !in e
    requires from <= 2 ==> '>' !in e
    requires from <= 3 ==> '"' !in e
    requires '\'' !in e
    ensures (from <= 1 ==> ReplaceAll(e, "<", "&lt;") == e)
    ensures (from <= 2 ==> ReplaceAll(e, ">", "&gt;") == e)
    ensures (from <= 3 ==> ReplaceAll(e, "\"", "&quot;") == e)
    ensures ReplaceAll(e, "'", "&#x27;") == e
  {
    if from <= 1 { ReplaceCharAbsent(e, '<', "&lt;"); }
    if from <= 2 { ReplaceCharAbsent(e, '>', "&gt;"); }
    if from <= 3 { ReplaceCharAbsent(e, '"', "&quot;"); }
    ReplaceCharAbsent(e, '\'', "&#x27;");
  }

  lemma EscapeHtmlChar(c: char)
    ensures EscapeHtml([c]) == EscapeChar(c)
  {
    ReplaceCharSingle(c, '&', "&amp;");
    if c == '&' {
      EscapeHtmlEntityTail("&amp;", 1);
      return;
    }
    ReplaceCharSingle(c, '<', "&lt;");
    if c == '<' {
      EscapeHtmlEntityTail("&lt;", 2);
      return;
    }
    ReplaceCharSingle(c, '>', "&gt;");
    if c == '>' {
      EscapeHtmlEntityTail("&gt;", 3);
      return;
    }
    ReplaceCharSingle(c, '"', "&quot;");
    if c == '"' {
      EscapeHtmlEntityTail("&quot;", 4);
      return;
    }
    ReplaceCharSingle(c, '\'', "&#x27;");
  }

  /** The five passes escape every character independently: the `&` pass
      running first means no entity is escaped twice. */
  lemma {:induction false} EscapeHtmlIsPerChar(s: string)
    ensures EscapeHtml(s) == EscapeEach(s)
    decreases |s|
  {
    if s == [] {
      ReplaceCharAbsent(s, '&', "&amp;");
      ReplaceCharAbsent(s, '<', "&lt;");
      ReplaceCharAbsent(s, '>', "&gt;");
      ReplaceCharAbsent(s, '"', "&quot;");
      ReplaceCharAbsent(s, '\'', "&#x27;");
    } else {
      assert s == [s[0]] + s[1..];
      EscapeHtmlAppend([s[0]], s[1..]);
      EscapeHtmlChar(s[0]);
      EscapeHtmlIsPerChar(s[1..]);
    }
  }

  /** A character that can open or close markup or an attribute value. */
  predicate IsMarkup(c: char)
  {
    c == '<' || c == '>' || c == '"' || c == '\''
  }

  lemma {:induction false} EscapeEachNoMarkup(s: string)
    ensures forall i :: 0 <= i < |EscapeEach(s)| ==> !IsMarkup(EscapeEach(s)[i])
    decreases |s|
  {
    if s != [] {
      EscapeEachNoMarkup(s[1..]);
      var e := EscapeChar(s[0]);
      assert forall i :: 0 <= i < |e| ==> !IsMarkup(e[i]);
      var r := EscapeEach(s);
      forall i | 0 <= i < |r| ensures !IsMarkup(r[i]) {
        if i >= |e| { assert r[i] == EscapeEach(s[1..])[i - |e|]; }
      }
    }
  }

  /** Escaped text contains no raw `<`, `>`, `"` or `'`. */
  lemma EscapeHtmlNoMarkup(s: string)
    ensures forall i :: 0 <= i < |EscapeHtml(s)| ==> !IsMarkup(EscapeHtml(s)[i])
  {
    EscapeHtmlIsPerChar(s);
    EscapeEachNoMarkup(s);
  }

  lemma {:induction false} EscapeEachLength(s: string)
    ensures |EscapeEach(s)| >= |s|
    ensures |EscapeEach(s)| == |s| <==> forall i :: 0 <= i < |s| ==> !IsSpecial(s[i])
    decreases |s|
  {
    if s != [] {
      EscapeEachLength(s[1..]);
      assert IsSpecial(s[0]) <==> |EscapeChar(s[0])| > 1;
      if forall i :: 0 <= i < |s| ==> !IsSpecial(s[i]) {
        assert forall i :: 0 <= i < |s[1..]| ==> !IsSpecial(s[1..][i]) by {
          forall i | 0 <= i < |s[1..]| ensures !IsSpecial(s[1..][i]) { assert s[1..][i] == s[i + 1]; }
        }
      } else if !IsSpecial(s[0]) {
        var i :| 0 <= i < |s| && IsSpecial(s[i]);
        assert s[1..][i - 1] == s[i];
      }
    }
  }

  lemma {:induction false} EscapeEachIdentity(s: string)
    requires forall i :: 0 <= i < |s| ==> !IsSpecial(s[i])
    ensures EscapeEach(s) == s
    decreases |s|
  {
    if s != [] {
      assert forall i :: 0 <= i < |s[1..]| ==> !IsSpecial(s[1..][i]) by {
        forall i | 0 <= i < |s[1..]| ensures !IsSpecial(s[1..][i]) { assert s[1..][i] == s[i + 1]; }
      }
      EscapeEachIdentity(s[1..]);
      assert s == [s[0]] + s[1..];
    }
  }

  /** Escaping leaves a string unchanged exactly when it holds none of the
      five special characters. */
  lemma EscapeHtmlIdentity(s: string)
    ensures EscapeHtml(s) == s <==> forall i :: 0 <= i < |s| ==> !IsSpecial(s[i])
  {
    EscapeHtmlIsPerChar(s);
    EscapeEachLength(s);
    if forall i :: 0 <= i < |s| ==> !IsSpecial(s[i]) {
      EscapeEachIdentity(s);
    }
  }

  /** Decoding of the five entities `escapeHtml` produces. */
  function Unescape(s: string): string
    decreases |s|
  {
    if s == [] then ""
    else if StartsAt(s, "&amp;", 0) then "&" + Unescape(s[5..])
    else if StartsAt(s, "&lt;", 0) then "<" + Unescape(s[4..])
    else if StartsAt(s, "&gt;", 0) then ">" + Unescape(s[4..])
    else if StartsAt(s, "&quot;", 0) then "\"" + Unescape(s[6..])
    else if StartsAt(s, "&#x27;", 0) then "'" + Unescape(s[6..])
    else [s[0]] + Unescape(s[1..])
  }

  lemma UnescapeStep(c: char, rest: string)
    ensures Unescape(EscapeChar(c) + rest) == [c] + Unescape(rest)
  {
    var e := EscapeChar(c) + rest;
    if c == '&' {
      assert e[..5] == "&amp;" && e[5..] == rest;
      assert StartsAt(e, "&amp;", 0);
    } else if c == '<' {
      assert e[..4] == "&lt;" && e[4..] == rest;
      assert !StartsAt(e, "&amp;", 0) by { assert e[1] == 'l'; }
      assert StartsAt(e, "&lt;", 0);
    } else if c == '>' {
      assert e[..4] == "&gt;" && e[4..] == rest;
      assert !StartsAt(e, "&amp;", 0) && !StartsAt(e, "&lt;", 0) by { assert e[1] == 'g'; }
      assert StartsAt(e, "&gt;", 0);
    } else if c == '"' {
      assert e[..6] == "&quot;" && e[6..] == rest;
      assert !StartsAt(e, "&amp;", 0) && !StartsAt(e, "&lt;", 0) && !StartsAt(e, "&gt;", 0) by { assert e[1] == 'q'; }
      assert StartsAt(e, "&quot;", 0);
    } else if c == '\'' {
      assert e[..6] == "&#x27;" && e[6..] == rest;
      assert !StartsAt(e, "&amp;", 0) && !StartsAt(e, "&lt;", 0) && !StartsAt(e, "&gt;", 0)
        && !StartsAt(e, "&quot;", 0) by { assert e[1] == '#'; }
      assert StartsAt(e, "&#x27;", 0);
    } else {
      assert e[0] == c && e[1..] == rest;
      assert !StartsAt(e, "&amp;", 0) && !StartsAt(e, "&lt;", 0) && !StartsAt(e, "&gt;", 0)
        && !StartsAt(e, "&quot;", 0) && !StartsAt(e, "&#x27;", 0) by { assert e[0] != '&'; }
    }
  }

  /** Escaping loses nothing: decoding the entities gives the text back. */
  lemma {:induction false} UnescapeEscapeHtml(s: string)
    ensures Unescape(EscapeHtml(s)) == s
    decreases |s|
  {
    EscapeHtmlIsPerChar(s);
    if s != [] {
      UnescapeEscapeHtml(s[1..]);
      EscapeHtmlIsPerChar(s[1..]);
      UnescapeStep(s[0], EscapeEach(s[1..]));
      assert s == [s[0]] + s[1..];
    }
  }

  // ---------------------------------------------------------------------------
  // parseTextFormat

  /** The flags of a Lexical text-format mask. */
  datatype TextFormat = TextFormat(
    bold: bool, italic: bool, strikethrough: bool, underline: bool,
    code: bool, subscript: bool, superscript: bool)

  /** Bit `k` of the two's-complement integer `m` (`(m & 2^k) !== 0`;
      Dafny's division by 2 floors, so negative masks have the bits they
      have in 32-bit JavaScript). */
  predicate Bit(m: int, k: nat)
    decreases k
  {
    if k == 0 then m % 2 == 1 else Bit(m / 2, k - 1)
  }

  /** `parseTextFormat`: bold 1, italic 2, strikethrough 4, underline 8,
      code 16, subscript 32, superscript 64. */
  function ParseTextFormat(format: int): TextFormat
  {
    TextFormat(
      bold := Bit(format, 0),
      italic := Bit(format, 1),
      strikethrough := Bit(format, 2),
      underline := Bit(format, 3),
      code := Bit(format, 4),
      subscript := Bit(format, 5),
      superscript := Bit(format, 6))
  }

  function BitOf(b: bool): nat { if b then 1 else 0 }

  /** The mask with exactly the given flags set. */
  function FormatMask(f: TextFormat): (m: nat)
    ensures m < 128
  {
    BitOf(f.bold) + 2 * BitOf(f.italic) + 4 * BitOf(f.strikethrough) + 8 * BitOf(f.underline)
    + 16 * BitOf(f.code) + 32 * BitOf(f.subscript) + 64 * BitOf(f.superscript)
  }


  /** One binary digit: `x` is `b` followed by the digits of `h`. */
  lemma HalfStep(x: int, b: nat, h: int)
    requires b < 2 && x == b + 2 * h
    ensures x % 2 == b && x / 2 == h
  {
  }

  /** Every combination of flags is read back from its mask. */
  lemma ParseFormatMask(f: TextFormat)
    ensures ParseTextFormat(FormatMask(f)) == f
  {
    var m := FormatMask(f);
    var h6 := BitOf(f.superscript);
    var h5 := BitOf(f.subscript) + 2 * h6;
    var h4 := BitOf(f.code) + 2 * h5;
    var h3 := BitOf(f.underline) + 2 * h4;
    var h2 := BitOf(f.strikethrough) + 2 * h3;
    var h1 := BitOf(f.italic) + 2 * h2;
    assert m == BitOf(f.bold) + 2 * h1;
    HalfStep(m, BitOf(f.bold), h1);
    HalfStep(h1, BitOf(f.italic), h2);
    HalfStep(h2, BitOf(f.strikethrough), h3);
    HalfStep(h3, BitOf(f.underline), h4);
    HalfStep(h4, BitOf(f.code), h5);
    HalfStep(h5, BitOf(f.subscript), h6);
    HalfStep(h6, BitOf(f.superscript), 0);
  }

  /** Only the low seven bits matter: the mask is read modulo 128, and
      encoding the parsed flags gives exactly those bits back. */
  lemma MaskOfParse(format: int)
    ensures ParseTextFormat(format) == ParseTextFormat(format % 128)
    ensures FormatMask(ParseTextFormat(format)) == format % 128
  {
    var f := ParseTextFormat(format);
    var m := FormatMask(f);
    var q := MaskDecomposition(format);
    Remainder128(format, m, q);
    ParseFormatMask(f);
  }

  /** The mask is its seven low bits plus a multiple of 128. */
  lemma MaskDecomposition(format: int) returns (q: int)
    ensures format == FormatMask(ParseTextFormat(format)) + 128 * q
  {
    var f := ParseTextFormat(format);
    var q1, q2, q3, q4, q5, q6, q7 := HalvingChain(format);
    q := q7;
    assert FormatMask(f) == BitOf(f.bold) + 2 * BitOf(f.italic) + 4 * BitOf(f.strikethrough)
      + 8 * BitOf(f.underline) + 16 * BitOf(f.code) + 32 * BitOf(f.subscript) + 64 * BitOf(f.superscript);
  }

  /** The binary digits of the mask, lowest first, read off by halving. */
  lemma HalvingChain(format: int) returns (q1: int, q2: int, q3: int, q4: int, q5: int, q6: int, q7: int)
    ensures var f := ParseTextFormat(format);
      format == BitOf(f.bold) + 2 * q1 && q1 == BitOf(f.italic) + 2 * q2
      && q2 == BitOf(f.strikethrough) + 2 * q3 && q3 == BitOf(f.underline) + 2 * q4
      && q4 == BitOf(f.code) + 2 * q5 && q5 == BitOf(f.subscript) + 2 * q6
      && q6 == BitOf(f.superscript) + 2 * q7
  {
    var h0 := BitDigit(format);
    q1 := h0;
    var h1 := BitDigit(q1);
    q2 := h1;
    var h2 := BitDigit(q2);
    q3 := h2;
    var h3 := BitDigit(q3);
    q4 := h3;
    var h4 := BitDigit(q4);
    q5 := h4;
    var h5 := BitDigit(q5);
    q6 := h5;
    q7 := BitDigit(q6);
    assert Bit(format, 1) == Bit(q1, 0);
    assert Bit(format, 2) == Bit(q1, 1) == Bit(q2, 0);
    assert Bit(format, 3) == Bit(q1, 2) == Bit(q2, 1) == Bit(q3, 0);
    assert Bit(format, 4) == Bit(q1, 3) == Bit(q2, 2) == Bit(q3, 1) == Bit(q4, 0);
    assert Bit(format, 5) == Bit(q1, 4) == Bit(q2, 3) == Bit(q3, 2) == Bit(q4, 1) == Bit(q5, 0);
    assert Bit(format, 6) == Bit(q1, 5) == Bit(q2, 4) == Bit(q3, 3) == Bit(q4, 2) == Bit(q5, 1) == Bit(q6, 0);
  }

  /** The lowest binary digit of `x`, and the rest. */
  lemma BitDigit(x: int) returns (h: int)
    ensures h == x / 2 && x == BitOf(Bit(x, 0)) + 2 * h
  {
    h := x / 2;
  }

  lemma Remainder128(x: int, m: nat, q: int)
    requires m < 128 && x == m + 128 * q
    ensures x % 128 == m
  {
  }

  // ---------------------------------------------------------------------------
  // buildAttributes, wrapWithTag, createSelfClosingTag

  /** An attribute record in insertion order. */
  type Attributes = seq<(string, Value)>

  /** `buildAttributes` keeps a value unless it is null, undefined or `''`. */
  predicate IsPresent(v: Value)
  {
    !(v.Null? || v.Undefined? || v == Str(""))
  }

  /** `key="escaped value"`. */
  function AttributePair(key: string, v: Value): string
  {
    key + "=\"" + EscapeHtml(ToText(v)) + "\""
  }

  /** The filter-then-map step of `buildAttributes`. */
  function RenderedPairs(attrs: Attributes): (r: seq<string>)
    ensures |r| <= |attrs|
    ensures forall i :: 0 <= i < |r| ==> r[i] != ""
    ensures r == [] <==> forall i :: 0 <= i < |attrs| ==> !IsPresent(attrs[i].1)
  {
    if attrs == [] then []
    else
      var tail := RenderedPairs(attrs[1..]);
      assert forall i :: 1 <= i < |attrs| ==> attrs[i] == attrs[1..][i - 1];
      if IsPresent(attrs[0].1) then [AttributePair(attrs[0].0, attrs[0].1)] + tail else tail
  }

  lemma {:induction false} JoinNonEmpty(parts: seq<string>, sep: string)
    requires parts != [] && parts[0] != ""
    ensures Join(parts, sep) != ""
  {
  }

  /** `buildAttributes`: the surviving pairs joined by one space, with one
      leading space when there is any. */
  function BuildAttributes(attrs: Attributes): (r: string)
    ensures r == "" <==> forall i :: 0 <= i < |attrs| ==> !IsPresent(attrs[i].1)
    ensures r != "" ==> r[0] == ' '
  {
    var pairs := RenderedPairs(attrs);
    if pairs != [] then JoinNonEmpty(pairs, " "); " " + Join(pairs, " ") else ""
  }

  /** Reference definition: each surviving attribute contributes ` key="value"`
      in insertion order. */
  function AttributeList(attrs: Attributes): string
  {
    if attrs == [] then ""
    else
      var head := if IsPresent(attrs[0].1) then " " + AttributePair(attrs[0].0, attrs[0].1) else "";
      head + AttributeList(attrs[1..])
  }

  lemma {:induction false} BuildAttributesIsList(attrs: Attributes)
    ensures BuildAttributes(attrs) == AttributeList(attrs)
    decreases |attrs|
  {
    if attrs != [] {
      BuildAttributesIsList(attrs[1..]);
      BuildAttributesCons(attrs);
    }
  }

  /** A single attribute: its pair when its value is present. */
  lemma BuildAttributesOne(name: string, v: Value)
    ensures BuildAttributes([(name, v)]) == if IsPresent(v) then " " + AttributePair(name, v) else ""
  {
    BuildAttributesIsList([(name, v)]);
    assert [(name, v)][1..] == [];
  }

  /** A tag with one attribute that is kept only under a condition. */
  lemma WrapWithWhen(tag: string, content: string, c: bool, key: string, v: Value)
    requires c ==> IsPresent(v)
    ensures WrapWithTag(tag, content, if c then [(key, v)] else [])
      == "<" + tag + (if c then " " + AttributePair(key, v) else "") + ">" + content + "</" + tag + ">"
  {
    if c {
      BuildAttributesOne(key, v);
    }
  }

  /** One attribute more in front adds its pair in front. */
  lemma BuildAttributesCons(attrs: Attributes)
    requires attrs != []
    ensures BuildAttributes(attrs)
      == (if IsPresent(attrs[0].1) then " " + AttributePair(attrs[0].0, attrs[0].1) else "")
         + BuildAttributes(attrs[1..])
  {
    var tail := RenderedPairs(attrs[1..]);
    if IsPresent(attrs[0].1) {
      var p := AttributePair(attrs[0].0, attrs[0].1);
      assert RenderedPairs(attrs) == [p] + tail;
      SpacedCons(p, tail);
    } else {
      assert RenderedPairs(attrs) == tail;
    }
  }

  lemma SpacedCons(p: string, tail: seq<string>)
    ensures " " + Join([p] + tail, " ") == " " + p + (if tail != [] then " " + Join(tail, " ") else "")
  {
    if tail == [] {
      assert Join([p] + tail, " ") == p;
    } else {
      JoinCons(p, tail, " ");
    }
  }

  /** Dropping the absent values first gives the same string. */
  lemma {:induction false} BuildAttributesIgnoresAbsent(attrs: Attributes, key: string, v: Value)
    requires !IsPresent(v)
    ensures BuildAttributes(attrs + [(key, v)]) == BuildAttributes(attrs)
    ensures BuildAttributes([(key, v)] + attrs) == BuildAttributes(attrs)
  {
    BuildAttributesIsList(attrs);
    BuildAttributesIsList(attrs + [(key, v)]);
    BuildAttributesIsList([(key, v)] + attrs);
    AttributeListSnoc(attrs, key, v);
    assert ([(key, v)] + attrs)[1..] == attrs;
  }

  lemma {:induction false} AttributeListSnoc(attrs: Attributes, key: string, v: Value)
    ensures AttributeList(attrs + [(key, v)])
      == AttributeList(attrs) + (if IsPresent(v) then " " + AttributePair(key, v) else "")
    decreases |attrs|
  {
    if attrs == [] {
      assert attrs + [(key, v)] == [(key, v)];
    } else {
      var all := attrs + [(key, v)];
      assert all[0] == attrs[0] && all[1..] == attrs[1..] + [(key, v)];
      AttributeListSnoc(attrs[1..], key, v);
      var head := if IsPresent(attrs[0].1) then " " + AttributePair(attrs[0].0, attrs[0].1) else "";
      var last := if IsPresent(v) then " " + AttributePair(key, v) else "";
      assert AttributeList(all) == head + (AttributeList(attrs[1..]) + last);
      assert AttributeList(attrs) == head + AttributeList(attrs[1..]);
      Regroup(head, AttributeList(attrs[1..]), last);
    }
  }

  /** `wrapWithTag`: the content goes in as it is, unescaped. */
  function WrapWithTag(tag: string, content: string, attrs: Attributes): string
  {
    "<" + tag + BuildAttributes(attrs) + ">" + content + "</" + tag + ">"
  }

  /** `createSelfClosingTag`. */
  function SelfClosingTag(tag: string, attrs: Attributes): string
  {
    "<" + tag + BuildAttributes(attrs) + "/>"
  }

  // ---------------------------------------------------------------------------
  // applyTextFormatting

  /** `applyTextFormatting`: the escaped text, wrapped by each flagged tag in
      the order code, strong, em, u, s, sub, sup, then by a styled span when
      the style is truthy. */
  function ApplyTextFormatting(text: string, format: int, style: Value): string
  {
    var result := WrapFormatTags(ParseTextFormat(format), EscapeHtml(text));
    if Truthy(style) then WrapWithTag("span", result, [("style", style)]) else result
  }

  /** The seven conditional wraps of `applyTextFormatting`, in source order. */
  function WrapFormatTags(flags: TextFormat, inner: string): string
  {
    var r1 := WrapIf(flags.code, "code", inner);
    var r2 := WrapIf(flags.bold, "strong", r1);
    var r3 := WrapIf(flags.italic, "em", r2);
    var r4 := WrapIf(flags.underline, "u", r3);
    var r5 := WrapIf(flags.strikethrough, "s", r4);
    var r6 := WrapIf(flags.subscript, "sub", r5);
    WrapIf(flags.superscript, "sup", r6)
  }

  /** `if (flag) result = wrapWithTag(tag, result)`. */
  function WrapIf(flag: bool, tag: string, inner: string): string
  {
    if flag then WrapWithTag(tag, inner, []) else inner
  }

  /** The tags a format asks for, innermost first. */
  function ActiveTags(f: TextFormat): seq<string>
  {
    (if f.code then ["code"] else []) + (if f.bold then ["strong"] else [])
    + (if f.italic then ["em"] else []) + (if f.underline then ["u"] else [])
    + (if f.strikethrough then ["s"] else []) + (if f.subscript then ["sub"] else [])
    + (if f.superscript then ["sup"] else [])
  }

  function OpenTags(tags: seq<string>): string
  {
    if tags == [] then "" else OpenTags(tags[1..]) + "<" + tags[0] + ">"
  }

  function CloseTags(tags: seq<string>): string
  {
    if tags == [] then "" else "</" + tags[0] + ">" + CloseTags(tags[1..])
  }

  /** Wrapping by each tag in turn, innermost first. */
  function Nest(tags: seq<string>, inner: string): string
    decreases |tags|
  {
    if tags == [] then inner else Nest(tags[1..], WrapWithTag(tags[0], inner, []))
  }

  lemma {:induction false} NestAppend(a: seq<string>, b: seq<string>, inner: string)
    ensures Nest(a + b, inner) == Nest(b, Nest(a, inner))
    decreases |a|
  {
    if a != [] {
      assert (a + b)[1..] == a[1..] + b;
      NestAppend(a[1..], b, WrapWithTag(a[0], inner, []));
    } else {
      assert a + b == b;
    }
  }

  lemma {:induction false} NestIsFlat(tags: seq<string>, inner: string)
    ensures Nest(tags, inner) == OpenTags(tags) + inner + CloseTags(tags)
    decreases |tags|
  {
    if tags != [] {
      NestIsFlat(tags[1..], WrapWithTag(tags[0], inner, []));
    }
  }

  lemma NestOne(flag: bool, tag: string, inner: string)
    ensures Nest(if flag then [tag] else [], inner) == WrapIf(flag, tag, inner)
  {
    if flag { assert [tag][1..] == []; }
  }

  /** One conditional wrap adds one outer tag, or none. */
  lemma NestStep(tags: seq<string>, flag: bool, tag: string, inner: string)
    ensures Nest(tags + (if flag then [tag] else []), inner) == WrapIf(flag, tag, Nest(tags, inner))
  {
    NestAppend(tags, if flag then [tag] else [], inner);
    if flag { assert [tag][1..] == []; } else { assert tags + [] == tags; }
  }

  /** The wraps nest in one fixed order: the opening tags of the set flags
      from `sup` down to `code`, the inner text, then the closing tags from
      `code` up to `sup`. */
  lemma WrapFormatTagsNesting(f: TextFormat, e: string)
    ensures WrapFormatTags(f, e) == OpenTags(ActiveTags(f)) + e + CloseTags(ActiveTags(f))
  {
    WrapFormatTagsIsNest(f, e);
    NestIsFlat(ActiveTags(f), e);
  }

  lemma WrapFormatTagsIsNest(f: TextFormat, e: string)
    ensures WrapFormatTags(f, e) == Nest(ActiveTags(f), e)
  {
    var t1: seq<string> := if f.code then ["code"] else [];
    var t2 := t1 + (if f.bold then ["strong"] else []);
    var t3 := t2 + (if f.italic then ["em"] else []);
    var t4 := t3 + (if f.underline then ["u"] else []);
    var t5 := t4 + (if f.strikethrough then ["s"] else []);
    var t6 := t5 + (if f.subscript then ["sub"] else []);
    var t7 := t6 + (if f.superscript then ["sup"] else []);
    assert ActiveTags(f) == t7;
    assert WrapFormatTags(f, e) == Nest(t7, e) by {
      NestOne(f.code, "code", e);
      NestStep(t1, f.bold, "strong", e);
      NestStep(t2, f.italic, "em", e);
      NestStep(t3, f.underline, "u", e);
      NestStep(t4, f.strikethrough, "s", e);
      NestStep(t5, f.subscript, "sub", e);
      NestStep(t6, f.superscript, "sup", e);
    }
  }

  /** For every mask the escaped text sits inside the format tags in their
      fixed order; a truthy style adds one outermost span and nothing else. */
  lemma ApplyTextFormattingNesting(text: string, format: int, style: Value)
    ensures var tags := ActiveTags(ParseTextFormat(format));
      var body := OpenTags(tags) + EscapeHtml(text) + CloseTags(tags);
      ApplyTextFormatting(text, format, style)
        == if Truthy(style) then WrapWithTag("span", body, [("style", style)]) else body
  {
    WrapFormatTagsNesting(ParseTextFormat(format), EscapeHtml(text));
  }

  /** With mask 0 and no style the text is only escaped. */
  lemma PlainText(text: string, style: Value)
    requires !Truthy(style)
    ensures ApplyTextFormatting(text, 0, style) == EscapeHtml(text)
  {
  }

  // ---------------------------------------------------------------------------
  // sanitizeStyle

  /** `sanitizeStyle`: one case-insensitive global removal per pattern, in
      this order. */
  function SanitizeStyle(style: string): string
  {
    var s1 := RemoveIgnoringCase(style, "javascript:");
    var s2 := RemoveIgnoringCase(s1, "expression(");
    var s3 := RemoveIgnoringCase(s2, "url(");
    RemoveIgnoringCase(s3, "@import")
  }

  /** Sanitising only deletes characters. */
  lemma SanitizeStyleIsSubsequence(style: string)
    ensures IsSubsequence(SanitizeStyle(style), style)
  {
    var s1 := RemoveIgnoringCase(style, "javascript:");
    var s2 := RemoveIgnoringCase(s1, "expression(");
    var s3 := RemoveIgnoringCase(s2, "url(");
    RemoveIgnoringCaseIsSubsequence(style, "javascript:");
    RemoveIgnoringCaseIsSubsequence(s1, "expression(");
    RemoveIgnoringCaseIsSubsequence(s2, "url(");
    RemoveIgnoringCaseIsSubsequence(s3, "@import");
    SubsequenceTransitive(s3, s2, s1);
    SubsequenceTransitive(s3, s1, style);
    SubsequenceTransitive(SanitizeStyle(style), s3, style);
  }

  /** A style holding none of the four patterns, in any letter case, is
      returned unchanged. */
  lemma SanitizeStyleClean(style: string)
    requires !ContainsIgnoringCase(style, "javascript:")
    requires !ContainsIgnoringCase(style, "expression(")
    requires !ContainsIgnoringCase(style, "url(")
    requires !ContainsIgnoringCase(style, "@import")
    ensures SanitizeStyle(style) == style
  {
    RemoveIgnoringCaseAbsent(style, "javascript:");
    RemoveIgnoringCaseAbsent(style, "expression(");
    RemoveIgnoringCaseAbsent(style, "url(");
    RemoveIgnoringCaseAbsent(style, "@import");
  }

  /** One pass is not a fixed point: removing the inner `javascript:` of
      `javajavascript:script:` splices a new one together, which survives. */
  lemma SanitizeStyleSplices(style: string)
    requires style == "javajavascript:script:"
    ensures SanitizeStyle(style) == "javascript:"
    ensures ContainsIgnoringCase(SanitizeStyle(style), "javascript:")
  {
    var p := "javascript:";
    assert style == p[..4] + p + p[4..];
    forall i | 0 <= i < 4 ensures !MatchesAt(style, p, i) {
      if i == 0 { assert style[4] != p[4]; } else { assert style[i] != p[0]; }
    }
    RemoveSplices(p, 4, 0);
    var s1 := RemoveIgnoringCase(style, p);
    SchemeLacksParenAndAt(s1);
    LaterPassesKeep(s1);
    assert MatchesAt(s1, p, 0);
  }

  lemma SchemeLacksParenAndAt(r: string)
    requires r == "javascript:"
    ensures '(' !in r && '@' !in r
  {
  }

  /** Inserting a pattern into itself at `k`, when no earlier position
      matches, leaves the pattern itself after one removal pass. */
  lemma {:induction false} RemoveSplices(p: string, k: nat, i: nat)
    requires 0 < k < |p| && i <= k
    requires forall j :: i <= j < k ==> !MatchesAt(p[..k] + p + p[k..], p, j)
    ensures RemoveIgnoringCase((p[..k] + p + p[k..])[i..], p) == p[i..k] + p[k..]
    decreases k - i
  {
    if i == k {
      RemoveSpliceAt(p, k);
    } else {
      RemoveSplices(p, k, i + 1);
      RemoveSpliceBefore(p, k, i);
    }
  }

  /** At the splice itself the whole pattern is removed. */
  lemma RemoveSpliceAt(p: string, k: nat)
    requires 0 < k < |p|
    ensures RemoveIgnoringCase((p[..k] + p + p[k..])[k..], p) == p[k..]
  {
    SpliceTail(p[..k], p, p[k..]);
    DropMatch(p, p[k..]);
    RemoveIgnoringCaseShort(p[k..], p);
  }

  lemma SpliceTail(a: string, b: string, c: string)
    ensures (a + b + c)[|a|..] == b + c
  {
  }

  /** A text that starts with the pattern loses it first. */
  lemma DropMatch(p: string, rest: string)
    requires p != []
    ensures RemoveIgnoringCase(p + rest, p) == RemoveIgnoringCase(rest, p)
  {
    var t := p + rest;
    forall j | 0 <= j < |p| ensures LowerAscii(t[j]) == LowerAscii(p[j]) {
      assert t[j] == p[j];
    }
    assert MatchesAt(t, p, 0);
    assert t[|p|..] == rest;
  }

  /** Before the splice, a position that does not match keeps its character. */
  lemma RemoveSpliceBefore(p: string, k: nat, i: nat)
    requires 0 < k < |p| && i < k
    requires !MatchesAt(p[..k] + p + p[k..], p, i)
    requires RemoveIgnoringCase((p[..k] + p + p[k..])[i + 1..], p) == p[i + 1..k] + p[k..]
    ensures RemoveIgnoringCase((p[..k] + p + p[k..])[i..], p) == p[i..k] + p[k..]
  {
    var s := p[..k] + p + p[k..];
    var t := s[i..];
    assert t[1..] == s[i + 1..];
    assert t[0] == p[i];
    assert p[i..k][1..] == p[i + 1..k];
    NoMatchAfterDrop(s, p, i);
    KeepHead(t, p, p[i..k], p[k..]);
  }

  /** Without a match at the start, the first character is kept before the
      rest's removal. */
  lemma KeepHead(t: string, p: string, a: string, b: string)
    requires p != [] && t != [] && !MatchesAt(t, p, 0)
    requires a != [] && t[0] == a[0] && RemoveIgnoringCase(t[1..], p) == a[1..] + b
    ensures RemoveIgnoringCase(t, p) == a + b
  {
    assert a + b == [a[0]] + (a[1..] + b);
  }

  /** No match at `i` is no match at the start of what follows `i`. */
  lemma NoMatchAfterDrop(s: string, p: string, i: nat)
    requires i <= |s| && !MatchesAt(s, p, i)
    ensures !MatchesAt(s[i..], p, 0)
  {
    if MatchesAt(s[i..], p, 0) {
      forall j | 0 <= j < |p| ensures LowerAscii(s[i + j]) == LowerAscii(p[j]) {
        assert s[i..][j] == s[i + j];
      }
    }
  }

  /** Without a match at the start, the first character is kept. */
  lemma RemoveKeepsHead(s: string, p: string)
    requires p != [] && s != [] && !MatchesAt(s, p, 0)
    ensures RemoveIgnoringCase(s, p) == [s[0]] + RemoveIgnoringCase(s[1..], p)
  {
  }

  /** Text without `(` or `@` survives the other three removals. */
  lemma LaterPassesKeep(r: string)
    requires '(' !in r && '@' !in r
    ensures RemoveIgnoringCase(RemoveIgnoringCase(RemoveIgnoringCase(r, "expression("), "url("), "@import") == r
  {
    NoMatchWithout(r, "expression(", 10);
    RemoveIgnoringCaseAbsent(r, "expression(");
    NoMatchWithout(r, "url(", 3);
    RemoveIgnoringCaseAbsent(r, "url(");
    NoMatchWithout(r, "@import", 0);
    RemoveIgnoringCaseAbsent(r, "@import");
  }

  /** A string shorter than the pattern has nothing to remove. */
  lemma {:induction false} RemoveIgnoringCaseShort(s: string, p: string)
    requires p != [] && |s| < |p|
    ensures RemoveIgnoringCase(s, p) == s
    decreases |s|
  {
    if s != [] {
      RemoveIgnoringCaseShort(s[1..], p);
      assert s == [s[0]] + s[1..];
    }
  }

  /** A pattern holding a non-letter that the string lacks never matches. */
  lemma NoMatchWithout(s: string, p: string, j: nat)
    requires j < |p| && !('a' <= p[j] <= 'z') && !('A' <= p[j] <= 'Z') && p[j] !in s
    ensures !ContainsIgnoringCase(s, p)
  {
    forall i: nat | i <= |s| ensures !MatchesAt(s, p, i) {
      if i + |p| <= |s| {
        assert s[i + j] in s;
        assert LowerAscii(s[i + j]) != LowerAscii(p[j]);
      }
    }
  }

  // ---------------------------------------------------------------------------
  // generateDocumentWrapper

  const DefaultTitle: string := "Lexical Converted Content"

  /** `generateDocumentWrapper`: a fixed HTML5 page around the content whose
      `<title>` is the escaped title. */
  function DocumentWrapper(content: string, title: string): string
  {
    DocumentHead(title) + content + DocumentFoot
  }

  /** The page keeps its content whole: two contents wrapped under the same
      title give the same page only if they are the same. */
  lemma DocumentWrapperInjective(c1: string, c2: string, title: string)
    ensures DocumentWrapper(c1, title) == DocumentWrapper(c2, title) ==> c1 == c2
  {
    FrameInjective(DocumentHead(title), c1, c2, DocumentFoot);
  }

  lemma FrameInjective(head: string, c1: string, c2: string, foot: string)
    ensures head + c1 + foot == head + c2 + foot ==> c1 == c2
  {
    var p1 := head + c1 + foot;
    var p2 := head + c2 + foot;
    if p1 == p2 {
      assert c1 == p1[|head|..|p1| - |foot|];
      assert c2 == p2[|head|..|p2| - |foot|];
    }
  }

  /** The head, with the escaped title and the built-in stylesheet, up to
      the content slot. */
  function DocumentHead(title: string): string
  {
    "<!DOCTYPE html>\n"
    + "<html lang=\"vi\">\n"
    + "<head>\n"
    + "    <meta charset=\"UTF-8\">\n"
    + "    <meta name=\"viewport\" content=\"width=device-width, initial-scale=1.0\">\n"
    + "    <title>" + EscapeHtml(title) + "</title>\n"
    + "    <style>\n"
    + "        body { \n"
    + "            font-family: -apple-system, BlinkMacSystemFont, 'Segoe UI', Roboto, sans-serif; \n"
    + "            line-height: 1.6;\n"
    + "            color: #333;\n"
    + "            margin: 0;\n"
    + "            padding: 0;\n"
    + "        }\n"
    + "        .lexical-content { \n"
    + "            max-width: 800px; \n"
    + "            margin: 0 auto; \n"
    + "            padding: 20px; \n"
    + "        }\n"
    + "        table { \n"
    + "            border-collapse: collapse; \n"
    + "            width: 100%; \n"
    + "            margin: 16px 0;\n"
    + "        }\n"
    + "        th, td { \n"
    + "            border: 1px solid #ddd; \n"
    + "            padding: 8px; \n"
    + "            text-align: left;\n"
    + "        }\n"
    + "        th {\n"
    + "            background-color: #f5f5f5;\n"
    + "            font-weight: bold;\n"
    + "        }\n"
    + "        blockquote {\n"
    + "            margin: 16px 0;\n"
    + "            padding: 12px 16px;\n"
    + "            border-left: 4px solid #ddd;\n"
    + "            background-color: #f9f9f9;\n"
    + "        }\n"
    + "        .poll { \n"
    + "            border: 1px solid #ccc; \n"
    + "            padding: 15px; \n"
    + "            border-radius: 8px; \n"
    + "            margin: 16px 0;\n"
    + "            background-color: #f9f9f9;\n"
    + "        }\n"
    + "        .layout-container { \n"
    + "            display: grid; \n"
    + "            gap: 20px; \n"
    + "            margin: 16px 0;\n"
    + "        }\n"
    + "        details {\n"
    + "            margin: 16px 0;\n"
    + "            border: 1px solid #ddd;\n"
    + "            border-radius: 4px;\n"
    + "        }\n"
    + "        summary {\n"
    + "            padding: 12px;\n"
    + "            background-color: #f5f5f5;\n"
    + "            cursor: pointer;\n"
    + "            font-weight: bold;\n"
    + "        }\n"
    + "        details[open] summary {\n"
    + "            border-bottom: 1px solid #ddd;\n"
    + "        }\n"
    + "        .details-content {\n"
    + "            padding: 12px;\n"
    + "        }\n"
    + "        .page-break {\n"
    + "            page-break-before: always;\n"
    + "            border-top: 2px dashed #ccc;\n"
    + "            margin: 20px 0;\n"
    + "            padding-top: 20px;\n"
    + "        }\n"
    + "        pre {\n"
    + "            background-color: #f5f5f5;\n"
    + "            border: 1px solid #ddd;\n"
    + "            border-radius: 4px;\n"
    + "            padding: 12px;\n"
    + "            overflow-x: auto;\n"
    + "        }\n"
    + "        code {\n"
    + "            background-color: #f5f5f5;\n"
    + "            padding: 2px 4px;\n"
    + "            border-radius: 3px;\n"
    + "            font-family: 'Monaco', 'Consolas', monospace;\n"
    + "        }\n"
    + "        pre code {\n"
    + "            background-color: transparent;\n"
    + "            padding: 0;\n"
    + "        }\n"
    + "        .hashtag {\n"
    + "            color: #1d9bf0;\n"
    + "            text-decoration: none;\n"
    + "        }\n"
    + "        .hashtag:hover {\n"
    + "            text-decoration: underline;\n"
    + "        }\n"
    + "        .equation {\n"
    + "            font-family: 'Times New Roman', serif;\n"
    + "            font-style: italic;\n"
    + "        }\n"
    + "        img {\n"
    + "            max-width: 100%;\n"
    + "            height: auto;\n"
    + "        }\n"
    + "        .image-caption {\n"
    + "            font-size: 0.9em;\n"
    + "            color: #666;\n"
    + "            text-align: center;\n"
    + "            margin-top: 8px;\n"
    + "        }\n"
    + "    </style>\n"
    + "</head>\n"
    + "<body>\n"
    + "    <div class=\"lexical-content\">\n"
    + "        "
  }

  const DocumentFoot: string :=
    "\n"
    + "    </div>\n"
    + "</body>\n"
    + "</html>"
}
