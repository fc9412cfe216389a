# Lexical JSON to HTML, in Dafny

A model of the conversion engine of `lexical-html-converter`. The engine
turns the JSON state of a Lexical editor (a tree of typed nodes) into HTML.
Several copies of the same rules exist in the repository, and each file is
modelled as that file writes it:

- `HtmlUtils` (`html_utils.dfy`) holds the string primitives of
  `src/utils/html-utils.ts`:
  - entity escaping;
  - the seven-bit text-format mask;
  - attribute strings;
  - tag wrapping and the fixed nesting of the inline format tags;
  - CSS sanitising;
  - the standalone document template.
- `ConvertJs`, `ConvertJsRules` and `ConvertJsScene` model
  `LexicalToHtmlConverter` of `src/convert.js`:
  - the dispatcher is a class whose fields are `nodeCount`, `errors` and the
    number of random ids drawn;
  - the per-type rules, with paragraphs split at line breaks and code blocks
    numbered after trailing blank lines are trimmed;
  - the drawing renderer, with its bounding-box loops and its per-shape
    markup.
- `TsConverter`, `HtmlConverterRules` and `HtmlConverterDrawing` model
  `BaseConverter` and `HtmlConverter` of `src/converters`:
  - the converter owns a per-call context with a node counter and an error
    list;
  - an error is caught per node and, at the top, as a fatal error;
  - the subclass's per-type rules are passed to the base as function values.
- `ExcalidrawRenderer` models `src/utils/excalidraw-renderer.js`: padding,
  translation, a capped display size and per-type shapes.
- `BrowserLib` models the simplified recursive converter of
  `src/browser-lib.js`.
- `LibJs` and `IndexTs` model the two library entry points, `src/lib.js` and
  `src/index.ts`:
  - content extraction between markers;
  - renaming of the `.lexical-content` selectors;
  - the shapes of the bundle;
  - `getCSS` and `convertToHTML`.
- `Js`, `Strings` and `Lexical` are shared support, not rows of the table:
  - `Js` holds the JavaScript values the code observes: truthiness,
    `String()`, thrown exceptions, and NaN and the infinities that
    `Math.min`/`Math.max` produce;
  - `Strings` holds the string built-ins the code calls;
  - `Lexical` holds the node tree and the drawing scene.

Thrown exceptions are values of `Js.Result`. Each method that changes a
converter's state is proved against a trace function. The trace takes the
state before the call and gives the markup and the state after it.

## Model

| member | source | states |
|---|---|---|
| HtmlUtils.EscapeChar | src/utils/html-utils.ts:3-10 | a character is rewritten to an entity exactly when it is one of `& < > " '` |
| HtmlUtils.EscapeHtmlAppend | src/utils/html-utils.ts:3-10 | escaping distributes over concatenation |
| HtmlUtils.EscapeHtmlChar | src/utils/html-utils.ts:3-10 | the five passes turn one character into its entity (the `&` of an entity made early is not re-escaped later) |
| HtmlUtils.EscapeHtmlIsPerChar | src/utils/html-utils.ts:3-10 | the five global replacements equal escaping each character independently |
| HtmlUtils.EscapeHtmlNoMarkup | src/utils/html-utils.ts:3-10 | escaped text holds no raw `<`, `>`, `"` or `'` |
| HtmlUtils.EscapeHtmlIdentity | src/utils/html-utils.ts:3-10 | escaping leaves a string unchanged if and only if it holds none of the five characters |
| HtmlUtils.UnescapeStep | src/utils/html-utils.ts:3-10 | decoding the entity of a character gives the character back, whatever follows |
| HtmlUtils.UnescapeEscapeHtml | src/utils/html-utils.ts:3-10 | escaping loses nothing: decoding the five entities restores the text |
| HtmlUtils.FormatMask | src/utils/html-utils.ts:12-22 | the mask of a flag set is below 128 (seven bits) |
| HtmlUtils.ParseFormatMask | src/utils/html-utils.ts:12-22 | every combination of the seven flags is read back from its mask (bold 1 … superscript 64) |
| HtmlUtils.MaskOfParse | src/utils/html-utils.ts:12-22 | only the low seven bits matter, for negative masks too (two's complement `&`) |
| HtmlUtils.MaskDecomposition | src/utils/html-utils.ts:12-22 | every mask is the mask of its flags plus a multiple of 128 |
| HtmlUtils.RenderedPairs | src/utils/html-utils.ts:24-28 | the filter keeps no empty pair, keeps at most one per entry, and keeps none exactly when every value is null, undefined or `''` |
| HtmlUtils.BuildAttributes | src/utils/html-utils.ts:24-31 | the attribute text is empty exactly when no value survives the filter, and otherwise starts with a space |
| HtmlUtils.BuildAttributesIsList | src/utils/html-utils.ts:24-31 | filter, map and join equal each surviving attribute contributing ` key="escaped value"` in insertion order |
| HtmlUtils.BuildAttributesIgnoresAbsent | src/utils/html-utils.ts:24-31 | adding a null, undefined or empty value at either end changes nothing |
| HtmlUtils.NestIsFlat | src/utils/html-utils.ts:50-87 | wrapping by tags innermost first is all opening tags, the content, all closing tags in reverse |
| HtmlUtils.NestStep | src/utils/html-utils.ts:54-84 | each `if (flag) result = wrapWithTag(tag, result)` adds one outer tag or none |
| HtmlUtils.WrapFormatTagsNesting | src/utils/html-utils.ts:54-80 | the seven conditional wraps nest in the fixed order code, strong, em, u, s, sub, sup |
| HtmlUtils.ApplyTextFormattingNesting | src/utils/html-utils.ts:50-87 | for every mask and style the escaped text sits inside the flagged tags in that order, inside a styled span when the style is truthy |
| HtmlUtils.PlainText | src/utils/html-utils.ts:50-87 | mask 0 without a style only escapes the text |
| HtmlUtils.SanitizeStyleIsSubsequence | src/utils/html-utils.ts:89-96 | sanitising only deletes characters |
| HtmlUtils.SanitizeStyleClean | src/utils/html-utils.ts:89-96 | a style holding none of the four patterns, in any letter case, is returned unchanged |
| HtmlUtils.SanitizeStyleSplices | src/utils/html-utils.ts:89-96 | one pass is not a fixed point: `javajavascript:script:` comes out as `javascript:` |
| HtmlUtils.DocumentWrapperInjective | src/utils/html-utils.ts:98-219 | the page keeps its content whole: under one title, different contents give different pages |
| ConvertJsScene.CalculateBounds | src/convert.js:129-155 | the loop computes the fold of the elements over the start values `Infinity, Infinity, -Infinity, -Infinity` |
| ConvertJsScene.BoundsAppend | src/convert.js:132-152 | folding a concatenation is folding one part after the other |
| ConvertJsScene.BoundsSkipsDeleted | src/convert.js:133 | removing a deleted element does not move the box |
| ConvertJsScene.BoundsAllDeleted | src/convert.js:129-155 | a scene of deleted elements keeps the infinities |
| ConvertJsScene.AddPointWidens | src/convert.js:143-150 | folding in a point keeps the box sane, holds the point, and only widens a closed box |
| ConvertJsScene.AddPointsWidens | src/convert.js:142-151 | folding in freedraw points holds every point, offset by the origin |
| ConvertJsScene.AddElementWidens | src/convert.js:132-152 | folding in an element keeps the box sane and only widens it; a live element's origin and far corner are then held |
| ConvertJsScene.WithinHolds | src/convert.js:132-152 | what a box holds, a wider box holds |
| ConvertJsScene.BoundsHoldLive | src/convert.js:129-155 | when live elements have an origin, the box holds every live element, its far corner and its freedraw points |
| ConvertJsScene.AddPointsReach | src/convert.js:141-150 | folding in freedraw points moves each side of the box only onto one of the offset points |
| ConvertJsScene.AddElementReach | src/convert.js:131-150 | folding in an element moves each finite side only onto that live element's origin, far corner or offset freedraw point |
| ConvertJsScene.BoundsReached | src/convert.js:129-155 | the box is the smallest holding the live elements: each finite side is the origin, far corner or offset freedraw point of a live element |
| ConvertJsScene.BoundsSane | src/convert.js:129-155 | each side of the box is finite or still its start value |
| ConvertJsScene.RenderLine | src/convert.js:219-238 | a line or arrow draws nothing exactly when it has fewer than two points |
| ConvertJsScene.Commands | src/convert.js:248-257 | one path command per point, a moveto for the first and a lineto for every other |
| ConvertJsScene.PathDataIsJoin | src/convert.js:247-257 | the path built point by point is the commands joined by single spaces |
| ConvertJsScene.Freedraw | src/convert.js:240-260 | a freedraw draws nothing exactly when it has no points |
| ConvertJsScene.RenderFreedraw | src/convert.js:240-260 | the loop that appends `M`/` L` commands produces the specified path |
| ConvertJsScene.RenderText | src/convert.js:262-268 | a text element throws exactly when its text is truthy and not a string |
| ConvertJsScene.RenderElement | src/convert.js:157-178 | only a text element can throw; unknown types give a comment |
| ConvertJsScene.MarkupSkipsDeleted | src/convert.js:108-111 | a deleted element adds nothing to the drawing |
| ConvertJsScene.Extent | src/convert.js:96-97 | the size is at least the floor and at least the extent plus 40, and is one of the two |
| ConvertJsScene.MarkupThrows | src/convert.js:106-109 | the element markup fails exactly when some live element is a text whose text is truthy and not a string, and then always with the `text.replace is not a function` exception |
| ConvertJsScene.RenderOutcome | src/convert.js:84-127 | data that does not parse shows the error box with the parser's message; a scene without elements shows the empty box; a scene with an unprintable text element shows the error box with the markup's exception |
| ConvertJsScene.RenderShows | src/convert.js:84-127 | data that parses to a non-empty scene without unprintable elements shows its SVG inside the container |
| ConvertJsScene.DrawingFails | src/convert.js:106-125 | a scene with an unprintable element shows the error box with the markup's exception |
| ConvertJsScene.DrawingShows | src/convert.js:88-117 | a non-empty scene without unprintable elements shows its SVG in the container |
| ConvertJsScene.Drawing | src/convert.js:90-126 | a scene without elements gives the empty box; an element that throws gives the error box |
| ConvertJsScene.Svg | src/convert.js:95-113 | the SVG throws exactly when some live element's markup throws, with that message |
| ConvertJsScene.RenderElementStep | src/convert.js:157-178 | the dispatch method, with freedraw through its loop, computes the specified element markup |
| ConvertJsScene.DrawShapes | src/convert.js:108-111 | the element loop produces the live elements' markup in order |
| ConvertJsScene.DrawSvg | src/convert.js:94-113 | the bounds loop and element loop produce the specified SVG |
| ConvertJsScene.RenderExcalidraw | src/convert.js:85-127 | the method produces `renderExcalidrawToSVG`'s output as specified |
| ConvertJsRules.EscapeValue | src/convert.js:4-11 | only a string can be escaped, giving its escaped text; any other truthy value throws `text.replace is not a function` |
| ConvertJsRules.TextRule | src/convert.js:468-475 | a falsy text converts to nothing; a truthy one converts exactly when it is a string |
| ConvertJsRules.Indexed | src/convert.js:750-756 | each poll option is paired with its own index |
| ConvertJsRules.PollRuleOk | src/convert.js:742-762 | a poll converts exactly when its question is falsy or a string and every option is an object whose text is falsy or a string |
| ConvertJsRules.CheckboxAttributes | src/convert.js:508-512 | the checkbox carries `type`, then `checked` exactly when `checked` is truthy, then `disabled` |
| ConvertJsRules.MiddleAttribute | src/convert.js:25-33 | an attribute whose value is absent can be dropped from the middle of a record |
| ConvertJsRules.ListItemCheckbox | src/convert.js:498-517 | the item is `<li>`, with ` value="…"` (escaped) exactly when `value` is truthy, around the item body with nothing added or dropped |
| ConvertJsRules.ItemBody | src/convert.js:505-516 | the body ends with the item's content, and has something (the checkbox) before it exactly when the item has its own `checked` key, false or not |
| ConvertJsRules.TableCellShape | src/convert.js:555-573 | a cell is `th` exactly when `headerState` is the number 1; spans appear only above 1; the background style exactly when it is truthy |
| ConvertJsRules.AboveOneTruthy | src/convert.js:560-566 | a span above 1 is truthy, so `node.colSpan && node.colSpan > 1` is the comparison alone |
| ConvertJsRules.ParagraphAttributeText | src/convert.js:393-413 | a paragraph carries `text-align` exactly for the four alignment names and `dir` exactly for a truthy direction other than `ltr` |
| ConvertJsRules.FlattenSnoc | src/convert.js:372-390 | laying out the groups and one more is laying out the groups, then that one |
| ConvertJsRules.GroupingInvariant | src/convert.js:375-384 | the `forEach` keeps its invariant: the closed groups are non-empty and break-free, and they and the open group are the non-break children so far |
| ConvertJsRules.RunsPartition | src/convert.js:372-390 | the groups partition the non-break children in order, each group non-empty |
| ConvertJsRules.Pieces | src/convert.js:375-384 | the children cut at every line break: at least one piece, and no piece holds a line break |
| ConvertJsRules.PiecesFlatten | src/convert.js:375-384 | the pieces laid end to end are the non-break children in order |
| ConvertJsRules.GroupingIsSplit | src/convert.js:372-384 | after any prefix of the children, the closed groups are the non-empty pieces before the last line break and the open group is the piece after it |
| ConvertJsRules.SplitRuns | src/convert.js:372-390 | with no null child, the groups are exactly the children split at every line break with empty pieces dropped, so `[a, br, b]` gives two paragraphs |
| ConvertJsRules.GroupingThrows | src/convert.js:375-384 | grouping throws exactly when some child is `null`, with the exception of reading `type` of `null` |
| ConvertJsRules.RunsMembers | src/convert.js:372-390 | every child a group holds is one of the paragraph's children |
| ConvertJsRules.CodeSplit | src/convert.js:639-644 | a block always has at least one line |
| ConvertJsRules.CodeSplitFallback | src/convert.js:639-644 | the content is split at newlines only when it has no `<br/>` and has a newline |
| ConvertJsRules.DropBlankTail | src/convert.js:647-649 | the loop keeps a prefix of at least one line, drops only blank lines, and stops at a non-blank last line |
| ConvertJsRules.CodeHeader | src/convert.js:699-700 | the header exists exactly when the language is a string (`toUpperCase` throws otherwise) |
| ConvertJsRules.CodeBlockFails | src/convert.js:635-708 | a block keeps at least one line and fails exactly when its language is truthy and not a string |
| ConvertJs.NodeTrace | src/convert.js:285-354 | converting a node counts it, only grows the draws and appends errors, and never throws |
| ConvertJs.ObjTrace | src/convert.js:290-353 | so does the `switch` with its `catch` on an object with a truthy type |
| ConvertJs.RuleTrace | src/convert.js:293-348 | every branch of the `switch` keeps the count, draws and errors growing |
| ConvertJs.CodeTrace | src/convert.js:635-708 | a code block keeps the state growing |
| ConvertJs.ChildrenTrace | src/convert.js:356-364 | converting the children keeps the state growing |
| ConvertJs.ChildrenUpTo | src/convert.js:361-363 | so does converting any prefix of the children |
| ConvertJs.ParagraphTrace | src/convert.js:366-460 | a paragraph keeps the state growing |
| ConvertJs.GroupsTrace | src/convert.js:416-459 | so does any prefix of its groups |
| ConvertJs.GroupTrace | src/convert.js:437-456 | so does any prefix of one group, whichever style a child inherits |
| ConvertJs.ImageTrace | src/convert.js:575-604 | an image keeps the state growing |
| ConvertJs.Untyped | src/convert.js:286-290 | a `null` node or one without a truthy `type` is counted and converts to nothing |
| ConvertJs.UnknownType | src/convert.js:346-348 | an unknown type adds exactly one error and converts its children |
| ConvertJs.RuleThrows | src/convert.js:350-353 | a rule that throws leaves the error comment and adds exactly one error after those it recorded |
| ConvertJs.NodeVisits | src/convert.js:285-364 | `nodeCount` grows by exactly the number of `convertNode` calls, counted by `Visits` from the tree alone: the node, then per kind the children its rule converts, whatever the rules produce or throw |
| ConvertJs.ParagraphVisits | src/convert.js:366-460 | a paragraph converts each of its children except the line breaks, each once, styled copies included, and none of them when a child is `null` |
| ConvertJs.DocumentVisits | src/convert.js:277-286 | after `convert`, `nodeCount` is the number of nodes visited from the root |
| ConvertJs.SplitCode | src/convert.js:639-649 | the splitting and popping steps give the specified lines |
| ConvertJs.BuildCode | src/convert.js:652-707 | the rest of the block gives the specified markup |
| ConvertJs.LexicalToHtmlConverter.constructor | src/convert.js:272-275 | the count and errors start empty, no id has been drawn, and the page's script is the code-block script of src/convert.js:804-915 |
| ConvertJs.LexicalToHtmlConverter.Convert | src/convert.js:277-283 | a document without `editorState` throws; otherwise the root's markup is put in the page and the state is the trace's |
| ConvertJs.LexicalToHtmlConverter.ConvertNode | src/convert.js:285-354 | the method's markup and new state are the node's trace |
| ConvertJs.LexicalToHtmlConverter.ConvertObject | src/convert.js:290-353 | the same for an object with a truthy type |
| ConvertJs.LexicalToHtmlConverter.ConvertRule | src/convert.js:293-348 | the same for one branch of the `switch` |
| ConvertJs.LexicalToHtmlConverter.ConvertChildren | src/convert.js:356-364 | the loop over the children produces their trace |
| ConvertJs.LexicalToHtmlConverter.ConvertParagraph | src/convert.js:366-460 | the grouping loop and the group conversions produce the paragraph's trace |
| ConvertJs.LexicalToHtmlConverter.ConvertGroups | src/convert.js:416-459 | the loop over the groups produces their trace |
| ConvertJs.LexicalToHtmlConverter.ConvertGroup | src/convert.js:437-456 | the loop over one group produces its trace |
| ConvertJs.LexicalToHtmlConverter.ConvertImage | src/convert.js:575-604 | the method produces the image's trace |
| ConvertJs.LexicalToHtmlConverter.ConvertCode | src/convert.js:635-708 | the method produces the code block's trace |
| ConvertJs.LexicalToHtmlConverter.FinishCode | src/convert.js:638-707 | the block is the specified one for the next random id, and exactly one id is drawn |
| TsConverter.MessagesAreNodeErrors | src/converters/base-converter.ts:116-122 | both messages the dispatcher records, `Unknown node type: …` and `Error converting …: …`, are node errors |
| TsConverter.GrowsTrans | src/converters/base-converter.ts:59-124 | the count only grows and errors are only appended, across any sequence of conversions |
| TsConverter.NodeTrace | src/converters/base-converter.ts:59-124 | converting a node counts it, only appends node errors, and succeeds exactly when the node is an object (reading `type` of `null` escapes the `catch`) |
| TsConverter.RuleTrace | src/converters/base-converter.ts:63-119 | every branch of the `switch` keeps the count and error list growing |
| TsConverter.ChildrenTrace | src/converters/base-converter.ts:126-134 | converting the children keeps the count and error list growing |
| TsConverter.ChildrenUpTo | src/converters/base-converter.ts:131-133 | so does converting any prefix of the children |
| TsConverter.ImageTrace | src/converters/html-converter.ts:192-221 | an image never throws and keeps the state growing |
| TsConverter.CodeTrace | src/converters/html-converter.ts:252-275 | a code block keeps the state growing |
| TsConverter.CodeChildrenTrace | src/converters/html-converter.ts:280-296 | the code children keep the state growing |
| TsConverter.CodeChildTrace | src/converters/html-converter.ts:286-294 | one code child keeps the state growing |
| TsConverter.CodeChildrenUpTo | src/converters/html-converter.ts:285-295 | any prefix of the code children keeps the state growing |
| TsConverter.ChildrenKeepThrow | src/converters/base-converter.ts:131-133 | once a child throws, no later child is converted |
| TsConverter.ChildrenOk | src/converters/base-converter.ts:131-133 | the children convert without an exception exactly when none of them is `null` |
| TsConverter.ChildrenNext | src/converters/base-converter.ts:131-133 | one more child either ends the list with its exception or is appended |
| TsConverter.MissingChildContained | src/converters/base-converter.ts:120-123 | a `null` child makes its parent's rule throw, so the parent becomes an error comment and the last error names it |
| TsConverter.ChildrenThrowNull | src/converters/base-converter.ts:131-133 | a child list can only throw the exception of reading `type` of `null` |
| TsConverter.CodeChildrenUncounted | src/converters/html-converter.ts:286-290 | line breaks and highlights in a code block are not counted and record no error |
| TsConverter.Untyped | src/converters/base-converter.ts:116-118 | an untyped object records `Unknown node type: undefined` and converts its children |
| TsConverter.MergeOptions | src/converters/base-converter.ts:8-19 | every given option wins, every other default is kept, and no other key appears |
| TsConverter.DocumentTrace | src/converters/base-converter.ts:22-30 | the root throws exactly when the document has no object root; the state grows from a reset count and error list |
| TsConverter.ConversionErrors | src/converters/base-converter.ts:22-57 | a fatal conversion gives empty html and one `Fatal error: ` message; otherwise every error is a node error; the count is 0 without `editorState` and at least 1 with it |
| TsConverter.Unwrapped | src/converters/base-converter.ts:31-33 | with `wrapInDocument` falsy the html is the root's own markup |
| TsConverter.HtmlConverter.constructor | src/converters/base-converter.ts:8-20 | the options are merged over the defaults; the count, errors and draws start at zero |
| TsConverter.HtmlConverter.Convert | src/converters/base-converter.ts:22-57 | the method returns the specified conversion and leaves the specified state |
| TsConverter.HtmlConverter.ConvertNode | src/converters/base-converter.ts:59-124 | the method's result and new state are the node's trace |
| TsConverter.HtmlConverter.ConvertRule | src/converters/base-converter.ts:63-119 | the method's result and new state are the `switch` branch's trace |
| TsConverter.HtmlConverter.ConvertExcalidraw | src/converters/html-converter.ts:372-374 | one random id is drawn and nothing else changes |
| TsConverter.HtmlConverter.ConvertChildren | src/converters/base-converter.ts:126-134 | the loop over the children produces the children's trace |
| TsConverter.HtmlConverter.ConvertImage | src/converters/html-converter.ts:192-221 | the method produces the image's trace |
| TsConverter.HtmlConverter.ConvertCode | src/converters/html-converter.ts:252-275 | the method produces the code block's trace |
| TsConverter.HtmlConverter.ConvertCodeChildren | src/converters/html-converter.ts:280-296 | the loop over the code children produces their trace |
| TsConverter.CodeChildrenNext | src/converters/html-converter.ts:285-295 | one more code child either ends the list with its exception or is appended |
| TsConverter.CodeChildrenKeepThrow | src/converters/html-converter.ts:285-295 | once a code child throws, no later one is converted |
| TsConverter.NodeVisits | src/converters/base-converter.ts:59-134 | the count grows by exactly the number of `convertNode` calls, counted by `Visits` from the tree and the rules: a `null` node is counted before reading its `type` throws, and a child list stops after its first `null` child |
| TsConverter.CodeUpToVisits | src/converters/html-converter.ts:280-295 | the code children convert without an exception exactly when none is `null` or a highlight whose rule throws, and only the children that are neither line breaks nor highlights are counted |
| TsConverter.DocumentVisits | src/converters/base-converter.ts:22-30 | the final count is 0 without `editorState`, and otherwise the visits of the root, an absent root counting once |
| HtmlConverterRules.SanitizeValue | src/converters/html-converter.ts:63 | only a string can be sanitised, and its result keeps a subsequence of it; any other truthy value throws `style.replace is not a function` |
| HtmlConverterRules.DirAttributeText | src/converters/html-converter.ts:40-42 | the `dir` attribute is written exactly for a truthy direction other than `ltr` |
| HtmlConverterRules.SanitizedStyle | src/converters/html-converter.ts:63 | a falsy style gives undefined, a string style its sanitised text, any other truthy style an exception |
| HtmlConverterRules.TextRule | src/converters/html-converter.ts:59-66 | a falsy text converts to nothing; a truthy one converts exactly when it is a string and its style is falsy or a string |
| HtmlConverterRules.TextAgreesWithJs | src/converters/html-converter.ts:59-66 | a text whose style is absent or already clean converts as in src/convert.js |
| HtmlConverterRules.TextStyleSanitized | src/converters/html-converter.ts:59-66 | a text is formatted with the sanitised style, which only deletes characters of the given one |
| HtmlConverterRules.ColGroupAppend | src/converters/html-converter.ts:150-155 | one `<col>` per width, in order |
| HtmlConverterRules.TableCellRule | src/converters/html-converter.ts:172-190 | a cell converts exactly when its background colour is falsy or a string |
| HtmlConverterRules.TableCellAgreesWithJs | src/converters/html-converter.ts:172-190 | a cell without background, or with a clean one, is the cell of src/convert.js |
| HtmlConverterRules.CodeLines | src/converters/html-converter.ts:258 | the content splits into at least one line, and joining the lines with newlines gives it back |
| HtmlConverterRules.CodeLineCount | src/converters/html-converter.ts:258 | there is one line more than there are newlines |
| HtmlConverterRules.NumberedLines | src/converters/html-converter.ts:259-264 | one numbered line per line, line `i` numbered `i + 1` |
| HtmlConverterRules.LineLabel | src/converters/html-converter.ts:261 | below line 1000 the label is three columns wide with the number right-aligned |
| HtmlConverterRules.Wrap | src/converters/html-converter.ts:12-370 | every rule that wraps converted children succeeds, except a table cell with a background that is not a string |
| HtmlConverterDrawing.CalcBounds | src/converters/html-converter.ts:394-402 | the bounds loop computes the box of all elements that have an origin, from `Infinity, Infinity, -Infinity, -Infinity` |
| HtmlConverterDrawing.BoundsClosed | src/converters/html-converter.ts:394-402 | the box is finite exactly when some element has an origin, and stays at the infinities otherwise |
| HtmlConverterDrawing.BoundsFrame | src/converters/html-converter.ts:394-402 | the box holds the origin and far corner of every element with an origin |
| HtmlConverterDrawing.BoundsTight | src/converters/html-converter.ts:394-402 | each side of a finite box is reached by some element |
| HtmlConverterDrawing.FrameOf | src/converters/html-converter.ts:386-431 | the viewBox starts 20 before the box; the display size is the node's width and height when both are truthy, and otherwise equals the viewBox size |
| HtmlConverterDrawing.FrameHolds | src/converters/html-converter.ts:386-431 | the viewBox holds every element with an origin with a margin of 20, and without node dimensions the picture is at least 400 by 300 |
| HtmlConverterDrawing.FrameSize | src/converters/html-converter.ts:388-428 | the viewBox size is the extent of the elements plus 40 each way with node dimensions, and that raised to at least 400 by 300 without; with no element with an origin it is `-Infinity` with node dimensions and exactly 400 by 300 without |
| HtmlConverterDrawing.Text | src/converters/html-converter.ts:476-481 | a text element throws exactly when its text is truthy and not a string (`escapeHtml` calls `replace`) |
| HtmlConverterDrawing.Shape | src/converters/html-converter.ts:436-482 | an element throws only as such a text; it draws nothing exactly when it is a freedraw without points or of a type the switch does not name |
| HtmlConverterDrawing.DrawElements | src/converters/html-converter.ts:434-483 | the element loop appends each shape in order, and stops at the first text that throws |
| HtmlConverterDrawing.DeletedStillDrawn | src/converters/html-converter.ts:394-483 | `isDeleted` is never read: marking elements deleted changes neither the box nor the shapes |
| HtmlConverterDrawing.PlaceholderCentred | src/converters/html-converter.ts:505-537 | with an even height the two placeholder lines sit 10 above and 20 below the centre |
| HtmlConverterDrawing.OutcomeOf | src/converters/html-converter.ts:373-538 | no data gives no SVG; a parsed empty scene the empty canvas; a parse error or a throwing element the invalid-data picture; otherwise the drawing of all shapes in the computed frame |
| HtmlConverterDrawing.RenderDrawing | src/converters/html-converter.ts:372-544 | the method with its two loops produces the drawing's `div` as specified |
| ExcalidrawRenderer.FramesAppend | src/utils/excalidraw-renderer.js:14-22 | folding a concatenation is folding one part after the other |
| ExcalidrawRenderer.BoundsSkipsDeleted | src/utils/excalidraw-renderer.js:15 | removing a deleted element does not move the box |
| ExcalidrawRenderer.BoundsIgnorePoints | src/utils/excalidraw-renderer.js:14-22 | unlike src/convert.js, freedraw points never widen the box |
| ExcalidrawRenderer.BoundsAgree | src/utils/excalidraw-renderer.js:12-22 | without freedraw elements the box is the one src/convert.js computes |
| ExcalidrawRenderer.BoundsAllDeleted | src/utils/excalidraw-renderer.js:12-32 | a scene of deleted elements keeps the infinities, and its svg size is `-Infinity` |
| ExcalidrawRenderer.LiveFrameWidens | src/utils/excalidraw-renderer.js:14-22 | folding in an element keeps the box sane and only widens it; a live element's origin and far corner are then held |
| ExcalidrawRenderer.BoundsHoldFrames | src/utils/excalidraw-renderer.js:12-22 | when live elements have an origin, the box holds every live element and its far corner |
| ExcalidrawRenderer.BoundsReached | src/utils/excalidraw-renderer.js:12-22 | the box is the smallest holding the live frames: each finite minimum is a live element's origin and each finite maximum its far corner |
| ExcalidrawRenderer.BoundsSane | src/utils/excalidraw-renderer.js:12-22 | each side of the box is finite or still its start value |
| ExcalidrawRenderer.Pad | src/utils/excalidraw-renderer.js:25-29 | a finite box grows by 10 on each side |
| ExcalidrawRenderer.TranslatedInside | src/utils/excalidraw-renderer.js:25-57 | translated by the padded corner, every live element lies inside the svg with 10 to spare on each side; the svg is the box plus 20 each way |
| ExcalidrawRenderer.FreedrawPath | src/utils/excalidraw-renderer.js:74-91 | a freedraw element with a points list draws a path |
| ExcalidrawRenderer.Line | src/utils/excalidraw-renderer.js:111-124 | a line with two points draws a line |
| ExcalidrawRenderer.ShapeAt | src/utils/excalidraw-renderer.js:59-125 | only rectangles, freedraws, ellipses and lines draw anything (no text, arrow or diamond) |
| ExcalidrawRenderer.FreedrawNeedsPoint | src/utils/excalidraw-renderer.js:74-91 | a freedraw draws nothing exactly when it has no points |
| ExcalidrawRenderer.LineNeedsTwoPoints | src/utils/excalidraw-renderer.js:111-124 | a line draws nothing exactly when it has fewer than two points, and only its first two points matter |
| ExcalidrawRenderer.ShapesAppend | src/utils/excalidraw-renderer.js:51-126 | the shapes of a concatenation are the shapes of each part, in order |
| ExcalidrawRenderer.ShapesSkipDeleted | src/utils/excalidraw-renderer.js:54 | a deleted element adds nothing |
| ExcalidrawRenderer.ShapesOfUnknownKinds | src/utils/excalidraw-renderer.js:59-125 | elements of types the switch does not name draw nothing |
| ExcalidrawRenderer.DeletedSceneLayout | src/utils/excalidraw-renderer.js:12-49 | a scene of only deleted elements is laid out with `-Infinity` sizes and no shapes |
| ExcalidrawRenderer.MeasureBounds | src/utils/excalidraw-renderer.js:12-22 | the bounds loop computes the specified box |
| ExcalidrawRenderer.DrawShapes | src/utils/excalidraw-renderer.js:51-126 | the element loop appends the specified shapes |
| ExcalidrawRenderer.Draw | src/utils/excalidraw-renderer.js:11-139 | both loops and the container give the specified picture |
| ExcalidrawRenderer.RenderExcalidrawToSvg | src/utils/excalidraw-renderer.js:2-145 | the method produces `renderExcalidrawToSVG`'s output as specified |
| BrowserLib.HexDigitValue | src/browser-lib.js:305 | a hexadecimal digit has a value below 16 (`parseInt` reads a `0x` prefix) |
| BrowserLib.DigitRun | src/browser-lib.js:305 | the digits `parseInt` reads are the longest run of digits at the start of the text |
| BrowserLib.ParseInt | src/browser-lib.js:305 | `parseInt` gives an integer or NaN, never an infinity |
| BrowserLib.ParseSigned | src/browser-lib.js:305 | the same after leading whitespace |
| BrowserLib.ParseUnsigned | src/browser-lib.js:305 | the same after the sign |
| BrowserLib.DigitRunOfDigits | src/browser-lib.js:305 | a text of digits is read whole |
| BrowserLib.ParseIntDecimal | src/browser-lib.js:305 | a text starting with a decimal digit (and no `0x`) reads as the value of its leading digits |
| BrowserLib.ParseIntNatText | src/browser-lib.js:305 | `parseInt` reads back every decimal numeral |
| BrowserLib.RemoveFirstH | src/browser-lib.js:305 | `replace('h', '')` removes exactly one character when there is an `h`, and nothing otherwise |
| BrowserLib.HeadingLevelRange | src/browser-lib.js:305 | a falsy tag gives level 1; a truthy non-string tag throws; otherwise the level is between 1 and 6, or NaN when no digits follow the `h` |
| BrowserLib.HeadingLevelOfTag | src/browser-lib.js:305 | the tags `h1` to `h6` give their own level |
| BrowserLib.Alignment | src/browser-lib.js:293-299 | a paragraph is aligned exactly when its format is truthy and prints as 1, 2, 3 or 4 |
| BrowserLib.WrapsNesting | src/browser-lib.js:316-321 | the four conditional wraps open their tags in reverse of the order applied and close them in that order |
| BrowserLib.TextNesting | src/browser-lib.js:311-329 | the unescaped text sits inside strong, em, s, u as the format asks, inside a span exactly when the style is truthy |
| BrowserLib.SwappedBits | src/browser-lib.js:316-321 | bit 4 is written as `<u>` and bit 8 as `<s>`, the other way round from the format flags of src/utils/html-utils.ts, and the text is not escaped |
| BrowserLib.ListTag | src/browser-lib.js:352 | a list is `ol` exactly when its type is `number`, and `ul` otherwise |
| BrowserLib.ListClass | src/browser-lib.js:353 | a list has the checklist class exactly when its type is `check` |
| BrowserLib.ListItemHtml | src/browser-lib.js:357-367 | an item has a checkbox exactly when `checked` is defined, marked checked exactly when it is truthy |
| BrowserLib.ConvertNode | src/browser-lib.js:277-391 | a missing node converts to nothing |
| BrowserLib.MapChildrenIsConcatMap | src/browser-lib.js:285 | converting the children in order and joining is the concatenation of their conversions, stopping at the first exception |
| BrowserLib.UnknownIsChildren | src/browser-lib.js:382-387 | an unknown type converts to its children's markup when they form an array, and to nothing otherwise |
| BrowserLib.ContainersNeedArrays | src/browser-lib.js:289-380 | a known container whose `children` is present but not an array throws `node.children.map is not a function` |
| BrowserLib.ConvertLexicalToHtml | src/browser-lib.js:265-272 | a document without `editorState` or root gives the no-content paragraph |
| BrowserLib.Convert | src/browser-lib.js:243-260 | the conversion succeeds exactly when the markup does, keeps the markup and the stylesheet, and otherwise fails with `Conversion failed: ` before the message |
| BrowserLib.ConvertCombines | src/browser-lib.js:252-256 | the bundle is the stylesheet, then the markup inside the `lexical-content` box |
| BrowserLib.EmptyDocument | src/browser-lib.js:243-268 | an empty document gives the no-content paragraph inside the box |
| LibJs.Extract | src/lib.js:157-172 | a page without the start marker gives no content |
| LibJs.ExtractRoundTrip | src/lib.js:157-172 | content put in the `lexical-content` box of a page without `<script>` is extracted back, trimmed |
| LibJs.ExtractPage | src/lib.js:157-172 | the page of src/convert.js:790-917 gives back its content, trimmed, whenever the content opens no `<script>`: the `</div>` found last before the first script is the page's own, whatever `div`s the content holds |
| LibJs.ExtractFramed | src/lib.js:157-172 | the same for any head that opens neither the box nor a script, any whitespace padding, and any text after the opening `<script>` |
| LibJs.BundleHtml | src/lib.js:155-172 | the html of `convert` for a page of the converter is the converter's content, trimmed |
| LibJs.DocumentHtml | src/lib.js:155-172 | for a document with `editorState`, `convert` succeeds and its html is the document's converted markup, trimmed, unless that markup opens a script |
| LibJs.NotContainedIndex | src/lib.js:161 | a marker the page does not contain is not found |
| LibJs.IndexOfPrefix | src/lib.js:161 | a marker found in a prefix is found at the same place in the whole page |
| LibJs.LastOccurrence | src/lib.js:167 | the end marker found last, searching from the end, is the one that closes the page |
| LibJs.DefaultPrefixKeeps | src/lib.js:177-180 | skipping the renaming for the default prefix changes nothing: renaming to it would give the same stylesheet |
| LibJs.RestyleWithoutSelector | src/lib.js:177-180 | a stylesheet without `.lexical-content` selectors is kept for any prefix |
| LibJs.Option | src/lib.js:148-152 | a missing option takes its default |
| LibJs.Bundle | src/lib.js:147-279 | an exception of the converter passes through unchanged, and only then does `convert` throw |
| LibJs.BundleShape | src/lib.js:269-278 | the bundle is the stylesheet unless `includeCSS` is falsy, then the content in a box named by the prefix, then the script; its html is the extracted content |
| LibJs.GetCssAsConvert | src/lib.js:300-314 | `getCSS` renames and minifies as `convert` does for the same prefix and minify flag |
| LibJs.HtmlIgnoresOptions | src/lib.js:319-322 | `convertToHTML` gives the same content as `convert` with any options |
| LibJs.LexicalConverter.constructor | src/lib.js:9-12 | a fresh converter with nothing drawn, and the stylesheet given |
| LibJs.LexicalConverter.Convert | src/lib.js:147-279 | the result is the bundle of the converter's page; the converter's state is its reset state without `editorState` and the document's trace otherwise; and the html is the converted markup, trimmed, unless that markup opens a script |
| LibJs.LexicalConverter.ConvertToHtml | src/lib.js:319-322 | the result is the html of `convert` with `includeCSS` false, or its exception; the converter's state is as for `convert`; and the result is the converted markup, trimmed, unless that markup opens a script |
| IndexTs.Bundle | src/index.ts:116-150 | the result keeps the converter's markup as it is, and its stylesheet is renamed for `cssPrefix` and minified when `minifyCSS` is truthy, with the defaults when an option is missing |
| IndexTs.AgreesWithLib | src/index.ts:116-150 | the TypeScript entry point and src/lib.js agree on the stylesheet and the html; the bundle of src/lib.js is this one followed by its script |
| IndexTs.WithoutCss | src/index.ts:141-143 | with `includeCSS` falsy the bundle is the content box alone, named by the prefix |
| IndexTs.LexicalConverter.constructor | src/index.ts:20-27 | the library owns a converter with the default options and the HTML rules, and the stylesheet it was given |
| IndexTs.LexicalConverter.Convert | src/index.ts:116-150 | `convert` bundles what the converter produces for the document, given the drawings numbered before the call, and leaves the converter in the document's trace state |
| IndexTs.LexicalConverter.ConvertToHtml | src/index.ts:190-193 | `convertToHTML` is the converter's markup, unchanged, and leaves the converter in the document's trace state |

## Left out

- Floating point: coordinates, sizes and numeric node properties are integers. The halves, the hundredths of `opacity` and the tenths of a corner radius are printed as exact decimals. For a tenth, JavaScript's binary product can print otherwise, for example `0.30000000000000004`.
- Aspect-ratio scaling in src/utils/excalidraw-renderer.js:42-49 is the caller-supplied function `fit`, because it is floating-point division and multiplication.
- `Math.round` in src/converters/html-converter.ts:390 is the identity, because the sizes of this model are integers.
- `Math.random` ids are a stream `ids: nat -> string` given to the constructor, plus a counter of ids drawn.
- `performance.now` and `processingTime` in src/converters/base-converter.ts are left out, because they are clock readings.
- Console logging is left out: it has no effect on the result.
- `loadCSS`, `getDefaultCSS` and the file reads of src/lib.js and src/index.ts are left out. The stylesheet is a constructor parameter.
- `minifyCSS` (src/lib.js:284-295, src/index.ts:155-166) is the function parameter `minifier`. Its regular-expression chain is not modelled.
- `main` and the command-line and file handling of src/convert.js are left out, because they are I/O.
- src/utils/code-utils.js is not part of this model: it is browser DOM work, the clipboard and timers.
- `JSON.parse` of drawing data: the model starts from the parse outcome, either a scene or the exception message. A JSON text that parses to a number, an array or `null` is not distinguished from a scene.
- A freedraw point is a pair of integers. A point array of another length is not modelled.
- Options are a map from names to JSON scalars. A `null` options argument, which makes the destructuring throw, is not modelled.
- LibJs.LexicalConverter.Convert: the html is stated only for converted markup that opens no `<script>`. Such markup would make src/lib.js:165-167 cut the content at its own script; the model does not prove that the converter's escaping rules out the tag.
- LibJs.Restyle: the prefix is inserted literally. JavaScript's `replace` would expand `$&`, `$1` and `$$` in a prefix that contains them.
- Strings.ToUpper: only the ASCII letters are upper-cased. JavaScript's `toUpperCase` maps all of Unicode.
- BrowserLib.Alignment: a format whose text names a property of `Object.prototype`, such as `toString`, would read a function in the source. The model reads nothing for it.
- Strings are sequences of UTF-16 code units, as in JavaScript. No encoding or normalisation is modelled.
- ConvertJsRules.ParagraphAttributeText: a `format` that names a property of `Object.prototype`, such as `constructor`, reads a function through `alignmentMap[node.format]` (src/convert.js:398-405), and the source then writes that function's text as the `text-align`. The model writes no style for it, because it has no prototype chain or function values.
- Lexical.ToNumber: hexadecimal (`0x1A`), exponent (`1e3`), fractional and `Infinity` strings are NaN in the model, whereas JavaScript's `Number` reads them as numbers. Decimal digits with an optional sign are read as in JavaScript.
- Lexical.Document: a missing document is not modelled. Passing `null` or `undefined` makes src/convert.js:281, src/lib.js:151 and src/converters/base-converter.ts:29 throw while reading `editorState`, and base-converter reports that as `Fatal error: …`. The model always starts from a document object.
- HtmlConverter.TableRule: `colWidths` is always an array, possibly empty. A non-array value is not modelled: a string would make `.map` throw at src/converters/html-converter.ts:150-152.
