# BEAN — a Dafny model of its three Markdown renderers

BEAN turns Markdown lines into text for a terminal, using ANSI escape
sequences. The repository holds three generations of the same function,
`RenderMarkdown(lines)`. This project models all three as pure functions
over `seq<string>` and proves what each one writes.

- **RootBean** (`bean.go`): the first renderer. It handles level 1 and
  level 2 headers and unordered list items. Every other line is echoed.
  Its only state is `lastLineType`, which records whether the last line
  was a list item.
- **SrcBean** (`src/bean.go`): the second renderer. It first collects the
  list of elements whose pattern matches the original line: h1, h2, bold,
  italic, strikethrough and list. It then applies them in that order to
  the line as rewritten so far. A line without a header or a valid list
  item is written through `renderParagraph`. Ordered items are numbered
  by a counter with a history of enclosing counters. When an element's
  pattern no longer matches the rewritten line, Go indexes a nil slice
  and panics. The model records this as the `Panicked` outcome. Two
  variants sit beside it. One skips an element whose pattern no longer
  matches. The corrected one reads a list item from the original line and
  applies the span rewrites to the item it writes (see Findings).
- **Render** (`render/bean.go`): the current renderer. Every line first
  goes through an inline pass:
  - in-line code is shielded behind the placeholder `\x1f`;
  - bold, italic and strikethrough are applied repeatedly;
  - the code spans are restored.

  The line is then classified as a header of level 1-6, a horizontal
  rule, a list item or paragraph text. Paragraph text is collected in
  `pBuffer` and merged into `oBuffer` through `wrap.WrapString` when a
  block element or a blank line arrives. The newline before a block is
  chosen from `prevElements`, the last two distinct elements. A list
  item indented two levels deeper than the list leaves the loop.

Shared modules:

- **Text**: string helpers with the semantics of Go's `strings` package, as used here.
- **Ansi**: the escape sequences, bullet and rule character.
- **Spans**: the `^(.*)X(.+?)X(.*)` span patterns, with the leftmost-first semantics of Go's regexp package: the greedy `(.*)` takes the rightmost opener, the lazy group the nearest closer.
- **Inline**: the inline pass.
- **Blocks**: the header, rule and list patterns.
- **Lists**: the ordered counter and its history.
- **Spacing**: `prevElements` and the leads chosen from it.
- **Versions**: compares the three renderers line by line.
- **Scenarios**: whole test documents.

Regular expressions are not run: each pattern is replaced by a scanner.
Each scanner's contract states, in both directions, which strings the
pattern accepts and which groups it captures.

## Model

| member | source | states |
|---|---|---|
| Text.IndexOf | render/bean.go:285 | the index is the first occurrence of the character, or the length when it is absent |
| Text.SpaceRun | render/bean.go:179 | the length of the maximal leading run of `\s` characters (tab, newline, form feed, carriage return, space) |
| Text.TrimRight | render/bean.go:147-149 | the result is a prefix that ends outside the cutset, and everything cut off lies in the cutset |
| Text.TrimRightCutsetIsOneSpace | render/bean.go:147 | `TrimRight(s, "  ")` changes s exactly when s ends in one space: the cutset is a set of characters, so one trailing space is enough for a hard break |
| Text.ReplaceFirst | render/bean.go:285 | without the character the string is unchanged; otherwise only its first occurrence is replaced |
| Text.Decimal | render/bean.go:340 | `strconv.Itoa` of a natural number: non-empty, all digits, no leading zero unless the number is 0 |
| Text.DecimalRoundTrip | render/bean.go:340 | reading the decimal digits back gives the number |
| Spans.FindSpan | render/bean.go:183-189 | the span RE2 picks: an opener at or before the first line end that has a closer, the rightmost such opener (greedy group 1) and its nearest closer (lazy group 2); None exactly when no opener on the first line has a closer |
| Spans.NoMarkerNoSpan | render/bean.go:183-189 | a line without the pattern's marker characters has no span |
| Spans.EscapesHoldNoMarkers | render/bean.go:241-277 | the escape sequences written around a span contain no marker and no newline, so rewriting cannot create a new span |
| Spans.Rewrite | render/bean.go:255-277 | the text before the span is kept and the result ends with the text after the span up to the first newline (on a one-line text, the whole rest of the line), so group 3 is cut at the first newline; for each pattern, the line loses at least 2×width markers, exactly that many when the pattern has no flanking characters and the line is one line |
| Inline.Shield | render/bean.go:234-241 | shielding one code span removes at least its two backticks |
| Inline.ShieldCode | render/bean.go:233-247 | the loop ends with no code span left; the saved blocks extend the old ones; each saved block cost the line two backticks |
| Inline.Emphasize | render/bean.go:248-281 | after the loop the pattern no longer matches, or (bold and italic only) the line consists of one repeated character; markers never increase; a one-line text keeps its line and its placeholders |
| Inline.RewriteKeeps | render/bean.go:255-277 | a rewrite of a one-line text keeps the count of every character that is neither a marker nor part of an escape sequence |
| Inline.RestoreFillsInOrder | render/bean.go:284-286 | restoring the saved blocks from last to first fills the placeholders left to right with the blocks in reverse order of saving |
| Inline.JoinedCount | render/bean.go:238 | n pieces joined by the placeholder contain exactly n − 1 placeholders |
| Inline.Pieces | render/bean.go:238 | splitting at the placeholders inverts joining: the pieces are free of placeholders and join back to the text |
| Inline.ShieldCodeSplits | render/bean.go:233-247 | text pieces alternating with code spans: the shielded line is the text joined by placeholders, and the saved blocks are the styled code spans, last span first |
| Inline.EmphasisKeepsPlaceholders | render/bean.go:248-281 | emphasis on a one-line text neither adds nor removes a placeholder and adds no newline |
| Inline.CodeSpansComeBackInOrder | render/bean.go:233-286 | on a line whose backticks pair left to right into code spans, after the whole inline pass every code span comes back, styled and untouched by emphasis, in its original position between the emphasized text pieces |
| Inline.ShieldAddsPlaceholder | render/bean.go:233-247 | one round of the code loop keeps a one-line text one line and adds exactly one placeholder when the saved span held none |
| Inline.ShieldCodeCount | render/bean.go:233-247 | on a one-line text the code loop leaves as many new placeholders as it saved blocks, when no saved block holds a placeholder |
| Inline.InlinePassFills | render/bean.go:233-286 | on any one-line text whose saved blocks hold no placeholder, the inline pass cuts the shielded line at its placeholders, emphasises the text between them, and puts the k-th block from the end of the saved list into the k-th placeholder from the left |
| Inline.RepeatedCharUntouched | render/bean.go:248-273 | a line of one repeated character other than a backtick or tilde is left as it is (the containsMultipleUniqueChars guard) |
| Blocks.HeaderShapeUnique | render/bean.go:179 | a header match can only start after the maximal leading space run, with the maximal run of '#' |
| Blocks.MatchHeader | render/bean.go:179 | `^\s*(#{1,6}) (.*)`: the level is 1..6; whenever the line has header shape the match is that level with the rest of the first line as text, and there is no match otherwise |
| Blocks.HeaderOf | src/bean.go:113-115 | `^\s*# (.*)` and `^\s*## (.*)` match exactly when the header pattern matches at level 1 or 2, with the same text |
| Blocks.SevenHashesNoHeader | render/bean.go:179 | seven or more '#' after the leading spaces is no header |
| Blocks.RuleIsNoHeader | render/bean.go:289-299 | a rule line is never a header, so the rule branch is reachable |
| Blocks.RuleSurvivesInlinePass | render/bean.go:248-299 | the inline pass leaves a rule line unchanged, so `***` and `___` still render as rules |
| Blocks.MixedLineIsNoRule | render/bean.go:181 | a line with two different characters is no rule |
| Blocks.MarkerAt | render/bean.go:191 | the list marker at a position is `[-+*] ` or `\d+\. ` when one is there, and it is the only one |
| Blocks.NoMarkerAt | render/bean.go:191 | no marker starts at a character that is neither a digit nor a bullet symbol |
| Blocks.MarkersAgree | render/bean.go:191 | an unordered marker is its symbol and a space; an ordered marker is the whole digit run, '.' and a space |
| Blocks.ListShapesAgree | render/bean.go:191 | a list match can only start after the maximal leading space run |
| Blocks.MatchList | render/bean.go:191 | the list pattern (an indent of four-space groups or of tabs, then `- `, `+ `, `* ` or digits and `. `, then the text): a match gives the indent (a prefix of the line), the marker and the rest of the first line; whenever the line has list shape it matches with that indent and marker |
| Blocks.LevelZeroIsRoot | render/bean.go:62-79 | a valid indent is at level 0 exactly when it is empty |
| Blocks.SpaceIndentLevel | render/bean.go:72 | an indent of spaces is four spaces per level |
| Blocks.ListIsNoHeader | render/bean.go:289-303 | a list item is never a header |
| Blocks.HeaderIsNoList | src/bean.go:130-147 | a header is never a list item |
| Blocks.OrderedLineShape | render/bean.go:191 | `d. t` with digits d and plain text t is a root ordered item with marker d and text t, and no header |
| Lists.Rebase | render/bean.go:82-95 | going in saves the counter and restarts at 1; going out by n levels drops n saved entries; the old and new histories are prefixes of one another |
| Lists.RebaseKeepsDepth | src/bean.go:71-84 | with one saved counter per level, a move at most one level in stays in range and keeps one entry per level |
| Lists.InThenOutResumes | render/bean.go:82-95 | going one level in and straight back out resumes the outer count at the next number |
| Lists.OutResumesSaved | render/bean.go:89-93 | going out by n levels resumes at the counter saved n levels up, plus one, whatever happened deeper |
| Spacing.Record | render/bean.go:99-105 | the new element becomes the last one; the previous last moves to second place only when it differs |
| Spacing.RecordIdempotent | render/bean.go:99-105 | recording the same element twice is recording it once |
| Spacing.RecordKeepsDistinct | render/bean.go:99-105 | once the two entries differ they keep differing |
| Spacing.HeaderLead | render/bean.go:194-222 | the lead before a header or rule, as a table over the last element seen through blank lines: none first or after a rule, one newline after a list item or header, two after a paragraph |
| Spacing.ListLead | render/bean.go:345-350 | a list item gets one newline after a paragraph, or after a blank line not following a header; otherwise none |
| Spacing.ParagraphLead | render/bean.go:138-145 | paragraph text directly after text, a header or a rule gets no break; after a blank line it gets an empty line if a paragraph came before, one newline if a list did |
| Render.Flush | render/bean.go:117-122 | mergeBuffers: pBuffer is emptied; the output grows by exactly one wrapped chunk holding pBuffer when pBuffer was non-empty, and is unchanged otherwise |
| Render.FlushIdempotent | render/bean.go:117-122 | merging twice is merging once |
| Render.Emit | render/bean.go:364-368 | a block element merges the pending paragraph before its own text |
| Render.LineBody | render/bean.go:147-156 | a trailing space makes a hard break with the spaces trimmed; otherwise `<br>` makes a hard break without the tag; otherwise the line is followed by one space |
| Render.Paragraph | render/bean.go:125-161 | a blank line merges pBuffer, records a blank and ends the list; other text is appended to pBuffer after its lead, records a paragraph and ends the list, and nothing reaches oBuffer |
| Render.Item | render/bean.go:313-343 | the list level becomes the item's level and the history keeps one entry per level; unordered items get the bullet and ordered ones the counter's decimal |
| Render.Line | render/bean.go:225-369 | one line keeps the state valid and the output only grows; leaving the loop changes nothing |
| Render.Fold | render/bean.go:225-369 | the list state stays valid over any document |
| Render.FoldHalted | render/bean.go:310 | after the loop is left, the next line is not read |
| Render.HaltedStaysHalted | render/bean.go:310 | after the loop is left, no later line changes anything |
| Render.StopDropsTheRest | render/bean.go:307-311 | an over-indented item ends rendering: the output is that of the lines before it, pending paragraph included |
| Render.TooDeepStops | render/bean.go:62-79 | a list item leaves the loop exactly when it is more than one level deeper than the list; after a reset, exactly from level 2 |
| Render.PlainLineUntouched | render/bean.go:233-286 | a line without backtick, '*', '_' or '~' passes the inline pass unchanged |
| Render.RuleLine | render/bean.go:299-302 | a rule renders as its lead and a full terminal width of '─' followed by an empty line, ends the list and records a rule |
| Render.HeaderLine | render/bean.go:289-298 | a header of level n renders bold, framed by n '─' on each side, after its lead; it ends the list and records a header |
| Render.TextLine | render/bean.go:361-363 | a line starting with a letter and without inline markers is paragraph text |
| Render.LetterIsNoBlock | render/bean.go:289-303 | a line starting with a letter is no header, rule or list item |
| Render.BlankLine | render/bean.go:127-136 | a whitespace-only line adds nothing to pBuffer: it merges the paragraph, records a blank and ends the list |
| Render.ListLine | render/bean.go:303-357 | an item at most one level deeper renders as lead, four spaces per level, bullet and text; the lead is a newline exactly after a paragraph or after a blank that did not follow a header |
| Render.RootOrderedContinues | render/bean.go:331-340 | root ordered items after item number v are numbered v + 1, v + 2, … |
| Render.RootOrderedCountsFromOne | render/bean.go:329-343 | after a reset, root ordered items are numbered 1, 2, 3, … |
| Render.OrderedLine | render/bean.go:329-353 | `d. t` as the (k+1)-th root ordered item is written as `k+1. t` whatever d is |
| Render.RootOrderedDocument | render/bean.go:329-353 | a document of root ordered items is one output line per item, numbered from 1, with no break in between |
| Render.RootOrderedRenumbers | render/bean.go:329-353 | item i of a root ordered list comes out as `i+1. text`, whatever number it was written with |
| Render.SameLevelOrdered | render/bean.go:331-340 | an ordered item at the list's level counts on only after an ordered item (prevListWasOrdered); after an unordered one it keeps the counter |
| Render.RootUnorderedRestarts | render/bean.go:316-321 | a root unordered item leaves the same list state as a reset |
| Render.RulesStack | render/bean.go:299-302 | consecutive rules render as consecutive full-width bars, each followed by an empty line, with nothing between them |
| Render.FirstTextLine | render/bean.go:125-161 | a document starting with plain text holds that text and one space in pBuffer |
| Render.RuleAfterPending | render/bean.go:299-368 | a rule after pending paragraph text merges the text, then writes an empty line and the bar |
| Render.RuleAfterText | render/bean.go:215-218 | a text line then a rule: the wrapped text, an empty line, the bar and an empty line |
| Scenarios.RuleAfterParagraph | test/hr_test.go:60-64 | the test's "HR After Paragraph" document renders as the paragraph chunk, an empty line and the bar |
| RootBean.UnorderedItem | bean.go:44 | the list pattern of bean.go, which has no ordered alternative, matches exactly when the list pattern of the later renderers matches with a bullet symbol, with the same indent and text |
| RootBean.Step | bean.go:49-86 | every line writes a non-empty text ending in a newline |
| RootBean.HeaderIsNoItem | bean.go:49-56 | a header line never reaches the list case |
| RootBean.StepAfterItem | bean.go:49-86 | lastLineType becomes 1 exactly for a list item written with a bullet: one after another item, or one at the root |
| RootBean.StepOneLine | bean.go:49-86 | each line of input is written as exactly one line of output |
| RootBean.EchoStep | bean.go:71-85 | outside a list, a line that is no header and no root item is written unchanged |
| RootBean.BulletStep | bean.go:66-82 | after an item the raw indent is kept (tabs included); a root item has no indent |
| RootBean.LineCount | bean.go:47-89 | the output has exactly one newline per input line |
| RootBean.EchoedDocument | bean.go:47-89 | a document without headers or root items is echoed line by line |
| RootBean.BulletDocument | bean.go:47-89 | a list opening at the root is written item by item with bullets, every later item keeping its indent however deep |
| SrcBean.ItemVars | src/bean.go:181-218 | the new level is the item's level; unordered items get the bullet; ordered items get the decimal of the new counter |
| SrcBean.ParagraphText | src/bean.go:92-109 | a blank line becomes an empty line; a line ending in a space (one is enough: the cutset) is written untrimmed with a newline; otherwise `<br>` is replaced by a newline; otherwise one space is appended |
| SrcBean.Effect | src/bean.go:154-219 | an element's rewrite succeeds exactly when its pattern matches the line as rewritten so far |
| SrcBean.StyleEffect | src/bean.go:156-175 | a header or span rewrite succeeds exactly when its pattern matches, and leaves the list variables alone |
| SrcBean.HeaderEffect | src/bean.go:156-163 | a header rewrite succeeds exactly at that header level, and marks the line as not a paragraph |
| SrcBean.SpanEffect | src/bean.go:164-175 | a span rewrite succeeds exactly when the span pattern matches; the list variables are unchanged |
| SrcBean.ItemEffect | src/bean.go:176-219 | the list rewrite succeeds exactly when the list pattern matches the rewritten line |
| SrcBean.LineStep | src/bean.go:126-225 | a line that does not panic leaves the list variables valid |
| SrcBean.Run | src/bean.go:126-227 | a run either ends with valid list variables or panics at an existing line |
| SrcBean.RootUnorderedClears | src/bean.go:189-196 | a root unordered item clears the counter and its history |
| SrcBean.SameLevelOrderedCounts | src/bean.go:204-211 | an ordered item at the same level increments the counter; the first one after a reset is `1. ` |
| SrcBean.NestedItemResumes | src/bean.go:71-84 | an item one level in, then an ordered item back out, resumes the outer count at the next number |
| SrcBean.MatchedOnly | src/bean.go:129-147 | a line matching exactly one pattern yields exactly that element |
| SrcBean.MatchedNone | src/bean.go:129-147 | a line matching no pattern yields no element |
| SrcBean.ItemLine | src/bean.go:176-225 | a list line writes four spaces per level, bullet and text when its indent is valid; otherwise the `break` leaves it to renderParagraph, which resets the list variables |
| SrcBean.HeaderLine | src/bean.go:156-163 | a header line writes bold (and underlined at level 1) text and keeps the list variables |
| SrcBean.TextLine | src/bean.go:221-222 | a line matching nothing is written by renderParagraph, which resets the list variables |
| SrcBean.OrderedLine | src/bean.go:202-215 | `d. t` after k root ordered items is written `k+1. t` |
| SrcBean.OrderedDocument | test/list_test.go:36-40 | a document of root ordered items never panics and is numbered 1, 2, 3, … one line per item |
| SrcBean.BoldItemPanics | src/bean.go:164-181 | the line `- **abc** x` panics from any list state: the bold rewrite removes the space after '-', so the list pattern no longer matches and the nil submatch is indexed |
| SrcBean.BoldItemDocumentPanics | src/bean.go:126-227 | a document holding only that line produces no output |
| SrcBean.RunGuarded | src/bean.go:126-227 | a variant that only removes the panic: it skips an element whose pattern no longer matches, never panics and keeps the list variables valid |
| SrcBean.ApplyGuardedAgrees | src/bean.go:152-220 | where the original line loop does not panic, the skipping loop writes the same line |
| SrcBean.RunGuardedAgrees | src/bean.go:126-227 | where the original does not panic, the skipping variant gives the same outcome |
| SrcBean.BoldItemGuarded | src/bean.go:164-222 | the skipping variant writes `- **abc** x` as a paragraph line with the bold applied, not as a list item |
| SrcBean.LineStepFixed | src/bean.go:152-225 | the corrected line step: a line that is no list item goes through the skipping loop; a valid list item sets the list variables as the list element does and ends with a newline |
| SrcBean.StylesKeepVars | src/bean.go:156-175 | header, bold, italic and strikethrough elements leave the list variables alone |
| SrcBean.RunFixed | src/bean.go:126-227 | the corrected renderer never panics and keeps the list variables valid |
| SrcBean.LineStepFixedAgrees | src/bean.go:152-225 | on a line that is no list item, or a list item that matches no other element, the corrected step writes what the original writes wherever it does not panic |
| SrcBean.RunFixedAgrees | src/bean.go:126-227 | on a document of such lines the corrected renderer gives the original's outcome wherever the original does not panic |
| SrcBean.BoldItemFixed | src/bean.go:164-219 | the corrected renderer writes `- **abc** x` as a root bullet item whose text has the bold applied, on a line of its own |
| SrcBean.PlainParagraph | src/bean.go:103-105 | a line with no leading space and no hard-break ending gets one trailing space |
| Versions.ParagraphVersions | src/bean.go:97-99 | the two later renderers write the same paragraph body, except when the line ends in a space: src/bean.go keeps the spaces, render/bean.go trims them |
| Versions.HeaderVersions | bean.go:50-55 | bean.go and src/bean.go write a level 1 or level 2 header alike; bean.go ends a list with it, src/bean.go keeps the list variables |
| Versions.OrderedVersions | bean.go:83-85 | bean.go echoes `d. t`; src/bean.go renumbers it after the items before it |
| Versions.DeepItemVersions | render/bean.go:307-311 | an item too deep for the list: render/bean.go leaves the loop; src/bean.go writes it as paragraph text; bean.go echoes it at the start of a list |
| Versions.Header1Document | bean.go:50-52 | `# t` alone renders alike in bean.go and src/bean.go |
| Versions.Header2Document | bean.go:53-55 | `## t` alone renders alike in bean.go and src/bean.go |
| Versions.BulletDocument | bean.go:79 | `- t` alone renders as bullet and text in bean.go and src/bean.go |
| Versions.TextDocument | src/bean.go:103-105 | a plain text line alone is followed by a space in src/bean.go and by a newline in bean.go |
| Versions.BeanTestHeader1 | test/bean_test.go:15-19 | the "Header level 1" case renders as the test expects |
| Versions.BeanTestHeader2 | test/bean_test.go:20-24 | the "Header level 2" case renders as the test expects |
| Versions.BeanTestList | test/bean_test.go:25-29 | the "Unordered list" case renders as bullet, text and newline |
| Versions.BeanTestText | test/bean_test.go:30-34 | the "Plain text" case renders with a trailing space, as the test expects |

## Left out

- File reading (`ReadFile` in all three files): I/O. The renderers take the lines as input.
- `term.GetSize`: the terminal width is a `nat` parameter.
- `wrap.WrapString`: an arbitrary function parameter applied to each merged paragraph. The model proves properties of the chunks before wrapping.
- The RE2 engine: each pattern is a scanner whose contract states what the pattern accepts.
- Go's `int` overflow of the ordered counter: counters are unbounded naturals.
- Invalid UTF-8 and byte indexing: strings are sequences of Unicode scalar values. `len(substrings[2])-3` and similar slices index characters, which agrees for the ASCII markers involved.
- The unused `lines` and `lineNumber` parameters of `renderParagraph` in render/bean.go.
- `resetPreloopVariables` takes a line type that it ignores (src/bean.go:86-90). It is modelled as a reset to the zero list variables.
- The TODO list in bean.go:57-61 is not implemented by the code and is not modelled.
- The comment at render/bean.go:148 and src/bean.go:98 speaks of "two+ spaces", but `TrimRight` with cutset `"  "` removes any trailing space. The model follows the code; see Text.TrimRightCutsetIsOneSpace.
- test/bean_test.go:25-29 expects a misdecoded bullet without the final newline. Versions.BeanTestList states what the code writes.
- Test expectations in test/newline_test.go that need a particular `wrap.WrapString` (trailing-space trimming) are not stated. The wrap function is a parameter.
- SrcBean.LineStep: its own contract only states validity. What it writes is stated per kind of line by SrcBean.HeaderLine, SrcBean.ItemLine, SrcBean.TextLine and SrcBean.OrderedLine.
- Render.Line and Render.Fold: their own contracts only state validity and growth. What they write is stated per kind of line by the Render lemmas.
- Render.Item and SrcBean.ItemVars: the counter arithmetic is stated through Lists.Rebase and its lemmas, not repeated in their contracts.
- Render.Emit, Render.Flush and the other Render lemmas state the output as chunks; the final string is their concatenation with paragraphs passed through the wrap parameter.
- Inline.CodeSpansComeBackInOrder: covers only lines whose backticks pair left to right into non-empty code spans between backtick-free text. A stray backtick is paired the way RE2 pairs it: in `` `a` ` `` the span found is the blank between the last two backticks. Inline.InlinePassFills covers any one-line text, but only when no saved block holds a placeholder. Doubled backticks such as ``` ``a`` ``` break that condition, because the outer span then encloses the placeholder of the inner one.
- SrcBean.LineStepFixedAgrees: agreement with the original is stated only for lines that are no list item, or a list item matching no other element. On a list item that also carries a span, the corrected step applies the span to the written item, not to the source line. Its agreement with the original's output there, where the original does not panic, is not stated.
- Spans.Rewrite: for patterns with flanking characters (the bold and italic patterns of src/bean.go) only an upper bound on the remaining markers is stated.
- Inline.Emphasize: the contract does not state that the loop ends at the first line whose characters are all alike, only that such a line stops it.
- The `Matched` list of src/bean.go has no contract of its own. It is characterized by SrcBean.MatchedOnly and SrcBean.MatchedNone.

## Findings

| source | as written | input that shows it | evidently intended | confidence | as-written member | corrected member |
|---|---|---|---|---|---|---|
| src/bean.go:164-181 | The elements to apply are chosen on the original line but applied to the rewritten one. The bold rewrite removes the flanking space after `-`, so `list.FindStringSubmatch` returns nil, and `substrings[1]` panics. | `- **abc** x` | The line is a bullet item whose text is bold, as test/list_test.go:73-75 expects of bulleted bold text. The corrected renderer reads the list item from the original line, writes its indentation, bullet and text, and then applies the span rewrites to that. SrcBean.BoldItemFixed proves the bullet output. SrcBean.RunGuarded only skips the failing element, which avoids the panic but writes the line as a paragraph. | not executed | SrcBean.BoldItemPanics | SrcBean.RunFixed |
