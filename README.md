# Completion core of vue-helper, modelled in Dafny

This project models `ElementCompletionItemProvider` in `src/app.ts`. It is
the completion provider of an editor extension for component-library markup
(Element UI and similar libraries) in `.vue` and `.html` files. When
completion is requested:

1. The provider scans the cursor's line and up to nine lines above it for
   the tag the cursor stands in (`getPreTag`, `matchTag`).
2. It looks for an attribute whose value is being typed (`getPreAttr`,
   `matchAttr`).
3. It then offers one of these, in this order of priority:
   - the values of that attribute;
   - the attributes of that tag, filtered by the typed prefix and by the
     `@` / `:` binding marks;
   - where a bare `<name` is being typed, one snippet per known tag. Each
     snippet expands the tag's `subtags` depth first and numbers the tab
     stops of default attributes from a running counter.
4. Otherwise it offers nothing.

The knowledge base (`TAGS`, `ATTRS`) is an immutable input. Its keys carry
the order in which `for…in` visits them. The document is a sequence of
lines. The settings are parameters.

Modules:

- `chars.dfy`:
  - `Chars`: character classes, `lastIndexOf`, ASCII case folding, decimal
    printing and string order;
  - `Optional`: the option type, and `AllSome` for lists of options.
- `document.dfy`, module `Document`: the parts of the editor's document
  interface that the provider reads (`getText` of a single-line range,
  `offsetAt`, `lineAt`, `languageId`).
- `patterns.dfy`, module `Patterns`: every regular expression of the core,
  written as a predicate or as a leftmost/greedy search function. Lemmas tie
  each search to the pattern's shape.
- `knowledge.dfy`, module `Knowledge`: the knowledge base and its lookup
  helpers.
- `scanner.dfy`, module `Scanner`: specification functions for the context
  scan (`getPreTag`, `matchTag`, `getPreAttr`, `matchAttr`, `isTagStart`,
  `notInTemplate`) and their properties.
- `suggestions.dfy`, module `Suggestions`: candidates for attribute names
  and attribute values.
- `snippets.dfy`, module `Snippets`: the snippet builder (the model of
  `build` in `buildTagSuggestion`) and the tag list.
- `provider.dfy`, module `Provider`:
  - the decision function `Provide`, with lemmas for each route;
  - the class `CompletionProvider`, whose fields are the source's
    `_document`, `_position`, `size`, `quotes`, and the `lastIndex` of the
    global `tagReg`. Its methods carry the source's loops. Each method is
    proved equal to the specification function of the same operation.

Behaviours of the code that are modelled as written:

- **Global `tagReg`.** `tagReg` has the `g` flag, so `exec` resumes at
  `lastIndex`. The `while` loop of `matchTag` runs until the search fails,
  which puts `lastIndex` back to 0.
- **`attrReg` and `replace`.** `attrReg` has no `g` flag, so every search
  starts at 0. `replace(/[:@]/, '')` removes only the first `:` or `@`,
  wherever it stands.
- **The `A-z` range.** In `[@:a-zA-z\s]`, the range `A-z` also holds
  ``[\]^_` ``.
- **`test` on an empty string.** `test(txt[txt.length - 1])` and
  `test(prefix[0])` see the string "undefined" when the text is empty.
- **Empty attribute names.** An empty attribute name is falsy and counts as
  no attribute.
- **Global attributes.** They are built with `tag: null`, so the framework
  lookup reads the key "null".
- **Other languages.** When a tag name is being typed in a file whose
  language is neither `vue` nor `html`, the `switch` has no matching case
  and the result is `undefined`.
- **Failing to build a tag.** In two cases the tag build throws, and the
  model gives `Throws`:
  - a subtag is not a key of `TAGS`, so `build` cannot destructure its
    entry;
  - subtags form a cycle, so the recursion never ends. The model's fuel of
    `|TAGS|` nesting levels stands for this stack overflow.
- **Tab stops and defaults.** The running counter counts visited tags, not
  placeholders. The `i`-th default of a tag visited at count `index` gets
  tab stop `index + i + 1`, so tab stops can repeat. Subtags get their
  default attributes too. `Snippets.TabStopsCanRepeat` exhibits a repeat.

## Model

| member | source | states |
|---|---|---|
| Knowledge.GetAttrItem | src/app.ts:379-381 | The `"tag/attr"` entry when ATTRS has it. Otherwise the plain `attr` entry. Otherwise nothing. The key "icons" reads as an entry with no fields. |
| Knowledge.GetTagAttrs | src/app.ts:374-376 | The declared attributes of a known tag; the empty list for an unknown one. |
| Knowledge.TagFramework | src/app.ts:338-340 | Definition of `TAGS[tag] && TAGS[tag].framework` as text: the tag's framework, empty for an unknown tag. |
| Knowledge.FirstCharsEqual | src/app.ts:399-404 | True exactly when both strings are non-empty and their first characters are the same character, letters compared up to ASCII case. The case relation is defined independently of the lower-casing function. |
| Chars.LastIndexOf | src/app.ts:213 | The largest index at or below `from` that holds the character, or -1. No later index up to `from` holds it. |
| Chars.NatToString | src/app.ts:315-326 | Decimal digits only, at least one. A single digit exactly below 10. The last digit is `n % 10`. |
| Chars.NatToStringValue | src/app.ts:326 | The digits of `String(n)` denote `n` (`DigitsValue`), with no leading zero when `n` is positive. |
| Chars.ThreeDigits | src/app.ts:326 | A number from 100 to 999 prints as its three digits. |
| Document.TextBefore | src/app.ts:244-248 | The cursor's line up to the cursor: a prefix of that line, of length min(character, line length). |
| Document.LineText | src/app.ts:214 | `getText` of a one-line range: the slice between the ordered ends, both clamped to the line. |
| Document.OffsetAtOrdered | src/app.ts:237 | A later position has a larger `offsetAt`, when lines end in at least one character. |
| Document.OffsetAtDependsOnLengths | src/app.ts:237 | `offsetAt` depends only on the lengths of the lines above and of the line terminator. |
| Patterns.WordHyphenEnd | src/app.ts:183 | The end of the maximal `[\w-]` run that starts at `i`. |
| Patterns.TagOpenAt | src/app.ts:183 | Definition of a `tagReg` match at `p`: a `<`, the maximal non-empty `[\w-]` run after it, then white space. A shorter run cannot match, since a `[\w-]` character is not white space. |
| Patterns.TagNameAt | src/app.ts:236 | Group 1 of a `tagReg` match is the non-empty `[\w-]` run of the line starting just after the `<`, and white space follows it. |
| Patterns.ExecTag | src/app.ts:234 | `tagReg.exec` from `lastIndex`: the leftmost match at or after it. None means no match starts at or after it. |
| Patterns.ClosedTagThenText | src/app.ts:231 | Definition of the first break test: a complete `<…>` or `</…>` tag, after which come only white space and word characters, at most one `<`, white space and a `[\w-]` run. |
| Patterns.TextThenGt | src/app.ts:231 | Definition of the second break test: leading white space, some text without `<`, a `>`, and after it no `<`, `/` or `>`. |
| Patterns.EndsWithLt | src/app.ts:231 | Definition of the third break test on its argument: a run without `<` or `>` ending in `<` reaches the end. |
| Patterns.IsBreak | src/app.ts:231 | Definition of the break condition: the first test on every line, the second and third on the cursor's line only, the third applied to the last character (or "undefined"). |
| Patterns.LastCharBreak | src/app.ts:231 | The third break test fires exactly when the text ends in `<`; for an empty text it tests "undefined". |
| Patterns.BreakNeedsGt | src/app.ts:231 | On a line without `>`, only the cursor's line ending in `<` breaks the scan. |
| Patterns.AttrShapeAt | src/app.ts:185 | Definition of an `attrReg` match from `p` with group 1 at `q..e`: `(` or white space before it, a `\w(-)?` run, `=`, and a quote. |
| Patterns.AttrMatchAt | src/app.ts:185 | Definition of the match attempt at `p`: the `\(` alternative first, then the greedy `\s*`, then group 1 as the whole run up to `=`. |
| Patterns.AttrMatchAtIsShape | src/app.ts:185 | The `attrReg` attempt at `p` succeeds exactly when the pattern can match from `p`, and then it has the only possible extent of group 1. |
| Patterns.ExecAttr | src/app.ts:222 | `attrReg.exec`: the leftmost start where the pattern matches; no match before it. None means no match anywhere. |
| Patterns.HasQuotedString | src/app.ts:223 | Definition of `/"[^"]*"/.test`: two double quotes with none between them. |
| Patterns.TwoQuotesMakeString | src/app.ts:223 | Any two double quotes in the text make `/"[^"]*"/` hold. |
| Patterns.OpenValueShapeIff | src/app.ts:211 | The pattern `"[^'"]*(\s*)[^'"]*$` matches from `p` exactly when `p` holds `"` and no quote follows it. |
| Patterns.StripOpenValue | src/app.ts:211 | The replacement leaves a prefix of the text. A shorter result ends where an open value starts. An unchanged text holds no open value. |
| Patterns.StripQuotedTail | src/app.ts:279 | `replace(/['"]([^'"]*)['"]$/, '')` leaves a prefix. A shorter result ends where a quoted tail starts. An unchanged text has no quoted tail. |
| Patterns.LastToken | src/app.ts:279 | The last piece of the split on white space or runs of `(`: a suffix with no separator, directly preceded by a separator unless it is the whole text. |
| Patterns.FirstBindingMark | src/app.ts:285 | The first `:` or `@` at or after `from`, with none before it. |
| Patterns.RemoveFirstBinding | src/app.ts:285 | Text without `:` or `@` is unchanged. Otherwise the result is one shorter: the first mark is removed, the characters before it are kept, and those after it move down by one. |
| Patterns.PrefixGuard | src/app.ts:286 | The guard fires exactly when the prefix is non-empty and its first character lies outside `[@:a-zA-z\s]`. |
| Patterns.StripIconPrefix | src/app.ts:366 | A leading `el-icon-` is removed. Any other name is unchanged. |
| Patterns.EndsInTagStart | src/app.ts:186 | Definition of `tagStartReg.test`: a `<` followed only by `[\w-]` characters up to the end. |
| Patterns.IsScriptLine | src/app.ts:409 | Definition of `/^\s*<script.*>\s*$/.test`: white space, `<script`, no line terminator, a `>`, then white space only. |
| Scanner.LastTagOpen | src/app.ts:234-240 | The right-most start of a `tagReg` match, or none when there is no match. |
| Scanner.MatchTagResult | src/app.ts:227-241 | Definition of what `matchTag` returns on a line: "break" when a break test fires, otherwise the last `tagReg` match with its name and document offset, otherwise nothing. Its properties are stated by `Scanner.MatchTagFound`, `Scanner.TrailingLtBreaks` and `Scanner.NoGtNoBreak`. |
| Scanner.ScanPastMatch | src/app.ts:234 | No match starts inside a match, so resuming at `lastIndex` skips none. |
| Scanner.ScanEndsOnLastOpen | src/app.ts:234-240 | A left-to-right `exec` run that has failed stopped on the last match of the text. |
| Scanner.MatchTagFound | src/app.ts:231-240 | On a line that does not break the scan, `matchTag` finds `t` exactly when `t` is the right-most `<name<ws>`: the name and the `offsetAt` of its `<`. |
| Scanner.TrailingLtBreaks | src/app.ts:231 | On the cursor's line, text ending in `<` breaks the scan. |
| Scanner.NoGtNoBreak | src/app.ts:231 | Without `>`, only the cursor's line ending in `<` breaks. |
| Scanner.ScanFrom | src/app.ts:196-205 | Definition of the `while` loop of `getPreTag` from a given line up the document, towards line 0: stop outside the window or on a break, return a found tag, otherwise go on with the line above. |
| Scanner.ScanFromSound | src/app.ts:196-205 | A tag that the scan returns comes from a line of the window, and every line between it and the line the scan started from found nothing. |
| Scanner.ScanFromSkip | src/app.ts:196-204 | Lines that find nothing pass the scan on to the line above them. |
| Scanner.PreTag | src/app.ts:191-207 | Definition of `getPreTag`: the look-back scan from the cursor's line. Its properties are stated by `Scanner.PreTagLookback`, `Scanner.PreTagStopsAtBreak` and `Scanner.PreTagWindow`. |
| Scanner.PreTagLookback | src/app.ts:191-207 | `getPreTag` returns `t` exactly when some line in the ten-line window yields `t` and every line between it and the cursor's line yields nothing. |
| Scanner.PreTagStopsAtBreak | src/app.ts:202 | A breaking line reached before any tag leaves no tag. |
| Scanner.PreTagWindow | src/app.ts:196 | `getPreTag` reads only the window's lines, plus the lengths of the lines above them. |
| Scanner.MatchAttr | src/app.ts:220-224 | A window with a complete `"…"` yields nothing. Any other result is a non-empty name of the shape `(\w(-)?)*`. |
| Scanner.MatchAttrLeftmost | src/app.ts:222-223 | Where the pattern first matches, the result is its group 1. It is nothing when that group is empty or the text holds a complete `"…"`. |
| Scanner.MatchAttrNoMatch | src/app.ts:222-223 | Where the pattern matches nowhere, the result is nothing. |
| Scanner.PreAttr | src/app.ts:210-217 | Definition of `getPreAttr`: `matchAttr` of the window that the replace, `lastIndexOf` and `getText` cut from the cursor's line. Its window is stated by `Scanner.PreAttrTextIsBeforeCursor`. |
| Scanner.PreAttrTextIsBeforeCursor | src/app.ts:211-214 | The window of `getPreAttr` is the end of the text before the cursor, starting after the last space in the stripped text. |
| Scanner.IsTagStart | src/app.ts:394-397 | Definition of `isTagStart`: `tagStartReg` on the text before the cursor. Its meaning is stated by `Scanner.TagStartIsLastLt` and `Scanner.TypedLtStartsTag`. |
| Scanner.TypedLtStartsTag | src/app.ts:394-397 | Just after a typed `<`, no enclosing tag is found, and `isTagStart` holds. |
| Scanner.TagStartIsLastLt | src/app.ts:396 | `tagStartReg` holds exactly when the last `<` is followed only by `[\w-]` characters. |
| Scanner.NotInTemplate | src/app.ts:406-415 | Definition of `notInTemplate`: some line from 1 to the cursor's line is a `<script…>` line. `Scanner.NotInTemplateSkipsFirstLine` states that line 0 is never inspected. |
| Scanner.NotInTemplateSkipsFirstLine | src/app.ts:408 | The `while (line)` countdown never looks at line 0. |
| Suggestions.BindingModes | src/app.ts:335 | After `@`, only method-typed attributes. After `:`, all others. With neither mark, everything. |
| Suggestions.BuildAttrSuggestion | src/app.ts:334-352 | A candidate exactly when the binding filter admits the type. It is labelled with the attribute and typed Method exactly for `method`. It inserts `attr + " "` for `flag` and `attr=q$1q$0` otherwise. Its detail is the tag's framework followed by `framework(global)` for a global entry. |
| Suggestions.AttrValues | src/app.ts:355-371 | An explicit `options` list is returned as it is. `boolean` gives `["true","false"]`, `icon` the icon list, and `shortcut-icon` each icon with its prefix stripped, in order. Anything else, including an unknown attribute, gives `[]`. |
| Suggestions.AttrValuesExplicitFirst | src/app.ts:357-358 | An explicit list wins over every type. |
| Suggestions.GetAttrValues | src/app.ts:355-371 | The method, with its `forEach` loop, computes `AttrValues`. |
| Suggestions.GetAttrValueSuggestion | src/app.ts:262-272 | One value candidate per value, in order. |
| Suggestions.AttrPrefix | src/app.ts:279-285 | Definition of the typed prefix: the last token after the quoted tail is stripped, whether it starts with `@` or `:`, and its text with the first mark removed. |
| Suggestions.Admits | src/app.ts:292 | Definition of the first-character filter: a blank prefix admits every attribute; otherwise the first characters must agree up to case. |
| Suggestions.Rejected | src/app.ts:286-288 | Definition of the prefix guard: the prefix's first character (or "undefined") holds a character outside `[@:a-zA-z\s]`. |
| Suggestions.TagAttrItems | src/app.ts:290-296 | Definition of the `forEach` over the declared attributes: one candidate per attribute with an entry that passes the filter and the build, in order. |
| Suggestions.GlobalItems | src/app.ts:297-303 | Definition of the `for…in` over ATTRS: one candidate per global entry that passes the filter and the build, built with tag `null`, in key order. |
| Suggestions.AttrSuggestionsGuard | src/app.ts:286-288 | A prefix whose first character is outside the class yields no candidates. |
| Suggestions.AttrSuggestions | src/app.ts:275-305 | Definition of `getAttrSuggestion`: the candidates for the prefix parsed from the text before the cursor. Its properties are stated by the three lemmas around it. |
| Suggestions.TagAttrItemsSound | src/app.ts:290-296 | Each tag-part candidate is a declared attribute with an entry, passing both filters. |
| Suggestions.GlobalItemsSound | src/app.ts:297-303 | Each global-part candidate is a global entry, passing both filters. |
| Suggestions.AttrSuggestionsSound | src/app.ts:290-304 | The first `k` candidates are declared attributes of the tag and the rest are global entries. Each passes the first-character filter, a blank prefix passing all. After `@` only methods are offered, after `:` no methods. |
| Suggestions.AttrSuggestionsComplete | src/app.ts:290-304 | Every declared attribute and every global entry that passes the filters is offered, unless the guard drops the prefix. |
| Snippets.DefaultAttr | src/app.ts:315 | Definition of one default attribute: ` name=`, the quote, `$` and the tab stop, the quote. |
| Snippets.DefaultsText | src/app.ts:314-316 | Definition of the attribute text of an opening tag: the `i`-th default, counting from 0, gets tab stop `index + i + 1`. |
| Snippets.Render | src/app.ts:317-320 | Definition of the string pushed for a piece: an opening tag with `<` unless it is the first, its name, its defaults and `>`; a closing tag `</name>`. |
| Snippets.JoinAppend | src/app.ts:327 | `join('')` distributes over concatenation. |
| Snippets.Expand | src/app.ts:312-321 | Definition of `build`: the walk of a tag and its subtags, depth first, threading the counter, failing on an unknown subtag or when the fuel runs out. Its properties are stated by `Snippets.ExpandShape` and `Snippets.ExpandBalanced`. |
| Snippets.ExpandShape | src/app.ts:312-321 | A walk gives two pieces per visited tag and starts and ends with the tag's own pieces. It numbers the opening pieces consecutively from the counter's value. |
| Snippets.ExpandBalanced | src/app.ts:317-320 | A walk's pieces are balanced: every closing piece closes the innermost open tag. |
| Snippets.SelfNestingThrows | src/app.ts:319 | A tag listed among its own subtags never finishes (the source overflows its stack). |
| Snippets.UnknownSubtagThrows | src/app.ts:319 | A subtag that is not a key of TAGS makes the walk throw. |
| Snippets.TabStopsCanRepeat | src/app.ts:310-318 | A concrete tag whose subtag's default gets the same tab stop as the parent's second default. |
| Snippets.TagItem | src/app.ts:308-332 | Definition of `buildTagSuggestion`: the candidate built from a walk, or none when the walk fails. Its fields are stated by `Snippets.TagItemFields` and its snippet by `Snippets.TagTemplateShape`. |
| Snippets.TagDetail | src/app.ts:329 | Definition of the detail: `vue component ` followed by `(version: …)` when the entry has a version. |
| Snippets.SortText | src/app.ts:326 | Definition of the sort text: `0`, the id in decimal, then the tag. |
| Snippets.TagItemFields | src/app.ts:324-331 | One unfolding of `TagItem`: the candidate's label, kind, sort text `"0" + id + tag`, detail, documentation and joined snippet, from a walk that exists. |
| Snippets.TagTemplateShape | src/app.ts:317-322 | The snippet opens with the tag's name and defaults and closes with its closing tag. |
| Snippets.TagCandidate | src/app.ts:255 | A key that is not in TAGS gives no candidate (the call throws); a known key gives `TagItem` of its entry. |
| Snippets.TagItems | src/app.ts:250-259 | Definition of `getTagSuggestion`: one candidate per key of TAGS, or an exception when one fails. Its properties are stated by `Snippets.TagItemsShape` and `Snippets.TagItemsDefined`. |
| Snippets.TagItemsShape | src/app.ts:250-259 | One candidate per key, in key order, labelled with the key and sorted by `"0" + (100 + i) + key`. |
| Snippets.TagItemsDefined | src/app.ts:250-259 | The tag list exists exactly when every key is in TAGS and its walk finishes. |
| Snippets.SortTextsFollowKeyOrder | src/app.ts:326 | With fewer than 900 tags, the sort texts order the candidates as the keys are ordered. |
| Provider.QuoteFor | src/app.ts:425 | A double quote exactly for the setting "double", a single quote otherwise. |
| Provider.Provide | src/app.ts:418-443 | Definition of the decision of `provideCompletionItems`. Each route is stated by the lemmas below it. |
| Provider.ProvideUndefined | src/app.ts:434-441 | `undefined` comes exactly from the tag route in a language other than Vue or HTML. |
| Provider.ProvideThrows | src/app.ts:434-441 | An exception comes only from the tag route, and only when some tag's walk fails. |
| Provider.ProvideValues | src/app.ts:430-431 | With both a tag and an attribute, the candidates are the attribute's values, in order. |
| Provider.ProvideAttributes | src/app.ts:432-433 | With a tag but no attribute, every candidate passes the filters and is a declared or a known attribute. |
| Provider.AttrRoute | src/app.ts:430-433 | One unfolding of `Provide`: with a tag but no attribute, the result is the attribute suggestions for the typed prefix. |
| Provider.TagRoute | src/app.ts:434-441 | One unfolding of `Provide`'s `switch`: `vue` gives `[]` outside the template and the tag list inside it. `html` gives the tag list. |
| Provider.NoContextOffersNothing | src/app.ts:442 | With no enclosing tag and no tag name being typed, the result is an empty list, whatever the language. |
| Provider.TypingLtOffersTags | src/app.ts:434-440 | A `<` just typed in HTML offers one candidate per tag, in key order. |
| Provider.CompletionProvider.GetPreTag | src/app.ts:191-207 | The `while` loop returns `PreTag`: the scan of the ten-line window, stopping at a break or at a tag. |
| Provider.CompletionProvider.ScanStep | src/app.ts:197-204 | One pass reads the right text and moves the scan on as `ScanFrom` does. |
| Provider.CompletionProvider.ExecTagReg | src/app.ts:234 | `tagReg.exec`: the result is `ExecTag` from the old `lastIndex`, and `lastIndex` moves to the end of the match, or back to 0 when there is none. |
| Provider.CompletionProvider.MatchTag | src/app.ts:227-241 | `matchTag` computes `MatchTagResult` and leaves `lastIndex` at 0. |
| Provider.CompletionProvider.LastTagOnLine | src/app.ts:234-240 | The `exec`/`push` loop and the final `pop` give the right-most match, or nothing, and leave `lastIndex` at 0. |
| Provider.CompletionProvider.NotInTemplate | src/app.ts:406-415 | The countdown finds a `<script…>` line among lines 1 to the cursor's line. |
| Provider.CompletionProvider.GetAttrSuggestion | src/app.ts:275-305 | The method computes `AttrSuggestions`. |
| Provider.CompletionProvider.CollectTagAttrs | src/app.ts:290-296 | The `forEach` over the declared attributes computes `TagAttrItems`. |
| Provider.CompletionProvider.CollectGlobalAttrs | src/app.ts:297-303 | The `for…in` over ATTRS computes `GlobalItems`. |
| Provider.CompletionProvider.Build | src/app.ts:312-321 | The recursive `build`, which threads the counter and the snippet list, succeeds exactly when `Expand` does. Then it pushes the rendered pieces and leaves the counter at the walk's end. |
| Provider.CompletionProvider.DefaultAttrs | src/app.ts:314-316 | The `defaults.forEach` builds the attribute text with tab stops `index + i + 1`. |
| Provider.CompletionProvider.BuildTagSuggestion | src/app.ts:308-332 | The method computes `TagItem`. |
| Provider.CompletionProvider.GetTagSuggestion | src/app.ts:250-259 | The `for…in`, with ids from 100, computes `TagItems`. |
| Provider.CompletionProvider.ProvideCompletionItems | src/app.ts:418-443 | The method stores the document, the cursor and the settings in the fields, and returns `Provide`. |

## Left out

- `prettyHTML` (src/app.ts:327) is a foreign library, so it is not
  modelled. The snippet is the joined text before pretty-printing. Adding
  `<` in front and taking `substr(1)` afterwards cancel out without it.
- `size` (the `indent-size` setting) is stored but not used, because only
  the pretty-printer reads it.
- `workspace.getConfiguration` and `console.log` (src/app.ts:421-425) are
  host I/O. The settings are a parameter.
- The cancellation token is never read by the source, so it is not
  modelled.
- `offsetAt` and `getText` are functions over the document's lines.
  - Lines are sequences of characters, not UTF-16 code units.
  - Line terminators are represented only by their length.
- Knowledge.FirstCharsEqual: case folding covers ASCII letters only, whereas
  JavaScript's `toLowerCase` folds all of Unicode.
- The knowledge base is plain data. It does not model keys inherited from
  the object prototype.
- The knowledge base always holds `ATTRS['icons']`, the icon list. A
  knowledge base without it, where `shortcut-icon` would throw on
  `ATTRS['icons'].forEach` (src/app.ts:365) and `icon` would give no values,
  is not modelled.
- Provider.CompletionProvider.Build: nesting depth is bounded by a fuel of
  `|TAGS|` levels. A deeper chain of subtags, all keys of TAGS, must repeat a
  tag, so the source recurses forever there as well. The model does not prove
  this counting step.
- Snippets.SortTextsFollowKeyOrder: the ordering is proved only while ids
  stay three digits long (fewer than 900 tags).
- `isAttrValueStart` and `isAttrStart` are folded into the decision.
- Some parts of the source are not part of this model:
  - `App`;
  - `ElementDocsContentProvider`;
  - the URI helpers;
  - `HTML_CONTENT`;
  - `src/extension.ts`.

  They are editor commands, webview templating and registration.
- The model splits some source methods into smaller helper methods, each
  proved against its own specification function:
  - `CollectTagAttrs` and `CollectGlobalAttrs` are the two loops of
    `getAttrSuggestion`;
  - `LastTagOnLine` is the `exec` loop of `matchTag`;
  - `DefaultAttrs` is the `defaults.forEach` of `build`;
  - `ScanStep` is one pass of the `getPreTag` loop.

  `getPreAttr` has no loop and changes no state, so the provider calls the
  function `Scanner.PreAttr` directly.
