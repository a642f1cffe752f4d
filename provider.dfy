/** The completion entry point: `provideCompletionItems` stores the document,
    the cursor and the settings in the provider's fields, then offers values
    of the attribute being typed, else attributes of the tag the cursor is
    in, else tags where a tag name is being typed, else nothing. */
module Provider {
  import opened Chars
  import opened Optional
  import opened Document
  import opened Patterns
  import opened Knowledge
  import opened Suggestions
  import opened Snippets
  import opened Scanner

  /** The `element-helper` settings the provider reads. */
  datatype Config = Config(indentSize: int, quotes: string)

  /** The quote character snippets use: double only when so configured. */
  function QuoteFor(quotes: string): (q: string)
    ensures quotes == "double" ==> q == "\""
    ensures quotes != "double" ==> q == "'"
  {
    if quotes == "double" then "\"" else "'"
  }

  /** What `provideCompletionItems` hands back to the editor: a list of
      candidates, `undefined`, or an exception thrown while building tag
      snippets. */
  datatype Outcome = Items(items: seq<Item>) | Undefined | Throws

  function TagOutcome(kb: Kb, quote: string): Outcome
  {
    match TagItems(kb, kb.tagOrder, quote)
    case None => Throws
    case Some(items) => Items(items)
  }

  /** The decision of `provideCompletionItems` for a document and a cursor. */
  function Provide(kb: Kb, d: Doc, p: Position, config: Config): Outcome
    requires WellFormed(kb) && ValidPosition(d, p)
  {
    var quote := QuoteFor(config.quotes);
    var tag := PreTag(d, p);
    var attr := PreAttr(d, p);
    if tag.Some? && attr.Some? then Items(ValueCandidates(AttrValues(kb, tag.value.text, attr.value)))
    else if tag.Some? then Items(AttrSuggestions(kb, tag.value.text, TextBefore(d, p), quote))
    else if IsTagStart(d, p) then
      if d.languageId == "vue" then (if NotInTemplate(d, p) then Items([]) else TagOutcome(kb, quote))
      else if d.languageId == "html" then TagOutcome(kb, quote)
      else Undefined
    else Items([])
  }

  // ---------------------------------------------------------------------
  // Properties of the decision

  /** `undefined` comes only from the tag route in a language other than
      Vue or HTML (the `switch` has no default). */
  lemma ProvideUndefined(kb: Kb, d: Doc, p: Position, config: Config)
    requires WellFormed(kb) && ValidPosition(d, p)
    ensures Provide(kb, d, p, config) == Undefined <==>
      PreTag(d, p).None? && IsTagStart(d, p) && d.languageId != "vue" && d.languageId != "html"
  {
  }

  /** An exception comes only from the tag route, from a tag whose snippet
      cannot be built. */
  lemma ProvideThrows(kb: Kb, d: Doc, p: Position, config: Config)
    requires WellFormed(kb) && ValidPosition(d, p)
    requires Provide(kb, d, p, config) == Throws
    ensures PreTag(d, p).None? && IsTagStart(d, p)
    ensures d.languageId == "html" || (d.languageId == "vue" && !NotInTemplate(d, p))
    ensures exists i | 0 <= i < |kb.tagOrder| ::
      Expand(kb, kb.tagOrder[i], kb.tags[kb.tagOrder[i]], 0, |kb.tags|).None?
  {
    TagItemsDefined(kb, kb.tagOrder, QuoteFor(config.quotes));
  }

  /** Inside a tag with an attribute value being typed, the candidates are
      that attribute's values, in order. */
  lemma ProvideValues(kb: Kb, d: Doc, p: Position, config: Config)
    requires WellFormed(kb) && ValidPosition(d, p)
    requires PreTag(d, p).Some? && PreAttr(d, p).Some?
    ensures var values := AttrValues(kb, PreTag(d, p).value.text, PreAttr(d, p).value);
      Provide(kb, d, p, config).Items?
      && var items := Provide(kb, d, p, config).items;
      |items| == |values|
      && forall i | 0 <= i < |items| :: items[i].name == values[i] && items[i].kind == ValueItem
  {
  }

  /** Inside a tag with no attribute value being typed, every candidate is
      an attribute the tag declares or a global one, passing the
      first-character filter and the binding filter. */
  lemma ProvideAttributes(kb: Kb, d: Doc, p: Position, config: Config)
    requires WellFormed(kb) && ValidPosition(d, p)
    requires PreTag(d, p).Some? && PreAttr(d, p).None?
    ensures Provide(kb, d, p, config).Items?
    ensures var tag := PreTag(d, p).value.text;
      var pre := AttrPrefix(TextBefore(d, p));
      var items := Provide(kb, d, p, config).items;
      forall i | 0 <= i < |items| ::
        Admits(items[i].name, pre.text) && KindFits(pre, items[i])
        && (items[i].name in GetTagAttrs(kb, tag) || items[i].name in kb.attrOrder)
  {
    var tag := PreTag(d, p).value.text;
    var pre := AttrPrefix(TextBefore(d, p));
    AttrRoute(kb, d, p, config);
    var k := AttrSuggestionsSound(kb, tag, pre, QuoteFor(config.quotes));
  }

  /** The attribute route of the decision: one unfolding of `Provide`. */
  lemma AttrRoute(kb: Kb, d: Doc, p: Position, config: Config)
    requires WellFormed(kb) && ValidPosition(d, p)
    requires PreTag(d, p).Some? && PreAttr(d, p).None?
    ensures Provide(kb, d, p, config)
      == Items(SuggestionsFor(kb, PreTag(d, p).value.text, AttrPrefix(TextBefore(d, p)), QuoteFor(config.quotes)))
  {
  }

  /** The tag route of the decision: one unfolding of `Provide`'s `switch`. */
  lemma TagRoute(kb: Kb, d: Doc, p: Position, config: Config)
    requires WellFormed(kb) && ValidPosition(d, p)
    requires PreTag(d, p).None? && IsTagStart(d, p)
    ensures d.languageId == "html" ==> Provide(kb, d, p, config) == TagOutcome(kb, QuoteFor(config.quotes))
    ensures d.languageId == "vue" && NotInTemplate(d, p) ==> Provide(kb, d, p, config) == Items([])
    ensures d.languageId == "vue" && !NotInTemplate(d, p) ==>
      Provide(kb, d, p, config) == TagOutcome(kb, QuoteFor(config.quotes))
  {
  }

  /** Neither inside a tag nor typing a tag name: the last branch of the
      decision offers nothing, whatever the language. */
  lemma NoContextOffersNothing(kb: Kb, d: Doc, p: Position, config: Config)
    requires WellFormed(kb) && ValidPosition(d, p)
    requires PreTag(d, p).None? && !IsTagStart(d, p)
    ensures Provide(kb, d, p, config) == Items([])
  {
  }

  /** Typing `<` outside any tag, in an HTML document, offers the tag list:
      one candidate per tag of the knowledge base, in key order. */
  lemma TypingLtOffersTags(kb: Kb, d: Doc, p: Position, config: Config)
    requires WellFormed(kb) && ValidPosition(d, p)
    requires var t := TextBefore(d, p); 0 < |t| && t[|t| - 1] == '<'
    requires d.languageId == "html"
    ensures Provide(kb, d, p, config) == TagOutcome(kb, QuoteFor(config.quotes))
    ensures Provide(kb, d, p, config).Items? ==>
      var items := Provide(kb, d, p, config).items;
      |items| == |kb.tagOrder| && forall i | 0 <= i < |items| :: items[i].name == kb.tagOrder[i]
  {
    TypedLtStartsTag(d, p);
    TagRoute(kb, d, p, config);
    if TagItems(kb, kb.tagOrder, QuoteFor(config.quotes)).Some? {
      TagItemsShape(kb, kb.tagOrder, QuoteFor(config.quotes));
    }
  }

  // ---------------------------------------------------------------------
  // The provider object

  class CompletionProvider {
    /** TAGS and ATTRS: read, never written. */
    const kb: Kb
    /** `_document` */
    var document: Doc
    /** `_position` */
    var position: Position
    /** The `indent-size` setting, handed to the pretty-printer only. */
    var size: int
    var quotes: string
    /** `lastIndex` of the global `tagReg`: every search loop runs it until
        it fails, which sets it back to 0. */
    var tagRegLastIndex: nat

    predicate Valid()
      reads this
    {
      WellFormed(kb) && tagRegLastIndex == 0
    }

    constructor (kb: Kb)
      requires WellFormed(kb)
      ensures this.kb == kb && Valid()
    {
      this.kb := kb;
      document := Doc([], 1, "");
      position := Position(0, 0);
      size := 0;
      quotes := "";
      tagRegLastIndex := 0;
    }

    /** `tagReg.exec(txt)`: search from `lastIndex`, then move it past the
        match, or back to 0 when there is none. */
    method ExecTagReg(txt: string) returns (m: Option<nat>)
      modifies this`tagRegLastIndex
      ensures m == ExecTag(txt, old(tagRegLastIndex))
      ensures tagRegLastIndex == if m.Some? then TagMatchEnd(txt, m.value) else 0
    {
      m := ExecTag(txt, tagRegLastIndex);
      tagRegLastIndex := if m.Some? then TagMatchEnd(txt, m.value) else 0;
    }

    /** `matchTag(tagReg, txt, line)`: the break tests, then the search. */
    method MatchTag(txt: string, line: nat) returns (r: LineScan)
      requires line < |document.lines| && tagRegLastIndex == 0
      modifies this`tagRegLastIndex
      ensures tagRegLastIndex == 0
      ensures r == MatchTagResult(document, line, txt, line == position.line)
    {
      if IsBreak(txt, line == position.line) {
        return Break;
      }
      r := LastTagOnLine(txt, line);
    }

    /** The `exec` loop of `matchTag`: every match pushed in turn, and the
        last one popped. */
    method LastTagOnLine(txt: string, line: nat) returns (r: LineScan)
      requires line < |document.lines| && tagRegLastIndex == 0
      modifies this`tagRegLastIndex
      ensures tagRegLastIndex == 0
      ensures LastTagOpen(txt).None? ==> r == NoMatch
      ensures LastTagOpen(txt).Some? ==>
        var p := LastTagOpen(txt).value;
        r == Found(TagObject(TagNameAt(txt, p), OffsetAt(document, line, p)))
    {
      var arr: seq<TagObject> := [];
      ghost var last: int := -1;
      ghost var from: nat := 0;
      var m := ExecTagReg(txt);
      while m.Some?
        invariant from <= |txt| && m == ExecTag(txt, from)
        invariant tagRegLastIndex == if m.Some? then TagMatchEnd(txt, m.value) else 0
        invariant -1 <= last < from && (|arr| == 0 <==> last == -1)
        invariant last >= 0 ==>
          TagOpenAt(txt, last) && arr[|arr| - 1] == TagObject(TagNameAt(txt, last), OffsetAt(document, line, last))
        invariant NoTagOpenBetween(txt, last, from)
        decreases |txt| - from
      {
        var obj := TagObject(TagNameAt(txt, m.value), OffsetAt(document, line, m.value));
        arr := arr + [obj];
        ScanPastMatch(txt, m.value);
        last := m.value;
        from := tagRegLastIndex;
        m := ExecTagReg(txt);
      }
      ScanEndsOnLastOpen(txt, last, from);
      if |arr| == 0 {
        return NoMatch;
      }
      return Found(arr[|arr| - 1]);
    }

    /** `getPreTag()`: scan up from the cursor's line, ten lines at most. */
    method GetPreTag() returns (tag: Option<TagObject>)
      requires ValidPosition(document, position) && tagRegLastIndex == 0
      modifies this`tagRegLastIndex
      ensures tagRegLastIndex == 0
      ensures tag == PreTag(document, position)
    {
      ghost var d, p := document, position;
      ghost var want := PreTag(d, p);
      var line: int := position.line;
      var txt := TextBefore(document, position);
      while position.line - line < 10 && line >= 0
        invariant document == d && position == p && tagRegLastIndex == 0
        invariant line <= p.line && (line == p.line ==> txt == TextBefore(d, p))
        invariant ScanFrom(d, p, line) == want
        decreases line + 1
      {
        if line != position.line {
          txt := document.lines[line];
        }
        var t := ScanStep(txt, line);
        if t.Break? {
          return None;
        }
        if t.Found? {
          return Some(t.tag);
        }
        line := line - 1;
      }
      return None;
    }

    /** One pass of the `getPreTag` loop: `matchTag` on the text it reads for `line`. */
    method ScanStep(txt: string, line: nat) returns (t: LineScan)
      requires ValidPosition(document, position) && tagRegLastIndex == 0
      requires line <= position.line && position.line - line < 10
      requires txt == ScanText(document, position, line)
      modifies this`tagRegLastIndex
      ensures tagRegLastIndex == 0
      ensures t == ScanLine(document, position, line)
      ensures t.Break? ==> ScanFrom(document, position, line).None?
      ensures t.Found? ==> ScanFrom(document, position, line) == Some(t.tag)
      ensures t.NoMatch? ==> ScanFrom(document, position, line) == ScanFrom(document, position, line - 1)
    {
      t := MatchTag(txt, line);
      ScanFromHere(document, position, line);
    }

    /** `notInTemplate()`: count down from the cursor's line while the line
        number is not 0. */
    method NotInTemplate() returns (r: bool)
      requires ValidPosition(document, position)
      ensures r == Scanner.NotInTemplate(document, position)
    {
      var line: nat := position.line;
      while line != 0
        invariant line <= position.line
        invariant forall l | line < l <= position.line :: !IsScriptLine(document.lines[l])
      {
        if IsScriptLine(document.lines[line]) {
          return true;
        }
        line := line - 1;
      }
      return false;
    }

    /** `getAttrSuggestion(tag)` */
    method GetAttrSuggestion(tag: string) returns (suggestions: seq<Item>)
      requires ValidPosition(document, position)
      ensures suggestions == AttrSuggestions(kb, tag, TextBefore(document, position), quotes)
    {
      var pre := AttrPrefix(TextBefore(document, position));
      if Rejected(pre.text) {
        return [];
      }
      var declared := CollectTagAttrs(tag, pre);
      var global := CollectGlobalAttrs(tag, pre);
      suggestions := declared + global;
    }

    /** The `forEach` over the tag's declared attributes. */
    method CollectTagAttrs(tag: string, pre: Prefix) returns (suggestions: seq<Item>)
      ensures suggestions == TagAttrItems(kb, tag, GetTagAttrs(kb, tag), pre, quotes)
    {
      suggestions := [];
      var tagAttrs := GetTagAttrs(kb, tag);
      for i := 0 to |tagAttrs|
        invariant suggestions == TagAttrItems(kb, tag, tagAttrs[..i], pre, quotes)
      {
        var attr := tagAttrs[i];
        var attrItem := GetAttrItem(kb, tag, attr);
        ghost var before := suggestions;
        if attrItem.Some? && (Blank(pre.text) || FirstCharsEqual(attr, pre.text)) {
          var sug := BuildAttrSuggestion(kb, attr, tag, pre.isBind, pre.isMethod, attrItem.value, quotes);
          if sug.Some? {
            suggestions := suggestions + [sug.value];
          }
        }
        assert suggestions == before + TagAttrCandidate(kb, tag, attr, pre, quotes);
        TagAttrItemsStep(kb, tag, tagAttrs, i, pre, quotes);
      }
      assert tagAttrs[..|tagAttrs|] == tagAttrs;
    }

    /** The `for…in` over ATTRS, keeping global entries. */
    method CollectGlobalAttrs(tag: string, pre: Prefix) returns (suggestions: seq<Item>)
      ensures suggestions == GlobalItems(kb, tag, kb.attrOrder, pre, quotes)
    {
      suggestions := [];
      for i := 0 to |kb.attrOrder|
        invariant suggestions == GlobalItems(kb, tag, kb.attrOrder[..i], pre, quotes)
      {
        var attr := kb.attrOrder[i];
        var attrItem := GetAttrItem(kb, tag, attr);
        ghost var before := suggestions;
        if attrItem.Some? && attrItem.value.global && (Blank(pre.text) || FirstCharsEqual(attr, pre.text)) {
          var sug := BuildAttrSuggestion(kb, attr, "null", pre.isBind, pre.isMethod, attrItem.value, quotes);
          if sug.Some? {
            suggestions := suggestions + [sug.value];
          }
        }
        assert suggestions == before + GlobalCandidate(kb, tag, attr, pre, quotes);
        GlobalItemsStep(kb, tag, kb.attrOrder, i, pre, quotes);
      }
      assert kb.attrOrder[..|kb.attrOrder|] == kb.attrOrder;
    }

    /** `build(tag, def, snippets)` with the shared counter and snippet list
        passed in and out; `ok` is false where the source throws. */
    method Build(tag: string, def: TagDef, fuel: nat, index: nat, snippets: seq<string>)
      returns (ok: bool, next: nat, out: seq<string>)
      ensures ok <==> Expand(kb, tag, def, index, fuel).Some?
      ensures ok ==> next == Expand(kb, tag, def, index, fuel).value.next
      ensures ok ==> out == snippets + RenderAll(Expand(kb, tag, def, index, fuel).value.pieces, quotes)
      decreases fuel
    {
      if fuel == 0 {
        return false, index, snippets;
      }
      var attrs := DefaultAttrs(def.defaults, index);
      ghost var open := Open(tag, def.defaults, index);
      out := snippets + [(if index > 0 then "<" else "") + tag + attrs + ">"];
      ghost var base := out;
      assert base == snippets + [Render(open, quotes)];
      next := index + 1;
      ghost var acc := Expansion([], index + 1);
      assert def.subtags[..0] == [];
      for j := 0 to |def.subtags|
        invariant ExpandAll(kb, def.subtags[..j], index + 1, fuel - 1) == Some(acc)
        invariant next == acc.next && out == base + RenderAll(acc.pieces, quotes)
      {
        var item := def.subtags[j];
        ExpandAllStep(kb, def.subtags, j, index + 1, fuel - 1);
        if item !in kb.tags {
          ExpandAllNoneExtends(kb, def.subtags, j + 1, index + 1, fuel - 1);
          return false, next, out;
        }
        var ok', next', out' := Build(item, kb.tags[item], fuel - 1, next, out);
        if !ok' {
          ExpandAllNoneExtends(kb, def.subtags, j + 1, index + 1, fuel - 1);
          return false, next', out';
        }
        ghost var last := Expand(kb, item, kb.tags[item], next, fuel - 1).value;
        RenderExtends(base, out, acc.pieces, last.pieces, quotes);
        acc := Expansion(acc.pieces + last.pieces, last.next);
        next, out := next', out';
      }
      assert def.subtags[..|def.subtags|] == def.subtags;
      ExpandWraps(kb, tag, def, index, fuel, acc);
      RenderWrapped(snippets, out, open, acc.pieces, Close(tag), quotes);
      out := out + ["</" + tag + ">"];
      ok := true;
    }

    /** The `defaults.forEach` of `build`: one ` name="$n"` per default
        attribute, numbered on from the tag's counter value. */
    method DefaultAttrs(defaults: seq<string>, index: nat) returns (attrs: string)
      ensures attrs == DefaultsText(defaults, index, quotes)
    {
      attrs := "";
      for i := 0 to |defaults|
        invariant attrs == DefaultsText(defaults[..i], index, quotes)
      {
        attrs := attrs + DefaultAttr(defaults[i], index + i + 1, quotes);
        assert defaults[..i + 1][..i] == defaults[..i];
      }
      assert defaults[..|defaults|] == defaults;
    }

    /** `buildTagSuggestion(tag, tagVal, id)`, without the pretty-printer. */
    method BuildTagSuggestion(tag: string, tagVal: TagDef, id: nat) returns (item: Option<Item>)
      ensures item == TagItem(kb, tag, tagVal, id, quotes)
    {
      var ok, _, snippets := Build(tag, tagVal, |kb.tags|, 0, []);
      if !ok {
        return None;
      }
      assert snippets == RenderAll(Expand(kb, tag, tagVal, 0, |kb.tags|).value.pieces, quotes);
      item := Some(Item(tag, SnippetItem, SnippetText(Join(snippets)),
                        Some(TagDetail(tagVal.version)), tagVal.description, Some(SortText(id, tag))));
    }

    /** `getTagSuggestion()`: one candidate per key of TAGS, ids from 100;
        `None` where building a snippet throws. */
    method GetTagSuggestion() returns (suggestions: Option<seq<Item>>)
      requires TagOrderKnown(kb)
      ensures suggestions == TagItems(kb, kb.tagOrder, quotes)
    {
      var list: seq<Item> := [];
      var id := 100;
      ghost var cs := TagCandidates(kb, kb.tagOrder, quotes);
      assert cs[..0] == [];
      for i := 0 to |kb.tagOrder|
        invariant id == 100 + i
        invariant AllSome(cs[..i]) == Some(list)
      {
        var tag := kb.tagOrder[i];
        var item := BuildTagSuggestion(tag, kb.tags[tag], id);
        assert cs[i] == TagCandidate(kb, tag, id, quotes) == item;
        AllSomeStep(cs, i);
        if item.None? {
          AllSomeNoneExtends(cs, i + 1);
          return None;
        }
        list := list + [item.value];
        id := id + 1;
      }
      assert cs[..|cs|] == cs;
      return Some(list);
    }

    /** `provideCompletionItems(document, position)` with the settings passed in. */
    method ProvideCompletionItems(document: Doc, position: Position, config: Config) returns (result: Outcome)
      requires Valid() && ValidPosition(document, position)
      modifies this
      ensures Valid()
      ensures this.document == document && this.position == position
      ensures size == config.indentSize && quotes == QuoteFor(config.quotes)
      ensures result == Provide(kb, document, position, config)
    {
      this.document := document;
      this.position := position;
      size := config.indentSize;
      quotes := QuoteFor(config.quotes);
      var tag := GetPreTag();
      var attr := PreAttr(document, position);
      if tag.Some? && attr.Some? {
        var values := GetAttrValueSuggestion(kb, tag.value.text, attr.value);
        assert values == ValueCandidates(AttrValues(kb, tag.value.text, attr.value));
        return Items(values);
      } else if tag.Some? {
        var suggestions := GetAttrSuggestion(tag.value.text);
        return Items(suggestions);
      } else if IsTagStart(document, position) {
        if document.languageId == "vue" {
          var outside := NotInTemplate();
          if outside {
            return Items([]);
          }
          var tags := GetTagSuggestion();
          return if tags.Some? then Items(tags.value) else Throws;
        } else if document.languageId == "html" {
          var tags := GetTagSuggestion();
          return if tags.Some? then Items(tags.value) else Throws;
        }
        return Undefined;
      }
      return Items([]);
    }
  }
}
