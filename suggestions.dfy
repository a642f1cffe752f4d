/** Completion candidates for attribute names and attribute values:
    `buildAttrSuggestion`, `getAttrValues`, `getAttrValueSuggestion` and the
    filtering of `getAttrSuggestion`. */
module Suggestions {
  import opened Chars
  import opened Optional
  import opened Patterns
  import opened Knowledge

  datatype CompletionKind = SnippetItem | PropertyItem | MethodItem | ValueItem

  /** What accepting a candidate inserts: nothing given (the label), a literal
      text, or a snippet template with tab stops. */
  datatype InsertText = NoInsertText | PlainText(text: string) | SnippetText(template: string)

  /** A completion candidate; absent optional fields are `None`. */
  datatype Item = Item(
    name: string,
    kind: CompletionKind,
    insertText: InsertText,
    detail: Option<string>,
    documentation: Option<string>,
    sortText: Option<string>)

  // ---------------------------------------------------------------------
  // buildAttrSuggestion

  /** What a template literal prints for a value that may be undefined. */
  function TemplateText(o: Option<string>): string {
    match o
    case Some(s) => s
    case None => "undefined"
  }

  /** The binding filter: method-typed attributes after `@`, all others after
      `:`, and everything when neither mark is present. */
  predicate BindingAdmits(isMethod: bool, isBind: bool, attrType: string) {
    (isMethod && attrType == "method") || (isBind && attrType != "method") || (!isMethod && !isBind)
  }

  /** The three binding modes, read off the filter. */
  lemma BindingModes(attrType: string)
    ensures BindingAdmits(true, false, attrType) <==> attrType == "method"
    ensures BindingAdmits(false, true, attrType) <==> attrType != "method"
    ensures BindingAdmits(false, false, attrType)
  {
  }

  /** `buildAttrSuggestion({attr, tag, bind, method}, item)`. `tagKey` is the
      key `TAGS[tag]` reads: the tag name, or "null" for a global attribute,
      which the provider builds with `tag: null`. */
  function BuildAttrSuggestion(kb: Kb, attr: string, tagKey: string, isBind: bool, isMethod: bool,
                               def: AttrDef, quote: string): (r: Option<Item>)
    ensures r.Some? <==> BindingAdmits(isMethod, isBind, def.attrType)
    ensures r.Some? ==>
      r.value.name == attr && r.value.sortText.None? && r.value.documentation == def.description
    ensures r.Some? ==>
      (r.value.kind == MethodItem <==> def.attrType == "method")
      && (r.value.kind == MethodItem || r.value.kind == PropertyItem)
    ensures r.Some? && def.attrType == "flag" ==> r.value.insertText == PlainText(attr + " ")
    ensures r.Some? && def.attrType != "flag" ==>
      r.value.insertText == SnippetText(attr + "=" + quote + "$1" + quote + "$0")
    ensures r.Some? ==> r.value.detail == Some(TagFramework(kb, tagKey)
      + (if def.global then TemplateText(def.framework) + "(global)" else ""))
  {
    if BindingAdmits(isMethod, isBind, def.attrType) then
      var detail := TagFramework(kb, tagKey) + (if def.global then TemplateText(def.framework) + "(global)" else "");
      Some(Item(
        attr,
        if def.attrType == "method" then MethodItem else PropertyItem,
        if def.attrType == "flag" then PlainText(attr + " ") else SnippetText(attr + "=" + quote + "$1" + quote + "$0"),
        Some(detail),
        def.description,
        None))
    else None
  }

  // ---------------------------------------------------------------------
  // getAttrValues / getAttrValueSuggestion

  /** The values offered for an attribute: an explicit `options` list as it
      stands, otherwise according to the attribute's type. */
  function AttrValues(kb: Kb, tag: string, attr: string): (r: seq<string>)
    ensures var item := GetAttrItem(kb, tag, attr);
      && (item.None? ==> r == [])
      && (item.Some? && item.value.options.Some? ==> r == item.value.options.value)
      && (item.Some? && item.value.options.None? ==>
           if item.value.attrType == "boolean" then r == ["true", "false"]
           else if item.value.attrType == "icon" then r == kb.icons
           else if item.value.attrType == "shortcut-icon" then
             |r| == |kb.icons| && forall i | 0 <= i < |r| :: r[i] == StripIconPrefix(kb.icons[i])
           else r == [])
  {
    match GetAttrItem(kb, tag, attr)
    case None => []
    case Some(def) =>
      if def.options.Some? then def.options.value
      else if def.attrType == "boolean" then ["true", "false"]
      else if def.attrType == "icon" then kb.icons
      else if def.attrType == "shortcut-icon" then seq(|kb.icons|, i requires 0 <= i < |kb.icons| => StripIconPrefix(kb.icons[i]))
      else []
  }

  /** An explicit list wins over every type. */
  lemma AttrValuesExplicitFirst(kb: Kb, tag: string, attr: string, opts: seq<string>)
    requires GetAttrItem(kb, tag, attr).Some?
    requires GetAttrItem(kb, tag, attr).value.options == Some(opts)
    ensures AttrValues(kb, tag, attr) == opts
  {
  }

  /** `getAttrValues`: the `shortcut-icon` branch strips the icon prefix one
      name at a time. */
  method GetAttrValues(kb: Kb, tag: string, attr: string) returns (options: seq<string>)
    ensures options == AttrValues(kb, tag, attr)
  {
    var item := GetAttrItem(kb, tag, attr);
    if item.None? {
      return [];
    }
    var def := item.value;
    if def.options.Some? {
      return def.options.value;
    }
    if def.attrType == "boolean" {
      options := ["true", "false"];
    } else if def.attrType == "icon" {
      options := kb.icons;
    } else if def.attrType == "shortcut-icon" {
      options := [];
      for i := 0 to |kb.icons|
        invariant |options| == i
        invariant forall k | 0 <= k < i :: options[k] == StripIconPrefix(kb.icons[k])
      {
        options := options + [StripIconPrefix(kb.icons[i])];
      }
    } else {
      options := [];
    }
  }

  function ValueCandidate(value: string): Item {
    Item(value, ValueItem, NoInsertText, None, None, None)
  }

  /** `getAttrValueSuggestion`: one value candidate per value, in order. */
  method GetAttrValueSuggestion(kb: Kb, tag: string, attr: string) returns (suggestions: seq<Item>)
    ensures var values := AttrValues(kb, tag, attr);
      |suggestions| == |values| && forall i | 0 <= i < |values| :: suggestions[i] == ValueCandidate(values[i])
  {
    var values := GetAttrValues(kb, tag, attr);
    suggestions := [];
    for i := 0 to |values|
      invariant |suggestions| == i
      invariant forall k | 0 <= k < i :: suggestions[k] == ValueCandidate(values[k])
    {
      suggestions := suggestions + [ValueCandidate(values[i])];
    }
  }

  function ValueCandidates(values: seq<string>): (r: seq<Item>)
    ensures |r| == |values| && forall i | 0 <= i < |values| :: r[i] == ValueCandidate(values[i])
  {
    seq(|values|, i requires 0 <= i < |values| => ValueCandidate(values[i]))
  }

  // ---------------------------------------------------------------------
  // getAttrSuggestion

  /** The typed prefix: the last token before the cursor once a complete
      quoted value at the end is dropped, whether it started with `@` or `:`,
      and the token with its first `:` or `@` removed. */
  datatype Prefix = Prefix(isMethod: bool, isBind: bool, text: string)

  function AttrPrefix(preText: string): Prefix {
    var raw := LastToken(StripQuotedTail(preText));
    Prefix(0 < |raw| && raw[0] == '@', 0 < |raw| && raw[0] == ':', RemoveFirstBinding(raw))
  }

  /** `!prefix.trim()` */
  predicate Blank(s: string) {
    forall i | 0 <= i < |s| :: IsSpace(s[i])
  }

  /** The first-character filter. */
  predicate Admits(attr: string, text: string) {
    Blank(text) || FirstCharsEqual(attr, text)
  }

  /** The guard of line 286: the prefix is dropped outright. */
  predicate Rejected(text: string) {
    HasCharOutsidePrefixClass(FirstCharText(text))
  }

  function AsList(o: Option<Item>): seq<Item> {
    if o.Some? then [o.value] else []
  }

  /** One declared attribute of the tag, as the `forEach` over `getTagAttrs` treats it. */
  function TagAttrCandidate(kb: Kb, tag: string, attr: string, pre: Prefix, quote: string): seq<Item> {
    var item := GetAttrItem(kb, tag, attr);
    if item.Some? && Admits(attr, pre.text) then
      AsList(BuildAttrSuggestion(kb, attr, tag, pre.isBind, pre.isMethod, item.value, quote))
    else []
  }

  /** One key of ATTRS, as the `for…in` treats it: only global entries pass. */
  function GlobalCandidate(kb: Kb, tag: string, key: string, pre: Prefix, quote: string): seq<Item> {
    var item := GetAttrItem(kb, tag, key);
    if item.Some? && item.value.global && Admits(key, pre.text) then
      AsList(BuildAttrSuggestion(kb, key, "null", pre.isBind, pre.isMethod, item.value, quote))
    else []
  }

  function TagAttrItems(kb: Kb, tag: string, attrs: seq<string>, pre: Prefix, quote: string): seq<Item> {
    if attrs == [] then []
    else TagAttrItems(kb, tag, attrs[..|attrs| - 1], pre, quote) + TagAttrCandidate(kb, tag, attrs[|attrs| - 1], pre, quote)
  }

  function GlobalItems(kb: Kb, tag: string, keys: seq<string>, pre: Prefix, quote: string): seq<Item> {
    if keys == [] then []
    else GlobalItems(kb, tag, keys[..|keys| - 1], pre, quote) + GlobalCandidate(kb, tag, keys[|keys| - 1], pre, quote)
  }

  /** One more declared attribute visited. */
  lemma TagAttrItemsStep(kb: Kb, tag: string, attrs: seq<string>, i: nat, pre: Prefix, quote: string)
    requires i < |attrs|
    ensures TagAttrItems(kb, tag, attrs[..i + 1], pre, quote)
      == TagAttrItems(kb, tag, attrs[..i], pre, quote) + TagAttrCandidate(kb, tag, attrs[i], pre, quote)
  {
    assert attrs[..i + 1][..i] == attrs[..i];
  }

  /** One more key of ATTRS visited. */
  lemma GlobalItemsStep(kb: Kb, tag: string, keys: seq<string>, i: nat, pre: Prefix, quote: string)
    requires i < |keys|
    ensures GlobalItems(kb, tag, keys[..i + 1], pre, quote)
      == GlobalItems(kb, tag, keys[..i], pre, quote) + GlobalCandidate(kb, tag, keys[i], pre, quote)
  {
    assert keys[..i + 1][..i] == keys[..i];
  }

  /** What `getAttrSuggestion(tag)` returns for the text before the cursor. */
  function AttrSuggestions(kb: Kb, tag: string, preText: string, quote: string): seq<Item> {
    SuggestionsFor(kb, tag, AttrPrefix(preText), quote)
  }

  /** The candidates for a given prefix. */
  function SuggestionsFor(kb: Kb, tag: string, pre: Prefix, quote: string): seq<Item> {
    if Rejected(pre.text) then []
    else TagAttrItems(kb, tag, GetTagAttrs(kb, tag), pre, quote) + GlobalItems(kb, tag, kb.attrOrder, pre, quote)
  }

  // ---------------------------------------------------------------------
  // Properties of getAttrSuggestion

  /** A prefix whose first character is outside `[@:a-zA-z\s]` yields nothing. */
  lemma AttrSuggestionsGuard(kb: Kb, tag: string, preText: string, quote: string)
    requires var t := AttrPrefix(preText).text; 0 < |t| && !InPrefixClass(t[0])
    ensures AttrSuggestions(kb, tag, preText, quote) == []
  {
    PrefixGuard(AttrPrefix(preText).text);
  }

  /** Every candidate of the tag part is a declared attribute that passes both filters. */
  lemma {:induction false} TagAttrItemsSound(kb: Kb, tag: string, attrs: seq<string>, pre: Prefix, quote: string, x: Item)
    requires x in TagAttrItems(kb, tag, attrs, pre, quote)
    ensures x.name in attrs && Admits(x.name, pre.text)
    ensures GetAttrItem(kb, tag, x.name).Some?
      && BuildAttrSuggestion(kb, x.name, tag, pre.isBind, pre.isMethod, GetAttrItem(kb, tag, x.name).value, quote) == Some(x)
  {
    var init := attrs[..|attrs| - 1];
    if x in TagAttrItems(kb, tag, init, pre, quote) {
      TagAttrItemsSound(kb, tag, init, pre, quote, x);
    }
  }

  /** Every candidate of the global part is a global entry that passes both filters. */
  lemma {:induction false} GlobalItemsSound(kb: Kb, tag: string, keys: seq<string>, pre: Prefix, quote: string, x: Item)
    requires x in GlobalItems(kb, tag, keys, pre, quote)
    ensures x.name in keys && Admits(x.name, pre.text)
    ensures GetAttrItem(kb, tag, x.name).Some? && GetAttrItem(kb, tag, x.name).value.global
      && BuildAttrSuggestion(kb, x.name, "null", pre.isBind, pre.isMethod, GetAttrItem(kb, tag, x.name).value, quote) == Some(x)
  {
    var init := keys[..|keys| - 1];
    if x in GlobalItems(kb, tag, init, pre, quote) {
      GlobalItemsSound(kb, tag, init, pre, quote, x);
    }
  }

  /** A declared attribute that passes both filters is offered. */
  lemma {:induction false} TagAttrItemsComplete(kb: Kb, tag: string, attrs: seq<string>, pre: Prefix, quote: string, i: nat)
    requires i < |attrs|
    requires GetAttrItem(kb, tag, attrs[i]).Some? && Admits(attrs[i], pre.text)
    requires BindingAdmits(pre.isMethod, pre.isBind, GetAttrItem(kb, tag, attrs[i]).value.attrType)
    ensures exists x | x in TagAttrItems(kb, tag, attrs, pre, quote) :: x.name == attrs[i]
  {
    var init := attrs[..|attrs| - 1];
    if i < |attrs| - 1 {
      TagAttrItemsComplete(kb, tag, init, pre, quote, i);
      var x :| x in TagAttrItems(kb, tag, init, pre, quote) && x.name == init[i];
      assert x in TagAttrItems(kb, tag, attrs, pre, quote);
    } else {
      var x := BuildAttrSuggestion(kb, attrs[i], tag, pre.isBind, pre.isMethod, GetAttrItem(kb, tag, attrs[i]).value, quote).value;
      assert x in TagAttrCandidate(kb, tag, attrs[i], pre, quote);
    }
  }

  /** A global entry that passes both filters is offered. */
  lemma {:induction false} GlobalItemsComplete(kb: Kb, tag: string, keys: seq<string>, pre: Prefix, quote: string, i: nat)
    requires i < |keys|
    requires GetAttrItem(kb, tag, keys[i]).Some? && GetAttrItem(kb, tag, keys[i]).value.global
    requires Admits(keys[i], pre.text)
    requires BindingAdmits(pre.isMethod, pre.isBind, GetAttrItem(kb, tag, keys[i]).value.attrType)
    ensures exists x | x in GlobalItems(kb, tag, keys, pre, quote) :: x.name == keys[i]
  {
    var init := keys[..|keys| - 1];
    if i < |keys| - 1 {
      GlobalItemsComplete(kb, tag, init, pre, quote, i);
      var x :| x in GlobalItems(kb, tag, init, pre, quote) && x.name == init[i];
      assert x in GlobalItems(kb, tag, keys, pre, quote);
    } else {
      var x := BuildAttrSuggestion(kb, keys[i], "null", pre.isBind, pre.isMethod, GetAttrItem(kb, tag, keys[i]).value, quote).value;
      assert x in GlobalCandidate(kb, tag, keys[i], pre, quote);
    }
  }

  /** After `@` only methods are offered, after `:` no methods. */
  predicate KindFits(pre: Prefix, x: Item) {
    (pre.isMethod && !pre.isBind ==> x.kind == MethodItem)
    && (pre.isBind && !pre.isMethod ==> x.kind == PropertyItem)
  }

  lemma BuiltKindFits(kb: Kb, attr: string, tagKey: string, pre: Prefix, def: AttrDef, quote: string, x: Item)
    requires BuildAttrSuggestion(kb, attr, tagKey, pre.isBind, pre.isMethod, def, quote) == Some(x)
    ensures KindFits(pre, x)
  {
  }

  /** The candidates of `getAttrSuggestion`: the first `k` are the tag's own
      attributes and the rest global entries, each passing the
      first-character filter and the binding filter. */
  lemma AttrSuggestionsSound(kb: Kb, tag: string, pre: Prefix, quote: string) returns (k: nat)
    ensures var r := SuggestionsFor(kb, tag, pre, quote);
      && k <= |r|
      && (forall i | 0 <= i < k :: r[i].name in GetTagAttrs(kb, tag) && Admits(r[i].name, pre.text))
      && (forall i | k <= i < |r| :: r[i].name in kb.attrOrder && Admits(r[i].name, pre.text)
            && GetAttrItem(kb, tag, r[i].name).Some? && GetAttrItem(kb, tag, r[i].name).value.global)
      && (forall i | 0 <= i < |r| :: KindFits(pre, r[i]))
  {
    var r := SuggestionsFor(kb, tag, pre, quote);
    if Rejected(pre.text) {
      k := 0;
    } else {
      var t := TagAttrItems(kb, tag, GetTagAttrs(kb, tag), pre, quote);
      var g := GlobalItems(kb, tag, kb.attrOrder, pre, quote);
      assert r == t + g;
      forall i | 0 <= i < |t|
        ensures r[i].name in GetTagAttrs(kb, tag) && Admits(r[i].name, pre.text) && KindFits(pre, r[i])
      {
        assert r[i] == t[i];
        TagAttrItemsSound(kb, tag, GetTagAttrs(kb, tag), pre, quote, t[i]);
        BuiltKindFits(kb, t[i].name, tag, pre, GetAttrItem(kb, tag, t[i].name).value, quote, t[i]);
      }
      forall i | |t| <= i < |r|
        ensures r[i].name in kb.attrOrder && Admits(r[i].name, pre.text)
        ensures GetAttrItem(kb, tag, r[i].name).Some? && GetAttrItem(kb, tag, r[i].name).value.global
        ensures KindFits(pre, r[i])
      {
        assert r[i] == g[i - |t|];
        GlobalItemsSound(kb, tag, kb.attrOrder, pre, quote, g[i - |t|]);
        BuiltKindFits(kb, g[i - |t|].name, "null", pre, GetAttrItem(kb, tag, g[i - |t|].name).value, quote, g[i - |t|]);
      }
      k := |t|;
    }
  }

  /** Every declared attribute and every global entry that passes the filters
      is offered, unless the guard drops the prefix. */
  lemma AttrSuggestionsComplete(kb: Kb, tag: string, pre: Prefix, quote: string, attr: string)
    requires !Rejected(pre.text)
    requires GetAttrItem(kb, tag, attr).Some? && Admits(attr, pre.text)
    requires BindingAdmits(pre.isMethod, pre.isBind, GetAttrItem(kb, tag, attr).value.attrType)
    requires attr in GetTagAttrs(kb, tag) || (attr in kb.attrOrder && GetAttrItem(kb, tag, attr).value.global)
    ensures exists x | x in SuggestionsFor(kb, tag, pre, quote) :: x.name == attr
  {
    var attrs := GetTagAttrs(kb, tag);
    var t := TagAttrItems(kb, tag, attrs, pre, quote);
    var g := GlobalItems(kb, tag, kb.attrOrder, pre, quote);
    assert SuggestionsFor(kb, tag, pre, quote) == t + g;
    if attr in attrs {
      var i :| 0 <= i < |attrs| && attrs[i] == attr;
      TagAttrItemsComplete(kb, tag, attrs, pre, quote, i);
      var x :| x in t && x.name == attr;
      assert x in t + g;
    } else {
      var i :| 0 <= i < |kb.attrOrder| && kb.attrOrder[i] == attr;
      GlobalItemsComplete(kb, tag, kb.attrOrder, pre, quote, i);
      var x :| x in g && x.name == attr;
      assert x in t + g;
    }
  }
}
