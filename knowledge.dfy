/** The static knowledge base of component tags and attributes (TAGS and
    ATTRS), and the provider's lookups into it. */
module Knowledge {
  import opened Chars
  import opened Optional

  /** An entry of TAGS. A list field the entry lacks is the empty list and a
      text field it lacks is the empty string: the provider treats an absent
      field and an empty one alike (`defaults && …`, `version ? … : ''`). */
  datatype TagDef = TagDef(
    attributes: seq<string>,
    subtags: seq<string>,
    defaults: seq<string>,
    version: string,
    framework: string,
    description: Option<string>)

  /** An entry of ATTRS, keyed `"tag/attr"` (tag-scoped) or `"attr"`. An absent
      `type` is the empty string, which no comparison of the provider tells
      from a missing one. */
  datatype AttrDef = AttrDef(
    attrType: string,
    options: Option<seq<string>>,
    global: bool,
    framework: Option<string>,
    description: Option<string>)

  /** TAGS and ATTRS, each with the order in which `for…in` visits its keys.
      ATTRS['icons'] is the list of icon names, held in `icons`; an entry of
      `attrs` under the key "icons" is never consulted. */
  datatype Kb = Kb(
    tags: map<string, TagDef>,
    tagOrder: seq<string>,
    attrs: map<string, AttrDef>,
    attrOrder: seq<string>,
    icons: seq<string>)

  const IconsKey: string := "icons"

  /** The orders are what `for…in` visits: every key once. ATTRS's order
      also visits the key "icons", held apart in `icons`. */
  predicate WellFormed(kb: Kb) {
    TagOrderKnown(kb)
    && (forall k | k in kb.tags :: k in kb.tagOrder)
    && (forall i, j | 0 <= i < j < |kb.tagOrder| :: kb.tagOrder[i] != kb.tagOrder[j])
    && IconsKey !in kb.attrs
    && IconsKey in kb.attrOrder
    && (forall i | 0 <= i < |kb.attrOrder| :: kb.attrOrder[i] in kb.attrs || kb.attrOrder[i] == IconsKey)
    && (forall k | k in kb.attrs :: k in kb.attrOrder)
    && (forall i, j | 0 <= i < j < |kb.attrOrder| :: kb.attrOrder[i] != kb.attrOrder[j])
  }

  /** Every key visited is a key of TAGS. */
  predicate TagOrderKnown(kb: Kb) {
    forall i | 0 <= i < |kb.tagOrder| :: kb.tagOrder[i] in kb.tags
  }

  /** ATTRS['icons'] read as an attribute entry: an array has none of the fields. */
  const IconListEntry: AttrDef := AttrDef("", None, false, None, None)

  /** `ATTRS[key]`, with the truthiness test that follows every such read. */
  function Entry(kb: Kb, key: string): Option<AttrDef> {
    if key == IconsKey then Some(IconListEntry)
    else if key in kb.attrs then Some(kb.attrs[key])
    else None
  }

  /** The key of a tag-scoped entry. */
  function ScopedKey(tag: string, attr: string): string {
    tag + "/" + attr
  }

  lemma ScopedKeyIsNotIcons(tag: string, attr: string)
    ensures ScopedKey(tag, attr) != IconsKey
  {
    var k := ScopedKey(tag, attr);
    assert k[|tag|] == '/';
    if |k| == |IconsKey| {
      assert IconsKey[|tag|] != '/';
    }
  }

  /** `getAttrItem`: the tag-scoped entry when there is one, otherwise the plain one. */
  function GetAttrItem(kb: Kb, tag: string, attr: string): (r: Option<AttrDef>)
    ensures ScopedKey(tag, attr) in kb.attrs ==> r == Some(kb.attrs[ScopedKey(tag, attr)])
    ensures ScopedKey(tag, attr) !in kb.attrs && attr == IconsKey ==> r == Some(IconListEntry)
    ensures ScopedKey(tag, attr) !in kb.attrs && attr != IconsKey ==>
      r == if attr in kb.attrs then Some(kb.attrs[attr]) else None
  {
    ScopedKeyIsNotIcons(tag, attr);
    var scoped := Entry(kb, ScopedKey(tag, attr));
    if scoped.Some? then scoped else Entry(kb, attr)
  }

  /** `getTagAttrs`: the attributes a tag declares, none for an unknown tag. */
  function GetTagAttrs(kb: Kb, tag: string): (r: seq<string>)
    ensures tag in kb.tags ==> r == kb.tags[tag].attributes
    ensures tag !in kb.tags ==> r == []
  {
    if tag in kb.tags then kb.tags[tag].attributes else []
  }

  /** `firstCharsEqual`: both strings non-empty and their first characters
      equal up to (ASCII) case. */
  function FirstCharsEqual(a: string, b: string): (r: bool)
    ensures r <==> 0 < |a| && 0 < |b| && SameLetterIgnoringCase(a[0], b[0])
  {
    if 0 < |b| && 0 < |a| then
      ToLowerAgreesWithCaseRelation(a[0], b[0]);
      ToLowerAscii(a[0]) == ToLowerAscii(b[0])
    else false
  }

  /** `TAGS[tag] && TAGS[tag].framework`, as text (empty when absent). */
  function TagFramework(kb: Kb, tagKey: string): string {
    if tagKey in kb.tags then kb.tags[tagKey].framework else ""
  }
}
