/** The snippet of a tag candidate (`buildTagSuggestion`) and the list of
    tag candidates (`getTagSuggestion`). The builder walks the tag and its
    `subtags` depth first; a running counter, shared by the whole walk,
    numbers the tags it visits, and the tab stops of a tag's default
    attributes are counted from that number. */
module Snippets {
  import opened Chars
  import opened Optional
  import opened Knowledge
  import opened Suggestions

  /** One string the builder pushes: an opening tag carrying its defaults and
      the counter's value when it was visited, or a closing tag. */
  datatype Piece = Open(tag: string, defaults: seq<string>, index: nat) | Close(tag: string)

  /** ` name=q$n q` for one default attribute with tab stop `n`. */
  function DefaultAttr(name: string, stop: nat, quote: string): string {
    " " + name + "=" + quote + "$" + NatToString(stop) + quote
  }

  /** The attribute text of an opening tag: the `i`-th default (from 0) gets
      tab stop `index + i + 1`. */
  function DefaultsText(ds: seq<string>, index: nat, quote: string): string {
    if ds == [] then ""
    else DefaultsText(ds[..|ds| - 1], index, quote) + DefaultAttr(ds[|ds| - 1], index + |ds|, quote)
  }

  /** The string pushed for a piece; every tag but the first starts with `<`
      (the first one's `<` is added in front of the joined text). */
  function Render(p: Piece, quote: string): string {
    match p
    case Open(tag, ds, index) => (if index > 0 then "<" else "") + tag + DefaultsText(ds, index, quote) + ">"
    case Close(tag) => "</" + tag + ">"
  }

  function RenderAll(ps: seq<Piece>, quote: string): (r: seq<string>)
    ensures |r| == |ps| && forall i | 0 <= i < |ps| :: r[i] == Render(ps[i], quote)
  {
    seq(|ps|, i requires 0 <= i < |ps| => Render(ps[i], quote))
  }

  /** `snippets.join('')` */
  function Join(ss: seq<string>): string {
    if ss == [] then "" else Join(ss[..|ss| - 1]) + ss[|ss| - 1]
  }

  lemma {:induction false} JoinAppend(a: seq<string>, b: seq<string>)
    ensures Join(a + b) == Join(a) + Join(b)
    decreases |b|
  {
    if b == [] {
      assert a + b == a;
    } else {
      var front, last := b[..|b| - 1], b[|b| - 1];
      DropLastOfAppend(a, b);
      JoinAppend(a, front);
      calc {
        Join(a + b);
        Join(a + front) + last;
        (Join(a) + Join(front)) + last;
        Join(a) + (Join(front) + last);
        Join(a) + Join(b);
      }
    }
  }

  lemma DropLastOfAppend<T>(a: seq<T>, b: seq<T>)
    requires b != []
    ensures (a + b)[..|a + b| - 1] == a + b[..|b| - 1]
  {
  }

  lemma DropLastIsHeadAndMiddle<T>(s: seq<T>)
    requires 2 <= |s|
    ensures s[..|s| - 1] == [s[0]] + s[1..|s| - 1]
  {
  }

  /** What a walk produces: its pieces and the counter's value afterwards. */
  datatype Expansion = Expansion(pieces: seq<Piece>, next: nat)

  /** `build(tag, def)` with the counter at `index`. `None` is the walk
      throwing: a subtag that is not a key of TAGS (its entry cannot be
      destructured), or nesting deeper than `fuel`, which stands for the
      stack overflow a cycle of subtags causes. */
  function Expand(kb: Kb, tag: string, def: TagDef, index: nat, fuel: nat): Option<Expansion>
    decreases fuel, 0
  {
    if fuel == 0 then None
    else match ExpandAll(kb, def.subtags, index + 1, fuel - 1)
      case None => None
      case Some(inner) => Some(Expansion([Open(tag, def.defaults, index)] + inner.pieces + [Close(tag)], inner.next))
  }

  /** The walks of the subtags `names`, one after the other, sharing the counter. */
  function ExpandAll(kb: Kb, names: seq<string>, index: nat, fuel: nat): Option<Expansion>
    decreases fuel, 1, |names|
  {
    if names == [] then Some(Expansion([], index))
    else match ExpandAll(kb, names[..|names| - 1], index, fuel)
      case None => None
      case Some(front) =>
        var name := names[|names| - 1];
        if name !in kb.tags then None
        else match Expand(kb, name, kb.tags[name], front.next, fuel)
          case None => None
          case Some(last) => Some(Expansion(front.pieces + last.pieces, last.next))
  }

  /** Once the walks of some first subtags throw, so do the walks of all. */
  lemma {:induction false} ExpandAllNoneExtends(kb: Kb, names: seq<string>, n: nat, index: nat, fuel: nat)
    requires n <= |names| && ExpandAll(kb, names[..n], index, fuel).None?
    ensures ExpandAll(kb, names, index, fuel).None?
    decreases |names|
  {
    if n < |names| {
      assert names[..|names| - 1][..n] == names[..n];
      ExpandAllNoneExtends(kb, names[..|names| - 1], n, index, fuel);
    } else {
      assert names[..n] == names;
    }
  }

  /** One more subtag walked after the first `j`. */
  lemma ExpandAllStep(kb: Kb, names: seq<string>, j: nat, index: nat, fuel: nat)
    requires j < |names| && ExpandAll(kb, names[..j], index, fuel).Some?
    ensures names[j] !in kb.tags ==> ExpandAll(kb, names[..j + 1], index, fuel).None?
    ensures names[j] in kb.tags ==>
      var front := ExpandAll(kb, names[..j], index, fuel).value;
      var e := Expand(kb, names[j], kb.tags[names[j]], front.next, fuel);
      (ExpandAll(kb, names[..j + 1], index, fuel).Some? <==> e.Some?)
      && (e.Some? ==> ExpandAll(kb, names[..j + 1], index, fuel).value
                      == Expansion(front.pieces + e.value.pieces, e.value.next))
  {
    assert names[..j + 1][..j] == names[..j];
  }

  lemma RenderAllAppend(a: seq<Piece>, b: seq<Piece>, quote: string)
    ensures RenderAll(a + b, quote) == RenderAll(a, quote) + RenderAll(b, quote)
  {
    assert RenderAll(a + b, quote) == RenderAll(a, quote) + RenderAll(b, quote);
  }

  /** Pushing the strings of more pieces onto a list that renders some pieces. */
  lemma RenderExtends(base: seq<string>, out: seq<string>, a: seq<Piece>, b: seq<Piece>, quote: string)
    requires out == base + RenderAll(a, quote)
    ensures out + RenderAll(b, quote) == base + RenderAll(a + b, quote)
  {
    RenderAllAppend(a, b, quote);
  }

  /** The opening string, the inner strings and the closing string render the wrapped pieces. */
  lemma RenderWrapped(base: seq<string>, out: seq<string>, open: Piece, inner: seq<Piece>, close: Piece, quote: string)
    requires out == base + [Render(open, quote)] + RenderAll(inner, quote)
    ensures out + [Render(close, quote)] == base + RenderAll([open] + inner + [close], quote)
  {
    RenderAllAppend([open], inner, quote);
    RenderAllAppend([open] + inner, [close], quote);
  }

  // ---------------------------------------------------------------------
  // The walk visits each tag once: one opening and one closing piece per
  // tag, numbered consecutively.

  /** The counter values of the opening pieces, in order. */
  function Opens(ps: seq<Piece>): seq<nat> {
    if ps == [] then []
    else Opens(ps[..|ps| - 1]) + (if ps[|ps| - 1].Open? then [ps[|ps| - 1].index] else [])
  }

  function Numbers(lo: nat, hi: nat): (r: seq<nat>)
    requires lo <= hi
    ensures |r| == hi - lo && forall k | 0 <= k < |r| :: r[k] == lo + k
  {
    seq(hi - lo, k requires 0 <= k < hi - lo => lo + k)
  }

  lemma {:induction false} OpensAppend(a: seq<Piece>, b: seq<Piece>)
    ensures Opens(a + b) == Opens(a) + Opens(b)
    decreases |b|
  {
    if b == [] {
      assert a + b == a;
    } else {
      assert (a + b)[..|a + b| - 1] == a + b[..|b| - 1];
      OpensAppend(a, b[..|b| - 1]);
    }
  }

  lemma OpensSingle(p: Piece)
    ensures Opens([p]) == if p.Open? then [p.index] else []
  {
    assert [p][..0] == [];
  }

  lemma NumbersSplit(lo: nat, mid: nat, hi: nat)
    requires lo <= mid <= hi
    ensures Numbers(lo, mid) + Numbers(mid, hi) == Numbers(lo, hi)
  {
  }

  /** The pieces of a finished walk of one tag, and of its subtags. */
  lemma ExpandPieces(kb: Kb, tag: string, def: TagDef, index: nat, fuel: nat)
    requires Expand(kb, tag, def, index, fuel).Some?
    ensures 0 < fuel && ExpandAll(kb, def.subtags, index + 1, fuel - 1).Some?
    ensures var inner := ExpandAll(kb, def.subtags, index + 1, fuel - 1).value;
      Expand(kb, tag, def, index, fuel).value
        == Expansion([Open(tag, def.defaults, index)] + inner.pieces + [Close(tag)], inner.next)
  {
  }

  /** A tag's walk wraps the walks of its subtags in its own two pieces. */
  lemma ExpandWraps(kb: Kb, tag: string, def: TagDef, index: nat, fuel: nat, inner: Expansion)
    requires 0 < fuel && ExpandAll(kb, def.subtags, index + 1, fuel - 1) == Some(inner)
    ensures Expand(kb, tag, def, index, fuel)
      == Some(Expansion([Open(tag, def.defaults, index)] + inner.pieces + [Close(tag)], inner.next))
  {
  }

  /** A walk from `index` yields two pieces per visited tag, starts with the
      tag's opening piece, ends with its closing piece, and numbers its
      opening pieces `index, index + 1, …, next - 1` in order. */
  lemma {:induction false} ExpandShape(kb: Kb, tag: string, def: TagDef, index: nat, fuel: nat)
    requires Expand(kb, tag, def, index, fuel).Some?
    ensures var x := Expand(kb, tag, def, index, fuel).value;
      index < x.next && |x.pieces| == 2 * (x.next - index)
      && x.pieces[0] == Open(tag, def.defaults, index) && x.pieces[|x.pieces| - 1] == Close(tag)
      && Opens(x.pieces) == Numbers(index, x.next)
    decreases fuel, 0
  {
    ExpandPieces(kb, tag, def, index, fuel);
    var inner := ExpandAll(kb, def.subtags, index + 1, fuel - 1).value;
    ExpandAllShape(kb, def.subtags, index + 1, fuel - 1);
    var o, c := Open(tag, def.defaults, index), Close(tag);
    var ps := [o] + inner.pieces + [c];
    assert Expand(kb, tag, def, index, fuel).value == Expansion(ps, inner.next);
    OpensAppend([o] + inner.pieces, [c]);
    OpensAppend([o], inner.pieces);
    OpensSingle(o);
    OpensSingle(c);
    NumbersSplit(index, index + 1, inner.next);
    assert Numbers(index, index + 1) == [index];
    calc {
      Opens(ps);
      Opens([o] + inner.pieces) + Opens([c]);
      Opens([o] + inner.pieces);
      Opens([o]) + Opens(inner.pieces);
      Numbers(index, index + 1) + Numbers(index + 1, inner.next);
      Numbers(index, inner.next);
    }
  }

  lemma {:induction false} ExpandAllShape(kb: Kb, names: seq<string>, index: nat, fuel: nat)
    requires ExpandAll(kb, names, index, fuel).Some?
    ensures var x := ExpandAll(kb, names, index, fuel).value;
      index <= x.next && |x.pieces| == 2 * (x.next - index)
      && Opens(x.pieces) == Numbers(index, x.next)
    decreases fuel, 1, |names|
  {
    if names == [] {
      assert Numbers(index, index) == [];
    } else {
      var front := ExpandAll(kb, names[..|names| - 1], index, fuel).value;
      ExpandAllShape(kb, names[..|names| - 1], index, fuel);
      var name := names[|names| - 1];
      var last := Expand(kb, name, kb.tags[name], front.next, fuel).value;
      ExpandShape(kb, name, kb.tags[name], front.next, fuel);
      OpensAppend(front.pieces, last.pieces);
      NumbersSplit(index, front.next, last.next);
    }
  }

  // ---------------------------------------------------------------------
  // The pieces are balanced: read as a sequence of tags, every closing tag
  // closes the innermost open one.

  /** A stack reading of pieces: opening pushes, closing pops a matching
      name; `None` on a mismatch. */
  function Run(ps: seq<Piece>, stack: seq<string>): Option<seq<string>>
    decreases |ps|
  {
    if ps == [] then Some(stack)
    else match ps[0]
      case Open(tag, _, _) => Run(ps[1..], stack + [tag])
      case Close(tag) =>
        if 0 < |stack| && stack[|stack| - 1] == tag then Run(ps[1..], stack[..|stack| - 1]) else None
  }

  lemma {:induction false} RunAppend(a: seq<Piece>, b: seq<Piece>, stack: seq<string>)
    ensures Run(a + b, stack) == match Run(a, stack) case None => None case Some(s) => Run(b, s)
    decreases |a|
  {
    if a != [] {
      assert (a + b)[0] == a[0] && (a + b)[1..] == a[1..] + b;
      match a[0]
      case Open(tag, _, _) => RunAppend(a[1..], b, stack + [tag]);
      case Close(tag) =>
        if 0 < |stack| && stack[|stack| - 1] == tag {
          RunAppend(a[1..], b, stack[..|stack| - 1]);
        }
    } else {
      assert a + b == b;
    }
  }

  /** A walk leaves any stack as it found it. */
  lemma {:induction false} ExpandBalanced(kb: Kb, tag: string, def: TagDef, index: nat, fuel: nat, stack: seq<string>)
    requires Expand(kb, tag, def, index, fuel).Some?
    ensures Run(Expand(kb, tag, def, index, fuel).value.pieces, stack) == Some(stack)
    decreases fuel, 0
  {
    var inner := ExpandAll(kb, def.subtags, index + 1, fuel - 1).value;
    ExpandAllBalanced(kb, def.subtags, index + 1, fuel - 1, stack + [tag]);
    var ps := [Open(tag, def.defaults, index)] + inner.pieces + [Close(tag)];
    assert ps[0] == Open(tag, def.defaults, index) && ps[1..] == inner.pieces + [Close(tag)];
    RunAppend(inner.pieces, [Close(tag)], stack + [tag]);
    assert (stack + [tag])[..|stack|] == stack;
    assert [Close(tag)][1..] == [];
  }

  lemma {:induction false} ExpandAllBalanced(kb: Kb, names: seq<string>, index: nat, fuel: nat, stack: seq<string>)
    requires ExpandAll(kb, names, index, fuel).Some?
    ensures Run(ExpandAll(kb, names, index, fuel).value.pieces, stack) == Some(stack)
    decreases fuel, 1, |names|
  {
    if names != [] {
      var front := ExpandAll(kb, names[..|names| - 1], index, fuel).value;
      ExpandAllBalanced(kb, names[..|names| - 1], index, fuel, stack);
      var name := names[|names| - 1];
      var last := Expand(kb, name, kb.tags[name], front.next, fuel).value;
      ExpandBalanced(kb, name, kb.tags[name], front.next, fuel, stack);
      RunAppend(front.pieces, last.pieces, stack);
    }
  }

  // ---------------------------------------------------------------------
  // Where the walk throws

  /** A tag listed among its own subtags never finishes: the source overflows its stack. */
  lemma {:induction false} SelfNestingThrows(kb: Kb, tag: string, index: nat, fuel: nat)
    requires tag in kb.tags && tag in kb.tags[tag].subtags
    ensures Expand(kb, tag, kb.tags[tag], index, fuel).None?
    decreases fuel, 0
  {
    if fuel > 0 {
      var subs := kb.tags[tag].subtags;
      var i :| 0 <= i < |subs| && subs[i] == tag;
      ExpandAllFailsAt(kb, subs, i, index + 1, fuel - 1);
    }
  }

  /** The walks of `names` fail when `names[i]` is a self-nesting tag. */
  lemma {:induction false} ExpandAllFailsAt(kb: Kb, names: seq<string>, i: nat, index: nat, fuel: nat)
    requires i < |names| && names[i] in kb.tags && names[i] in kb.tags[names[i]].subtags
    ensures ExpandAll(kb, names, index, fuel).None?
    decreases fuel, 1, |names|
  {
    var init := names[..|names| - 1];
    if i < |names| - 1 {
      ExpandAllFailsAt(kb, init, i, index, fuel);
    } else if ExpandAll(kb, init, index, fuel).Some? {
      SelfNestingThrows(kb, names[i], ExpandAll(kb, init, index, fuel).value.next, fuel);
    }
  }

  /** A subtag that is not a key of TAGS makes the walk throw. */
  lemma {:induction false} UnknownSubtagThrows(kb: Kb, names: seq<string>, i: nat, index: nat, fuel: nat)
    requires i < |names| && names[i] !in kb.tags
    ensures ExpandAll(kb, names, index, fuel).None?
    decreases |names|
  {
    var init := names[..|names| - 1];
    if i < |names| - 1 {
      UnknownSubtagThrows(kb, init, i, index, fuel);
    }
  }

  // ---------------------------------------------------------------------
  // Tab stops follow the tag counter, not the number of placeholders.

  /** A tag with two defaults and a subtag with one: the subtag's default
      gets tab stop 2, the same as the parent's second default. This is one
      instance; the general rule is `DefaultsText` itself, which gives the
      `i`-th default of a tag visited at count `index` the stop `index + i + 1`,
      while the count moves on by one per tag. */
  lemma TabStopsCanRepeat(quote: string)
    ensures var kb := Kb(map["child" := TagDef([], [], ["c"], "", "", None)], ["child"], map[], [], []);
      var parent := TagDef([], ["child"], ["a", "b"], "", "", None);
      Expand(kb, "parent", parent, 0, 2) == Some(Expansion(
        [Open("parent", ["a", "b"], 0), Open("child", ["c"], 1), Close("child"), Close("parent")], 2))
      && DefaultsText(["a", "b"], 0, quote) == DefaultAttr("a", 1, quote) + DefaultAttr("b", 2, quote)
      && DefaultsText(["c"], 1, quote) == DefaultAttr("c", 2, quote)
  {
    var kb := Kb(map["child" := TagDef([], [], ["c"], "", "", None)], ["child"], map[], [], []);
    var parent := TagDef([], ["child"], ["a", "b"], "", "", None);
    var child := kb.tags["child"];
    assert ExpandAll(kb, [], 2, 0) == Some(Expansion([], 2));
    var c := Expansion([Open("child", ["c"], 1)] + [] + [Close("child")], 2);
    assert Expand(kb, "child", child, 1, 1) == Some(c);
    assert ["child"][..0] == [];
    assert ExpandAll(kb, [], 1, 1) == Some(Expansion([], 1));
    assert ExpandAll(kb, ["child"], 1, 1) == Some(Expansion([] + c.pieces, 2));
    assert Expand(kb, "parent", parent, 0, 2)
      == Some(Expansion([Open("parent", ["a", "b"], 0)] + ([] + c.pieces) + [Close("parent")], 2));
    assert [Open("parent", ["a", "b"], 0)] + ([] + c.pieces) + [Close("parent")]
      == [Open("parent", ["a", "b"], 0), Open("child", ["c"], 1), Close("child"), Close("parent")];
    assert ["a", "b"][..1] == ["a"] && ["a"][..0] == [] && ["c"][..0] == [];
    assert DefaultsText(["a"], 0, quote) == "" + DefaultAttr("a", 1, quote);
    assert DefaultsText(["c"], 1, quote) == "" + DefaultAttr("c", 2, quote);
  }

  // ---------------------------------------------------------------------
  // getTagSuggestion

  /** `vue component ` followed by the version, when the entry has one. */
  function TagDetail(version: string): string {
    "vue component " + (if version != "" then "(version: " + version + ")" else "")
  }

  function SortText(id: nat, tag: string): string {
    "0" + NatToString(id) + tag
  }

  /** `buildTagSuggestion(tag, def, id)`; the snippet is the joined text
      before pretty-printing (see README). `None`: the walk throws. */
  function TagItem(kb: Kb, tag: string, def: TagDef, id: nat, quote: string): Option<Item> {
    match Expand(kb, tag, def, 0, |kb.tags|)
    case None => None
    case Some(x) =>
      Some(Item(tag, SnippetItem, SnippetText(Join(RenderAll(x.pieces, quote))),
                Some(TagDetail(def.version)), def.description, Some(SortText(id, tag))))
  }

  /** A produced candidate carries its tag's walk. This is one unfolding of
      `TagItem`: it names the fields of the record, not a derived property. */
  lemma TagItemFields(kb: Kb, tag: string, def: TagDef, id: nat, quote: string)
    requires TagItem(kb, tag, def, id, quote).Some?
    ensures Expand(kb, tag, def, 0, |kb.tags|).Some?
    ensures var x := Expand(kb, tag, def, 0, |kb.tags|).value;
      var it := TagItem(kb, tag, def, id, quote).value;
      it.name == tag && it.kind == SnippetItem && it.sortText == Some(SortText(id, tag))
      && it.detail == Some(TagDetail(def.version)) && it.documentation == def.description
      && it.insertText == SnippetText(Join(RenderAll(x.pieces, quote)))
  {
  }

  /** The joined text of at least two strings: the first, the joined middle, the last. */
  lemma JoinEnds(rs: seq<string>)
    requires 2 <= |rs|
    ensures Join(rs) == rs[0] + Join(rs[1..|rs| - 1]) + rs[|rs| - 1]
  {
    var n := |rs|;
    var init, mid := rs[..n - 1], rs[1..n - 1];
    DropLastIsHeadAndMiddle(rs);
    JoinAppend([rs[0]], mid);
    JoinSingle(rs[0]);
    calc {
      Join(rs);
      Join(init) + rs[n - 1];
      (rs[0] + Join(mid)) + rs[n - 1];
    }
  }

  lemma JoinSingle(x: string)
    ensures Join([x]) == x
  {
    assert [x][..0] == [];
  }

  /** The snippet of a tag candidate opens with the tag's name and its
      defaults and closes with the tag's closing piece. */
  lemma TagTemplateShape(kb: Kb, tag: string, def: TagDef, id: nat, quote: string)
    requires TagItem(kb, tag, def, id, quote).Some?
    ensures var t := TagItem(kb, tag, def, id, quote).value.insertText;
      var head := tag + DefaultsText(def.defaults, 0, quote) + ">";
      var tail := "</" + tag + ">";
      t.SnippetText? && |head| + |tail| <= |t.template|
      && t.template[..|head|] == head && t.template[|t.template| - |tail|..] == tail
  {
    TagItemFields(kb, tag, def, id, quote);
    RenderedEnds(kb, tag, def, quote);
  }

  /** The rendered expansion of a tag: its opening piece first, its closing piece last. */
  lemma RenderedEnds(kb: Kb, tag: string, def: TagDef, quote: string)
    requires Expand(kb, tag, def, 0, |kb.tags|).Some?
    ensures var t := Join(RenderAll(Expand(kb, tag, def, 0, |kb.tags|).value.pieces, quote));
      var head := tag + DefaultsText(def.defaults, 0, quote) + ">";
      var tail := "</" + tag + ">";
      |head| + |tail| <= |t| && t[..|head|] == head && t[|t| - |tail|..] == tail
  {
    var x := Expand(kb, tag, def, 0, |kb.tags|).value;
    ExpandShape(kb, tag, def, 0, |kb.tags|);
    var rs := RenderAll(x.pieces, quote);
    JoinEnds(rs);
    var head := tag + DefaultsText(def.defaults, 0, quote) + ">";
    var tail := "</" + tag + ">";
    assert rs[0] == head by {
      assert rs[0] == Render(Open(tag, def.defaults, 0), quote);
      assert "" + tag == tag;
    }
    assert rs[|rs| - 1] == tail;
    ConcatEnds(head, Join(rs[1..|rs| - 1]), tail);
  }

  lemma ConcatEnds<T>(h: seq<T>, m: seq<T>, t: seq<T>)
    ensures (h + m + t)[..|h|] == h && (h + m + t)[|h + m + t| - |t|..] == t
  {
  }

  /** `buildTagSuggestion(key, TAGS[key], id)`: a key that is not in TAGS
      leaves nothing to destructure, and the call throws. */
  function TagCandidate(kb: Kb, key: string, id: nat, quote: string): (r: Option<Item>)
    ensures key !in kb.tags ==> r.None?
    ensures key in kb.tags ==> r == TagItem(kb, key, kb.tags[key], id, quote)
  {
    if key in kb.tags then TagItem(kb, key, kb.tags[key], id, quote) else None
  }

  /** The candidate built for each of `keys`, the `i`-th with id `100 + i`. */
  function TagCandidates(kb: Kb, keys: seq<string>, quote: string): (r: seq<Option<Item>>)
    ensures |r| == |keys|
    ensures forall i | 0 <= i < |keys| :: r[i] == TagCandidate(kb, keys[i], 100 + i, quote)
  {
    seq(|keys|, i requires 0 <= i < |keys| => TagCandidate(kb, keys[i], 100 + i, quote))
  }

  /** The candidates for the tags `keys`. `None`: one of the walks throws. */
  function TagItems(kb: Kb, keys: seq<string>, quote: string): Option<seq<Item>> {
    AllSome(TagCandidates(kb, keys, quote))
  }

  /** The `i`-th candidate is the one built for the `i`-th key with id `100 + i`. */
  lemma TagItemsEach(kb: Kb, keys: seq<string>, quote: string)
    requires TagItems(kb, keys, quote).Some?
    ensures var items := TagItems(kb, keys, quote).value;
      |items| == |keys|
      && forall i | 0 <= i < |keys| :: Some(items[i]) == TagCandidate(kb, keys[i], 100 + i, quote)
  {
    var cs := TagCandidates(kb, keys, quote);
    AllSomeEach(cs);
    forall i | 0 <= i < |keys| ensures Some(AllSome(cs).value[i]) == TagCandidate(kb, keys[i], 100 + i, quote) {
      assert cs[i] == TagCandidate(kb, keys[i], 100 + i, quote);
    }
  }

  /** One candidate per key, in key order, labelled with the key and sorted
      by `"0" + (100 + i) + key`. */
  lemma TagItemsShape(kb: Kb, keys: seq<string>, quote: string)
    requires TagItems(kb, keys, quote).Some?
    ensures var items := TagItems(kb, keys, quote).value;
      |items| == |keys|
      && forall i | 0 <= i < |keys| ::
           items[i].name == keys[i] && items[i].kind == SnippetItem
           && items[i].sortText == Some(SortText(100 + i, keys[i]))
  {
    TagItemsEach(kb, keys, quote);
    var items := TagItems(kb, keys, quote).value;
    forall i | 0 <= i < |keys|
      ensures items[i].name == keys[i] && items[i].kind == SnippetItem
      ensures items[i].sortText == Some(SortText(100 + i, keys[i]))
    {
      assert keys[i] in kb.tags;
      TagItemFields(kb, keys[i], kb.tags[keys[i]], 100 + i, quote);
    }
  }

  /** The list is produced exactly when every key is a key of TAGS and its
      tag's walk finishes. */
  lemma TagItemsDefined(kb: Kb, keys: seq<string>, quote: string)
    ensures TagItems(kb, keys, quote).Some? <==>
      forall i | 0 <= i < |keys| ::
        keys[i] in kb.tags && Expand(kb, keys[i], kb.tags[keys[i]], 0, |kb.tags|).Some?
  {
    var cs := TagCandidates(kb, keys, quote);
    AllSomeEach(cs);
    forall i | 0 <= i < |keys|
      ensures cs[i].Some? <==> keys[i] in kb.tags && Expand(kb, keys[i], kb.tags[keys[i]], 0, |kb.tags|).Some?
    {
      assert cs[i] == TagCandidate(kb, keys[i], 100 + i, quote);
    }
  }

  lemma TenthsOrder(m: nat, n: nat)
    requires m < n
    ensures m / 10 < n / 10 || (m / 10 == n / 10 && m % 10 < n % 10)
  {
  }

  lemma HundredthsAreTenthsOfTenths(m: nat)
    ensures m / 10 / 10 == m / 100
  {
  }

  /** Of two three-digit numbers, the smaller has the smaller digit where they first differ. */
  lemma ThreeDigitOrder(m: nat, n: nat)
    requires m < n
    ensures m / 100 < n / 100
      || (m / 100 == n / 100 && m / 10 % 10 < n / 10 % 10)
      || (m / 100 == n / 100 && m / 10 % 10 == n / 10 % 10 && m % 10 < n % 10)
  {
    TenthsOrder(m, n);
    HundredthsAreTenthsOfTenths(m);
    HundredthsAreTenthsOfTenths(n);
    if m / 10 < n / 10 {
      TenthsOrder(m / 10, n / 10);
    }
  }

  /** The first four characters of a sort text with a three-digit id. */
  lemma SortTextHead(m: nat, a: string)
    requires 100 <= m < 1000
    ensures var s := SortText(m, a);
      4 <= |s| && s[0] == '0' && s[1] == DigitChar(m / 100)
      && s[2] == DigitChar(m / 10 % 10) && s[3] == DigitChar(m % 10)
  {
    ThreeDigits(m);
    assert SortText(m, a) == "0" + NatToString(m) + a;
  }

  /** While the ids stay three digits long (fewer than 900 tags), the sort
      texts order the candidates as the keys are ordered. */
  lemma SortTextsFollowKeyOrder(i: nat, j: nat, a: string, b: string)
    requires i < j < 900
    ensures LexLess(SortText(100 + i, a), SortText(100 + j, b))
  {
    var m, n := 100 + i, 100 + j;
    SortTextHead(m, a);
    SortTextHead(n, b);
    var s, t := SortText(m, a), SortText(n, b);
    ThreeDigitOrder(m, n);
    var k := if m / 100 != n / 100 then 1 else if m / 10 % 10 != n / 10 % 10 then 2 else 3;
    assert s[..k] == t[..k];
    assert s[k] < t[k];
  }
}
