/**
 * createNestedList (create.mjs): the recursive sense outline. Senses are grouped by their
 * gloss at `depth`, in order of first appearance; each group becomes one `<li>` holding
 * the shared gloss and the outline of that group one level deeper, and the groups are
 * wrapped in `<ol>`…`</ol>`.
 *
 * The markup is modelled as a sequence of tokens that spell the tags and the gloss texts,
 * so that its nesting can be stated independently of what the glosses contain.
 */
module SenseOutline {
  import opened Wrappers
  import opened Sequences
  import Js

  /** A sense as createNestedList reads it: an array of glosses, broadest first. */
  type Sense = seq<string>

  /** The value of `sense[depth]`: a gloss, or `undefined` past the end of the sense. */
  type Key = Option<string>

  function KeyAt(sense: Sense, depth: nat): (key: Key)
    ensures key.Some? <==> depth < |sense|
    ensures key.Some? ==> key.value == sense[depth]
  {
    if depth < |sense| then Some(sense[depth]) else None
  }

  /** `senses.map(sense => sense[depth])`: one key per sense, in order. */
  function KeysAt(senses: seq<Sense>, depth: nat): (keys: seq<Key>)
    ensures |keys| == |senses|
    ensures forall i :: 0 <= i < |senses| ==> keys[i] == KeyAt(senses[i], depth)
  {
    MapEach(senses, sense => KeyAt(sense, depth))
  }

  /** What `${entry}` prints for a key: the gloss, or "undefined". */
  function KeyText(key: Key): (text: string)
    ensures key.Some? ==> text == key.value
    ensures key.None? ==> text == "undefined"
  {
    match key
    case Some(gloss) => gloss
    case None => "undefined"
  }

  /**
   * The length of the longest sense: the bound on how deep the outline can go. The
   * first sense, whose length the early return tests, is within it.
   */
  function Longest(senses: seq<Sense>): (n: nat)
    ensures |senses| > 0 ==> |senses[0]| <= n
  {
    if |senses| == 0 then 0
    else
      var rest := Longest(senses[1..]);
      if |senses[0]| > rest then |senses[0]| else rest
  }

  /** `Longest` is the greatest length of a sense. */
  lemma {:induction false} LongestIsMaximum(senses: seq<Sense>)
    ensures forall s :: s in senses ==> |s| <= Longest(senses)
    ensures |senses| > 0 ==> exists s :: s in senses && |s| == Longest(senses)
  {
    if |senses| > 0 {
      LongestIsMaximum(senses[1..]);
      assert senses == [senses[0]] + senses[1..];
    }
  }

  /**
   * `senses.filter(sense => sense && sense[depth] === key)`: one group of the outline.
   * A group never holds a longer sense than the senses it is taken from, so the
   * recursion one level deeper terminates.
   */
  function Matching(senses: seq<Sense>, key: Key, depth: nat): (group: seq<Sense>)
    ensures Longest(group) <= Longest(senses)
  {
    if |senses| == 0 then []
    else
      var rest := Matching(senses[1..], key, depth);
      if KeyAt(senses[0], depth) == key then
        var group := [senses[0]] + rest;
        assert group[1..] == rest;
        group
      else rest
  }

  /** The pieces the outline's markup is made of. */
  datatype Token = OpenList | CloseList | OpenItem | CloseItem | Text(text: string)

  function Markup(t: Token): string
  {
    match t
    case OpenList => "<ol>"
    case CloseList => "</ol>"
    case OpenItem => "<li>"
    case CloseItem => "</li>"
    case Text(s) => s
  }

  /** The string a token sequence spells. */
  function Spell(ts: seq<Token>): string
  {
    if |ts| == 0 then "" else Markup(ts[0]) + Spell(ts[1..])
  }

  lemma {:induction false} SpellAppend(a: seq<Token>, b: seq<Token>)
    ensures Spell(a + b) == Spell(a) + Spell(b)
  {
    if |a| > 0 {
      assert (a + b)[1..] == a[1..] + b;
      SpellAppend(a[1..], b);
    } else {
      assert a + b == b;
    }
  }

  /**
   * The body of createNestedList(senses, depth): nothing when there are no senses or the
   * FIRST sense has no gloss at `depth` (later senses are not looked at), otherwise one
   * item per distinct key, in the order the `Set` yields them.
   */
  function ListTokens(senses: seq<Sense>, depth: nat): (ts: seq<Token>)
    ensures ts == [] <==> |senses| == 0 || depth >= |senses[0]|
    ensures ts != [] ==> ts[0] == OpenList && ts[|ts| - 1] == CloseList
    decreases Longest(senses) - depth, 1, 0
  {
    if |senses| == 0 || depth >= |senses[0]| then []
    else [OpenList] + ItemTokens(senses, Distinct(KeysAt(senses, depth)), depth) + [CloseList]
  }

  /** The `forEach` over the keys: `<li>${entry}${createNestedList(group, depth + 1)}</li>`. */
  function ItemTokens(senses: seq<Sense>, keys: seq<Key>, depth: nat): (ts: seq<Token>)
    requires depth < Longest(senses)
    ensures ts == [] <==> |keys| == 0
    ensures ts != [] ==> ts[0] == OpenItem && ts[|ts| - 1] == CloseItem
    decreases Longest(senses) - depth, 0, |keys|
  {
    if |keys| == 0 then []
    else
      [OpenItem, Text(KeyText(keys[0]))] + ListTokens(Matching(senses, keys[0], depth), depth + 1) + [CloseItem]
      + ItemTokens(senses, keys[1..], depth)
  }

  /**
   * createNestedList(senses, depth) on an array of gloss arrays. The result is empty
   * exactly when there are no senses or the first sense is too short; otherwise it is
   * one `<ol>` element (OutlineOneElement).
   */
  function NestedList(senses: seq<Sense>, depth: nat): (list: string)
    ensures list == "" <==> |senses| == 0 || depth >= |senses[0]|
    ensures list != "" ==> Js.StartsWith(list, "<ol>") && Js.EndsWith(list, "</ol>")
  {
    var ts := ListTokens(senses, depth);
    if |senses| == 0 || depth >= |senses[0]| then Spell(ts)
    else
      var items := ItemTokens(senses, Distinct(KeysAt(senses, depth)), depth);
      SpellAppend([OpenList] + items, [CloseList]);
      SpellAppend([OpenList], items);
      Spell(ts)
  }

  /**
   * createNestedList as the renderer calls it, on an array whose elements may be
   * `undefined` (`None`). The guard `senses[0] && depth >= senses[0].length` only
   * returns early when the first element is an array; otherwise `senses.map(sense =>
   * sense[depth])` indexes every element, and an `undefined` one throws. The recursive
   * calls only see the elements kept by `filter(sense => sense && …)`, never `undefined`.
   */
  function CreateNestedList(senses: seq<Option<Sense>>, depth: nat): (r: Js.Result<string>)
    ensures r.Throw? <==> !ReturnsEarly(senses, depth) && None in senses
    ensures r.Ok? ==> (r.value == "" <==> ReturnsEarly(senses, depth))
    ensures r.Ok? && r.value != "" ==> Js.StartsWith(r.value, "<ol>") && Js.EndsWith(r.value, "</ol>")
  {
    if ReturnsEarly(senses, depth) then Js.Ok("")
    else if None in senses then Js.Throw(Js.ReadOfUndefined)
    else
      var arrays := seq(|senses|, i requires 0 <= i < |senses| && None !in senses => senses[i].value);
      Js.Ok(NestedList(arrays, depth))
  }

  /** The early return of createNestedList: an empty array, or a first array too short for `depth`. */
  predicate ReturnsEarly(senses: seq<Option<Sense>>, depth: nat)
  {
    |senses| == 0 || (senses[0].Some? && depth >= |senses[0].value|)
  }

  // ---------------------------------------------------------------------------
  // The groups handed to the recursive calls

  /** A group holds exactly the senses whose key at `depth` is `key`, as often as they occur. */
  lemma {:induction false} MatchingExact(senses: seq<Sense>, key: Key, depth: nat)
    ensures forall s :: multiset(Matching(senses, key, depth))[s] ==
                       if KeyAt(s, depth) == key then multiset(senses)[s] else 0
  {
    if |senses| > 0 {
      MatchingExact(senses[1..], key, depth);
      assert senses == [senses[0]] + senses[1..];
    }
  }

  /** A group keeps the senses in their original order. */
  lemma {:induction false} MatchingInOrder(senses: seq<Sense>, key: Key, depth: nat)
    ensures IsSubsequence(Matching(senses, key, depth), senses)
  {
    if |senses| > 0 {
      var rest := Matching(senses[1..], key, depth);
      MatchingInOrder(senses[1..], key, depth);
      if KeyAt(senses[0], depth) == key {
        var group := [senses[0]] + rest;
        assert Matching(senses, key, depth) == group;
        assert group[1..] == rest;
      } else {
        assert Matching(senses, key, depth) == rest;
        if |rest| > 0 {
          MatchingKey(senses[1..], key, depth, rest[0]);
        }
      }
    }
  }

  lemma MatchingKey(senses: seq<Sense>, key: Key, depth: nat, s: Sense)
    requires s in Matching(senses, key, depth)
    ensures KeyAt(s, depth) == key
  {
    MatchingExact(senses, key, depth);
    assert multiset(Matching(senses, key, depth))[s] > 0;
  }

  /** The senses of all the groups for `keys`, put together. */
  function GroupUnion(senses: seq<Sense>, keys: seq<Key>, depth: nat): multiset<Sense>
  {
    if |keys| == 0 then multiset{} else multiset(Matching(senses, keys[0], depth)) + GroupUnion(senses, keys[1..], depth)
  }

  lemma {:induction false} GroupUnionAt(senses: seq<Sense>, keys: seq<Key>, depth: nat, s: Sense)
    requires NoDuplicates(keys)
    ensures GroupUnion(senses, keys, depth)[s] == if KeyAt(s, depth) in keys then multiset(senses)[s] else 0
  {
    if |keys| > 0 {
      MatchingExact(senses, keys[0], depth);
      GroupUnionAt(senses, keys[1..], depth, s);
      assert keys == [keys[0]] + keys[1..];
      assert keys[0] !in keys[1..];
    }
  }

  /**
   * The groups of one level partition the senses: every sense lands in exactly one group
   * (the keys are distinct and cover every sense's key), so together the groups hold the
   * senses exactly.
   */
  lemma GroupsPartition(senses: seq<Sense>, depth: nat)
    ensures GroupUnion(senses, Distinct(KeysAt(senses, depth)), depth) == multiset(senses)
  {
    var keys := Distinct(KeysAt(senses, depth));
    DistinctMembers(KeysAt(senses, depth));
    forall s
      ensures GroupUnion(senses, keys, depth)[s] == multiset(senses)[s]
    {
      GroupUnionAt(senses, keys, depth, s);
      if s in senses {
        var i :| 0 <= i < |senses| && senses[i] == s;
        assert KeysAt(senses, depth)[i] == KeyAt(s, depth);
      }
    }
  }

  // ---------------------------------------------------------------------------
  // Nesting of the markup

  /**
   * Reads `ts` from left to right with the stack of tags still open, innermost last. It
   * fails unless every `<li>` opens directly inside an `<ol>`, every `<ol>` opens at the
   * top or directly inside an `<li>`, text stands directly inside an `<li>`, and every
   * closing tag closes the innermost open tag of its kind.
   */
  function Scan(ts: seq<Token>, open: seq<Token>): Option<seq<Token>>
  {
    if |ts| == 0 then Some(open)
    else
      var inList := |open| > 0 && open[|open| - 1] == OpenList;
      var inItem := |open| > 0 && open[|open| - 1] == OpenItem;
      match ts[0]
      case OpenList => if |open| == 0 || inItem then Scan(ts[1..], open + [OpenList]) else None
      case OpenItem => if inList then Scan(ts[1..], open + [OpenItem]) else None
      case CloseList => if inList then Scan(ts[1..], open[..|open| - 1]) else None
      case CloseItem => if inItem then Scan(ts[1..], open[..|open| - 1]) else None
      case Text(_) => if inItem then Scan(ts[1..], open) else None
  }

  /** Every tag of `ts` is closed, in the right order and at the right level. */
  predicate WellNested(ts: seq<Token>)
  {
    Scan(ts, []) == Some([])
  }

  /** Scanning a concatenation scans the first part, then the second from where the first left off. */
  lemma {:induction false} ScanConcat(a: seq<Token>, b: seq<Token>, open: seq<Token>)
    ensures Scan(a + b, open) == match Scan(a, open) case Some(after) => Scan(b, after) case None => None
  {
    if |a| == 0 {
      assert a + b == b;
    } else {
      assert (a + b)[0] == a[0] && (a + b)[1..] == a[1..] + b;
      match a[0]
      case OpenList => ScanConcat(a[1..], b, open + [OpenList]);
      case OpenItem => ScanConcat(a[1..], b, open + [OpenItem]);
      case CloseList => if |open| > 0 { ScanConcat(a[1..], b, open[..|open| - 1]); }
      case CloseItem => if |open| > 0 { ScanConcat(a[1..], b, open[..|open| - 1]); }
      case Text(_) => ScanConcat(a[1..], b, open);
    }
  }

  /** An `<ol>` around items that scan back to the list level scans back to where it started. */
  lemma ScanWrapList(items: seq<Token>, open: seq<Token>)
    requires |open| == 0 || open[|open| - 1] == OpenItem
    requires Scan(items, open + [OpenList]) == Some(open + [OpenList])
    ensures Scan([OpenList] + items + [CloseList], open) == Some(open)
  {
    var inner := open + [OpenList];
    ScanConcat([OpenList] + items, [CloseList], open);
    ScanConcat([OpenList], items, open);
    assert Scan([OpenList], open) == Some(inner);
    assert inner[..|open|] == open;
    assert Scan([CloseList], inner) == Some(open);
  }

  /** An `<li>` whose sub-outline scans back to the item level, followed by items that scan back, scans back. */
  lemma ScanWrapItem(text: string, sub: seq<Token>, more: seq<Token>, open: seq<Token>)
    requires |open| > 0 && open[|open| - 1] == OpenList
    requires Scan(sub, open + [OpenItem]) == Some(open + [OpenItem])
    requires Scan(more, open) == Some(open)
    ensures Scan([OpenItem, Text(text)] + sub + [CloseItem] + more, open) == Some(open)
  {
    var head := [OpenItem, Text(text)];
    var inner := open + [OpenItem];
    ScanConcat(head + sub + [CloseItem], more, open);
    ScanConcat(head + sub, [CloseItem], open);
    ScanConcat(head, sub, open);
    ScanConcat([OpenItem], [Text(text)], open);
    assert [OpenItem] + [Text(text)] == head;
    assert Scan([OpenItem], open) == Some(inner);
    assert Scan([Text(text)], inner) == Some(inner);
    assert inner[..|open|] == open;
    assert Scan([CloseItem], inner) == Some(open);
  }

  lemma {:induction false} ScanList(senses: seq<Sense>, depth: nat, open: seq<Token>)
    requires |open| == 0 || open[|open| - 1] == OpenItem
    ensures Scan(ListTokens(senses, depth), open) == Some(open)
    decreases Longest(senses) - depth, 1, 0
  {
    if |senses| > 0 && depth < |senses[0]| {
      var keys := Distinct(KeysAt(senses, depth));
      var items := ItemTokens(senses, keys, depth);
      assert Scan(items, open + [OpenList]) == Some(open + [OpenList]) by {
        ScanItems(senses, keys, depth, open + [OpenList]);
      }
      ScanWrapList(items, open);
      assert ListTokens(senses, depth) == [OpenList] + items + [CloseList];
    }
  }

  lemma {:induction false} ScanItems(senses: seq<Sense>, keys: seq<Key>, depth: nat, open: seq<Token>)
    requires depth < Longest(senses)
    requires |open| > 0 && open[|open| - 1] == OpenList
    ensures Scan(ItemTokens(senses, keys, depth), open) == Some(open)
    decreases Longest(senses) - depth, 0, |keys|
  {
    if |keys| > 0 {
      var group := Matching(senses, keys[0], depth);
      var sub := ListTokens(group, depth + 1);
      var more := ItemTokens(senses, keys[1..], depth);
      assert Scan(sub, open + [OpenItem]) == Some(open + [OpenItem]) by {
        ScanList(group, depth + 1, open + [OpenItem]);
      }
      assert Scan(more, open) == Some(open) by {
        ScanItems(senses, keys[1..], depth, open);
      }
      ScanWrapItem(KeyText(keys[0]), sub, more, open);
      assert ItemTokens(senses, keys, depth) == [OpenItem, Text(KeyText(keys[0]))] + sub + [CloseItem] + more;
    } else {
      assert ItemTokens(senses, keys, depth) == [];
    }
  }

  /** Every `<ol>` and `<li>` of the outline is closed, at every level. */
  lemma OutlineWellNested(senses: seq<Sense>, depth: nat)
    ensures WellNested(ListTokens(senses, depth))
    ensures NestedList(senses, depth) == Spell(ListTokens(senses, depth))
  {
    ScanList(senses, depth, []);
  }

  // ---------------------------------------------------------------------------
  // The top level of the outline

  /** The nesting level after token `t`, when `level` tags were open before it. */
  function Step(t: Token, level: nat): nat
  {
    match t
    case OpenList => level + 1
    case OpenItem => level + 1
    case CloseList => if level == 0 then 0 else level - 1
    case CloseItem => if level == 0 then 0 else level - 1
    case Text(_) => level
  }

  /**
   * What a stretch of tokens shows at the top of the outline, read from nesting level
   * `level` on: the level it ends at, the `<li>` it opens directly inside the outermost
   * `<ol>` (at level 1), and the texts standing directly in those items (at level 2).
   */
  datatype TopLevel = TopLevel(level: nat, items: nat, texts: seq<string>)

  function Summary(ts: seq<Token>, level: nat): TopLevel
  {
    if |ts| == 0 then TopLevel(level, 0, [])
    else
      var rest := Summary(ts[1..], Step(ts[0], level));
      TopLevel(
        rest.level,
        (if ts[0] == OpenItem && level == 1 then 1 else 0) + rest.items,
        (if ts[0].Text? && level == 2 then [ts[0].text] else []) + rest.texts)
  }

  /** The summary of one stretch followed by another. */
  function Then(first: TopLevel, second: TopLevel): TopLevel
  {
    TopLevel(second.level, first.items + second.items, first.texts + second.texts)
  }

  lemma {:induction false} SummaryConcat(a: seq<Token>, b: seq<Token>, level: nat)
    ensures Summary(a + b, level) == Then(Summary(a, level), Summary(b, Summary(a, level).level))
  {
    if |a| == 0 {
      assert a + b == b;
    } else {
      assert (a + b)[0] == a[0] && (a + b)[1..] == a[1..] + b;
      SummaryConcat(a[1..], b, Step(a[0], level));
      var first := Summary(a[1..], Step(a[0], level));
      var second := Summary(b, first.level);
      var text: seq<string> := if a[0].Text? && level == 2 then [a[0].text] else [];
      assert text + (first.texts + second.texts) == (text + first.texts) + second.texts;
    }
  }

  lemma SummaryToken(t: Token, level: nat)
    ensures Summary([t], level) ==
      TopLevel(Step(t, level), if t == OpenItem && level == 1 then 1 else 0, if t.Text? && level == 2 then [t.text] else [])
  {
    assert [t][1..] == [];
  }

  /** What each key prints as, in order. */
  function Texts(keys: seq<Key>): seq<string>
  {
    if |keys| == 0 then [] else [KeyText(keys[0])] + Texts(keys[1..])
  }

  /** `ts` opens no top-level item, holds no top-level text and ends at the level it starts at. */
  predicate Flat(ts: seq<Token>, level: nat)
  {
    Summary(ts, level) == TopLevel(level, 0, [])
  }

  lemma FlatList(items: seq<Token>, level: nat)
    requires level >= 1 && Flat(items, level + 1)
    ensures Flat([OpenList] + items + [CloseList], level)
  {
    SummaryConcat([OpenList] + items, [CloseList], level);
    SummaryConcat([OpenList], items, level);
    SummaryToken(OpenList, level);
    SummaryToken(CloseList, level + 1);
  }

  /** An `<li>` whose sub-outline is flat: it opens one top-level item and shows its text exactly at level 1. */
  lemma ItemSummary(text: string, sub: seq<Token>, level: nat)
    requires level >= 1 && Flat(sub, level + 1)
    ensures Summary([OpenItem, Text(text)] + sub + [CloseItem], level) ==
      TopLevel(level, if level == 1 then 1 else 0, if level == 1 then [text] else [])
  {
    var head := [OpenItem, Text(text)];
    SummaryConcat(head + sub, [CloseItem], level);
    SummaryConcat(head, sub, level);
    SummaryConcat([OpenItem], [Text(text)], level);
    assert [OpenItem] + [Text(text)] == head;
    SummaryToken(OpenItem, level);
    SummaryToken(Text(text), level + 1);
    SummaryToken(CloseItem, level + 1);
  }

  lemma FlatItem(text: string, sub: seq<Token>, more: seq<Token>, level: nat)
    requires level >= 2 && Flat(sub, level + 1) && Flat(more, level)
    ensures Flat([OpenItem, Text(text)] + sub + [CloseItem] + more, level)
  {
    ItemSummary(text, sub, level);
    SummaryConcat([OpenItem, Text(text)] + sub + [CloseItem], more, level);
  }

  lemma FirstItem(text: string, sub: seq<Token>, more: seq<Token>, count: nat, texts: seq<string>)
    requires Flat(sub, 2)
    requires Summary(more, 1) == TopLevel(1, count, texts)
    ensures Summary([OpenItem, Text(text)] + sub + [CloseItem] + more, 1) == TopLevel(1, 1 + count, [text] + texts)
  {
    ItemSummary(text, sub, 1);
    SummaryConcat([OpenItem, Text(text)] + sub + [CloseItem], more, 1);
  }

  /** Below the top level, a nested list adds no top-level item and comes back to its level. */
  lemma {:induction false} NestedListFlat(senses: seq<Sense>, depth: nat, level: nat)
    requires level >= 1
    ensures Flat(ListTokens(senses, depth), level)
    decreases Longest(senses) - depth, 1, 0
  {
    if |senses| > 0 && depth < |senses[0]| {
      var keys := Distinct(KeysAt(senses, depth));
      var items := ItemTokens(senses, keys, depth);
      assert Flat(items, level + 1) by {
        NestedItemsFlat(senses, keys, depth, level + 1);
      }
      FlatList(items, level);
      assert ListTokens(senses, depth) == [OpenList] + items + [CloseList];
    } else {
      assert ListTokens(senses, depth) == [];
    }
  }

  lemma {:induction false} NestedItemsFlat(senses: seq<Sense>, keys: seq<Key>, depth: nat, level: nat)
    requires depth < Longest(senses)
    requires level >= 2
    ensures Flat(ItemTokens(senses, keys, depth), level)
    decreases Longest(senses) - depth, 0, |keys|
  {
    if |keys| > 0 {
      var group := Matching(senses, keys[0], depth);
      var sub := ListTokens(group, depth + 1);
      var more := ItemTokens(senses, keys[1..], depth);
      assert Flat(sub, level + 1) by {
        NestedListFlat(group, depth + 1, level + 1);
      }
      assert Flat(more, level) by {
        NestedItemsFlat(senses, keys[1..], depth, level);
      }
      FlatItem(KeyText(keys[0]), sub, more, level);
      assert ItemTokens(senses, keys, depth) == [OpenItem, Text(KeyText(keys[0]))] + sub + [CloseItem] + more;
    } else {
      assert ItemTokens(senses, keys, depth) == [];
    }
  }

  lemma {:induction false} TopLevelItems(senses: seq<Sense>, keys: seq<Key>, depth: nat)
    requires depth < Longest(senses)
    ensures Summary(ItemTokens(senses, keys, depth), 1) == TopLevel(1, |keys|, Texts(keys))
    decreases |keys|
  {
    if |keys| > 0 {
      var group := Matching(senses, keys[0], depth);
      var sub := ListTokens(group, depth + 1);
      var more := ItemTokens(senses, keys[1..], depth);
      assert Flat(sub, 2) by {
        NestedListFlat(group, depth + 1, 2);
      }
      assert Summary(more, 1) == TopLevel(1, |keys| - 1, Texts(keys[1..])) by {
        TopLevelItems(senses, keys[1..], depth);
      }
      FirstItem(KeyText(keys[0]), sub, more, |keys| - 1, Texts(keys[1..]));
      assert ItemTokens(senses, keys, depth) == [OpenItem, Text(KeyText(keys[0]))] + sub + [CloseItem] + more;
    } else {
      assert ItemTokens(senses, keys, depth) == [];
    }
  }

  /** The outermost `<ol>` around the items: what the items show at level 1 is what the list shows. */
  lemma TopLevelList(items: seq<Token>, count: nat, texts: seq<string>)
    requires Summary(items, 1) == TopLevel(1, count, texts)
    ensures Summary([OpenList] + items + [CloseList], 0) == TopLevel(0, count, texts)
  {
    var start := [OpenList] + items;
    assert Summary(start, 0) == TopLevel(1, count, texts) by {
      SummaryConcat([OpenList], items, 0);
      SummaryToken(OpenList, 0);
    }
    SummaryConcat(start, [CloseList], 0);
    SummaryToken(CloseList, 1);
    assert texts + [] == texts;
  }

  /**
   * A non-empty outline has exactly one top-level `<li>` per distinct key at `depth`,
   * holding that key's text: every sense's key is among them, none is repeated, and they
   * come in the order in which the keys first occur among the senses.
   */
  lemma OutlineTopLevel(senses: seq<Sense>, depth: nat)
    requires |senses| > 0 && depth < |senses[0]|
    ensures var keys := Distinct(KeysAt(senses, depth));
      && Summary(ListTokens(senses, depth), 0) == TopLevel(0, |keys|, Texts(keys))
      && NoDuplicates(keys)
      && (forall i :: 0 <= i < |senses| ==> KeyAt(senses[i], depth) in keys)
      && (forall k :: k in keys ==> k in KeysAt(senses, depth))
      && (forall i, j :: 0 <= i < j < |keys| ==>
            keys[i] in KeysAt(senses, depth) && keys[j] in KeysAt(senses, depth) &&
            FirstIndex(KeysAt(senses, depth), keys[i]) < FirstIndex(KeysAt(senses, depth), keys[j]))
  {
    var keys := Distinct(KeysAt(senses, depth));
    assert Summary(ListTokens(senses, depth), 0) == TopLevel(0, |keys|, Texts(keys)) by {
      var items := ItemTokens(senses, keys, depth);
      assert Summary(items, 1) == TopLevel(1, |keys|, Texts(keys)) by {
        TopLevelItems(senses, keys, depth);
      }
      TopLevelList(items, |keys|, Texts(keys));
      assert ListTokens(senses, depth) == [OpenList] + items + [CloseList];
    }
    DistinctMembers(KeysAt(senses, depth));
    DistinctOrder(KeysAt(senses, depth));
    forall i | 0 <= i < |senses|
      ensures KeyAt(senses[i], depth) in keys
    {
      assert KeysAt(senses, depth)[i] == KeyAt(senses[i], depth);
    }
  }
  // ---------------------------------------------------------------------------
  // The outline is a single element

  /** The lowest nesting level a stretch of tokens reaches, read from `level` on (including `level`). */
  function Lowest(ts: seq<Token>, level: nat): (low: nat)
    ensures low <= level
  {
    if |ts| == 0 then level
    else
      var rest := Lowest(ts[1..], Step(ts[0], level));
      if rest < level then rest else level
  }

  lemma {:induction false} LowestConcat(a: seq<Token>, b: seq<Token>, level: nat)
    ensures var low := Lowest(b, Summary(a, level).level);
      Lowest(a + b, level) == if low < Lowest(a, level) then low else Lowest(a, level)
  {
    if |a| == 0 {
      assert a + b == b;
    } else {
      assert (a + b)[0] == a[0] && (a + b)[1..] == a[1..] + b;
      LowestConcat(a[1..], b, Step(a[0], level));
    }
  }

  /** Every prefix of `ts` ends at a level no lower than the lowest level `ts` reaches. */
  lemma {:induction false} PrefixAbove(ts: seq<Token>, level: nat, k: nat)
    requires k <= |ts|
    ensures Summary(ts[..k], level).level >= Lowest(ts, level)
  {
    if k > 0 {
      assert ts[..k][0] == ts[0] && ts[..k][1..] == ts[1..][..k - 1];
      PrefixAbove(ts[1..], Step(ts[0], level), k - 1);
    }
  }

  /** A nested list never closes a tag that was open before it. */
  lemma {:induction false} NestedListAbove(senses: seq<Sense>, depth: nat, level: nat)
    requires level >= 1
    ensures Lowest(ListTokens(senses, depth), level) == level
    decreases Longest(senses) - depth, 1, 0
  {
    if |senses| > 0 && depth < |senses[0]| {
      var keys := Distinct(KeysAt(senses, depth));
      var items := ItemTokens(senses, keys, depth);
      NestedItemsAbove(senses, keys, depth, level + 1);
      LowestAround(items, level);
      assert ListTokens(senses, depth) == [OpenList] + items + [CloseList];
    } else {
      assert ListTokens(senses, depth) == [];
    }
  }

  /** The items of a list never close the list around them, and they end where they start. */
  lemma {:induction false} NestedItemsAbove(senses: seq<Sense>, keys: seq<Key>, depth: nat, level: nat)
    requires depth < Longest(senses)
    requires level >= 1
    ensures Lowest(ItemTokens(senses, keys, depth), level) >= level
    ensures Summary(ItemTokens(senses, keys, depth), level).level == level
    decreases Longest(senses) - depth, 0, |keys|
  {
    if |keys| > 0 {
      var group := Matching(senses, keys[0], depth);
      var sub := ListTokens(group, depth + 1);
      var more := ItemTokens(senses, keys[1..], depth);
      NestedListAbove(group, depth + 1, level + 1);
      NestedListFlat(group, depth + 1, level + 1);
      NestedItemsAbove(senses, keys[1..], depth, level);
      LowestItem(KeyText(keys[0]), sub, more, level);
      assert ItemTokens(senses, keys, depth) == [OpenItem, Text(KeyText(keys[0]))] + sub + [CloseItem] + more;
    } else {
      assert ItemTokens(senses, keys, depth) == [];
    }
  }

  /** `<ol>` items `</ol>` from `level`: the lowest level is `level` when the items stay above it. */
  lemma LowestAround(items: seq<Token>, level: nat)
    requires Lowest(items, level + 1) >= level + 1 && Summary(items, level + 1).level == level + 1
    ensures Lowest([OpenList] + items + [CloseList], level) == level
  {
    var start := [OpenList] + items;
    assert Lowest(start, level) == level && Summary(start, level).level == level + 1 by {
      LowestConcat([OpenList], items, level);
      SummaryConcat([OpenList], items, level);
      SummaryToken(OpenList, level);
      assert [OpenList][1..] == [];
    }
    LowestConcat(start, [CloseList], level);
    assert [CloseList][1..] == [];
  }

  /** One `<li>` and the items after it, from `level`, when each part stays above where it starts. */
  lemma LowestItem(text: string, sub: seq<Token>, more: seq<Token>, level: nat)
    requires level >= 1
    requires Lowest(sub, level + 1) == level + 1 && Flat(sub, level + 1)
    requires Lowest(more, level) >= level && Summary(more, level).level == level
    ensures Lowest([OpenItem, Text(text)] + sub + [CloseItem] + more, level) >= level
    ensures Summary([OpenItem, Text(text)] + sub + [CloseItem] + more, level).level == level
  {
    var head := [OpenItem, Text(text)];
    var item := head + sub + [CloseItem];
    assert Lowest(head, level) == level && Summary(head, level).level == level + 1 by {
      assert [OpenItem] + [Text(text)] == head;
      LowestConcat([OpenItem], [Text(text)], level);
      SummaryToken(OpenItem, level);
      assert [OpenItem][1..] == [] && [Text(text)][1..] == [];
    }
    assert Lowest(head + sub, level) == level && Summary(head + sub, level).level == level + 1 by {
      LowestConcat(head, sub, level);
      SummaryConcat(head, sub, level);
    }
    assert Lowest(item, level) == level && Summary(item, level).level == level by {
      LowestConcat(head + sub, [CloseItem], level);
      SummaryConcat(head + sub, [CloseItem], level);
      SummaryToken(CloseItem, level + 1);
      assert [CloseItem][1..] == [];
    }
    LowestConcat(item, more, level);
    SummaryConcat(item, more, level);
  }

  /**
   * A non-empty outline is one `<ol>` element: the `<ol>` it opens with is closed by its
   * last token and by no earlier one, so no proper prefix is back at the outermost level.
   */
  lemma OutlineOneElement(senses: seq<Sense>, depth: nat)
    requires |senses| > 0 && depth < |senses[0]|
    ensures var ts := ListTokens(senses, depth);
      forall k :: 0 < k < |ts| ==> Summary(ts[..k], 0).level >= 1
  {
    var keys := Distinct(KeysAt(senses, depth));
    var items := ItemTokens(senses, keys, depth);
    NestedItemsAbove(senses, keys, depth, 1);
    OneList(items);
    assert ListTokens(senses, depth) == [OpenList] + items + [CloseList];
  }

  /** `<ol>` items `</ol>`, with items that stay above level 1: no proper prefix is back at level 0. */
  lemma OneList(items: seq<Token>)
    requires Lowest(items, 1) >= 1
    ensures var ts := [OpenList] + items + [CloseList];
      forall k :: 0 < k < |ts| ==> Summary(ts[..k], 0).level >= 1
  {
    var ts := [OpenList] + items + [CloseList];
    forall k | 0 < k < |ts|
      ensures Summary(ts[..k], 0).level >= 1
    {
      assert ts[..k] == [OpenList] + items[..k - 1];
      InsideList(items, k - 1);
    }
  }

  /** After the opening `<ol>` and part of items that stay above level 1, the level is still at least 1. */
  lemma InsideList(items: seq<Token>, j: nat)
    requires j <= |items| && Lowest(items, 1) >= 1
    ensures Summary([OpenList] + items[..j], 0).level >= 1
  {
    SummaryConcat([OpenList], items[..j], 0);
    SummaryToken(OpenList, 0);
    PrefixAbove(items, 1, j);
  }
}
