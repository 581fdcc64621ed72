// Nested lists as the flat paragraphs Word keeps, and back: gathering the
// items of a forest rebuilds the forest.
module ListItems {
  import opened Wrappers
  import opened Tree
  import opened Gather
  import Seqs

  const MAX_LEVEL := 8  // Word's nine levels count from 0

  function Capped(level: nat): nat {
    if level < MAX_LEVEL then level else MAX_LEVEL
  }

  // ----- the items of a forest, in document order -----

  function ItemOf(list: ListTree, k: nat, level: nat): Item
    requires k < |list.items|
  {
    ListPara(Capped(level), list.tag, if list.tag.Ordered? then list.start + k else 1, list.numbering,
             list.items[k].checked, list.items[k].content)
  }

  function EntryItems(list: ListTree, k: nat, level: nat): seq<Item>
    requires k <= |list.items|
    decreases list, |list.items| - k
  {
    if k == |list.items| then [] else
      [ItemOf(list, k, level)] + ForestItems(list.items[k].sublists, level + 1) + EntryItems(list, k + 1, level)
  }

  function ForestItems(forest: seq<ListTree>, level: nat): seq<Item>
    decreases forest
  {
    if forest == [] then [] else EntryItems(forest[0], 0, level) + ForestItems(forest[1..], level)
  }

  // ----- which forests survive -----

  // What a list is, whatever its place: it has items, and only ordered lists
  // carry a start and a numbering, only checklists a check.
  predicate Formed(list: ListTree)
    decreases list
  {
    && list.items != []
    && (!list.tag.Ordered? ==> list.start == 1 && list.numbering == None)
    && forall i :: 0 <= i < |list.items| ==>
         && (list.items[i].checked ==> list.tag.Task?)
         && AllFormed(list.items[i].sublists)
  }

  predicate AllFormed(forest: seq<ListTree>)
    decreases forest
  {
    forall i :: 0 <= i < |forest| ==> Formed(forest[i])
  }

  predicate NoTwins(forest: seq<ListTree>) {
    forall i :: 0 < i < |forest| ==> forest[i - 1].tag != forest[i].tag
  }

  // At most nine levels, and no two lists of a kind side by side.
  predicate Fits(list: ListTree, level: nat)
    decreases list
  {
    && level <= MAX_LEVEL
    && forall i :: 0 <= i < |list.items| ==> ForestFits(list.items[i].sublists, level + 1)
  }

  predicate ForestFits(forest: seq<ListTree>, level: nat)
    decreases forest
  {
    && NoTwins(forest)
    && forall i :: 0 <= i < |forest| ==> Fits(forest[i], level)
  }

  // ----- gathering one part after another -----

  predicate OnlyListItems(items: seq<Item>) {
    forall i :: 0 <= i < |items| ==> items[i].ListPara?
  }

  lemma {:induction false} GatheredConcat(g: Gathering, a: seq<Item>, b: seq<Item>)
    requires OpenOk(g) && OnlyListItems(a)
    ensures OpenOk(Gathered(g, a))
    ensures Gathered(g, a + b) == Gathered(Gathered(g, a), b)
    decreases |a|
  {
    hide OpenOk, Step;
    if a == [] {
      assert a + b == b;
    } else {
      StepKeeps(g, a + b);
      StepKeeps(g, a);
      OneStep(g, a, b);
      assert (a + b)[1..] == a[1..] + b;
      GatheredConcat(Step(g, a), a[1..], b);
    }
  }

  lemma OneStep(g: Gathering, a: seq<Item>, b: seq<Item>)
    requires OpenOk(g) && a != [] && a[0].ListPara?
    ensures Taken(a) == Taken(a + b) == 1 && Step(g, a) == Step(g, a + b)
  {
    hide Placed, OpenOk;
  }

  lemma {:induction false} ItemsAreListItems(list: ListTree, k: nat, level: nat)
    requires k <= |list.items|
    ensures OnlyListItems(EntryItems(list, k, level))
    decreases list, |list.items| - k
  {
    if k < |list.items| {
      ForestAreListItems(list.items[k].sublists, level + 1);
      ItemsAreListItems(list, k + 1, level);
    }
  }

  lemma {:induction false} ForestAreListItems(forest: seq<ListTree>, level: nat)
    ensures OnlyListItems(ForestItems(forest, level))
    decreases forest
  {
    if forest != [] {
      ItemsAreListItems(forest[0], 0, level);
      ForestAreListItems(forest[1..], level);
    }
  }

  // ----- where the gathering stands -----

  // A tree put under what is open, or after everything when nothing is.
  function Attach(out: seq<Out>, stack: seq<Frame>, list: ListTree): seq<Out>
    requires stack != [] ==> out != [] && Last(out).ListOut? && Spine(Last(out).list, stack)
  {
    if stack == [] then out + [ListOut(list)]
    else Front(out) + [ListOut(AddList(Last(out).list, stack, list))]
  }

  // Each open list one level below the one before.
  predicate Indexed(stack: seq<Frame>) {
    forall i :: 0 <= i < |stack| ==> stack[i].level == i
  }

  predicate Base(out: seq<Out>, stack: seq<Frame>) {
    && Indexed(stack)
    && (stack != [] ==> out != [] && Last(out).ListOut? && Spine(Last(out).list, stack))
  }

  // `g` has gathered `out`, then `list` under the lists open on `stack`; it is
  // still inside the list, maybe deeper.
  predicate Inside(g: Gathering, out: seq<Out>, stack: seq<Frame>, list: ListTree) {
    && OpenOk(g) && Base(out, stack) && Indexed(g.stack)
    && g.out == Attach(out, stack, list)
    && |g.stack| > |stack| && g.stack[..|stack|] == stack && g.stack[|stack|].tag == list.tag
    && list.items != []
  }

  lemma OpenAt(stack: seq<Frame>, item: Item, level: nat)
    requires Indexed(stack) && item.ListPara? && item.level == level <= |stack|
    ensures OpenFor(stack, item)
            == if |stack| > level && stack[level].tag == item.tag then stack[..level + 1] else stack[..level]
  {
    PoppedAt(stack, level);
  }

  lemma {:induction false} PoppedAt(stack: seq<Frame>, level: nat)
    requires Indexed(stack) && level <= |stack|
    ensures Popped(stack, level) == if |stack| > level then stack[..level + 1] else stack
    decreases |stack|
  {
    if |stack| > level + 1 {
      PoppedAt(Front(stack), level);
      assert Front(stack)[..level + 1] == stack[..level + 1];
    } else {
      assert |stack| > level ==> stack[..level + 1] == stack;
    }
  }

  // Adding below what was just added.
  lemma {:induction false} AddBelow(root: ListTree, stack: seq<Frame>, list: ListTree, frame: Frame, added: ListTree)
    requires Spine(root, stack) && frame.tag == list.tag && list.items != []
    ensures Spine(AddList(root, stack, list), stack + [frame])
    ensures AddList(AddList(root, stack, list), stack + [frame], added)
            == AddList(root, stack, WithLast(list, Last(list.items).sublists + [added]))
    decreases |stack|
  {
    assert (stack + [frame])[1..] == stack[1..] + [frame];
    var sublists := Last(root.items).sublists;
    AddListSpine(root, stack, list, frame);
    if |stack| == 1 {
      assert stack[1..] + [frame] == [frame];
      assert Front(sublists + [list]) == sublists;
    } else {
      AddBelow(Last(sublists), stack[1..], list, frame, added);
      var last := AddList(Last(sublists), stack[1..], list);
      assert Front(Front(sublists) + [last]) == Front(sublists);
    }
    WithLastTwice(root);
  }

  lemma WithLastTwice(list: ListTree)
    requires list.items != []
    ensures forall x: seq<ListTree>, y: seq<ListTree> ::
              WithLast(WithLast(list, x), y) == WithLast(list, y) && Last(WithLast(list, x).items).sublists == x
  {
    forall x: seq<ListTree>
      ensures Front(WithLast(list, x).items) == Front(list.items)
    {
    }
  }

  lemma {:induction false} AddEntryBelow(root: ListTree, stack: seq<Frame>, list: ListTree, frame: Frame, entry: Entry)
    requires Spine(root, stack) && frame.tag == list.tag && list.items != []
    ensures Spine(AddList(root, stack, list), stack + [frame])
    ensures AddEntry(AddList(root, stack, list), stack + [frame], entry)
            == AddList(root, stack, list.(items := list.items + [entry]))
    decreases |stack|
  {
    assert (stack + [frame])[1..] == stack[1..] + [frame];
    var sublists := Last(root.items).sublists;
    AddListSpine(root, stack, list, frame);
    if |stack| == 1 {
      assert stack[1..] + [frame] == [frame];
      assert Front(sublists + [list]) == sublists;
    } else {
      AddEntryBelow(Last(sublists), stack[1..], list, frame, entry);
      var last := AddList(Last(sublists), stack[1..], list);
      assert Front(Front(sublists) + [last]) == Front(sublists);
    }
    WithLastTwice(root);
  }

  // The item that opens a list.
  lemma PlacedFirst(g: Gathering, stack: seq<Frame>, item: Item)
    requires OpenOk(g) && Indexed(g.stack) && |stack| <= |g.stack| && g.stack[..|stack|] == stack
    requires item.ListPara? && item.level == |stack|
    requires |g.stack| > |stack| ==> g.stack[|stack|].tag != item.tag
    ensures Base(g.out, stack)
    ensures Placed(g, item)
            == Gathering(Attach(g.out, stack, NewList(item)), stack + [Frame(item.level, item.tag)])
  {
    hide Spine, AddList, AddEntry, NewList;
    OpenAt(g.stack, item, |stack|);
    hide OpenFor;
    if stack != [] {
      SpinePrefix(Last(g.out).list, g.stack, |stack|);
    }
  }

  lemma FirstPlaced(g: Gathering, stack: seq<Frame>, list: ListTree)
    requires OpenOk(g) && Indexed(g.stack) && |stack| <= |g.stack| && g.stack[..|stack|] == stack
    requires |g.stack| > |stack| ==> g.stack[|stack|].tag != list.tag
    requires Formed(list) && |stack| <= MAX_LEVEL
    ensures Base(g.out, stack)
    ensures var g' := Placed(g, ItemOf(list, 0, |stack|));
            && Inside(g', g.out, stack, list.(items := [list.items[0].(sublists := [])]))
            && |g'.stack| == |stack| + 1
  {
    hide OpenOk, Placed, Spine, Attach, NewList, Formed, ItemOf;
    FormedHasItems(list);
    var item := ItemOf(list, 0, |stack|);
    FirstItem(list, |stack|);
    PlacedFirst(g, stack, item);
    PlacedKeeps(g, item);
  }

  lemma FirstItem(list: ListTree, level: nat)
    requires Formed(list) && level <= MAX_LEVEL
    ensures list.items != []
    ensures var item := ItemOf(list, 0, level);
            && item.ListPara? && item.level == level && item.tag == list.tag
            && NewList(item) == list.(items := [list.items[0].(sublists := [])])
  {
  }

  // The next item of a list still open.
  lemma PlacedNext(g: Gathering, out: seq<Out>, stack: seq<Frame>, list: ListTree, item: Item)
    requires Inside(g, out, stack, list)
    requires item.ListPara? && item.level == |stack| && item.tag == list.tag
    ensures Placed(g, item)
            == Gathering(Attach(out, stack, list.(items := list.items + [EntryOf(item)])), g.stack[..|stack| + 1])
  {
    hide Spine, AddList, AddEntry, EntryOf;
    OpenAt(g.stack, item, |stack|);
    hide OpenFor;
    var frame := g.stack[|stack|];
    assert g.stack[..|stack| + 1] == stack + [frame];
    SpinePrefix(Last(g.out).list, g.stack, |stack| + 1);
    AttachedEntry(out, stack, list, frame, EntryOf(item));
  }

  lemma AttachedEntry(out: seq<Out>, stack: seq<Frame>, list: ListTree, frame: Frame, entry: Entry)
    requires Base(out, stack) && frame.tag == list.tag && list.items != []
    ensures var now := Attach(out, stack, list);
            && now != [] && Last(now).ListOut? && Spine(Last(now).list, stack + [frame])
            && Front(now) + [ListOut(AddEntry(Last(now).list, stack + [frame], entry))]
               == Attach(out, stack, list.(items := list.items + [entry]))
  {
    if stack == [] {
      assert stack + [frame] == [frame];
      assert Front(out + [ListOut(list)]) == out;
    } else {
      AddEntryBelow(Last(out).list, stack, list, frame, entry);
      hide Spine, AddList, AddEntry;
      assert Front(Attach(out, stack, list)) == Front(out);
    }
  }

  lemma NextPlaced(g: Gathering, out: seq<Out>, stack: seq<Frame>, list: ListTree, item: Item)
    requires Inside(g, out, stack, list)
    requires item.ListPara? && item.level == |stack| && item.tag == list.tag
    ensures var g' := Placed(g, item);
            && Inside(g', out, stack, list.(items := list.items + [EntryOf(item)]))
            && |g'.stack| == |stack| + 1
  {
    hide Placed, Spine, Attach, EntryOf;
    PlacedNext(g, out, stack, list, item);
    PlacedKeeps(g, item);
    hide OpenOk;
    assert g.stack[..|stack| + 1][..|stack|] == stack;
  }

  lemma AttachedList(out: seq<Out>, stack: seq<Frame>, list: ListTree, frame: Frame, added: ListTree)
    requires Base(out, stack) && frame.tag == list.tag && list.items != []
    ensures var now := Attach(out, stack, list);
            && now != [] && Last(now).ListOut? && Spine(Last(now).list, stack + [frame])
            && Attach(now, stack + [frame], added)
               == Attach(out, stack, WithLast(list, Last(list.items).sublists + [added]))
  {
    if stack == [] {
      assert stack + [frame] == [frame];
      assert Front(out + [ListOut(list)]) == out;
    } else {
      AddBelow(Last(out).list, stack, list, frame, added);
      hide Spine, AddList, WithLast;
      assert Front(Attach(out, stack, list)) == Front(out);
    }
  }

  // A sublist gathered in full, seen from the list it is under.
  lemma SublistPlaced(g: Gathering, g': Gathering, out: seq<Out>, stack: seq<Frame>, list: ListTree, sub: ListTree)
    requires Inside(g, out, stack, list)
    requires Inside(g', g.out, g.stack[..|stack| + 1], sub)
    ensures Inside(g', out, stack, WithLast(list, Last(list.items).sublists + [sub]))
  {
    var frame := g.stack[|stack|];
    assert g.stack[..|stack| + 1] == stack + [frame];
    AttachedList(out, stack, list, frame, sub);
    hide Spine, AddList, Attach, OpenOk;
    assert g'.stack[..|stack|] == g'.stack[..|stack| + 1][..|stack|];
    assert g'.stack[|stack|] == g'.stack[..|stack| + 1][|stack|];
  }

  // ----- gathering rebuilds the forest -----

  lemma {:induction false} GatherForest(g: Gathering, out: seq<Out>, stack: seq<Frame>, list: ListTree,
                                        subs: seq<ListTree>, j: nat)
    requires j <= |subs| && list.items != [] && Inside(g, out, stack, WithLast(list, subs[..j]))
    requires AllFormed(subs) && ForestFits(subs, |stack| + 1)
    requires |g.stack| > |stack| + 1 ==> j > 0 && g.stack[|stack| + 1].tag == subs[j - 1].tag
    ensures Inside(Gathered(g, ForestItems(subs[j..], |stack| + 1)), out, stack, WithLast(list, subs))
    decreases subs, |subs| - j
  {
    hide Inside, Gathered, Formed, WithLast, OpenOk;
    InsideFacts(g, out, stack, WithLast(list, subs[..j]));
    if j == |subs| {
      assert subs[..j] == subs && subs[j..] == [];
      GatheredNothing(g);
    } else {
      var sub, level := subs[j], |stack| + 1;
      var inner := g.stack[..level];
      var items, rest := EntryItems(sub, 0, level), ForestItems(subs[j + 1..], level);
      GatherList(g, inner, sub);
      var g' := Gathered(g, items);
      SublistPlaced(g, g', out, stack, WithLast(list, subs[..j]), sub);
      GrowsByOne(list, subs, j);
      InsideFacts(g', g.out, inner, sub);
      GatherForest(g', out, stack, list, subs, j + 1);
      assert subs[j..][0] == sub && subs[j..][1..] == subs[j + 1..];
      ItemsAreListItems(sub, 0, level);
      GatheredConcat(g, items, rest);
    }
  }

  lemma GatheredNothing(g: Gathering)
    requires OpenOk(g)
    ensures Gathered(g, []) == g
  {
  }

  lemma InsideFacts(g: Gathering, out: seq<Out>, stack: seq<Frame>, list: ListTree)
    requires Inside(g, out, stack, list)
    ensures OpenOk(g) && Indexed(g.stack) && |g.stack| > |stack|
    ensures g.stack[..|stack|] == stack && g.stack[|stack|].tag == list.tag && list.items != []
  {
  }

  lemma GrowsByOne(list: ListTree, subs: seq<ListTree>, j: nat)
    requires list.items != [] && j < |subs|
    ensures var now := WithLast(list, subs[..j]);
            WithLast(now, Last(now.items).sublists + [subs[j]]) == WithLast(list, subs[..j + 1])
  {
    WithLastTwice(list);
    assert subs[..j] + [subs[j]] == subs[..j + 1];
  }

  lemma {:induction false} GatherEntries(g: Gathering, out: seq<Out>, stack: seq<Frame>, list: ListTree, k: nat)
    requires 0 < k <= |list.items| && Inside(g, out, stack, list.(items := list.items[..k]))
    requires Formed(list) && Fits(list, |stack|)
    ensures Inside(Gathered(g, EntryItems(list, k, |stack|)), out, stack, list)
    decreases list, |list.items| - k
  {
    hide Inside, Gathered, Formed, Fits, OpenOk;
    InsideFacts(g, out, stack, list.(items := list.items[..k]));
    if k == |list.items| {
      assert list.items[..k] == list.items;
      GatheredNothing(g);
    } else {
      GatherEntry(g, out, stack, list, k);
    }
  }

  lemma {:induction false} GatherEntry(g: Gathering, out: seq<Out>, stack: seq<Frame>, list: ListTree, k: nat)
    requires 0 < k < |list.items| && Inside(g, out, stack, list.(items := list.items[..k]))
    requires Formed(list) && Fits(list, |stack|)
    ensures Inside(Gathered(g, EntryItems(list, k, |stack|)), out, stack, list)
    decreases list, |list.items| - k, 0
  {
    hide Inside, Gathered, WithLast, OpenOk, Placed, Formed, Fits, AllFormed, ForestFits, ForestItems;
    ItemFacts(list, k, |stack|);
    var item, level := ItemOf(list, k, |stack|), |stack|;
    hide ItemOf;
    var before := list.(items := list.items[..k]);
    var subs := list.items[k].sublists;
    InsideFacts(g, out, stack, before);
    NextPlaced(g, out, stack, before, item);
    var g1 := Placed(g, item);
    var grown := list.(items := list.items[..k] + [list.items[k].(sublists := [])]);
    EntryThenSubs(list, k);
    InsideFacts(g1, out, stack, grown);
    var nested := ForestItems(subs, level + 1);
    GatherSubs(g1, out, stack, grown, subs);
    var g2 := Gathered(g1, nested);
    GatherEntries(g2, out, stack, list, k + 1);
    ThreeParts(g, item, nested, EntryItems(list, k + 1, level), list, k);
  }

  // All the lists under the last item of what has been gathered.
  lemma {:induction false} GatherSubs(g: Gathering, out: seq<Out>, stack: seq<Frame>, list: ListTree,
                                      subs: seq<ListTree>)
    requires list.items != [] && Inside(g, out, stack, list) && WithLast(list, []) == list
    requires |g.stack| == |stack| + 1
    requires AllFormed(subs) && ForestFits(subs, |stack| + 1)
    ensures Inside(Gathered(g, ForestItems(subs, |stack| + 1)), out, stack, WithLast(list, subs))
    decreases subs, |subs| + 1
  {
    assert subs[..0] == [] && subs[0..] == subs;
    hide *;
    GatherForest(g, out, stack, list, subs, 0);
  }

  lemma ItemFacts(list: ListTree, k: nat, level: nat)
    requires k < |list.items| && Formed(list) && Fits(list, level)
    ensures level <= MAX_LEVEL
    ensures AllFormed(list.items[k].sublists) && ForestFits(list.items[k].sublists, level + 1)
    ensures var item := ItemOf(list, k, level);
            && item.level == level && item.tag == list.tag
            && EntryOf(item) == list.items[k].(sublists := [])
  {
  }

  lemma EntryThenSubs(list: ListTree, k: nat)
    requires k < |list.items|
    ensures var grown := list.(items := list.items[..k] + [list.items[k].(sublists := [])]);
            && WithLast(grown, []) == grown
            && WithLast(grown, list.items[k].sublists) == list.(items := list.items[..k + 1])
  {
    var grown := list.(items := list.items[..k] + [list.items[k].(sublists := [])]);
    assert Front(grown.items) == list.items[..k];
    assert list.items[..k] + [list.items[k]] == list.items[..k + 1];
  }

  // An item, what is nested under it, and the rest.
  lemma ThreeParts(g: Gathering, item: Item, nested: seq<Item>, rest: seq<Item>, list: ListTree, k: nat)
    requires OpenOk(g) && item.ListPara? && k < |list.items|
    requires nested == ForestItems(list.items[k].sublists, item.level + 1)
    requires OpenOk(Placed(g, item))
    ensures OpenOk(Gathered(Placed(g, item), nested))
    ensures Gathered(g, [item] + nested + rest) == Gathered(Gathered(Placed(g, item), nested), rest)
  {
    hide OpenOk, Placed;
    ForestAreListItems(list.items[k].sublists, item.level + 1);
    var items := [item] + nested + rest;
    StepKeeps(g, items);
    assert items[1..] == nested + rest;
    GatheredConcat(Placed(g, item), nested, rest);
  }

  lemma {:induction false} GatherList(g: Gathering, stack: seq<Frame>, list: ListTree)
    requires OpenOk(g) && Indexed(g.stack) && |stack| <= |g.stack| && g.stack[..|stack|] == stack
    requires |g.stack| > |stack| ==> g.stack[|stack|].tag != list.tag
    requires Formed(list) && Fits(list, |stack|)
    ensures Inside(Gathered(g, EntryItems(list, 0, |stack|)), g.out, stack, list)
    decreases list, |list.items| + 1
  {
    hide Inside, Gathered, WithLast, OpenOk, Placed, Formed, Fits, AllFormed, ForestFits, ForestItems;
    FormedHasItems(list);
    ItemFacts(list, 0, |stack|);
    var item, level := ItemOf(list, 0, |stack|), |stack|;
    hide ItemOf;
    var subs := list.items[0].sublists;
    FirstPlaced(g, stack, list);
    var g1 := Placed(g, item);
    var grown := list.(items := list.items[..0] + [list.items[0].(sublists := [])]);
    assert list.items[..0] + [list.items[0].(sublists := [])] == [list.items[0].(sublists := [])];
    EntryThenSubs(list, 0);
    InsideFacts(g1, g.out, stack, grown);
    var nested := ForestItems(subs, level + 1);
    GatherSubs(g1, g.out, stack, grown, subs);
    var g2 := Gathered(g1, nested);
    GatherEntries(g2, g.out, stack, list, 1);
    ThreeParts(g, item, nested, EntryItems(list, 1, level), list, 0);
  }

  lemma FormedHasItems(list: ListTree)
    requires Formed(list)
    ensures list.items != []
  {
  }

  // ----- the round trip -----

  function Outs(forest: seq<ListTree>): seq<Out> {
    seq(|forest|, i requires 0 <= i < |forest| => ListOut(forest[i]))
  }

  lemma {:induction false} GatherTop(g: Gathering, forest: seq<ListTree>, j: nat)
    requires j <= |forest| && OpenOk(g) && Indexed(g.stack) && g.out == Outs(forest[..j])
    requires AllFormed(forest) && ForestFits(forest, 0)
    requires |g.stack| > 0 ==> j > 0 && g.stack[0].tag == forest[j - 1].tag
    ensures Gathered(g, ForestItems(forest[j..], 0)).out == Outs(forest)
    decreases |forest| - j
  {
    hide Gathered, OpenOk, Formed, Fits;
    if j == |forest| {
      assert forest[..j] == forest && forest[j..] == [];
      GatheredNothing(g);
    } else {
      var list := forest[j];
      var items, rest := EntryItems(list, 0, 0), ForestItems(forest[j + 1..], 0);
      GatherList(g, [], list);
      ItemsAreListItems(list, 0, 0);
      GatheredConcat(g, items, rest);
      var g' := Gathered(g, items);
      InsideFacts(g', g.out, [], list);
      assert Outs(forest[..j]) + [ListOut(list)] == Outs(forest[..j + 1]);
      GatherTop(g', forest, j + 1);
      assert forest[j..][0] == list && forest[j..][1..] == forest[j + 1..];
    }
  }

  // Flattening a forest to paragraphs and gathering them gives it back.
  lemma GatherIsInverse(forest: seq<ListTree>)
    requires AllFormed(forest) && ForestFits(forest, 0)
    ensures GatherAll(ForestItems(forest, 0)) == Outs(forest)
  {
    assert forest[0..] == forest && forest[..0] == [];
    GatherTop(Gathering([], []), forest, 0);
  }

  // ----- and only such forests survive -----

  // Levels that start at 0 and never go more than one deeper.
  predicate Smooth(items: seq<Item>, depth: nat)
    decreases |items|
  {
    items == [] ||
    (&& items[0].ListPara? && items[0].level <= depth && items[0].level <= MAX_LEVEL
     && Smooth(items[1..], items[0].level + 1))
  }

  lemma {:induction false} SmoothEntries(list: ListTree, k: nat, level: nat, depth: nat, rest: seq<Item>)
    requires k <= |list.items| && Capped(level) <= depth
    requires forall d: nat :: Capped(level) <= d ==> Smooth(rest, d)
    ensures Smooth(EntryItems(list, k, level) + rest, depth)
    decreases list, |list.items| - k
  {
    if k == |list.items| {
      assert EntryItems(list, k, level) + rest == rest;
    } else {
      var item, nested := ItemOf(list, k, level), ForestItems(list.items[k].sublists, level + 1);
      var later := EntryItems(list, k + 1, level) + rest;
      forall d: nat | Capped(level) <= d
        ensures Smooth(later, d)
      {
        SmoothEntries(list, k + 1, level, d, rest);
      }
      SmoothForest(list.items[k].sublists, level + 1, item.level + 1, later);
      var all := EntryItems(list, k, level) + rest;
      assert all == [item] + (nested + later);
      assert all[1..] == nested + later;
    }
  }

  lemma {:induction false} SmoothForest(forest: seq<ListTree>, level: nat, depth: nat, rest: seq<Item>)
    requires Capped(level) <= depth && forall d: nat :: Capped(level) <= d ==> Smooth(rest, d)
    ensures Smooth(ForestItems(forest, level) + rest, depth)
    decreases forest
  {
    if forest == [] {
      assert [] + rest == rest;
    } else {
      var later := ForestItems(forest[1..], level) + rest;
      forall d: nat | Capped(level) <= d
        ensures Smooth(later, d)
      {
        SmoothForest(forest[1..], level, d, rest);
      }
      SmoothEntries(forest[0], 0, level, depth, later);
      assert ForestItems(forest, level) + rest == EntryItems(forest[0], 0, level) + later;
    }
  }

  // The stack names the whole right spine: nothing is nested under its end.
  predicate FullSpine(list: ListTree, stack: seq<Frame>)
    decreases |stack|
  {
    && Spine(list, stack)
    && if |stack| == 1 then Last(list.items).sublists == []
       else FullSpine(Last(Last(list.items).sublists), stack[1..])
  }

  predicate Tidy(g: Gathering) {
    && Indexed(g.stack)
    && (g.out != [] ==> g.stack != [] && Last(g.out).ListOut? && FullSpine(Last(g.out).list, g.stack))
    && (g.out == [] ==> g.stack == [])
    && (forall i :: 0 <= i < |g.out| ==> g.out[i].ListOut? && Fits(g.out[i].list, 0))
    && (forall i :: 0 < i < |g.out| ==> Differ(g.out, i))
  }

  predicate Differ(out: seq<Out>, i: nat)
    requires 0 < i < |out|
  {
    out[i].ListOut? && out[i - 1].ListOut? && out[i - 1].list.tag != out[i].list.tag
  }

  lemma LastSublists(list: ListTree, sublists: seq<ListTree>, level: nat)
    requires Fits(list, level) && list.items != [] && ForestFits(sublists, level + 1)
    ensures Fits(WithLast(list, sublists), level)
  {
  }

  lemma LastFits(list: ListTree, level: nat)
    requires Fits(list, level) && list.items != []
    ensures ForestFits(Last(list.items).sublists, level + 1)
  {
  }

  lemma {:induction false} AddListFits(list: ListTree, full: seq<Frame>, m: nat, added: ListTree, frame: Frame, level: nat)
    requires FullSpine(list, full) && 0 < m <= |full| && Fits(list, level)
    requires |full| > m ==> full[m].tag != added.tag
    requires Fits(added, level + m) && |added.items| == 1 && added.items[0].sublists == [] && frame.tag == added.tag
    ensures Spine(list, full[..m])
    ensures var r := AddList(list, full[..m], added);
            Fits(r, level) && r.tag == list.tag && FullSpine(r, full[..m] + [frame])
    decreases |full|
  {
    SpinePrefix(list, full, m);
    AddListSpine(list, full[..m], added, frame);
    LastFits(list, level);
    hide Fits;
    var open := full[..m];
    var subs := Last(list.items).sublists;
    assert (open + [frame])[1..] == open[1..] + [frame];
    if m == 1 {
      var grown := subs + [added];
      if |full| > 1 {
        assert full[1..][0].tag == Last(subs).tag;
      }
      LastSublists(list, grown, level);
      assert open[1..] + [frame] == [frame];
    } else {
      assert full[1..][..m - 1] == open[1..];
      AddListFits(Last(subs), full[1..], m - 1, added, frame, level + 1);
      var last := AddList(Last(subs), open[1..], added);
      LastSublists(list, Front(subs) + [last], level);
    }
  }

  lemma {:induction false} AddEntryFits(list: ListTree, full: seq<Frame>, m: nat, entry: Entry, level: nat)
    requires FullSpine(list, full) && 0 < m <= |full| && Fits(list, level) && entry.sublists == []
    ensures Spine(list, full[..m])
    ensures var r := AddEntry(list, full[..m], entry);
            Fits(r, level) && r.tag == list.tag && FullSpine(r, full[..m])
    decreases |full|
  {
    SpinePrefix(list, full, m);
    AddEntrySpine(list, full[..m], entry);
    var open := full[..m];
    var subs := Last(list.items).sublists;
    if m > 1 {
      LastFits(list, level);
      assert full[1..][..m - 1] == open[1..];
      AddEntryFits(Last(subs), full[1..], m - 1, entry, level + 1);
      var last := AddEntry(Last(subs), open[1..], entry);
      hide Fits;
      LastSublists(list, Front(subs) + [last], level);
    }
  }

  lemma PlacedTidy(g: Gathering, item: Item)
    requires Tidy(g) && OpenOk(g) && item.ListPara? && item.level <= |g.stack| && item.level <= MAX_LEVEL
    ensures Tidy(Placed(g, item)) && |Placed(g, item).stack| == item.level + 1
  {
    OpenAt(g.stack, item, item.level);
    hide Fits, FullSpine, Spine, AddList, AddEntry, NewList;
    var open, n := OpenFor(g.stack, item), item.level;
    hide OpenFor;
    if open == [] {
      TidyAfterNew(g, item);
    } else {
      var list := Last(g.out).list;
      assert Fits(list, 0);
      if Last(open).level < n {
        assert open == g.stack[..n];
        AddListFitsHere(list, g.stack, n, item);
        TidyAfterGrowth(g, AddList(list, open, NewList(item)), open + [Frame(item.level, item.tag)]);
      } else {
        assert open == g.stack[..n + 1];
        AddEntryFits(list, g.stack, n + 1, EntryOf(item), 0);
        TidyAfterGrowth(g, AddEntry(list, open, EntryOf(item)), open);
      }
    }
  }

  lemma TidyAfterNew(g: Gathering, item: Item)
    requires Tidy(g) && item.ListPara? && item.level == 0
    requires g.stack != [] ==> g.stack[0].tag != item.tag
    ensures Tidy(Gathering(g.out + [ListOut(NewList(item))], [Frame(item.level, item.tag)]))
  {
    NewSpineFull(item);
    NewFits(item);
    if g.out != [] {
      SpineTag(Last(g.out).list, g.stack);
    }
    hide Fits, FullSpine, NewList;
    var out := g.out + [ListOut(NewList(item))];
    forall i | 0 < i < |out|
      ensures Differ(out, i)
    {
      if i < |g.out| {
        assert Differ(g.out, i);
      }
    }
  }

  lemma SpineTag(list: ListTree, stack: seq<Frame>)
    requires FullSpine(list, stack)
    ensures list.tag == stack[0].tag
  {
  }

  lemma TidyAfterGrowth(g: Gathering, list: ListTree, stack: seq<Frame>)
    requires Tidy(g) && g.out != [] && Indexed(stack) && stack != []
    requires Fits(list, 0) && list.tag == Last(g.out).list.tag && FullSpine(list, stack)
    ensures Tidy(Gathering(Front(g.out) + [ListOut(list)], stack))
  {
    hide Fits, FullSpine;
    var out := Front(g.out) + [ListOut(list)];
    forall i | 0 < i < |out|
      ensures Differ(out, i)
    {
      assert Differ(g.out, i);
    }
  }

  lemma AddListFitsHere(list: ListTree, stack: seq<Frame>, n: nat, item: Item)
    requires FullSpine(list, stack) && 0 < n <= |stack| && Fits(list, 0) && n <= MAX_LEVEL
    requires item.ListPara? && item.level == n && (|stack| > n ==> stack[n].tag != item.tag)
    ensures Spine(list, stack[..n])
    ensures var r := AddList(list, stack[..n], NewList(item));
            Fits(r, 0) && r.tag == list.tag && FullSpine(r, stack[..n] + [Frame(item.level, item.tag)])
  {
    AddListFits(list, stack, n, NewList(item), Frame(item.level, item.tag), 0);
  }

  lemma NewFits(item: Item)
    requires item.ListPara?
    ensures Fits(NewList(item), 0) && NewList(item).tag == item.tag
  {
  }

  lemma NewSpineFull(item: Item)
    requires item.ListPara?
    ensures FullSpine(NewList(item), [Frame(item.level, item.tag)])
  {
  }

  lemma {:induction false} GatheredTidy(g: Gathering, items: seq<Item>)
    requires Tidy(g) && OpenOk(g) && Smooth(items, |g.stack|)
    ensures Tidy(Gathered(g, items))
    decreases |items|
  {
    hide Tidy, OpenOk, Placed;
    if items != [] {
      PlacedTidy(g, items[0]);
      StepKeeps(g, items);
      GatheredTidy(Placed(g, items[0]), items[1..]);
    }
  }

  // What gathering tidily leaves could always have been exported.
  lemma TidyForest(forest: seq<ListTree>, stack: seq<Frame>)
    requires Tidy(Gathering(Outs(forest), stack))
    ensures ForestFits(forest, 0)
  {
    hide FullSpine, Fits;
    var outs := Outs(forest);
    forall i | 0 < i < |forest|
      ensures forest[i - 1].tag != forest[i].tag
    {
      assert Differ(outs, i);
    }
    forall i | 0 <= i < |forest|
      ensures Fits(forest[i], 0)
    {
      assert outs[i] == ListOut(forest[i]);
    }
  }

  lemma NothingTidy()
    ensures Tidy(Gathering([], [])) && OpenOk(Gathering([], []))
  {
  }

  lemma OnlyFitting(forest: seq<ListTree>)
    requires AllFormed(forest) && GatherAll(ForestItems(forest, 0)) == Outs(forest)
    ensures ForestFits(forest, 0)
  {
    hide FullSpine, Fits, Gathered, Tidy, Smooth, ForestItems, AllFormed, Outs, ForestFits;
    var items := ForestItems(forest, 0);
    NothingSmooth();
    SmoothForest(forest, 0, 0, []);
    assert items + [] == items;
    NothingTidy();
    GatheredTidy(Gathering([], []), items);
    TidyForest(forest, Gathered(Gathering([], []), items).stack);
  }

  lemma NothingSmooth()
    ensures forall d: nat :: Smooth([], d)
  {
  }

  // A forest of well-formed lists comes back from Word just as it was if and
  // only if it is at most nine levels deep and no two lists of one kind are
  // neighbours.
  lemma RoundTripsExactly(forest: seq<ListTree>)
    requires AllFormed(forest)
    ensures GatherAll(ForestItems(forest, 0)) == Outs(forest) <==> ForestFits(forest, 0)
  {
    if ForestFits(forest, 0) {
      GatherIsInverse(forest);
    }
    if GatherAll(ForestItems(forest, 0)) == Outs(forest) {
      OnlyFitting(forest);
    }
  }
}
