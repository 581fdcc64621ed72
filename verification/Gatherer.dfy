// _gather and _place as they run: list nodes shared between the result and the
// stack, and grown in place through either.
module Gatherer {
  import opened Wrappers
  import opened Tree
  import opened Gather
  import opened Arena
  import Seqs

  datatype Info =
    | ListInfo(tag: Tag, start: int, numbering: Option<string>)
    | EntryInfo(checked: bool, content: seq<Node>)

  // ----- lists as rose trees: lists and items alternate -----

  function ToRose(list: ListTree): Rose<Info>
    decreases list
  {
    Rose(ListInfo(list.tag, list.start, list.numbering),
         seq(|list.items|, i requires 0 <= i < |list.items| => EntryRose(list.items[i])))
  }

  function EntryRose(e: Entry): Rose<Info>
    decreases e
  {
    Rose(EntryInfo(e.checked, e.content),
         seq(|e.sublists|, i requires 0 <= i < |e.sublists| => ToRose(e.sublists[i])))
  }

  lemma LastRose(list: ListTree)
    requires list.items != []
    ensures var rose := ToRose(list);
            rose.children != [] && rose.children[|rose.children| - 1] == EntryRose(Last(list.items))
  {
  }

  lemma LastSubRose(e: Entry)
    requires e.sublists != []
    ensures var rose := EntryRose(e);
            rose.children != [] && rose.children[|rose.children| - 1] == ToRose(Last(e.sublists))
  {
  }

  // New lists under the last item, in the rose.
  lemma WithLastRose(list: ListTree, sublists: seq<ListTree>)
    requires list.items != []
    ensures var rose, n := ToRose(list), |list.items|;
            ToRose(WithLast(list, sublists))
            == rose.(children := rose.children[..n - 1] + [EntryRose(Last(list.items).(sublists := sublists))])
  {
    var rose := ToRose(list);
    var now := ToRose(WithLast(list, sublists));
    assert now.children
           == rose.children[..|list.items| - 1] + [EntryRose(Last(list.items).(sublists := sublists))];
  }

  lemma LastSubReplaced(e: Entry, last: ListTree)
    requires e.sublists != []
    ensures var rose := EntryRose(e);
            EntryRose(e.(sublists := Front(e.sublists) + [last]))
            == rose.(children := rose.children[..|rose.children| - 1] + [ToRose(last)])
  {
    var rose := EntryRose(e);
    assert EntryRose(e.(sublists := Front(e.sublists) + [last])).children
           == rose.children[..|rose.children| - 1] + [ToRose(last)];
  }

  lemma LastSubAdded(e: Entry, added: ListTree)
    ensures var rose := EntryRose(e);
            EntryRose(e.(sublists := e.sublists + [added])) == rose.(children := rose.children + [ToRose(added)])
  {
    var rose := EntryRose(e);
    assert EntryRose(e.(sublists := e.sublists + [added])).children == rose.children + [ToRose(added)];
  }

  lemma EntryAdded(list: ListTree, e: Entry)
    ensures var rose := ToRose(list);
            ToRose(list.(items := list.items + [e])) == rose.(children := rose.children + [EntryRose(e)])
  {
    var rose := ToRose(list);
    assert ToRose(list.(items := list.items + [e])).children == rose.children + [EntryRose(e)];
  }

  lemma {:induction false} RoseAddList(list: ListTree, stack: seq<Frame>, added: ListTree)
    requires Spine(list, stack)
    ensures var d := 2 * |stack| - 1;
            && Descends(ToRose(list), d)
            && ToRose(AddList(list, stack, added)) == AddChildAt(ToRose(list), d, ToRose(added))
    decreases |stack|
  {
    var last := Last(list.items);
    LastRose(list);
    if |stack| == 1 {
      hide ToRose, EntryRose;
      WithLastRose(list, last.sublists + [added]);
      LastSubAdded(last, added);
      assert Descends(EntryRose(last), 0);
    } else {
      hide ToRose, EntryRose;
      LastSubRose(last);
      RoseAddList(Last(last.sublists), stack[1..], added);
      var grown := AddList(Last(last.sublists), stack[1..], added);
      WithLastRose(list, Front(last.sublists) + [grown]);
      LastSubReplaced(last, grown);
      assert Descends(EntryRose(last), 2 * |stack| - 2);
    }
  }

  lemma {:induction false} RoseAddEntry(list: ListTree, stack: seq<Frame>, e: Entry)
    requires Spine(list, stack)
    ensures var d := 2 * |stack| - 2;
            && Descends(ToRose(list), d)
            && ToRose(AddEntry(list, stack, e)) == AddChildAt(ToRose(list), d, EntryRose(e))
    decreases |stack|
  {
    var last := Last(list.items);
    LastRose(list);
    hide ToRose, EntryRose;
    if |stack| == 1 {
      EntryAdded(list, e);
    } else {
      LastSubRose(last);
      RoseAddEntry(Last(last.sublists), stack[1..], e);
      var grown := AddEntry(Last(last.sublists), stack[1..], e);
      WithLastRose(list, Front(last.sublists) + [grown]);
      LastSubReplaced(last, grown);
      assert Descends(EntryRose(last), 2 * |stack| - 3);
    }
  }

  lemma {:induction false} ReachesRose(cells: seq<Cell<Info>>, id: nat, depth: nat)
    requires Ok(cells, id, |cells|) && Descends(RoseOf(cells, id, |cells|), depth)
    ensures Reaches(cells, id, depth)
    decreases depth
  {
    if depth > 0 {
      ReachesRose(cells, cells[id].children[|cells[id].children| - 1], depth - 1);
    }
  }

  // ----- what the references stand for -----

  datatype OutRef = ListRef(id: nat) | Whole(out: Out)

  datatype Opened = Opened(frame: Frame, id: nat)

  function Frames(stack: seq<Opened>): seq<Frame> {
    seq(|stack|, i requires 0 <= i < |stack| => stack[i].frame)
  }

  predicate StandsFor(cells: seq<Cell<Info>>, ref: OutRef, end: nat, out: Out) {
    match ref
    case Whole(o) => out == o && !o.ListOut?
    case ListRef(id) => out.ListOut? && Ok(cells, id, end) && RoseOf(cells, id, end) == ToRose(out.list)
  }

  // Each list on the stack is two further down the right spine of the first.
  predicate OnSpine(cells: seq<Cell<Info>>, stack: seq<Opened>) {
    forall k :: 0 <= k < |stack| ==>
      && Ok(cells, stack[0].id, |cells|)
      && Reaches(cells, stack[0].id, 2 * k) && stack[k].id == Deep(cells, stack[0].id, 2 * k)
  }

  // The cells, references and stack stand for `model`; output number i lies in
  // the cells before `ends[i]`.
  predicate Represents(cells: seq<Cell<Info>>, out: seq<OutRef>, stack: seq<Opened>, ends: seq<nat>, model: Gathering) {
    && OpenOk(model)
    && |out| == |ends| == |model.out| && Frames(stack) == model.stack
    && (forall i :: 0 <= i < |out| ==> ends[i] <= |cells| && StandsFor(cells, out[i], ends[i], model.out[i]))
    && OnSpine(cells, stack)
    && (stack != [] ==>
          && out != [] && Last(out) == ListRef(stack[0].id) && Last(ends) == |cells|
          && forall i :: 0 <= i < |out| - 1 ==> ends[i] <= stack[0].id)
  }

  lemma OtherStands(a: seq<Cell<Info>>, b: seq<Cell<Info>>, ref: OutRef, end: nat, out: Out)
    requires StandsFor(a, ref, end, out) && end <= |a| && Agree(a, b, 0, end)
    ensures StandsFor(b, ref, end, out)
  {
    if ref.ListRef? {
      Untouched(a, b, ref.id, end);
    }
  }

  // The last block grows at some depth on its spine; everything else stands.
  lemma Grown(a: seq<Cell<Info>>, b: seq<Cell<Info>>, out: seq<OutRef>, stack: seq<Opened>, ends: seq<nat>,
              model: Gathering, m: nat, depth: nat, child: Rose<Info>, list: ListTree)
    requires Represents(a, out, stack, ends, model) && 0 < m <= |stack|
    requires depth >= 2 * m - 2 && Descends(ToRose(Last(model.out).list), depth)
    requires Ok(a, stack[0].id, |a|) && Reaches(a, stack[0].id, depth)
    requires Appended(a, b, Deep(a, stack[0].id, depth)) && RoseOf(b, |a|, |b|) == child
    requires ToRose(list) == AddChildAt(ToRose(Last(model.out).list), depth, child)
    ensures var ends' := Front(ends) + [|b|];
            && (forall i :: 0 <= i < |out| ==>
                  ends'[i] <= |b| && StandsFor(b, out[i], ends'[i], (Front(model.out) + [ListOut(list)])[i]))
            && OnSpine(b, stack[..m])
  {
    var root := stack[0].id;
    assert StandsFor(a, out[|out| - 1], ends[|out| - 1], model.out[|out| - 1]);
    AppendDeep(a, b, root, depth);
    var ends', models := Front(ends) + [|b|], Front(model.out) + [ListOut(list)];
    forall i | 0 <= i < |out|
      ensures ends'[i] <= |b| && StandsFor(b, out[i], ends'[i], models[i])
    {
      if i < |out| - 1 {
        assert StandsFor(a, out[i], ends[i], model.out[i]);
        OtherStands(a, b, out[i], ends[i], model.out[i]);
      }
    }
    forall k | 0 <= k < m
      ensures Reaches(b, root, 2 * k) && stack[k].id == Deep(b, root, 2 * k)
    {
      SpineAfter(a, b, root, depth, 2 * k);
    }
  }

  lemma NewListRose(b: seq<Cell<Info>>, n: nat, item: Item)
    requires item.ListPara? && |b| == n + 2
    requires var list := NewList(item);
             && b[n] == Cell(ListInfo(list.tag, list.start, list.numbering), [n + 1])
             && b[n + 1] == Cell(EntryInfo(EntryOf(item).checked, EntryOf(item).content), [])
    ensures Ok(b, n, |b|) && RoseOf(b, n, |b|) == ToRose(NewList(item))
  {
    var e := EntryOf(item);
    assert Ok(b, n + 1, n + 2);
    assert RoseOf(b, n + 1, n + 2).children == [];
    assert EntryRose(e).children == [];
    assert RoseOf(b, n + 1, n + 2) == EntryRose(e);
    assert RoseOf(b, n, n + 2).children == [EntryRose(e)];
    assert ToRose(NewList(item)).children == [EntryRose(e)];
  }

  lemma NewEntryRose(b: seq<Cell<Info>>, n: nat, item: Item)
    requires item.ListPara? && |b| == n + 1
    requires b[n] == Cell(EntryInfo(EntryOf(item).checked, EntryOf(item).content), [])
    ensures Ok(b, n, |b|) && RoseOf(b, n, |b|) == EntryRose(EntryOf(item))
  {
    assert RoseOf(b, n, n + 1).children == [];
    assert EntryRose(EntryOf(item)).children == [];
  }

  lemma FramesPrefix(stack: seq<Opened>, m: nat)
    requires m <= |stack|
    ensures Frames(stack[..m]) == Frames(stack)[..m]
  {
  }

  // The first list open, and where the last of the first `m` of them is on its spine.
  lemma SpineFacts(a: seq<Cell<Info>>, out: seq<OutRef>, stack: seq<Opened>, ends: seq<nat>, model: Gathering, m: nat)
    requires Represents(a, out, stack, ends, model) && 0 < m <= |stack|
    ensures |model.stack| == |stack| && |out| > 0 && |out| == |model.out| == |ends|
    ensures Last(model.out).ListOut? && Spine(Last(model.out).list, model.stack[..m])
    ensures Ok(a, stack[0].id, |a|) && RoseOf(a, stack[0].id, |a|) == ToRose(Last(model.out).list)
    ensures Reaches(a, stack[0].id, 2 * m - 2) && stack[m - 1].id == Deep(a, stack[0].id, 2 * m - 2)
    ensures Frames(stack[..m]) == model.stack[..m]
  {
    hide Ok, RoseOf, ToRose, Deep, Reaches;
    assert StandsFor(a, out[|out| - 1], ends[|out| - 1], model.out[|out| - 1]);
    FramesPrefix(stack, m);
    SpinePrefix(Last(model.out).list, model.stack, m);
    assert 2 * (m - 1) == 2 * m - 2;
  }

  // Once its last list has grown, the whole still stands for the model.
  lemma StillRepresents(a: seq<Cell<Info>>, b: seq<Cell<Info>>, out: seq<OutRef>, stack: seq<Opened>, ends: seq<nat>,
                        model: Gathering, m: nat, list: ListTree, stack': seq<Opened>, model': Gathering)
    requires Represents(a, out, stack, ends, model) && 0 < m <= |stack| && |a| <= |b|
    requires forall i :: 0 <= i < |out| ==>
               (Front(ends) + [|b|])[i] <= |b|
               && StandsFor(b, out[i], (Front(ends) + [|b|])[i], (Front(model.out) + [ListOut(list)])[i])
    requires OpenOk(model') && model'.out == Front(model.out) + [ListOut(list)]
    requires Frames(stack') == model'.stack && OnSpine(b, stack') && stack' != [] && stack'[0].id == stack[0].id
    ensures Represents(b, out, stack', Front(ends) + [|b|], model')
  {
    hide StandsFor, OnSpine, OpenOk;
  }

  // An item at the end of a list that is open.
  lemma EntryPlaced(a: seq<Cell<Info>>, b: seq<Cell<Info>>, out: seq<OutRef>, stack: seq<Opened>, ends: seq<nat>,
                    model: Gathering, m: nat, item: Item)
    requires Represents(a, out, stack, ends, model) && item.ListPara? && 0 < m <= |stack|
    requires OpenFor(model.stack, item) == model.stack[..m] && model.stack[m - 1].level == item.level
    requires var top, e := stack[m - 1].id, EntryOf(item);
             && top < |a|
             && b == a[top := a[top].(children := a[top].children + [|a|])] + [Cell(EntryInfo(e.checked, e.content), [])]
    ensures Represents(b, out, stack[..m], Front(ends) + [|b|], Placed(model, item))
  {
    hide Placed, Spine, ToRose, EntryRose, RoseOf, Ok, AddEntry, OpenFor, AddList, Deep, Reaches, Descends, AddChildAt,
      OnSpine, StandsFor;
    SpineFacts(a, out, stack, ends, model, m);
    RepresentsOpen(a, out, stack, ends, model);
    var list, open, e := Last(model.out).list, model.stack[..m], EntryOf(item);
    RoseAddEntry(list, open, e);
    NewEntryRose(b, |a|, item);
    var grown := AddEntry(list, open, e);
    Grown(a, b, out, stack, ends, model, m, 2 * m - 2, EntryRose(e), grown);
    PlacedEntry(model, item, m);
    PlacedKeeps(model, item);
    StillRepresents(a, b, out, stack, ends, model, m, grown, stack[..m], Placed(model, item));
  }

  lemma RepresentsOpen(a: seq<Cell<Info>>, out: seq<OutRef>, stack: seq<Opened>, ends: seq<nat>, model: Gathering)
    requires Represents(a, out, stack, ends, model)
    ensures OpenOk(model)
  {
  }

  lemma PlacedEntry(model: Gathering, item: Item, m: nat)
    requires OpenOk(model) && item.ListPara? && 0 < m <= |model.stack|
    requires OpenFor(model.stack, item) == model.stack[..m] && model.stack[m - 1].level == item.level
    ensures Spine(Last(model.out).list, model.stack[..m])
    ensures Placed(model, item)
            == Gathering(Front(model.out) + [ListOut(AddEntry(Last(model.out).list, model.stack[..m], EntryOf(item)))],
                         model.stack[..m])
  {
    SpinePrefix(Last(model.out).list, model.stack, m);
  }

  lemma PlacedSublist(model: Gathering, item: Item, m: nat)
    requires OpenOk(model) && item.ListPara? && 0 < m <= |model.stack|
    requires OpenFor(model.stack, item) == model.stack[..m] && model.stack[m - 1].level < item.level
    ensures Spine(Last(model.out).list, model.stack[..m])
    ensures Placed(model, item)
            == Gathering(Front(model.out) + [ListOut(AddList(Last(model.out).list, model.stack[..m], NewList(item)))],
                         model.stack[..m] + [Frame(item.level, item.tag)])
  {
    SpinePrefix(Last(model.out).list, model.stack, m);
  }

  // A list under the last item of the list that is open.
  lemma SublistPlaced(a: seq<Cell<Info>>, b: seq<Cell<Info>>, out: seq<OutRef>, stack: seq<Opened>, ends: seq<nat>,
                      model: Gathering, m: nat, item: Item, entry: nat)
    requires Represents(a, out, stack, ends, model) && item.ListPara? && 0 < m <= |stack|
    requires OpenFor(model.stack, item) == model.stack[..m] && model.stack[m - 1].level < item.level
    requires stack[m - 1].id < |a| && a[stack[m - 1].id].children != []
    requires entry == Last(a[stack[m - 1].id].children) && entry < |a|
    requires var list, e := NewList(item), EntryOf(item);
             b == a[entry := a[entry].(children := a[entry].children + [|a|])]
                  + [Cell(ListInfo(list.tag, list.start, list.numbering), [|a| + 1]),
                     Cell(EntryInfo(e.checked, e.content), [])]
    ensures Represents(b, out, stack[..m] + [Opened(Frame(item.level, item.tag), |a|)], Front(ends) + [|b|],
                       Placed(model, item))
  {
    hide Placed, Spine, ToRose, EntryRose, RoseOf, Ok, AddEntry, OpenFor, AddList, Deep, Reaches, Descends, AddChildAt,
      OnSpine, StandsFor, NewList;
    SpineFacts(a, out, stack, ends, model, m);
    RepresentsOpen(a, out, stack, ends, model);
    var list, open, added := Last(model.out).list, model.stack[..m], NewList(item);
    var root, depth := stack[0].id, 2 * m - 1;
    RoseAddList(list, open, added);
    ReachesRose(a, root, depth);
    OneFurther(a, root, 2 * m - 2);
    NewListRose(b, |a|, item);
    var grown := AddList(list, open, added);
    Grown(a, b, out, stack, ends, model, m, depth, ToRose(added), grown);
    PlacedSublist(model, item, m);
    PlacedKeeps(model, item);
    var stack' := stack[..m] + [Opened(Frame(item.level, item.tag), |a|)];
    GrownOk(a, b, root, depth);
    LongerSpine(a, b, root, m, stack[..m], stack');
    assert Frames(stack') == open + [Frame(item.level, item.tag)];
    StillRepresents(a, b, out, stack, ends, model, m, grown, stack', Placed(model, item));
  }

  lemma GrownOk(a: seq<Cell<Info>>, b: seq<Cell<Info>>, root: nat, depth: nat)
    requires Ok(a, root, |a|) && Reaches(a, root, depth) && Appended(a, b, Deep(a, root, depth))
    ensures Ok(b, root, |b|)
  {
    AppendDeep(a, b, root, depth);
  }

  lemma {:induction false} OneFurther(cells: seq<Cell<Info>>, id: nat, d: nat)
    requires Ok(cells, id, |cells|) && Reaches(cells, id, d + 1)
    ensures Reaches(cells, id, d) && Ok(cells, Deep(cells, id, d), |cells|)
    ensures var c := cells[Deep(cells, id, d)].children; c != [] && Deep(cells, id, d + 1) == c[|c| - 1]
    decreases d
  {
    if d > 0 {
      OneFurther(cells, cells[id].children[|cells[id].children| - 1], d - 1);
    }
  }

  lemma LongerSpine(a: seq<Cell<Info>>, b: seq<Cell<Info>>, root: nat, m: nat, stack: seq<Opened>, stack': seq<Opened>)
    requires m > 0 && |stack| == m && stack[0].id == root && OnSpine(b, stack)
    requires |stack'| == m + 1 && stack'[..m] == stack && stack'[m].id == |a|
    requires Ok(a, root, |a|) && Reaches(a, root, 2 * m - 1) && Appended(a, b, Deep(a, root, 2 * m - 1)) && Ok(b, root, |b|)
    ensures OnSpine(b, stack')
  {
    hide Ok, Reaches, Deep, Appended;
    SpineAfter(a, b, root, 2 * m - 1, 2 * m);
    assert stack'[0] == stack'[..m][0];
    forall k | 0 <= k < |stack'|
      ensures Reaches(b, stack'[0].id, 2 * k) && stack'[k].id == Deep(b, stack'[0].id, 2 * k)
    {
      if k < m {
        assert stack'[k] == stack'[..m][k];
      }
    }
  }

  // A list after everything there is.
  lemma NewPlaced(a: seq<Cell<Info>>, b: seq<Cell<Info>>, out: seq<OutRef>, stack: seq<Opened>, ends: seq<nat>,
                  model: Gathering, item: Item)
    requires Represents(a, out, stack, ends, model) && item.ListPara? && OpenFor(model.stack, item) == []
    requires var list, e := NewList(item), EntryOf(item);
             b == a + [Cell(ListInfo(list.tag, list.start, list.numbering), [|a| + 1]),
                       Cell(EntryInfo(e.checked, e.content), [])]
    ensures Represents(b, out + [ListRef(|a|)], [Opened(Frame(item.level, item.tag), |a|)], ends + [|b|],
                       Placed(model, item))
  {
    PlacedKeeps(model, item);
    NewListRose(b, |a|, item);
    hide ToRose, RoseOf, Ok, NewList, Spine;
    forall i | 0 <= i < |out|
      ensures StandsFor(b, out[i], ends[i], model.out[i])
    {
      OtherStands(a, b, out[i], ends[i], model.out[i]);
    }
  }

  // A block that is not a list: no list stays open.
  lemma OtherPlaced(a: seq<Cell<Info>>, out: seq<OutRef>, stack: seq<Opened>, ends: seq<nat>, model: Gathering,
                    more: seq<Out>)
    requires Represents(a, out, stack, ends, model) && |more| <= 1 && forall o :: o in more ==> !o.ListOut?
    ensures Represents(a, out + seq(|more|, i requires 0 <= i < |more| => Whole(more[i])), [],
                       ends + seq(|more|, i => |a|), Gathering(model.out + more, []))
  {
    hide Ok, RoseOf, ToRose;
  }

  // ----- the importer's loop -----

  // The node a list paragraph opens its list with.
  function OpeningInfo(item: Item): Info
    requires item.ListPara?
  {
    if item.tag.Ordered? then ListInfo(Ordered, item.start, item.numbering) else ListInfo(item.tag, 1, None)
  }

  lemma PoppedStep(stack: seq<Opened>, level: nat)
    requires stack != [] && Last(stack).frame.level > level
    ensures Popped(Frames(stack), level) == Popped(Frames(Front(stack)), level)
  {
    assert Front(Frames(stack)) == Frames(Front(stack));
  }

  // The lists of the stack an item leaves open.
  method CloseFor(stack: seq<Opened>, item: Item) returns (m: nat)
    requires item.ListPara? && Rising(Frames(stack))
    ensures m <= |stack| && OpenFor(Frames(stack), item) == Frames(stack)[..m]
    ensures m > 0 ==> stack[m - 1].frame.level <= item.level && StaysOpen(stack[m - 1].frame, item)
    ensures forall n :: m <= n < |stack| ==> !StaysOpen(stack[n].frame, item)
  {
    hide Popped;
    m := |stack|;
    assert stack[..m] == stack;
    while m > 0 && stack[m - 1].frame.level > item.level
      invariant m <= |stack|
      invariant Popped(Frames(stack[..m]), item.level) == Popped(Frames(stack), item.level)
    {
      PoppedStep(stack[..m], item.level);
      assert Front(stack[..m]) == stack[..m - 1];
      m := m - 1;
    }
    PoppedDone(stack[..m], item.level);
    assert Frames(stack[..m]) == Frames(stack)[..m];
    assert m > 0 ==> Last(Frames(stack)[..m]) == stack[m - 1].frame;
    if m > 0 && stack[m - 1].frame.level == item.level && stack[m - 1].frame.tag != item.tag {
      assert Front(Frames(stack)[..m]) == Frames(stack)[..m - 1];
      assert m > 1 ==> Frames(stack)[m - 2].level < Frames(stack)[m - 1].level;
      m := m - 1;
    }
    forall n | m <= n < |stack|
      ensures !StaysOpen(stack[n].frame, item)
    {
      OpenForExactly(Frames(stack), item, n + 1);
    }
  }

  class ListGatherer {
    var cells: seq<Cell<Info>>
    var out: seq<OutRef>
    var stack: seq<Opened>
    ghost var ends: seq<nat>
    ghost var model: Gathering

    ghost predicate Valid()
      reads this
    {
      Represents(cells, out, stack, ends, model)
    }

    constructor ()
      ensures Valid() && model == Gathering([], [])
    {
      cells, out, stack := [], [], [];
      ends, model := [], Gathering([], []);
    }

    lemma FramesOf()
      requires Valid()
      ensures model.stack == Frames(stack)
    {
    }

    method Place(item: Item)
      requires Valid() && item.ListPara?
      modifies this
      ensures Valid() && model == Placed(old(model), item)
    {
      hide Represents, Placed, OpenFor;
      assert OpenOk(model) by {
        RepresentsOpen(cells, out, stack, ends, model);
      }
      FramesOf();
      var m := CloseFor(stack, item);
      var entry := Cell(EntryInfo(item.tag.Task? && item.checked, item.content), []);
      var n := |cells|;
      if m == 0 || stack[m - 1].frame.level < item.level {
        PlaceList(item, m);
      } else {
        var top := stack[m - 1].id;
        TopExists(m);
        EntryPlaced(cells, cells[top := cells[top].(children := cells[top].children + [n])] + [entry],
                    out, stack, ends, model, m, item);
        cells := cells[top := cells[top].(children := cells[top].children + [n])] + [entry];
        stack := stack[..m];
        ends := Front(ends) + [|cells|];
        model := Placed(model, item);
      }
    }

    lemma TopExists(m: nat)
      requires Valid() && 0 < m <= |stack|
      ensures stack[m - 1].id < |cells| && |ends| > 0
      ensures cells[stack[m - 1].id].children != []
      ensures Last(cells[stack[m - 1].id].children) < |cells|
    {
      SpineFacts(cells, out, stack, ends, model, m);
      hide Represents;
      var root := stack[0].id;
      RoseAddList(Last(model.out).list, model.stack[..m], Last(model.out).list);
      ReachesRose(cells, root, 2 * m - 1);
      OneFurther(cells, root, 2 * m - 2);
    }

    // A list for the item, after everything or under the last item that is open.
    method PlaceList(item: Item, m: nat)
      requires Valid() && item.ListPara? && m <= |stack|
      requires OpenFor(model.stack, item) == model.stack[..m]
      requires m > 0 ==> stack[m - 1].frame.level < item.level
      modifies this
      ensures Valid() && OpenOk(old(model)) && model == Placed(old(model), item)
    {
      hide Represents, Placed, OpenFor;
      assert OpenOk(model) by {
        RepresentsOpen(cells, out, stack, ends, model);
      }
      FramesOf();
      var n := |cells|;
      var list := Cell(OpeningInfo(item), []);
      var entry := Cell(EntryInfo(item.tag.Task? && item.checked, item.content), []);
      var frame := Opened(Frame(item.level, item.tag), n);
      ghost var a := cells;
      if m > 0 {
        TopExists(m);
      }
      if m > 0 && cells[stack[m - 1].id].children != [] {
        var last := Last(cells[stack[m - 1].id].children);
        cells := cells[last := cells[last].(children := cells[last].children + [n])] + [list];
        // The item joins its list through the stack's reference.
        cells := cells[n := cells[n].(children := cells[n].children + [n + 1])] + [entry];
        JoinedLater(a[last := a[last].(children := a[last].children + [n])], OpeningInfo(item), entry);
        SublistPlaced(a, cells, out, stack, ends, model, m, item, last);
        stack := stack[..m] + [frame];
        ends := Front(ends) + [|cells|];
      } else {
        out := out + [ListRef(n)];
        cells := cells + [list];
        cells := cells[n := cells[n].(children := cells[n].children + [n + 1])] + [entry];
        JoinedLater(a, OpeningInfo(item), entry);
        NewPlaced(a, cells, Front(out), stack, ends, model, item);
        assert Front(out) + [ListRef(n)] == out;
        stack := [frame];
        ends := ends + [|cells|];
      }
      model := Placed(model, item);
    }

    // A block that is not a list, or none, ends every list.
    method PlaceOther(more: Option<Out>)
      requires Valid() && (more.Some? ==> !more.value.ListOut?)
      modifies this
      ensures Valid()
      ensures model == Gathering(old(model).out + (if more.Some? then [more.value] else []), [])
    {
      hide Represents;
      ghost var added := if more.Some? then [more.value] else [];
      ghost var n := |cells|;
      OtherPlaced(cells, out, stack, ends, model, added);
      ghost var wholes := seq(|added|, i requires 0 <= i < |added| => Whole(added[i]));
      stack := [];
      if more.Some? {
        assert wholes == [Whole(more.value)];
        out := out + [Whole(more.value)];
      } else {
        assert out + wholes == out;
      }
      ends := ends + seq(|added|, i => n);
      model := Gathering(model.out + added, []);
    }
  }

  // A list cell whose item joins it afterwards.
  lemma JoinedLater(a: seq<Cell<Info>>, info: Info, entry: Cell<Info>)
    ensures var n, list := |a|, Cell(info, []);
            (a + [list])[n := (a + [list])[n].(children := (a + [list])[n].children + [n + 1])] + [entry]
            == a + [Cell(info, [n + 1]), entry]
  {
    var n, list := |a|, Cell(info, []);
    var grown := (a + [list])[n].(children := (a + [list])[n].children + [n + 1]);
    assert (a + [list])[n] == list && list.children + [n + 1] == [n + 1];
    assert (a + [list])[n := grown] == a + [grown];
    assert grown == Cell(info, [n + 1]);
    assert [grown] + [entry] == [grown, entry];
    Seqs.Assoc(a, [grown], [entry]);
  }

  lemma PoppedDone(stack: seq<Opened>, level: nat)
    requires stack == [] || Last(stack).frame.level <= level
    ensures Popped(Frames(stack), level) == Frames(stack)
  {
    assert stack != [] ==> Last(Frames(stack)) == Last(stack).frame;
  }

  // The loop over a document's items.
  method GatherItems(items: seq<Item>) returns (g: ListGatherer)
    ensures fresh(g) && g.Valid() && g.model.out == GatherAll(items)
  {
    hide *;
    g := new ListGatherer();
    var index := 0;
    assert items[0..] == items;
    StartsOpen();
    while index < |items|
      invariant index <= |items| && fresh(g) && g.Valid() && OpenOk(g.model)
      invariant Gathered(g.model, items[index..]) == Gathered(Gathering([], []), items)
    {
      ghost var before := g.model;
      StepKeeps(before, items[index..]);
      OneStep(before, items, index);
      if items[index].ListPara? {
        g.Place(items[index]);
        index := index + 1;
      } else {
        var block, n := NextBlock(items, index);
        g.PlaceOther(block);
        index := index + n;
      }
    }
    assert items[index..] == [];
    NothingLeft(g.model, items);
  }

  lemma StartsOpen()
    ensures OpenOk(Gathering([], []))
  {
  }

  lemma OneStep(g: Gathering, items: seq<Item>, index: nat)
    requires OpenOk(g) && index < |items| && OpenOk(Step(g, items[index..]))
    ensures index + Taken(items[index..]) <= |items|
    ensures Gathered(g, items[index..])
            == Gathered(Step(g, items[index..]), items[index + Taken(items[index..])..])
    ensures items[index].ListPara? ==>
              Taken(items[index..]) == 1 && Step(g, items[index..]) == Placed(g, items[index])
  {
    hide Step, Taken, Placed, OpenOk;
    var n := Taken(items[index..]);
    assert items[index..][n..] == items[index + n..];
    if items[index].ListPara? {
      ListStep(g, items[index..]);
    }
  }

  lemma ListStep(g: Gathering, items: seq<Item>)
    requires OpenOk(g) && items != [] && items[0].ListPara?
    ensures Taken(items) == 1 && Step(g, items) == Placed(g, items[0])
  {
    hide Placed, OpenOk;
  }

  lemma NothingLeft(g: Gathering, items: seq<Item>)
    requires OpenOk(g) && Gathered(g, []) == Gathered(Gathering([], []), items)
    requires OpenOk(Gathering([], []))
    ensures g.out == GatherAll(items)
  {
  }

  method RunFrom(items: seq<Item>, index: nat) returns (n: nat)
    requires index < |items| && (items[index].Quote? || items[index].Code?)
    ensures 0 < n <= |items| - index && n == RunLength(items[index..], items[index])
    ensures forall j :: index <= j < index + n ==> SameRun(items[j], items[index])
    ensures index + n < |items| ==> !SameRun(items[index + n], items[index])
  {
    n := 0;
    while index + n < |items| && SameRun(items[index + n], items[index])
      invariant n <= |items| - index
      invariant RunLength(items[index..], items[index]) == n + RunLength(items[index + n..], items[index])
      invariant forall j :: index <= j < index + n ==> SameRun(items[j], items[index])
    {
      assert items[index + n..][1..] == items[index + n + 1..];
      n := n + 1;
    }
  }

  // The block that is not a list at some place, and how many items make it.
  method NextBlock(items: seq<Item>, index: nat) returns (block: Option<Out>, n: nat)
    requires index < |items| && !items[index].ListPara?
    ensures n == Taken(items[index..]) && (block.Some? ==> !block.value.ListOut?)
    ensures forall g :: OpenOk(g) ==>
              Step(g, items[index..]) == Gathering(g.out + (if block.Some? then [block.value] else []), [])
  {
    ghost var rest := items[index..];
    assert rest[0] == items[index];
    n := 1;
    if items[index].Quote? {
      n := RunFrom(items, index);
      var quoted := seq(n, i requires 0 <= i < n => items[index + i].quoted);
      assert quoted == QuotesOf(rest[..n]);
      block := Some(QuoteOut(quoted));
    } else if items[index].Code? {
      n := RunFrom(items, index);
      var lines := seq(n, i requires 0 <= i < n => items[index + i].line);
      assert lines == LinesOf(rest[..n]);
      block := Some(CodeOut(lines));
    } else if items[index].Page? {
      block := Some(PageOut);
    } else {
      block := if items[index].node.Some? then Some(BlockOut(items[index].node.value)) else None;
    }
  }
}
