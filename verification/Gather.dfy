// Word list paragraphs gathered into nested lists: what _gather and _place
// compute, on values.
module Gather {
  import opened Wrappers
  import opened Tree
  import Seqs

  datatype Tag = Bullet | Task | Ordered

  // Only an ordered list has a start other than 1, or a numbering.
  datatype ListTree = ListTree(tag: Tag, start: int, numbering: Option<string>, items: seq<Entry>)

  // One paragraph, then the lists nested under it.
  datatype Entry = Entry(checked: bool, content: seq<Node>, sublists: seq<ListTree>)

  // A block before lists, quotes and code are gathered.
  datatype Item =
    | ListPara(level: nat, tag: Tag, start: int, numbering: Option<string>, checked: bool, content: seq<Node>)
    | Page
    | Single(node: Option<Node>)
    | Quote(quoted: Node)
    | Code(line: string)

  datatype Out =
    | ListOut(list: ListTree)
    | PageOut
    | BlockOut(node: Node)
    | QuoteOut(nodes: seq<Node>)
    | CodeOut(lines: seq<string>)

  datatype Frame = Frame(level: nat, tag: Tag)

  datatype Gathering = Gathering(out: seq<Out>, stack: seq<Frame>)

  function Last<T>(s: seq<T>): T
    requires s != []
  {
    s[|s| - 1]
  }

  function Front<T>(s: seq<T>): seq<T>
    requires s != []
  {
    s[..|s| - 1]
  }

  // ----- the right spine of a tree -----

  // Going down by the last list of the last item, `stack` names the lists met.
  predicate Spine(list: ListTree, stack: seq<Frame>)
    decreases |stack|
  {
    && stack != [] && list.tag == stack[0].tag && list.items != []
    && (|stack| == 1 || (Last(list.items).sublists != [] && Spine(Last(Last(list.items).sublists), stack[1..])))
  }

  function WithLast(list: ListTree, sublists: seq<ListTree>): ListTree
    requires list.items != []
  {
    list.(items := Front(list.items) + [Last(list.items).(sublists := sublists)])
  }

  // A list under the last item of the list at the end of the spine.
  function AddList(list: ListTree, stack: seq<Frame>, added: ListTree): ListTree
    requires Spine(list, stack)
    decreases |stack|
  {
    var sublists := Last(list.items).sublists;
    if |stack| == 1 then WithLast(list, sublists + [added])
    else WithLast(list, Front(sublists) + [AddList(Last(sublists), stack[1..], added)])
  }

  // An item at the end of the list at the end of the spine.
  function AddEntry(list: ListTree, stack: seq<Frame>, entry: Entry): ListTree
    requires Spine(list, stack)
    decreases |stack|
  {
    var sublists := Last(list.items).sublists;
    if |stack| == 1 then list.(items := list.items + [entry])
    else WithLast(list, Front(sublists) + [AddEntry(Last(sublists), stack[1..], entry)])
  }

  // ----- placing one item -----

  function Popped(stack: seq<Frame>, level: nat): (r: seq<Frame>)
    ensures r <= stack
    ensures r != [] ==> Last(r).level <= level
    ensures forall i :: |r| <= i < |stack| ==> stack[i].level > level
  {
    if stack != [] && Last(stack).level > level then Popped(Front(stack), level) else stack
  }

  // The lists still open for an item: shallower ones, and one of its own kind
  // at its level.
  function OpenFor(stack: seq<Frame>, item: Item): (r: seq<Frame>)
    requires item.ListPara?
    ensures r <= stack
  {
    var p := Popped(stack, item.level);
    if p != [] && Last(p).level == item.level && Last(p).tag != item.tag then Front(p) else p
  }

  // They are as many as can stay.
  predicate StaysOpen(frame: Frame, item: Item)
    requires item.ListPara?
  {
    frame.level < item.level || (frame.level == item.level && frame.tag == item.tag)
  }

  lemma {:induction false} PoppedAll(stack: seq<Frame>, level: nat, n: nat)
    requires n <= |stack| && (n > 0 ==> stack[n - 1].level <= level)
    ensures n <= |Popped(stack, level)|
    decreases |stack|
  {
    if n < |stack| {
      PoppedAll(Front(stack), level, n);
    }
  }

  lemma OpenForExactly(stack: seq<Frame>, item: Item, n: nat)
    requires item.ListPara? && Rising(stack) && n <= |stack|
    ensures OpenFor(stack, item) != [] ==> StaysOpen(Last(OpenFor(stack, item)), item)
    ensures n > 0 && StaysOpen(stack[n - 1], item) ==> n <= |OpenFor(stack, item)|
  {
    var p := Popped(stack, item.level);
    if n > 0 && StaysOpen(stack[n - 1], item) {
      PoppedAll(stack, item.level, n);
    }
    assert |p| > 1 ==> p[|p| - 2] == stack[|p| - 2] && p[|p| - 1] == stack[|p| - 1];
    hide Popped;
  }

  function EntryOf(item: Item): Entry
    requires item.ListPara?
  {
    Entry(item.tag.Task? && item.checked, item.content, [])
  }

  function NewList(item: Item): ListTree
    requires item.ListPara?
  {
    if item.tag.Ordered? then ListTree(Ordered, item.start, item.numbering, [EntryOf(item)])
    else ListTree(item.tag, 1, None, [EntryOf(item)])
  }

  predicate Rising(stack: seq<Frame>) {
    forall i, j :: 0 <= i < j < |stack| ==> stack[i].level < stack[j].level
  }

  // The open lists are the right spine of the last block, each deeper in level.
  predicate OpenOk(g: Gathering) {
    && (g.stack != [] ==> g.out != [] && Last(g.out).ListOut? && Spine(Last(g.out).list, g.stack))
    && Rising(g.stack)
  }

  lemma {:induction false} SpinePrefix(list: ListTree, stack: seq<Frame>, n: nat)
    requires Spine(list, stack) && 0 < n <= |stack|
    ensures Spine(list, stack[..n])
    decreases |stack|
  {
    if n > 1 {
      SpinePrefix(Last(Last(list.items).sublists), stack[1..], n - 1);
      assert stack[..n][1..] == stack[1..][..n - 1];
    }
  }

  function Placed(g: Gathering, item: Item): Gathering
    requires OpenOk(g) && item.ListPara?
  {
    var open := OpenFor(g.stack, item);
    if open == [] then
      Gathering(g.out + [ListOut(NewList(item))], [Frame(item.level, item.tag)])
    else
      var list := Last(g.out).list;
      SpinePrefix(list, g.stack, |open|);
      assert g.stack[..|open|] == open;
      if Last(open).level < item.level then
        Gathering(Front(g.out) + [ListOut(AddList(list, open, NewList(item)))], open + [Frame(item.level, item.tag)])
      else
        Gathering(Front(g.out) + [ListOut(AddEntry(list, open, EntryOf(item)))], open)
  }

  // ----- the invariant -----

  lemma {:induction false} AddListSpine(list: ListTree, stack: seq<Frame>, added: ListTree, frame: Frame)
    requires Spine(list, stack) && added.items != [] && added.tag == frame.tag
    ensures Spine(AddList(list, stack, added), stack + [frame])
    decreases |stack|
  {
    assert (stack + [frame])[1..] == stack[1..] + [frame];
    if |stack| > 1 {
      AddListSpine(Last(Last(list.items).sublists), stack[1..], added, frame);
    } else {
      assert Spine(added, [frame]);
      assert stack[1..] + [frame] == [frame];
    }
  }

  lemma {:induction false} AddEntrySpine(list: ListTree, stack: seq<Frame>, entry: Entry)
    requires Spine(list, stack)
    ensures Spine(AddEntry(list, stack, entry), stack)
    decreases |stack|
  {
    if |stack| > 1 {
      AddEntrySpine(Last(Last(list.items).sublists), stack[1..], entry);
    }
  }

  // What is open for an item sits above its level, or is its own kind at it.
  lemma OpenIsFor(g: Gathering, item: Item)
    requires OpenOk(g) && item.ListPara?
    ensures var open := OpenFor(g.stack, item);
            && Rising(open)
            && (open != [] ==>
                  && Spine(Last(g.out).list, open)
                  && Last(open).level <= item.level
                  && (Last(open).level == item.level ==> Last(open).tag == item.tag))
  {
    var open := OpenFor(g.stack, item);
    if open != [] {
      SpinePrefix(Last(g.out).list, g.stack, |open|);
      assert g.stack[..|open|] == open;
    }
  }

  lemma PlacedKeeps(g: Gathering, item: Item)
    requires OpenOk(g) && item.ListPara?
    ensures OpenOk(Placed(g, item))
    ensures var after := Placed(g, item).stack;
            after != [] && Last(after) == Frame(item.level, item.tag)
  {
    OpenIsFor(g, item);
    hide OpenFor, Spine, AddList, AddEntry;
    var open := OpenFor(g.stack, item);
    if open == [] {
      NewSpine(item);
    } else if Last(open).level < item.level {
      AddListSpine(Last(g.out).list, open, NewList(item), Frame(item.level, item.tag));
    } else {
      AddEntrySpine(Last(g.out).list, open, EntryOf(item));
    }
  }

  lemma NewSpine(item: Item)
    requires item.ListPara?
    ensures Spine(NewList(item), [Frame(item.level, item.tag)])
  {
  }

  // ----- gathering -----

  predicate SameRun(a: Item, b: Item) {
    (a.Quote? && b.Quote?) || (a.Code? && b.Code?)
  }

  // How many items from the start are quotes, or code, like the first.
  function RunLength(items: seq<Item>, first: Item): (n: nat)
    ensures n <= |items|
    ensures forall i :: 0 <= i < n ==> SameRun(items[i], first)
    ensures n < |items| ==> !SameRun(items[n], first)
  {
    if items == [] || !SameRun(items[0], first) then 0 else 1 + RunLength(items[1..], first)
  }

  function QuotesOf(items: seq<Item>): seq<Node>
    requires forall i :: 0 <= i < |items| ==> items[i].Quote?
  {
    seq(|items|, i requires 0 <= i < |items| => items[i].quoted)
  }

  function LinesOf(items: seq<Item>): seq<string>
    requires forall i :: 0 <= i < |items| ==> items[i].Code?
  {
    seq(|items|, i requires 0 <= i < |items| => items[i].line)
  }

  // One step of the loop: the items consumed, and what they add.
  function Taken(items: seq<Item>): (n: nat)
    requires items != []
    ensures 0 < n <= |items|
  {
    if items[0].Quote? || items[0].Code? then RunLength(items, items[0]) else 1
  }

  function Step(g: Gathering, items: seq<Item>): Gathering
    requires OpenOk(g) && items != []
  {
    match items[0]
    case ListPara(_, _, _, _, _, _) => Placed(g, items[0])
    case Page => Gathering(g.out + [PageOut], [])
    case Single(node) => Gathering(if node.Some? then g.out + [BlockOut(node.value)] else g.out, [])
    case Quote(_) => Gathering(g.out + [QuoteOut(QuotesOf(items[..Taken(items)]))], [])
    case Code(_) => Gathering(g.out + [CodeOut(LinesOf(items[..Taken(items)]))], [])
  }

  lemma StepKeeps(g: Gathering, items: seq<Item>)
    requires OpenOk(g) && items != []
    ensures OpenOk(Step(g, items))
  {
    hide Placed, Taken;
    if items[0].ListPara? {
      PlacedKeeps(g, items[0]);
    }
  }

  function Gathered(g: Gathering, items: seq<Item>): (r: Gathering)
    requires OpenOk(g)
    decreases |items|
  {
    if items == [] then g
    else
      StepKeeps(g, items);
      Gathered(Step(g, items), items[Taken(items)..])
  }

  function GatherAll(items: seq<Item>): seq<Out> {
    Gathered(Gathering([], []), items).out
  }

  // ----- nothing is lost, doubled or moved -----

  // What a list says of itself, with its first entry.
  datatype ListHead = ListHead(start: int, numbering: Option<string>)

  datatype Piece =
    | EntryPiece(tag: Tag, checked: bool, content: seq<Node>, opens: Option<ListHead>)
    | PagePiece
    | BlockPiece(node: Node)
    | QuotePiece(quoted: Node)
    | CodePiece(line: string)

  function ForestPieces(forest: seq<ListTree>): seq<Piece>
    decreases forest, 0
  {
    if forest == [] then [] else
      EntryPieces(forest[0].tag, Some(HeadOf(forest[0])), forest[0].items) + ForestPieces(forest[1..])
  }

  function HeadOf(list: ListTree): ListHead {
    ListHead(list.start, list.numbering)
  }

  function EntryPieces(tag: Tag, opens: Option<ListHead>, entries: seq<Entry>): seq<Piece>
    decreases entries, 0
  {
    if entries == [] then [] else
      [EntryPiece(tag, entries[0].checked, entries[0].content, opens)]
      + ForestPieces(entries[0].sublists) + EntryPieces(tag, None, entries[1..])
  }

  function ListPieces(list: ListTree): seq<Piece> {
    EntryPieces(list.tag, Some(HeadOf(list)), list.items)
  }

  function OutPieces(out: Out): seq<Piece> {
    match out
    case ListOut(list) => ListPieces(list)
    case PageOut => [PagePiece]
    case BlockOut(node) => [BlockPiece(node)]
    case QuoteOut(nodes) => seq(|nodes|, i requires 0 <= i < |nodes| => QuotePiece(nodes[i]))
    case CodeOut(lines) => seq(|lines|, i requires 0 <= i < |lines| => CodePiece(lines[i]))
  }

  function AllPieces(out: seq<Out>): seq<Piece> {
    if out == [] then [] else AllPieces(Front(out)) + OutPieces(Last(out))
  }

  // A paragraph begins a list of its own unless one like it is open there.
  function Opens(stack: seq<Frame>, item: Item): Option<ListHead>
    requires item.ListPara?
  {
    var open := OpenFor(stack, item);
    if open == [] || Last(open).level < item.level then Some(HeadOf(NewList(item))) else None
  }

  function StackAfter(stack: seq<Frame>, item: Item): seq<Frame> {
    if !item.ListPara? then []
    else if Opens(stack, item).Some? then OpenFor(stack, item) + [Frame(item.level, item.tag)]
    else OpenFor(stack, item)
  }

  function PieceOf(stack: seq<Frame>, item: Item): seq<Piece> {
    match item
    case ListPara(_, tag, _, _, checked, content) =>
      [EntryPiece(tag, tag.Task? && checked, content, Opens(stack, item))]
    case Page => [PagePiece]
    case Single(node) => if node.Some? then [BlockPiece(node.value)] else []
    case Quote(node) => [QuotePiece(node)]
    case Code(line) => [CodePiece(line)]
  }

  function ItemPieces(stack: seq<Frame>, items: seq<Item>): seq<Piece>
    decreases |items|
  {
    if items == [] then [] else PieceOf(stack, items[0]) + ItemPieces(StackAfter(stack, items[0]), items[1..])
  }

  lemma {:induction false} EntryPiecesConcat(tag: Tag, opens: Option<ListHead>, a: seq<Entry>, b: seq<Entry>)
    ensures EntryPieces(tag, opens, a + b)
            == EntryPieces(tag, opens, a) + EntryPieces(tag, if a == [] then opens else None, b)
    decreases |a|
  {
    hide ForestPieces;
    if a == [] {
      assert a + b == b;
    } else {
      EntryPiecesConcat(tag, None, a[1..], b);
      Seqs.TailOfConcat(a, b);
      var head := [EntryPiece(tag, a[0].checked, a[0].content, opens)] + ForestPieces(a[0].sublists);
      Seqs.Assoc(head, EntryPieces(tag, None, a[1..]), EntryPieces(tag, None, b));
    }
  }

  lemma {:induction false} ForestPiecesConcat(a: seq<ListTree>, b: seq<ListTree>)
    ensures ForestPieces(a + b) == ForestPieces(a) + ForestPieces(b)
  {
    hide EntryPieces;
    if a == [] {
      assert a + b == b;
    } else {
      ForestPiecesConcat(a[1..], b);
      Seqs.TailOfConcat(a, b);
      Seqs.Assoc(ListPieces(a[0]), ForestPieces(a[1..]), ForestPieces(b));
    }
  }

  lemma OneTree(list: ListTree)
    ensures ForestPieces([list]) == ListPieces(list)
  {
    assert ForestPieces([list][1..]) == [];
  }

  lemma OneEntry(tag: Tag, opens: Option<ListHead>, e: Entry)
    ensures EntryPieces(tag, opens, [e])
            == [EntryPiece(tag, e.checked, e.content, opens)] + ForestPieces(e.sublists)
  {
    assert EntryPieces(tag, None, [e][1..]) == [];
  }

  // Growing the lists under the last item appends their pieces.
  lemma WithLastPieces(list: ListTree, sublists: seq<ListTree>, more: seq<Piece>)
    requires list.items != []
    requires ForestPieces(sublists) == ForestPieces(Last(list.items).sublists) + more
    ensures ListPieces(WithLast(list, sublists)) == ListPieces(list) + more
  {
    var front, last := Front(list.items), Last(list.items);
    var first := Some(HeadOf(list));
    var opens := if front == [] then first else None;
    EntryPiecesConcat(list.tag, first, front, [last]);
    EntryPiecesConcat(list.tag, first, front, [last.(sublists := sublists)]);
    OneEntry(list.tag, opens, last);
    OneEntry(list.tag, opens, last.(sublists := sublists));
    assert front + [last] == list.items;
    hide EntryPieces, ForestPieces;
    var head := [EntryPiece(list.tag, last.checked, last.content, opens)];
    Seqs.Assoc(head, ForestPieces(last.sublists), more);
    Seqs.Assoc(EntryPieces(list.tag, first, front), head + ForestPieces(last.sublists), more);
  }

  lemma GrownForest(sublists: seq<ListTree>, last: ListTree, more: seq<Piece>)
    requires sublists != [] && ListPieces(last) == ListPieces(Last(sublists)) + more
    ensures ForestPieces(Front(sublists) + [last]) == ForestPieces(sublists) + more
  {
    ForestPiecesConcat(Front(sublists), [last]);
    ForestPiecesConcat(Front(sublists), [Last(sublists)]);
    OneTree(last);
    OneTree(Last(sublists));
    assert Front(sublists) + [Last(sublists)] == sublists;
    hide ForestPieces, ListPieces;
    Seqs.Assoc(ForestPieces(Front(sublists)), ListPieces(Last(sublists)), more);
  }

  lemma {:induction false} AddListPieces(list: ListTree, stack: seq<Frame>, added: ListTree)
    requires Spine(list, stack)
    ensures ListPieces(AddList(list, stack, added)) == ListPieces(list) + ListPieces(added)
    decreases |stack|
  {
    hide ListPieces, ForestPieces;
    var sublists := Last(list.items).sublists;
    if |stack| == 1 {
      ForestPiecesConcat(sublists, [added]);
      OneTree(added);
      WithLastPieces(list, sublists + [added], ListPieces(added));
    } else {
      AddListPieces(Last(sublists), stack[1..], added);
      var last := AddList(Last(sublists), stack[1..], added);
      GrownForest(sublists, last, ListPieces(added));
      WithLastPieces(list, Front(sublists) + [last], ListPieces(added));
    }
  }

  lemma {:induction false} AddEntryPieces(list: ListTree, stack: seq<Frame>, entry: Entry)
    requires Spine(list, stack)
    ensures ListPieces(AddEntry(list, stack, entry))
            == ListPieces(list) + EntryPieces(Last(stack).tag, None, [entry])
    decreases |stack|
  {
    var sublists := Last(list.items).sublists;
    if |stack| == 1 {
      EntryPiecesConcat(list.tag, Some(HeadOf(list)), list.items, [entry]);
    } else {
      hide ListPieces, EntryPieces, ForestPieces;
      AddEntryPieces(Last(sublists), stack[1..], entry);
      var last := AddEntry(Last(sublists), stack[1..], entry);
      GrownForest(sublists, last, EntryPieces(Last(stack).tag, None, [entry]));
      WithLastPieces(list, Front(sublists) + [last], EntryPieces(Last(stack).tag, None, [entry]));
    }
  }

  lemma AppendedPieces(out: seq<Out>, o: Out)
    ensures AllPieces(out + [o]) == AllPieces(out) + OutPieces(o)
  {
    assert Front(out + [o]) == out;
  }

  // A new list holds just the item; in an open one it is one more entry.
  lemma ItsPiece(stack: seq<Frame>, item: Item)
    requires item.ListPara?
    ensures var open := OpenFor(stack, item);
            if open == [] || Last(open).level < item.level then PieceOf(stack, item) == ListPieces(NewList(item))
            else PieceOf(stack, item) == EntryPieces(item.tag, None, [EntryOf(item)])
  {
    OneEntry(item.tag, Opens(stack, item), EntryOf(item));
    hide OpenFor, EntryPieces;
  }

  lemma PlacedStack(g: Gathering, item: Item)
    requires OpenOk(g) && item.ListPara?
    ensures Placed(g, item).stack == StackAfter(g.stack, item)
  {
    hide OpenFor, AddList, AddEntry;
  }

  // Placing an item adds it, once, at the end.
  lemma PlacedPieces(g: Gathering, item: Item)
    requires OpenOk(g) && item.ListPara?
    ensures AllPieces(Placed(g, item).out) == AllPieces(g.out) + PieceOf(g.stack, item)
  {
    hide OpenFor, Spine, AddList, AddEntry, EntryPieces, NewList, EntryOf, Opens, PieceOf;
    OpenIsFor(g, item);
    ItsPiece(g.stack, item);
    var open := OpenFor(g.stack, item);
    var piece := PieceOf(g.stack, item);
    if open == [] {
      AppendedPieces(g.out, ListOut(NewList(item)));
    } else {
      var list := Last(g.out).list;
      var grown := if Last(open).level < item.level then AddList(list, open, NewList(item))
                   else AddEntry(list, open, EntryOf(item));
      if Last(open).level < item.level {
        AddListPieces(list, open, NewList(item));
      } else {
        AddEntryPieces(list, open, EntryOf(item));
      }
      AppendedPieces(Front(g.out), ListOut(grown));
      Seqs.Assoc(AllPieces(Front(g.out)), ListPieces(list), piece);
    }
  }

  lemma {:induction false} RunPieces(stack: seq<Frame>, items: seq<Item>, n: nat)
    requires n <= |items|
    requires forall i :: 0 <= i < n ==> items[i].Quote? || items[i].Code?
    ensures ItemPieces(stack, items)
            == seq(n, i requires 0 <= i < n =>
                 if items[i].Quote? then QuotePiece(items[i].quoted) else CodePiece(items[i].line))
               + ItemPieces(if n == 0 then stack else [], items[n..])
    decreases n
  {
    if n > 0 {
      RunPieces([], items[1..], n - 1);
      assert items[1..][n - 1..] == items[n..];
    } else {
      assert items[0..] == items;
    }
  }

  lemma StepPieces(g: Gathering, items: seq<Item>)
    requires OpenOk(g) && items != []
    ensures var after := Step(g, items);
            AllPieces(after.out) + ItemPieces(after.stack, items[Taken(items)..])
            == AllPieces(g.out) + ItemPieces(g.stack, items)
  {
    hide AllPieces, ItemPieces, PieceOf, StackAfter, OutPieces;
    if items[0].Quote? || items[0].Code? {
      hide RunLength;
      var out := Step(g, items).out[|g.out|];
      AppendedPieces(g.out, out);
      RunTaken(g.stack, items, out);
      Seqs.Assoc(AllPieces(g.out), OutPieces(out), ItemPieces([], items[Taken(items)..]));
    } else {
      hide Step;
      StepAlone(g, items);
      FirstPiece(g.stack, items);
      Seqs.Assoc(AllPieces(g.out), PieceOf(g.stack, items[0]), ItemPieces(StackAfter(g.stack, items[0]), items[1..]));
    }
  }

  lemma FirstPiece(stack: seq<Frame>, items: seq<Item>)
    requires items != []
    ensures ItemPieces(stack, items) == PieceOf(stack, items[0]) + ItemPieces(StackAfter(stack, items[0]), items[1..])
  {
  }

  // A run of quotes, or of code, makes the pieces of its one block.
  lemma RunTaken(stack: seq<Frame>, items: seq<Item>, out: Out)
    requires items != [] && (items[0].Quote? || items[0].Code?)
    requires var n := Taken(items);
             out == if items[0].Quote? then QuoteOut(QuotesOf(items[..n])) else CodeOut(LinesOf(items[..n]))
    ensures ItemPieces(stack, items) == OutPieces(out) + ItemPieces([], items[Taken(items)..])
  {
    hide ItemPieces, RunLength;
    var n := Taken(items);
    RunPieces(stack, items, n);
    assert OutPieces(out) == seq(n, i requires 0 <= i < n =>
               if items[i].Quote? then QuotePiece(items[i].quoted) else CodePiece(items[i].line));
  }

  lemma StepAlone(g: Gathering, items: seq<Item>)
    requires OpenOk(g) && items != [] && !items[0].Quote? && !items[0].Code?
    ensures var after := Step(g, items);
            && AllPieces(after.out) == AllPieces(g.out) + PieceOf(g.stack, items[0])
            && after.stack == StackAfter(g.stack, items[0])
  {
    hide AllPieces;
    match items[0]
    case ListPara(_, _, _, _, _, _) =>
      hide Placed;
      PlacedPieces(g, items[0]);
      PlacedStack(g, items[0]);
    case Page => AppendedPieces(g.out, PageOut);
    case Single(node) =>
      if node.Some? {
        AppendedPieces(g.out, BlockOut(node.value));
      }
  }

  // Whatever levels and kinds the paragraphs jump between, the gathered blocks
  // hold the content of each exactly once and in order, and each list has the
  // start and the numbering of the paragraph that opened it.
  lemma {:induction false} GatheredPieces(g: Gathering, items: seq<Item>)
    requires OpenOk(g)
    ensures AllPieces(Gathered(g, items).out) == AllPieces(g.out) + ItemPieces(g.stack, items)
    ensures OpenOk(Gathered(g, items))
    decreases |items|
  {
    hide OpenOk, AllPieces, Step, Taken;
    if items != [] {
      StepPieces(g, items);
      StepKeeps(g, items);
      GatheredPieces(Step(g, items), items[Taken(items)..]);
    }
  }

  lemma NothingIsLost(items: seq<Item>)
    ensures AllPieces(GatherAll(items)) == ItemPieces([], items)
  {
    GatheredPieces(Gathering([], []), items);
  }
}
