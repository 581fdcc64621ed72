// Lists written as Word paragraphs and read back. A numbering instance says
// how its list counts; a checklist is a bulleted list whose items open with a
// box.
module WordLists {
  import opened Wrappers
  import opened Tree
  import opened Inline
  import opened Gather
  import opened ListItems
  import Text
  import Seqs

  const CHECKED: char := '\U{2612}'
  const UNCHECKED: char := '\U{2610}'

  predicate IsBox(c: char) {
    c == CHECKED || c == UNCHECKED || c == '\U{2611}' || c == '\U{2713}' || c == '\U{2714}'
  }

  predicate Blank(c: char) {
    c == ' '
  }

  // Section 17.9 of ECMA-376 Part 1: a fresh instance of the list's format,
  // its start overridden.
  datatype Numbering = Numbering(format: string, start: int)

  datatype WordPara = WordPara(level: nat, num: nat, runs: seq<Node>)

  // A numbering id is its place in `nums`.
  datatype Word = Word(nums: seq<Numbering>, paras: seq<WordPara>)

  // ----- writing -----

  function FormatOf(numbering: Option<string>): string {
    if numbering == Some("a") then "lowerLetter"
    else if numbering == Some("A") then "upperLetter"
    else if numbering == Some("i") then "lowerRoman"
    else if numbering == Some("I") then "upperRoman"
    else "decimal"
  }

  function NumberingFor(list: ListTree): Numbering {
    if list.tag.Ordered? then Numbering(FormatOf(list.numbering), if list.start == 0 then 1 else list.start)
    else Numbering("bullet", 1)
  }

  function Box(checked: bool): Node {
    Node.Text([if checked then CHECKED else UNCHECKED, ' '], [])
  }

  function RunsOf(list: ListTree, k: nat): seq<Node>
    requires k < |list.items|
  {
    (if list.tag.Task? then [Box(list.items[k].checked)] else []) + list.items[k].content
  }

  function WriteList(w: Word, list: ListTree, level: nat): Word
    decreases list, |list.items| + 1
  {
    WriteEntries(w.(nums := w.nums + [NumberingFor(list)]), list, |w.nums|, 0, level)
  }

  function WriteEntries(w: Word, list: ListTree, num: nat, k: nat, level: nat): Word
    requires k <= |list.items|
    decreases list, |list.items| - k
  {
    if k == |list.items| then w else
      var w1 := w.(paras := w.paras + [WordPara(Capped(level), num, RunsOf(list, k))]);
      WriteEntries(WriteForest(w1, list.items[k].sublists, level + 1), list, num, k + 1, level)
  }

  function WriteForest(w: Word, forest: seq<ListTree>, level: nat): Word
    decreases forest
  {
    if forest == [] then w else WriteForest(WriteList(w, forest[0], level), forest[1..], level)
  }

  class Writer {
    var nums: seq<Numbering>
    var paras: seq<WordPara>

    ghost function Document(): Word
      reads this
    {
      Word(nums, paras)
    }

    constructor ()
      ensures Document() == Word([], [])
    {
      nums, paras := [], [];
    }

    method Start(format: string, start: int) returns (num: nat)
      modifies this
      ensures nums == old(nums) + [Numbering(format, start)] && paras == old(paras) && num == |old(nums)|
    {
      num := |nums|;
      nums := nums + [Numbering(format, start)];
    }

    method List(list: ListTree, level: nat)
      modifies this
      ensures Document() == WriteList(old(Document()), list, level)
      decreases list
    {
      var format := if list.tag.Ordered? then FormatOf(list.numbering) else "bullet";
      var start := if list.tag.Ordered? && list.start != 0 then list.start else 1;
      var num := Start(format, start);
      ghost var begun := Document();
      for k := 0 to |list.items|
        invariant WriteEntries(Document(), list, num, k, level) == WriteEntries(begun, list, num, 0, level)
      {
        var entry := list.items[k];
        var prefix := if list.tag.Task? then [Box(entry.checked)] else [];
        paras := paras + [WordPara(Capped(level), num, prefix + entry.content)];
        ghost var written := Document();
        for j := 0 to |entry.sublists|
          invariant WriteForest(Document(), entry.sublists[j..], level + 1)
                    == WriteForest(written, entry.sublists, level + 1)
        {
          List(entry.sublists[j], level + 1);
          assert entry.sublists[j..][1..] == entry.sublists[j + 1..];
        }
      }
    }
  }

  // ----- reading -----

  function TypeOf(format: string): Option<string> {
    if format == "lowerLetter" then Some("a")
    else if format == "upperLetter" then Some("A")
    else if format == "lowerRoman" then Some("i")
    else if format == "upperRoman" then Some("I")
    else None
  }

  function TrimSpaces(content: seq<Node>): seq<Node> {
    if content == [] || !content[0].Text? then content
    else
      var text := Text.LStrip(content[0].text, Blank);
      if text != [] then [content[0].(text := text)] + content[1..] else TrimSpaces(content[1..])
  }

  function BoxOf(content: seq<Node>): Option<char> {
    if content != [] && content[0].Text? && content[0].text != [] && IsBox(content[0].text[0])
    then Some(content[0].text[0]) else None
  }

  // The box and the spaces after it are taken off.
  function Unboxed(content: seq<Node>): seq<Node>
    requires BoxOf(content).Some?
  {
    TrimSpaces([content[0].(text := content[0].text[1..])] + content[1..])
  }

  type Counters = map<(nat, nat), nat>

  function Seen(counters: Counters, num: nat, level: nat): nat {
    if (num, level) in counters then counters[(num, level)] else 0
  }

  // Deeper levels of the same instance start again.
  function Counted(counters: Counters, num: nat, level: nat): Counters {
    (map key | key in counters && !(key.0 == num && key.1 > level) :: counters[key])
      [(num, level) := Seen(counters, num, level) + 1]
  }

  function ReadStart(start: int): int {
    if start >= 0 then start else 1
  }

  function ItemRead(counters: Counters, para: WordPara, n: Numbering): Item {
    var content := Normalized([], para.runs);
    if n.format == "bullet" then
      match BoxOf(content)
      case Some(box) => ListPara(para.level, Task, 1, None, box != UNCHECKED, Unboxed(content))
      case None => ListPara(para.level, Bullet, 1, None, false, content)
    else
      ListPara(para.level, Ordered, ReadStart(n.start) + Seen(counters, para.num, para.level),
               TypeOf(n.format), false, content)
  }

  function ReadAll(counters: Counters, paras: seq<WordPara>, nums: seq<Numbering>): seq<Item>
    requires forall i :: 0 <= i < |paras| ==> paras[i].num < |nums|
    decreases |paras|
  {
    if paras == [] then [] else
      [ItemRead(counters, paras[0], nums[paras[0].num])]
      + ReadAll(Counted(counters, paras[0].num, paras[0].level), paras[1..], nums)
  }

  method TrimLeadingSpaces(content: seq<Node>) returns (r: seq<Node>)
    ensures r == TrimSpaces(content)
  {
    r := content;
    while r != [] && r[0].Text?
      invariant TrimSpaces(r) == TrimSpaces(content)
      decreases |r|
    {
      var text := Text.LStrip(r[0].text, Blank);
      if text != [] {
        return [r[0].(text := text)] + r[1..];
      }
      r := r[1..];
    }
  }

  class Reader {
    var counters: Counters

    constructor ()
      ensures counters == map[]
    {
      counters := map[];
    }

    method ListItem(para: WordPara, n: Numbering) returns (item: Item)
      modifies this
      ensures item == ItemRead(old(counters), para, n)
      ensures counters == Counted(old(counters), para.num, para.level)
      ensures forall num: nat, level: nat ::
                Seen(counters, num, level)
                == if num != para.num || level < para.level then Seen(old(counters), num, level)
                   else if level == para.level then Seen(old(counters), num, level) + 1 else 0
    {
      var block := NormalizeInline(para.runs);
      var kept := map key | key in counters && !(key.0 == para.num && key.1 > para.level) :: counters[key];
      var seen := if (para.num, para.level) in kept then kept[(para.num, para.level)] else 0;
      counters := kept[(para.num, para.level) := seen + 1];
      if n.format == "bullet" {
        var box := BoxOf(block);
        if box.None? {
          return ListPara(para.level, Bullet, 1, None, false, block);
        }
        var rest := [block[0].(text := block[0].text[1..])] + block[1..];
        var content := TrimLeadingSpaces(rest);
        return ListPara(para.level, Task, 1, None, box.value != UNCHECKED, content);
      }
      return ListPara(para.level, Ordered, ReadStart(n.start) + seen, TypeOf(n.format), false, block);
    }
  }
}
