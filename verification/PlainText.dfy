// The document as prompt text, and the way back from a document position to
// an offset in that text.
module PlainText {
  import opened Utf16
  import opened Tree
  import opened Edits
  import Seqs

  // A stretch of document that appears verbatim in the plain text.
  datatype Run = Run(pos: nat, size: nat, offset: nat, text: string)

  datatype Plain = Plain(text: string, runs: seq<Run>)

  const EMPTY := Plain([], [])

  function Emit(p: Plain, text: string): Plain {
    p.(text := p.text + text)
  }

  function EmitRun(p: Plain, text: string, pos: nat, size: nat): Plain {
    Plain(p.text + text, p.runs + [Run(pos, size, |p.text|, text)])
  }

  function Separate(p: Plain): Plain {
    if p.text == [] then p else Emit(p, "\n\n")
  }

  // ----- attributes -----

  function Truthy(v: Value): bool {
    match v
    case Null => false
    case Bool(b) => b
    case Int(i) => i != 0
    case Str(s) => s != []
  }

  function IntAttr(attrs: Attrs, name: string): int {
    if name in attrs && attrs[name].Int? then attrs[name].i else 1
  }

  function Repeat(c: char, n: int): string {
    if n <= 0 then [] else [c] + Repeat(c, n - 1)
  }

  function Digits(n: nat): string {
    (if n < 10 then [] else Digits(n / 10)) + [('0' as int + n % 10) as char]
  }

  function Decimal(n: int): string {
    if n < 0 then "-" + Digits(-n) else Digits(n)
  }

  function ListStart(node: Node): int {
    if node.Text? || IntAttr(node.attrs, "start") == 0 then 1 else IntAttr(node.attrs, "start")
  }

  // ----- the builder -----

  function Opening(node: Node, prefix: string, marker: string): string
    requires node.Elem?
  {
    prefix + marker
    + (if node.kind.Heading? then Repeat('#', IntAttr(node.attrs, "level")) + " " else "")
    + (if node.kind.CodeBlock? then "```\n" else "")
  }

  function Closing(node: Node): string
    requires node.Elem?
  {
    if node.kind.CodeBlock? then "\n```" else ""
  }

  function InlineRuns(p: Plain, children: seq<Node>, pos: nat): Plain
    decreases |children|
  {
    if children == [] then p else
      var child, size := children[0], NodeSize(children[0]);
      var q := if child.Text? then EmitRun(p, child.text, pos, size)
               else if child.kind.HardBreak? then EmitRun(p, "\n", pos, size)
               else p;
      InlineRuns(q, children[1..], pos + size)
  }

  function ChildPrefix(kind: Kind, index: nat, prefix: string): string {
    if (kind.ListItem? || kind.TaskItem?) && index > 0 then prefix + "  "
    else if kind.Blockquote? then prefix + "> "
    else prefix
  }

  function ChildMarker(kind: Kind, first: int, index: nat, child: Node, marker: string): string {
    if kind.BulletList? then "- "
    else if kind.TaskList? then
      if child.Elem? && "checked" in child.attrs && Truthy(child.attrs["checked"]) then "- [x] " else "- [ ] "
    else if kind.OrderedList? then Decimal(first + index) + ". "
    else if (kind.ListItem? || kind.TaskItem?) && index == 0 then marker
    else ""
  }

  function Block(p: Plain, node: Node, pos: nat, prefix: string, marker: string): Plain
    decreases node, 1
  {
    if IsTextblock(node) then
      Emit(InlineRuns(Emit(Separate(p), Opening(node, prefix, marker)), node.content, pos + 1), Closing(node))
    else if node.Elem? && (node.kind.HorizontalRule? || node.kind.PageBreak?) then
      Emit(Separate(p), prefix + "---")
    else if node.Text? || IsLeafNode(node) then p
    else Items(p, node.kind, ListStart(node), node.content, 0, pos + 1, prefix, marker)
  }

  // The children of a node of `kind`, from the one numbered `index`.
  function Items(p: Plain, kind: Kind, first: int, children: seq<Node>, index: nat, pos: nat,
                 prefix: string, marker: string): Plain
    decreases children, 0
  {
    if children == [] then p else
      Items(Block(p, children[0], pos, ChildPrefix(kind, index, prefix),
                  ChildMarker(kind, first, index, children[0], marker)),
            kind, first, children[1..], index + 1, pos + NodeSize(children[0]), prefix, marker)
  }

  function ToPlain(doc: seq<Node>): Plain {
    Items(EMPTY, Other("doc"), 1, doc, 0, 0, "", "")
  }

  // ----- back from positions -----

  // How many runs start at or before `pos`, the runs being in order.
  function StartsBy(runs: seq<Run>, pos: int): (n: nat)
    ensures n <= |runs|
    ensures forall k :: 0 <= k < n ==> runs[k].pos <= pos
    ensures n < |runs| ==> pos < runs[n].pos
  {
    if runs == [] || runs[0].pos > pos then 0 else 1 + StartsBy(runs[1..], pos)
  }

  function Offset(p: Plain, pos: int, forward: bool): int {
    var n := StartsBy(p.runs, pos);
    if n > 0 && pos <= p.runs[n - 1].pos + p.runs[n - 1].size then
      p.runs[n - 1].offset + IndexAt(p.runs[n - 1].text, pos - p.runs[n - 1].pos)
    else if forward then
      if n < |p.runs| then p.runs[n].offset else |p.text|
    else if n == 0 then 0
    else p.runs[n - 1].offset + |p.runs[n - 1].text|
  }

  // ----- what building keeps -----

  predicate Precedes(a: Run, b: Run) {
    a.pos + a.size <= b.pos && a.offset + |a.text| <= b.offset
  }

  // A run lies between the document positions `lo` and `hi` and is found
  // verbatim in the text, at or after offset `from`.
  predicate Sound(run: Run, text: string, from: nat, lo: int, hi: int) {
    && lo <= run.pos && run.pos + run.size <= hi
    && run.size == Utf16Len(run.text)
    && from <= run.offset && run.offset + |run.text| <= |text|
    && text[run.offset..run.offset + |run.text|] == run.text
  }

  predicate Extends(p: Plain, q: Plain, lo: int, hi: int) {
    && p.text <= q.text && p.runs <= q.runs
    && (forall i :: |p.runs| <= i < |q.runs| ==> Sound(q.runs[i], q.text, |p.text|, lo, hi))
    && (forall i, j :: |p.runs| <= i < j < |q.runs| ==> Precedes(q.runs[i], q.runs[j]))
  }

  lemma SoundLater(run: Run, text: string, more: string, from: nat, lo: int, hi: int)
    requires Sound(run, text, from, lo, hi) && text <= more
    ensures Sound(run, more, from, lo, hi)
  {
    assert more[run.offset..run.offset + |run.text|] == text[run.offset..run.offset + |run.text|];
  }

  lemma ExtendsTransitive(p: Plain, q: Plain, r: Plain, lo: int, mid: int, mid': int, hi: int)
    requires Extends(p, q, lo, mid) && Extends(q, r, mid', hi)
    requires lo <= mid <= mid' <= hi
    ensures Extends(p, r, lo, hi)
  {
    forall i | |p.runs| <= i < |r.runs|
      ensures Sound(r.runs[i], r.text, |p.text|, lo, hi)
    {
      if i < |q.runs| {
        assert r.runs[i] == q.runs[i];
        SoundLater(q.runs[i], q.text, r.text, |p.text|, lo, mid);
      }
    }
    forall i, j | |p.runs| <= i < j < |r.runs|
      ensures Precedes(r.runs[i], r.runs[j])
    {
      if i < |q.runs| {
        assert r.runs[i] == q.runs[i];
        if j < |q.runs| {
          assert r.runs[j] == q.runs[j];
        } else {
          assert Sound(r.runs[j], r.text, |q.text|, mid', hi);
          assert Sound(q.runs[i], q.text, |p.text|, lo, mid);
        }
      }
    }
  }

  lemma EmitExtends(p: Plain, text: string, lo: int, hi: int)
    requires lo <= hi
    ensures Extends(p, Emit(p, text), lo, hi)
    ensures Extends(p, Separate(p), lo, hi)
  {
  }

  lemma RunExtends(p: Plain, text: string, pos: nat, size: nat)
    requires size == Utf16Len(text)
    ensures Extends(p, EmitRun(p, text, pos, size), pos, pos + size)
  {
    var q := EmitRun(p, text, pos, size);
    assert q.text[|p.text|..|p.text| + |text|] == text;
  }

  // ----- the builder, as it runs -----

  class Builder {
    var text: string  // the parts, joined
    var runs: seq<Run>
    var length: nat

    ghost predicate Valid()
      reads this
    {
      length == |text|
    }

    ghost function State(): Plain
      reads this
    {
      Plain(text, runs)
    }

    constructor ()
      ensures Valid() && State() == EMPTY
    {
      text, runs, length := [], [], 0;
    }

    method Add(part: string)
      requires Valid()
      modifies this
      ensures Valid() && State() == Emit(old(State()), part)
    {
      text := text + part;
      length := length + |part|;
    }

    method AddRun(part: string, pos: nat, size: nat)
      requires Valid()
      modifies this
      ensures Valid() && State() == EmitRun(old(State()), part, pos, size)
    {
      runs := runs + [Run(pos, size, length, part)];
      text := text + part;
      length := length + |part|;
    }

    method AddSeparator()
      requires Valid()
      modifies this
      ensures Valid() && State() == Separate(old(State()))
    {
      if length > 0 {
        Add("\n\n");
      }
    }

    method AddInline(children: seq<Node>, start: nat)
      requires Valid()
      modifies this
      ensures Valid() && State() == InlineRuns(old(State()), children, start)
    {
      hide NodeSize;
      var pos := start;
      for i := 0 to |children|
        invariant Valid()
        invariant InlineRuns(State(), children[i..], pos) == InlineRuns(old(State()), children, start)
      {
        var child := children[i];
        var size := NodeSize(child);
        assert children[i..][1..] == children[i + 1..];
        if child.Text? {
          AddRun(child.text, pos, size);
        } else if child.kind.HardBreak? {
          AddRun("\n", pos, size);
        }
        pos := pos + size;
      }
    }

    method AddBlock(node: Node, pos: nat, prefix: string, marker: string)
      requires Valid()
      modifies this
      ensures Valid() && State() == Block(old(State()), node, pos, prefix, marker)
      decreases node, 1
    {
      hide NodeSize, ChildPrefix, ChildMarker;
      if IsTextblock(node) {
        AddSeparator();
        Add(Opening(node, prefix, marker));
        AddInline(node.content, pos + 1);
        if node.kind.CodeBlock? {
          Add("\n```");
        } else {
          assert State().text + "" == State().text;
        }
        return;
      }
      if node.Elem? && (node.kind.HorizontalRule? || node.kind.PageBreak?) {
        AddSeparator();
        Add(prefix + "---");
        return;
      }
      if node.Text? || IsLeafNode(node) {
        return;
      }
      AddItems(node.kind, ListStart(node), node.content, pos + 1, prefix, marker);
    }

    method AddItems(kind: Kind, first: int, children: seq<Node>, start: nat, prefix: string, marker: string)
      requires Valid()
      modifies this
      ensures Valid() && State() == Items(old(State()), kind, first, children, 0, start, prefix, marker)
      decreases children, 0
    {
      hide NodeSize, ChildPrefix, ChildMarker, Block;
      var pos: nat := start;
      for i := 0 to |children|
        invariant Valid()
        invariant Items(State(), kind, first, children[i..], i, pos, prefix, marker)
                  == Items(old(State()), kind, first, children, 0, start, prefix, marker)
      {
        var child := children[i];
        assert children[i..][1..] == children[i + 1..];
        AddBlock(child, pos, ChildPrefix(kind, i, prefix), ChildMarker(kind, first, i, child, marker));
        pos := pos + NodeSize(child);
      }
    }
  }
}
