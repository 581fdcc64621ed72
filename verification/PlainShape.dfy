// What the plain text reads as, block by block, told from the document and the
// path to each block.
module PlainShape {
  import opened Wrappers
  import opened Tree
  import opened Edits
  import opened PlainText
  import Seqs

  // ----- the blocks shown -----

  predicate IsRule(node: Node) {
    node.Elem? && (node.kind.HorizontalRule? || node.kind.PageBreak?)
  }

  predicate IsShown(node: Node) {
    IsTextblock(node) || IsRule(node)
  }

  // A block whose own text stands in the plain text: at a path on which no
  // other such block holds it.
  predicate ShownAt(doc: seq<Node>, path: seq<nat>) {
    && ValidPath(doc, path) && IsShown(Get(doc, path))
    && forall n :: 0 < n < |path| && ValidPath(doc, path[..n]) ==> !IsShown(Get(doc, path[..n]))
  }

  predicate Before(a: seq<nat>, b: seq<nat>) {
    exists n :: 0 <= n < |a| && n < |b| && a[..n] == b[..n] && a[n] < b[n]
  }

  // ----- what stands before and after a block's words -----

  function Last(path: seq<nat>): nat
    requires path != []
  {
    path[|path| - 1]
  }

  function Up(path: seq<nat>): seq<nat>
    requires path != []
  {
    path[..|path| - 1]
  }

  predicate IsItem(node: Node) {
    node.Elem? && (node.kind.ListItem? || node.kind.TaskItem?)
  }

  // "> " for each quote around the block, and two spaces for each list item
  // whose first child it is not in.
  function Margin(doc: seq<Node>, path: seq<nat>): string
    requires ValidPath(doc, path)
    decreases |path|
  {
    if |path| == 1 then "" else
      UpIsValid(doc, path);
      var parent := Get(doc, Up(path));
      Margin(doc, Up(path))
      + if IsItem(parent) && Last(path) > 0 then "  " else if parent.kind.Blockquote? then "> " else ""
  }

  predicate Checked(node: Node) {
    && node.Elem? && "checked" in node.attrs
    && node.attrs["checked"] != Null && node.attrs["checked"] != Bool(false)
    && node.attrs["checked"] != Int(0) && node.attrs["checked"] != Str("")
  }

  // The number an ordered list starts at: 1 if it says none, or 0.
  function FirstNumber(node: Node): int
    requires node.Elem?
  {
    if "start" in node.attrs && node.attrs["start"].Int? && node.attrs["start"].i != 0 then node.attrs["start"].i else 1
  }

  // A list's items are marked, and an item's mark stands before its first child.
  function Marking(doc: seq<Node>, path: seq<nat>): string
    requires ValidPath(doc, path)
    decreases |path|
  {
    if |path| == 1 then "" else
      UpIsValid(doc, path);
      var parent := Get(doc, Up(path));
      match parent.kind
      case BulletList => "- "
      case TaskList => if Checked(Get(doc, path)) then "- [x] " else "- [ ] "
      case OrderedList => Decimal(FirstNumber(parent) + Last(path)) + ". "
      case ListItem => if Last(path) == 0 then Marking(doc, Up(path)) else ""
      case TaskItem => if Last(path) == 0 then Marking(doc, Up(path)) else ""
      case _ => ""
  }

  function Level(node: Node): nat
    requires node.Elem?
  {
    if "level" in node.attrs && node.attrs["level"].Int? then
      if node.attrs["level"].i < 0 then 0 else node.attrs["level"].i
    else 1
  }

  function Hashes(n: nat): string {
    seq(n, i => '#')
  }

  // A textblock's words, a hard break being a line break.
  function Words(nodes: seq<Node>): string {
    if nodes == [] then "" else
      (if nodes[0].Text? then nodes[0].text else if nodes[0].kind.HardBreak? then "\n" else "") + Words(nodes[1..])
  }

  function Piece(doc: seq<Node>, path: seq<nat>): string
    requires ShownAt(doc, path)
  {
    var node := Get(doc, path);
    if IsTextblock(node) then
      Margin(doc, path) + Marking(doc, path)
      + (if node.kind.Heading? then Hashes(Level(node)) + " " else "")
      + (if node.kind.CodeBlock? then "```\n" + Words(node.content) + "\n```" else Words(node.content))
    else Margin(doc, path) + "---"
  }

  // One piece after another, with an empty line before each but where there is
  // no text yet.
  function Pieced(text: string, doc: seq<Node>, paths: seq<seq<nat>>): string
    requires forall k :: 0 <= k < |paths| ==> ShownAt(doc, paths[k])
    decreases |paths|
  {
    if paths == [] then text else
      Pieced(text + (if text == "" then "" else "\n\n") + Piece(doc, paths[0]), doc, paths[1..])
  }

  // ----- paths -----

  lemma {:induction false} UpIsValid(doc: seq<Node>, path: seq<nat>)
    requires ValidPath(doc, path) && |path| > 1
    ensures ValidPath(doc, Up(path)) && Get(doc, Up(path)).Elem? && !IsLeafKind(Get(doc, Up(path)).kind)
    ensures Last(path) < |Get(doc, Up(path)).content| && Get(doc, path) == Get(doc, Up(path)).content[Last(path)]
    decreases |path|
  {
    if |path| == 2 {
      assert Up(path) == [path[0]] && path[1..] == [path[1]];
    } else {
      UpIsValid(doc[path[0]].content, path[1..]);
      assert Up(path)[1..] == Up(path[1..]) && Up(path)[0] == path[0];
    }
  }

  lemma {:induction false} DownIsValid(doc: seq<Node>, path: seq<nat>, i: nat)
    requires ValidPath(doc, path) && Get(doc, path).Elem? && !IsLeafKind(Get(doc, path).kind)
    requires i < |Get(doc, path).content|
    ensures ValidPath(doc, path + [i]) && Get(doc, path + [i]) == Get(doc, path).content[i]
    decreases |path|
  {
    if |path| == 1 {
      assert (path + [i])[1..] == [i];
    } else {
      DownIsValid(doc[path[0]].content, path[1..], i);
      assert (path + [i])[1..] == path[1..] + [i];
    }
  }

  // ----- the same, the way the builder goes -----

  // No block on the way down to a path, itself left out, is shown.
  predicate Open(doc: seq<Node>, path: seq<nat>) {
    forall n :: 0 < n <= |path| && ValidPath(doc, path[..n]) ==> !IsShown(Get(doc, path[..n]))
  }

  // The blocks shown in the node at a path, in order.
  function ShownIn(doc: seq<Node>, path: seq<nat>): seq<seq<nat>>
    requires ValidPath(doc, path)
    decreases Get(doc, path), 1
  {
    var node := Get(doc, path);
    if IsShown(node) then [path]
    else if node.Text? || IsLeafNode(node) then []
    else ShownUnder(doc, path, node.content, 0)
  }

  // In the children of the node at a path, or of the document, from the one
  // numbered `index` on.
  function ShownUnder(doc: seq<Node>, path: seq<nat>, children: seq<Node>, index: nat): seq<seq<nat>>
    requires index <= |children| && Under(doc, path, children)
    decreases children, 0, |children| - index
  {
    if index == |children| then [] else
      ChildIsThere(doc, path, children, index);
      ShownIn(doc, path + [index]) + ShownUnder(doc, path, children, index + 1)
  }

  predicate Under(doc: seq<Node>, path: seq<nat>, children: seq<Node>) {
    if path == [] then children == doc
    else
      && ValidPath(doc, path) && Get(doc, path).Elem? && !IsLeafKind(Get(doc, path).kind)
      && Get(doc, path).content == children
  }

  lemma ChildIsThere(doc: seq<Node>, path: seq<nat>, children: seq<Node>, index: nat)
    requires Under(doc, path, children) && index < |children|
    ensures ValidPath(doc, path + [index]) && Get(doc, path + [index]) == children[index]
    ensures Up(path + [index]) == path && Last(path + [index]) == index
  {
    if path != [] {
      DownIsValid(doc, path, index);
    } else {
      assert [] + [index] == [index];
    }
  }

  // ----- which blocks those are -----

  ghost predicate Lists(doc: seq<Node>, path: seq<nat>, paths: seq<seq<nat>>) {
    && (forall k :: 0 <= k < |paths| ==> ShownAt(doc, paths[k]) && path <= paths[k])
    && (forall q :: ShownAt(doc, q) && path <= q ==> q in paths)
    && (forall j, k :: 0 <= j < k < |paths| ==> Before(paths[j], paths[k]))
  }

  // The same for the paths through the children of `path` from `index` on.
  ghost predicate ListsFrom(doc: seq<Node>, path: seq<nat>, index: nat, paths: seq<seq<nat>>) {
    && (forall k :: 0 <= k < |paths| ==> ShownAt(doc, paths[k]) && Through(path, index, paths[k]))
    && (forall q :: ShownAt(doc, q) && Through(path, index, q) ==> q in paths)
    && (forall j, k :: 0 <= j < k < |paths| ==> Before(paths[j], paths[k]))
  }

  predicate Through(path: seq<nat>, index: nat, q: seq<nat>) {
    path < q && q[|path|] >= index
  }

  lemma OpenDown(doc: seq<Node>, path: seq<nat>, i: nat)
    requires Open(doc, path)
    ensures Open(doc, Up(path + [i]))
  {
    assert Up(path + [i]) == path;
  }

  lemma PathLeads(doc: seq<Node>, path: seq<nat>)
    requires ValidPath(doc, path)
    ensures path != []
  {
  }

  // A path further down is valid only past nodes that hold others.
  lemma {:induction false} PrefixIsValid(doc: seq<Node>, q: seq<nat>, n: nat)
    requires ValidPath(doc, q) && 0 < n < |q|
    ensures ValidPath(doc, q[..n]) && Get(doc, q[..n]).Elem? && !IsLeafKind(Get(doc, q[..n]).kind)
    ensures q[n] < |Get(doc, q[..n]).content|
    decreases |q|
  {
    UpIsValid(doc, q);
    if n < |q| - 1 {
      PrefixIsValid(doc, Up(q), n);
      assert Up(q)[..n] == q[..n];
    } else {
      assert Up(q) == q[..n];
    }
  }

  lemma ShownBlock(doc: seq<Node>, path: seq<nat>)
    requires ValidPath(doc, path) && IsShown(Get(doc, path)) && Open(doc, Up(path))
    ensures Lists(doc, path, [path])
  {
    hide Get, ValidPath, IsShown;
    PathLeads(doc, path);
    forall n | 0 < n < |path| && ValidPath(doc, path[..n])
      ensures !IsShown(Get(doc, path[..n]))
    {
      assert Up(path)[..n] == path[..n];
    }
    forall q | ShownAt(doc, q) && path <= q
      ensures q == path
    {
      assert q[..|path|] == path;
    }
  }

  lemma NothingIn(doc: seq<Node>, path: seq<nat>)
    requires ValidPath(doc, path) && !IsShown(Get(doc, path))
    requires Get(doc, path).Text? || IsLeafNode(Get(doc, path))
    ensures Lists(doc, path, [])
  {
    hide Get, ValidPath, IsShown;
    PathLeads(doc, path);
    forall q | path <= q && ValidPath(doc, q)
      ensures q == path
    {
      if path < q {
        assert q[..|path|] == path;
        PrefixIsValid(doc, q, |path|);
        assert false;
      }
    }
  }

  lemma {:induction false} ShownInLists(doc: seq<Node>, path: seq<nat>)
    requires ValidPath(doc, path) && Open(doc, Up(path))
    ensures Lists(doc, path, ShownIn(doc, path))
    decreases Get(doc, path), 1
  {
    hide Lists, ListsFrom, IsShown, Get, ValidPath;
    var node := Get(doc, path);
    if IsShown(node) {
      ShownBlock(doc, path);
    } else if node.Text? || IsLeafNode(node) {
      NothingIn(doc, path);
    } else {
      OpenHere(doc, path);
      PathLeads(doc, path);
      ShownUnderLists(doc, path, node.content, 0);
      AllThrough(doc, path, ShownUnder(doc, path, node.content, 0));
    }
  }

  lemma OpenHere(doc: seq<Node>, path: seq<nat>)
    requires ValidPath(doc, path) && Open(doc, Up(path)) && !IsShown(Get(doc, path))
    ensures Open(doc, path)
  {
    hide Get, ValidPath, IsShown;
    forall n | 0 < n <= |path| && ValidPath(doc, path[..n])
      ensures !IsShown(Get(doc, path[..n]))
    {
      if n == |path| {
        assert path[..n] == path;
      } else {
        assert Up(path)[..n] == path[..n];
      }
    }
  }

  lemma AllThrough(doc: seq<Node>, path: seq<nat>, paths: seq<seq<nat>>)
    requires ValidPath(doc, path) && !IsShown(Get(doc, path)) && ListsFrom(doc, path, 0, paths)
    ensures Lists(doc, path, paths)
  {
    hide Get, ValidPath, IsShown, Before;
    forall q | ShownAt(doc, q) && path <= q
      ensures q in paths
    {
      assert q != path;
      assert Through(path, 0, q);
    }
  }

  lemma {:induction false} ShownUnderLists(doc: seq<Node>, path: seq<nat>, children: seq<Node>, index: nat)
    requires index <= |children| && Under(doc, path, children) && Open(doc, path)
    ensures ListsFrom(doc, path, index, ShownUnder(doc, path, children, index))
    decreases children, 0, |children| - index
  {
    hide Lists, ListsFrom, IsShown, Get, ValidPath;
    if index == |children| {
      NoneThrough(doc, path, children);
    } else {
      ChildIsThere(doc, path, children, index);
      OpenDown(doc, path, index);
      ShownInLists(doc, path + [index]);
      ShownUnderLists(doc, path, children, index + 1);
      OneChildMore(doc, path, index, ShownIn(doc, path + [index]), ShownUnder(doc, path, children, index + 1));
    }
  }

  lemma NoneThrough(doc: seq<Node>, path: seq<nat>, children: seq<Node>)
    requires Under(doc, path, children)
    ensures ListsFrom(doc, path, |children|, [])
  {
    hide Get, IsShown;
    forall q | ValidPath(doc, q) && path < q
      ensures q[|path|] < |children|
    {
      if path != [] {
        PrefixIsValid(doc, q, |path|);
        assert q[..|path|] == path;
      }
    }
  }

  lemma OneChildMore(doc: seq<Node>, path: seq<nat>, index: nat, here: seq<seq<nat>>, later: seq<seq<nat>>)
    requires Lists(doc, path + [index], here) && ListsFrom(doc, path, index + 1, later)
    ensures ListsFrom(doc, path, index, here + later)
  {
    hide ShownAt;
    var all := here + later;
    forall q | path < q
      ensures Through(path, index, q) <==> path + [index] <= q || Through(path, index + 1, q)
    {
      if q[|path|] == index {
        assert q[..|path| + 1] == path + [index];
      }
    }
    forall q | ShownAt(doc, q) && Through(path, index, q)
      ensures q in all
    {
      if path + [index] <= q {
        assert q in here;
      } else {
        assert q in later;
      }
    }
    forall j, k | 0 <= j < k < |all|
      ensures Before(all[j], all[k])
    {
      if j < |here| <= k {
        var a, b := here[j], later[k - |here|];
        assert a[..|path|] == path == b[..|path|] && a[|path|] == index < b[|path|];
      }
    }
  }

  // The blocks the plain text shows, in the order of the document.
  function AllShown(doc: seq<Node>): seq<seq<nat>> {
    ShownUnder(doc, [], doc, 0)
  }

  // They are the textblocks and rules that no other such block holds, each once
  // and in order.
  lemma AllShownExactly(doc: seq<Node>)
    ensures var paths := AllShown(doc);
            && (forall q :: q in paths <==> ShownAt(doc, q))
            && forall j, k :: 0 <= j < k < |paths| ==> Before(paths[j], paths[k])
  {
    ShownUnderLists(doc, [], doc, 0);
    var paths := AllShown(doc);
    forall q | ShownAt(doc, q)
      ensures q in paths
    {
      assert Through([], 0, q);
    }
  }

  // ----- the builder's text -----

  lemma {:induction false} RunsRead(p: Plain, nodes: seq<Node>, pos: nat)
    ensures InlineRuns(p, nodes, pos).text == p.text + Words(nodes)
    decreases |nodes|
  {
    hide NodeSize;
    if nodes != [] {
      var child, size := nodes[0], NodeSize(nodes[0]);
      var word := if child.Text? then child.text else if child.kind.HardBreak? then "\n" else "";
      var q := if child.Text? then EmitRun(p, child.text, pos, size)
               else if child.kind.HardBreak? then EmitRun(p, "\n", pos, size)
               else p;
      assert q.text == p.text + word;
      RunsRead(q, nodes[1..], pos + size);
      Seqs.Assoc(p.text, word, Words(nodes[1..]));
    }
  }

  lemma {:induction false} HashesRepeat(n: int)
    ensures Repeat('#', n) == Hashes(if n < 0 then 0 else n)
    decreases if n < 0 then 0 else n
  {
    if n > 0 {
      HashesRepeat(n - 1);
      assert Hashes(n) == ['#'] + Hashes(n - 1);
    }
  }

  lemma OneBlock(p: Plain, doc: seq<Node>, path: seq<nat>, pos: nat)
    requires ShownAt(doc, path)
    ensures Block(p, Get(doc, path), pos, Margin(doc, path), Marking(doc, path)).text
            == p.text + (if p.text == "" then "" else "\n\n") + Piece(doc, path)
  {
    hide Margin, Marking, Get, ValidPath, InlineRuns, Hashes, Repeat, Words;
    var node, margin, marking := Get(doc, path), Margin(doc, path), Marking(doc, path);
    var between := if p.text == "" then "" else "\n\n";
    if IsTextblock(node) {
      var q := Emit(Separate(p), Opening(node, margin, marking));
      RunsRead(q, node.content, pos + 1);
      HashesRepeat(IntAttr(node.attrs, "level"));
      SevenParts(p.text, between, margin, marking,
                 if node.kind.Heading? then Hashes(Level(node)) + " " else "",
                 if node.kind.CodeBlock? then "```\n" else "", Words(node.content),
                 if node.kind.CodeBlock? then "\n```" else "");
    } else {
      Seqs.Assoc(p.text, between, margin + "---");
    }
  }

  lemma SevenParts(text: string, between: string, margin: string, marking: string, hashes: string, fence: string,
                   words: string, close: string)
    ensures (((text + between) + (((margin + marking) + hashes) + fence)) + words) + close
            == (text + between) + (((margin + marking) + hashes) + ((fence + words) + close))
    ensures words == ("" + words) + ""
  {
  }

  lemma ChildReads(doc: seq<Node>, path: seq<nat>, index: nat, marker: string, margin: string)
    requires path != [] && ValidPath(doc, path) && Get(doc, path).Elem? && !IsLeafKind(Get(doc, path).kind)
    requires index < |Get(doc, path).content| && ValidPath(doc, path + [index])
    requires marker == Marking(doc, path) && margin == Margin(doc, path)
    requires Up(path + [index]) == path && Last(path + [index]) == index
    requires Get(doc, path + [index]) == Get(doc, path).content[index]
    ensures var node := Get(doc, path);
            && ChildPrefix(node.kind, index, margin) == Margin(doc, path + [index])
            && ChildMarker(node.kind, ListStart(node), index, node.content[index], marker)
               == Marking(doc, path + [index])
  {
    hide Get, ValidPath, Decimal;
    assert margin + "" == margin;
  }

  lemma {:induction false} PiecedConcat(text: string, doc: seq<Node>, a: seq<seq<nat>>, b: seq<seq<nat>>)
    requires forall k :: 0 <= k < |a| ==> ShownAt(doc, a[k])
    requires forall k :: 0 <= k < |b| ==> ShownAt(doc, b[k])
    ensures Pieced(text, doc, a + b) == Pieced(Pieced(text, doc, a), doc, b)
    decreases |a|
  {
    hide ShownAt, Piece;
    if a == [] {
      assert a + b == b;
    } else {
      Seqs.TailOfConcat(a, b);
      PiecedConcat(text + (if text == "" then "" else "\n\n") + Piece(doc, a[0]), doc, a[1..], b);
    }
  }

  lemma {:induction false} BlockReads(p: Plain, doc: seq<Node>, path: seq<nat>, pos: nat)
    requires ValidPath(doc, path) && Open(doc, Up(path))
    ensures Lists(doc, path, ShownIn(doc, path))
    ensures Block(p, Get(doc, path), pos, Margin(doc, path), Marking(doc, path)).text
            == Pieced(p.text, doc, ShownIn(doc, path))
    decreases Get(doc, path), 1
  {
    ShownInLists(doc, path);
    hide Lists, Get, ValidPath, Margin, Marking, Items;
    var node := Get(doc, path);
    if IsShown(node) {
      ShownIsShown(doc, path);
      OneBlock(p, doc, path, pos);
      assert [path][1..] == [];
    } else if !node.Text? && !IsLeafNode(node) {
      OpenHere(doc, path);
      ItemsRead(p, doc, path, node.content, 0, pos + 1, node.kind, ListStart(node), Margin(doc, path),
                Marking(doc, path));
      assert node.content[0..] == node.content;
    }
  }

  lemma ShownIsShown(doc: seq<Node>, path: seq<nat>)
    requires ValidPath(doc, path) && IsShown(Get(doc, path)) && Open(doc, Up(path))
    ensures ShownAt(doc, path)
  {
    ShownBlock(doc, path);
    assert [path][0] == path;
  }

  lemma {:induction false} ItemsRead(p: Plain, doc: seq<Node>, path: seq<nat>, children: seq<Node>, index: nat,
                                     pos: nat, kind: Kind, first: int, prefix: string, marker: string)
    requires index <= |children| && Under(doc, path, children) && Open(doc, path)
    requires if path == [] then kind == Other("doc") && prefix == "" && marker == ""
             else && kind == Get(doc, path).kind && first == ListStart(Get(doc, path))
                  && prefix == Margin(doc, path) && marker == Marking(doc, path)
    ensures ListsFrom(doc, path, index, ShownUnder(doc, path, children, index))
    ensures Items(p, kind, first, children[index..], index, pos, prefix, marker).text
            == Pieced(p.text, doc, ShownUnder(doc, path, children, index))
    decreases children, 0, |children| - index
  {
    hide Get, ValidPath, Block, Items, Margin, Marking, ChildPrefix, ChildMarker, NodeSize, IsLeafKind, Lists,
      ListsFrom, Pieced, Open;
    ShownUnderLists(doc, path, children, index);
    if index < |children| {
      var at := path + [index];
      ChildIsThere(doc, path, children, index);
      OpenDown(doc, path, index);
      ChildHolds(doc, path, children, index, kind, first, prefix, marker);
      BlockReads(p, doc, at, pos);
      var q := Block(p, children[index], pos, Margin(doc, at), Marking(doc, at));
      ItemsStep(p, kind, first, children, index, pos, prefix, marker);
      ItemsRead(q, doc, path, children, index + 1, pos + NodeSize(children[index]), kind, first, prefix, marker);
      TwoPieced(p.text, doc, path, at, index, ShownIn(doc, at), ShownUnder(doc, path, children, index + 1));
    } else {
      NoItems(p, doc, kind, first, children, pos, prefix, marker);
    }
  }

  lemma NoItems(p: Plain, doc: seq<Node>, kind: Kind, first: int, children: seq<Node>, pos: nat, prefix: string,
                marker: string)
    ensures Items(p, kind, first, children[|children|..], |children|, pos, prefix, marker).text
            == Pieced(p.text, doc, [])
  {
  }

  lemma ItemsStep(p: Plain, kind: Kind, first: int, children: seq<Node>, index: nat, pos: nat, prefix: string,
                  marker: string)
    requires index < |children|
    ensures var child := children[index];
            var q := Block(p, child, pos, ChildPrefix(kind, index, prefix),
                           ChildMarker(kind, first, index, child, marker));
            Items(p, kind, first, children[index..], index, pos, prefix, marker)
            == Items(q, kind, first, children[index + 1..], index + 1, pos + NodeSize(child), prefix, marker)
  {
    hide Block, ChildPrefix, ChildMarker, NodeSize;
    assert children[index..][0] == children[index] && children[index..][1..] == children[index + 1..];
  }

  lemma ChildHolds(doc: seq<Node>, path: seq<nat>, children: seq<Node>, index: nat, kind: Kind, first: int,
                   prefix: string, marker: string)
    requires index < |children| && Under(doc, path, children) && ValidPath(doc, path + [index])
    requires Get(doc, path + [index]) == children[index]
    requires Up(path + [index]) == path && Last(path + [index]) == index
    requires if path == [] then kind == Other("doc") && prefix == "" && marker == ""
             else && kind == Get(doc, path).kind && first == ListStart(Get(doc, path))
                  && prefix == Margin(doc, path) && marker == Marking(doc, path)
    ensures ChildPrefix(kind, index, prefix) == Margin(doc, path + [index])
    ensures ChildMarker(kind, first, index, children[index], marker) == Marking(doc, path + [index])
  {
    hide Get, ValidPath, Margin, Marking, ChildPrefix, ChildMarker;
    if path != [] {
      ChildReads(doc, path, index, marker, prefix);
    } else {
      TopReads(doc, index, first, children[index]);
    }
  }

  lemma TwoPieced(text: string, doc: seq<Node>, path: seq<nat>, at: seq<nat>, index: nat, here: seq<seq<nat>>,
                  later: seq<seq<nat>>)
    requires Lists(doc, at, here) && ListsFrom(doc, path, index + 1, later)
    requires at == path + [index]
    ensures ListsFrom(doc, path, index, here + later)
    ensures Pieced(text, doc, here + later) == Pieced(Pieced(text, doc, here), doc, later)
  {
    hide Pieced, ShownAt, Before;
    OneChildMore(doc, path, index, here, later);
    PiecedConcat(text, doc, here, later);
  }

  lemma TopReads(doc: seq<Node>, index: nat, first: int, child: Node)
    requires index < |doc| && ValidPath(doc, [] + [index])
    ensures ChildPrefix(Other("doc"), index, "") == Margin(doc, [] + [index])
    ensures ChildMarker(Other("doc"), first, index, child, "") == Marking(doc, [] + [index])
  {
    hide Get;
  }

  // The plain text of a document is the pieces of its blocks, one after another.
  lemma PlainTextReads(doc: seq<Node>)
    ensures forall k :: 0 <= k < |AllShown(doc)| ==> ShownAt(doc, AllShown(doc)[k])
    ensures ToPlain(doc).text == Pieced("", doc, AllShown(doc))
  {
    ItemsRead(EMPTY, doc, [], doc, 0, 0, Other("doc"), 1, "", "");
    assert doc[0..] == doc;
  }

  predicate AllWorded(doc: seq<Node>) {
    forall i :: 0 <= i < |doc| ==> doc[i].Elem? && doc[i].kind.Paragraph? && Words(doc[i].content) != ""
  }

  function Spaced(doc: seq<Node>): string
    requires AllWorded(doc)
  {
    if doc == [] then ""
    else if |doc| == 1 then Words(doc[0].content)
    else Words(doc[0].content) + "\n\n" + Spaced(doc[1..])
  }

  // Paragraphs of text read as their texts with an empty line between them.
  lemma ParagraphsRead(doc: seq<Node>)
    requires AllWorded(doc)
    ensures ToPlain(doc).text == Spaced(doc)
  {
    hide Words, NodeSize, Block, Items;
    if doc != [] {
      var q := Block(EMPTY, doc[0], 0, "", "");
      OneParagraph(EMPTY, doc[0], 0);
      PlainStep(EMPTY, Other("doc"), 1, doc, 0, 0);
      LaterParagraphs(q, Other("doc"), 1, doc[1..], 1, NodeSize(doc[0]));
      assert "" + "" + Words(doc[0].content) == Words(doc[0].content);
    } else {
      assert ToPlain([]).text == "" by {
        NoneLeft(EMPTY);
      }
    }
  }

  lemma NoneLeft(p: Plain)
    ensures Items(p, Other("doc"), 1, [], 0, 0, "", "") == p
  {
  }

  lemma PlainStep(p: Plain, kind: Kind, first: int, doc: seq<Node>, index: nat, pos: nat)
    requires doc != [] && kind.Other?
    ensures Items(p, kind, first, doc, index, pos, "", "")
            == Items(Block(p, doc[0], pos, "", ""), kind, first, doc[1..], index + 1, pos + NodeSize(doc[0]), "", "")
  {
    hide Block, NodeSize;
  }

  lemma {:induction false} LaterParagraphs(p: Plain, kind: Kind, first: int, doc: seq<Node>, index: nat, pos: nat)
    requires AllWorded(doc) && kind.Other? && p.text != ""
    ensures Items(p, kind, first, doc, index, pos, "", "").text
            == p.text + if doc == [] then "" else "\n\n" + Spaced(doc)
    decreases |doc|
  {
    hide Words, NodeSize, Block;
    if doc != [] {
      var q := Block(p, doc[0], pos, "", "");
      OneParagraph(p, doc[0], pos);
      PlainStep(p, kind, first, doc, index, pos);
      LaterParagraphs(q, kind, first, doc[1..], index + 1, pos + NodeSize(doc[0]));
      FiveParts(p.text, Words(doc[0].content), if |doc| == 1 then "" else "\n\n" + Spaced(doc[1..]));
    }
  }

  lemma FiveParts(text: string, words: string, rest: string)
    ensures text + "\n\n" + words + rest == text + ("\n\n" + (words + rest))
    ensures words + "" == words
  {
  }

  lemma OneParagraph(p: Plain, node: Node, pos: nat)
    requires node.Elem? && node.kind.Paragraph?
    ensures Block(p, node, pos, "", "").text == p.text + (if p.text == "" then "" else "\n\n") + Words(node.content)
  {
    hide InlineRuns, Words;
    var q := Emit(Separate(p), Opening(node, "", ""));
    RunsRead(q, node.content, pos + 1);
    assert Opening(node, "", "") == "" && q.text == Separate(p).text;
  }

  // ----- numbers -----

  predicate Figures(s: string) {
    forall i :: 0 <= i < |s| ==> '0' <= s[i] <= '9'
  }

  function Value(digits: string): nat
    requires Figures(digits)
  {
    if digits == "" then 0 else Value(digits[..|digits| - 1]) * 10 + (digits[|digits| - 1] as int - '0' as int)
  }

  lemma OneMoreFigure(s: string, d: nat)
    requires Figures(s) && d < 10
    ensures Figures(s + [('0' as int + d) as char])
    ensures Value(s + [('0' as int + d) as char]) == Value(s) * 10 + d
  {
    var c := ('0' as int + d) as char;
    assert (s + [c])[..|s + [c]| - 1] == s;
  }

  // The digits of a number read as the number, with no zero before it.
  lemma {:induction false} DigitsRead(n: nat)
    ensures Figures(Digits(n)) && Value(Digits(n)) == n
    ensures Digits(n) != "" && (n > 0 ==> Digits(n)[0] != '0')
    decreases n
  {
    hide Figures, Value;
    if n >= 10 {
      DigitsRead(n / 10);
      OneMoreFigure(Digits(n / 10), n % 10);
    } else {
      NoFigures();
      OneMoreFigure("", n);
      assert "" + [('0' as int + n) as char] == [('0' as int + n) as char];
    }
  }

  lemma NoFigures()
    ensures Figures("") && Value("") == 0
  {
  }
}
