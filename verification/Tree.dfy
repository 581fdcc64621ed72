// ProseMirror documents as trees, and the token sequence positions index.
module Tree {
  import opened Utf16
  import Seqs

  datatype Kind =
    | Paragraph | Heading | CodeBlock
    | HardBreak | HorizontalRule | PageBreak | Image
    | BulletList | OrderedList | TaskList | ListItem | TaskItem | Blockquote
    | Other(name: string)

  datatype Value = Null | Bool(b: bool) | Int(i: int) | Str(s: string)

  type Attrs = map<string, Value>

  datatype Mark = Mark(name: string, attrs: Attrs)

  // A missing "content", "attrs" or "marks" is an empty one.
  datatype Node =
    | Text(text: string, marks: seq<Mark>)
    | Elem(kind: Kind, attrs: Attrs, marks: seq<Mark>, content: seq<Node>)

  // One position each: what a step of the editor's cursor passes over.
  datatype Token =
    | Unit(code: nat, marks: seq<Mark>)
    | Leaf(kind: Kind, attrs: Attrs, marks: seq<Mark>)
    | Open(kind: Kind, attrs: Attrs, marks: seq<Mark>)
    | Close

  predicate IsLeafKind(kind: Kind) {
    kind.HardBreak? || kind.HorizontalRule? || kind.PageBreak? || kind.Image?
  }

  predicate IsLeafNode(node: Node) {
    node.Elem? && IsLeafKind(node.kind)
  }

  function Children(node: Node): seq<Node> {
    if node.Elem? then node.content else []
  }

  predicate IsTextblock(node: Node) {
    && node.Elem?
    && (|| node.kind.Paragraph? || node.kind.Heading? || node.kind.CodeBlock?
        || exists child :: child in node.content && child.Text?)
  }

  // ----- sizes -----

  function NodeSize(node: Node): nat
    decreases node, 0
  {
    match node
    case Text(text, _) => Utf16Len(text)
    case Elem(kind, _, _, content) => if IsLeafKind(kind) then 1 else ContentSize(content) + 2
  }

  function ContentSize(nodes: seq<Node>): nat
    decreases nodes, 0
  {
    if nodes == [] then 0 else NodeSize(nodes[0]) + ContentSize(nodes[1..])
  }

  // ----- tokens -----

  function UnitTokens(text: string, marks: seq<Mark>): (tokens: seq<Token>)
    ensures |tokens| == Utf16Len(text)
  {
    var units := Encode(text);
    seq(|units|, i requires 0 <= i < |units| => Unit(units[i], marks))
  }

  function NodeTokens(node: Node): (tokens: seq<Token>)
    ensures |tokens| == NodeSize(node)
    decreases node, 0
  {
    match node
    case Text(text, marks) => UnitTokens(text, marks)
    case Elem(kind, attrs, marks, content) =>
      if IsLeafKind(kind) then [Leaf(kind, attrs, marks)]
      else [Open(kind, attrs, marks)] + Tokens(content) + [Close]
  }

  // Positions in a document count its tokens.
  function Tokens(nodes: seq<Node>): (tokens: seq<Token>)
    ensures |tokens| == ContentSize(nodes)
    decreases nodes, 0
  {
    if nodes == [] then [] else NodeTokens(nodes[0]) + Tokens(nodes[1..])
  }

  lemma {:induction false} TokensConcat(a: seq<Node>, b: seq<Node>)
    ensures Tokens(a + b) == Tokens(a) + Tokens(b)
  {
    hide NodeTokens, NodeSize, ContentSize;
    if a == [] {
      assert a + b == b;
    } else {
      TokensConcat(a[1..], b);
      Seqs.TailOfConcat(a, b);
      Seqs.Assoc(NodeTokens(a[0]), Tokens(a[1..]), Tokens(b));
    }
  }

  lemma TokensSingle(node: Node)
    ensures Tokens([node]) == NodeTokens(node)
  {
    assert Tokens([node][1..]) == [];
  }

  lemma TokensCons(nodes: seq<Node>)
    requires nodes != []
    ensures Tokens(nodes) == NodeTokens(nodes[0]) + Tokens(nodes[1..])
  {
  }

  lemma UnitTokensConcat(a: string, b: string, marks: seq<Mark>)
    ensures UnitTokens(a + b, marks) == UnitTokens(a, marks) + UnitTokens(b, marks)
  {
    EncodeConcat(a, b);
  }

  // ----- ProseMirror's normal form -----

  predicate Mergeable(a: Node, b: Node) {
    a.Text? && b.Text? && a.marks == b.marks
  }

  predicate NormalNode(node: Node)
    decreases node, 0
  {
    match node
    case Text(text, _) => text != []
    case Elem(kind, _, _, content) => if IsLeafKind(kind) then content == [] else Normal(content)
  }

  // No empty text, no neighbours that could be one text, nothing inside leaves.
  predicate Normal(nodes: seq<Node>)
    decreases nodes, 0
  {
    nodes == [] ||
    (&& NormalNode(nodes[0])
     && (|nodes| > 1 ==> !Mergeable(nodes[0], nodes[1]))
     && Normal(nodes[1..]))
  }

  lemma NormalSingle(node: Node)
    requires NormalNode(node)
    ensures Normal([node])
  {
    assert Normal([node][1..]);
  }

  lemma {:induction false} NormalAt(nodes: seq<Node>, i: nat)
    requires Normal(nodes) && i < |nodes|
    ensures NormalNode(nodes[i])
    ensures i + 1 < |nodes| ==> !Mergeable(nodes[i], nodes[i + 1])
  {
    if i > 0 {
      NormalAt(nodes[1..], i - 1);
    }
  }

  lemma {:induction false} NormalConcat(a: seq<Node>, b: seq<Node>)
    requires Normal(a) && Normal(b)
    requires a != [] && b != [] ==> !Mergeable(a[|a| - 1], b[0])
    ensures Normal(a + b)
  {
    if a == [] {
      assert a + b == b;
    } else {
      NormalConcat(a[1..], b);
      assert (a + b)[1..] == a[1..] + b;
    }
  }

  lemma {:induction false} NormalSlice(nodes: seq<Node>, i: nat, j: nat)
    requires Normal(nodes) && i <= j <= |nodes|
    ensures Normal(nodes[i..j])
    decreases j - i
  {
    if i < j {
      NormalAt(nodes, i);
      NormalSlice(nodes, i + 1, j);
      assert nodes[i..j][1..] == nodes[i + 1..j];
    }
  }

  // ----- flattening is injective on normal trees -----

  // What may follow a node's content in a token sequence.
  predicate Ends(rest: seq<Token>) {
    rest == [] || rest[0].Close?
  }

  // How the tokens of a normal list begin tells what its first node is.
  lemma FirstToken(nodes: seq<Node>, rest: seq<Token>)
    requires Normal(nodes) && Ends(rest)
    ensures nodes == [] ==> Ends(Tokens(nodes) + rest)
    ensures nodes != [] ==> |Tokens(nodes)| > 0
    ensures nodes != [] && nodes[0].Text? ==>
              Tokens(nodes)[0].Unit? && Tokens(nodes)[0].marks == nodes[0].marks
    ensures nodes != [] && nodes[0].Elem? ==>
              Tokens(nodes)[0] ==
              if IsLeafKind(nodes[0].kind) then Leaf(nodes[0].kind, nodes[0].attrs, nodes[0].marks)
              else Open(nodes[0].kind, nodes[0].attrs, nodes[0].marks)
  {
    if nodes != [] && nodes[0].Elem? && !IsLeafKind(nodes[0].kind) {
      assert NodeTokens(nodes[0])[0] == Open(nodes[0].kind, nodes[0].attrs, nodes[0].marks);
    }
  }

  // The tokens after a text never continue it.
  lemma TextEndsThere(nodes: seq<Node>, rest: seq<Token>)
    requires Normal(nodes) && Ends(rest) && nodes != [] && nodes[0].Text?
    ensures var after := Tokens(nodes[1..]) + rest;
            after == [] || !after[0].Unit? || after[0].marks != nodes[0].marks
  {
    FirstToken(nodes[1..], rest);
  }

  // Of two runs of units that nothing continues, neither ends first.
  lemma RunsAlign(ta: seq<Token>, sa: seq<Token>, tb: seq<Token>, sb: seq<Token>, marks: seq<Mark>)
    requires ta + sa == tb + sb
    requires forall i :: 0 <= i < |tb| ==> tb[i].Unit? && tb[i].marks == marks
    requires sa == [] || !sa[0].Unit? || sa[0].marks != marks
    ensures |tb| <= |ta|
  {
    var whole := ta + sa;
    assert sa == whole[|ta|..] && tb == whole[..|tb|];
    assert |ta| < |whole| ==> sa[0] == whole[|ta|];
    assert forall i :: 0 <= i < |tb| ==> whole[i] == tb[i];
  }

  lemma UnitTokensInjective(a: string, b: string, marks: seq<Mark>)
    requires UnitTokens(a, marks) == UnitTokens(b, marks)
    ensures a == b
  {
    var ta, tb, ea, eb := UnitTokens(a, marks), UnitTokens(b, marks), Encode(a), Encode(b);
    forall i | 0 <= i < |ea|
      ensures ea[i] == eb[i]
    {
      assert ta[i] == Unit(ea[i], marks) && tb[i] == Unit(eb[i], marks);
    }
    assert ea == eb;
    EncodeInjective(a, b);
  }

  lemma TextTokens(nodes: seq<Node>, rest: seq<Token>)
    requires nodes != [] && nodes[0].Text?
    ensures Tokens(nodes) + rest
            == UnitTokens(nodes[0].text, nodes[0].marks) + (Tokens(nodes[1..]) + rest)
  {
    Seqs.Assoc(NodeTokens(nodes[0]), Tokens(nodes[1..]), rest);
  }

  lemma SameText(a: seq<Node>, ra: seq<Token>, b: seq<Node>, rb: seq<Token>)
    requires Normal(a) && Ends(ra) && a != [] && a[0].Text?
    requires Normal(b) && Ends(rb) && b != [] && b[0].Text?
    requires Tokens(a) + ra == Tokens(b) + rb
    requires a[0].marks == b[0].marks
    ensures a[0] == b[0]
    ensures Tokens(a[1..]) + ra == Tokens(b[1..]) + rb
  {
    TextTokens(a, ra);
    TextTokens(b, rb);
    TextEndsThere(a, ra);
    TextEndsThere(b, rb);
    hide Tokens, NodeTokens, NodeSize, ContentSize, Normal, NormalNode, Encode;
    var ta, tb := UnitTokens(a[0].text, a[0].marks), UnitTokens(b[0].text, b[0].marks);
    var sa, sb := Tokens(a[1..]) + ra, Tokens(b[1..]) + rb;
    RunsAlign(ta, sa, tb, sb, a[0].marks);
    RunsAlign(tb, sb, ta, sa, a[0].marks);
    assert ta == (ta + sa)[..|ta|] == tb;
    assert sa == (ta + sa)[|ta|..] == sb;
    UnitTokensInjective(a[0].text, b[0].text, a[0].marks);
  }

  lemma {:induction false} FlattenInjective(a: seq<Node>, ra: seq<Token>, b: seq<Node>, rb: seq<Token>)
    requires Normal(a) && Normal(b) && Ends(ra) && Ends(rb)
    requires Tokens(a) + ra == Tokens(b) + rb
    ensures a == b && ra == rb
    decreases a
  {
    FirstToken(a, ra);
    FirstToken(b, rb);
    if a == [] {
      assert Tokens(a) + ra == ra;
      assert b == [];
    } else {
      assert (Tokens(a) + ra)[0] == Tokens(a)[0];
      assert b != [];
      assert (Tokens(b) + rb)[0] == Tokens(b)[0];
      if a[0].Text? {
        SameText(a, ra, b, rb);
      } else {
        SameElem(a, ra, b, rb);
      }
      FlattenInjective(a[1..], ra, b[1..], rb);
      assert a == [a[0]] + a[1..] && b == [b[0]] + b[1..];
    }
  }

  lemma ElemTokens(nodes: seq<Node>, rest: seq<Token>)
    requires nodes != [] && nodes[0].Elem?
    ensures var whole, after := Tokens(nodes) + rest, Tokens(nodes[1..]) + rest;
            if IsLeafKind(nodes[0].kind) then whole[1..] == after
            else whole[1..] == Tokens(nodes[0].content) + ([Close] + after)
  {
    var node, after := nodes[0], Tokens(nodes[1..]) + rest;
    Seqs.Assoc(NodeTokens(node), Tokens(nodes[1..]), rest);
    hide Tokens, NodeSize, ContentSize;
    if !IsLeafKind(node.kind) {
      var opening := [Open(node.kind, node.attrs, node.marks)];
      Seqs.Assoc(opening, Tokens(node.content), [Close]);
      Seqs.Assoc(opening, Tokens(node.content) + [Close], after);
      Seqs.Assoc(Tokens(node.content), [Close], after);
      Seqs.PrefixOfConcat(opening, Tokens(node.content) + [Close] + after);
    }
  }

  lemma {:induction false} SameElem(a: seq<Node>, ra: seq<Token>, b: seq<Node>, rb: seq<Token>)
    requires Normal(a) && Ends(ra) && a != [] && a[0].Elem?
    requires Normal(b) && Ends(rb) && b != [] && b[0].Elem?
    requires Tokens(a)[0] == Tokens(b)[0] && Tokens(a) + ra == Tokens(b) + rb
    ensures a[0] == b[0]
    ensures Tokens(a[1..]) + ra == Tokens(b[1..]) + rb
    decreases a, 0
  {
    FirstToken(a, ra);
    FirstToken(b, rb);
    ElemTokens(a, ra);
    ElemTokens(b, rb);
    hide Tokens, NodeTokens, NodeSize, ContentSize;
    var sa, sb := Tokens(a[1..]) + ra, Tokens(b[1..]) + rb;
    if !IsLeafKind(a[0].kind) {
      FlattenInjective(a[0].content, [Close] + sa, b[0].content, [Close] + sb);
      assert sa == ([Close] + sa)[1..] == ([Close] + sb)[1..] == sb;
    }
  }

  // A normal document is determined by its tokens.
  lemma TokensDetermineDocument(a: seq<Node>, b: seq<Node>)
    requires Normal(a) && Normal(b)
    requires Tokens(a) == Tokens(b)
    ensures a == b
  {
    assert Tokens(a) + [] == Tokens(a) && Tokens(b) + [] == Tokens(b);
    FlattenInjective(a, [], b, []);
  }
}
