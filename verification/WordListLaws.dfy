// Writing nested lists to Word and reading them back gives the same lists.
module WordListLaws {
  import opened Wrappers
  import opened Utf16
  import opened Tree
  import opened Inline
  import opened Gather
  import opened ListItems
  import opened WordLists
  import Text
  import Seqs

  // ----- one paragraph -----

  lemma NormalizedSelf(content: seq<Node>)
    requires Normal(content)
    ensures Normalized([], content) == content
  {
    forall i | 0 <= i < |content|
      ensures NormalNode(content[i])
    {
      NormalAt(content, i);
    }
    hide Normalized, NormalNode;
    NormalizedIsTheNormalForm(content, content);
  }

  predicate OpensWithSpace(content: seq<Node>) {
    content != [] && content[0].Text? && content[0].text != [] && content[0].text[0] == ' '
  }

  // The box run, in normal form with the text after it.
  function Boxed(checked: bool, content: seq<Node>): seq<Node> {
    if content != [] && Mergeable(Box(checked), content[0]) then
      [Node.Text(Box(checked).text + content[0].text, [])] + content[1..]
    else [Box(checked)] + content
  }

  lemma BoxedIsNormal(checked: bool, content: seq<Node>)
    requires Normal(content)
    ensures Normal(Boxed(checked, content))
  {
    var head := Boxed(checked, content)[0];
    NormalSingle(head);
    if content != [] && Mergeable(Box(checked), content[0]) {
      NormalSlice(content, 1, |content|);
      assert content[1..] == content[1..|content|];
      NormalConcat([head], content[1..]);
    } else {
      NormalConcat([head], content);
    }
  }

  lemma BoxedTokens(checked: bool, content: seq<Node>)
    ensures Tokens(Boxed(checked, content)) == Tokens([Box(checked)] + content)
  {
    var box := Box(checked);
    hide Tokens, NodeTokens, UnitTokens;
    if content != [] && Mergeable(box, content[0]) {
      var merged := Node.Text(box.text + content[0].text, []);
      assert [box] + content == [box, content[0]] + content[1..];
      TokensConcat([merged], content[1..]);
      TokensConcat([box, content[0]], content[1..]);
      assert [box, content[0]] == [box] + [content[0]];
      TokensConcat([box], [content[0]]);
      TokensSingle(merged);
      TokensSingle(box);
      TokensSingle(content[0]);
      TextNodeTokens(merged);
      TextNodeTokens(box);
      TextNodeTokens(content[0]);
      UnitTokensConcat(box.text, content[0].text, []);
    }
  }

  lemma TextNodeTokens(node: Node)
    requires node.Text?
    ensures NodeTokens(node) == UnitTokens(node.text, node.marks)
  {
  }

  lemma BoxedRuns(checked: bool, content: seq<Node>)
    requires Normal(content)
    ensures Normalized([], [Box(checked)] + content) == Boxed(checked, content)
  {
    var runs := [Box(checked)] + content;
    forall i | 0 <= i < |runs|
      ensures runs[i].Text? || NormalNode(runs[i])
    {
      if i > 0 {
        NormalAt(content, i - 1);
      }
    }
    BoxedIsNormal(checked, content);
    BoxedTokens(checked, content);
    hide Normalized, NormalNode, Normal, Tokens, Boxed;
    NormalizedIsTheNormalForm(runs, Boxed(checked, content));
  }

  lemma NotEmptyText(content: seq<Node>)
    requires Normal(content) && content != [] && content[0].Text?
    ensures content[0].text != []
  {
  }

  lemma StripFirst(text: string)
    requires text != []
    ensures Text.LStrip(text, Blank) == text <==> text[0] != ' '
    ensures |Text.LStrip(text, Blank)| <= |text|
  {
  }

  lemma TrimNothing(content: seq<Node>)
    requires Normal(content)
    ensures TrimSpaces(content) == content <==> !OpensWithSpace(content)
  {
    if content != [] && content[0].Text? {
      NotEmptyText(content);
      StripFirst(content[0].text);
      TrimShrinks(content[1..]);
      hide Normal, Text.LStrip;
      var text := Text.LStrip(content[0].text, Blank);
      assert [content[0]] + content[1..] == content;
      assert ([content[0].(text := text)] + content[1..])[0].text == text;
    }
  }

  lemma {:induction false} TrimShrinks(content: seq<Node>)
    ensures |TrimSpaces(content)| <= |content|
    decreases |content|
  {
    if content != [] {
      TrimShrinks(content[1..]);
    }
  }

  lemma StripOneMore(text: string)
    ensures Text.LStrip([' '] + text, Blank) == Text.LStrip(text, Blank)
  {
    assert ([' '] + text)[1..] == text;
  }

  lemma UnboxMerged(checked: bool, text: string, rest: seq<Node>)
    ensures var content := [Node.Text(Box(checked).text + text, [])] + rest;
            && BoxOf(content) == Some(Box(checked).text[0])
            && Unboxed(content) == TrimSpaces([Node.Text(text, [])] + rest)
  {
    hide TrimSpaces;
    var content := [Node.Text(Box(checked).text + text, [])] + rest;
    assert content[1..] == rest && content[0].text[1..] == [' '] + text;
    StripOneMore(text);
    TrimStep([' '] + text, rest);
    TrimStep(text, rest);
  }

  lemma TrimStep(text: string, rest: seq<Node>)
    ensures var t := Text.LStrip(text, Blank);
            TrimSpaces([Node.Text(text, [])] + rest)
            == if t != [] then [Node.Text(t, [])] + rest else TrimSpaces(rest)
  {
    hide Text.LStrip;
    assert ([Node.Text(text, [])] + rest)[1..] == rest;
  }

  lemma UnboxAlone(checked: bool, content: seq<Node>)
    ensures BoxOf([Box(checked)] + content) == Some(Box(checked).text[0])
    ensures Unboxed([Box(checked)] + content) == TrimSpaces(content)
  {
    hide TrimSpaces, Text.LStrip;
    var box := Box(checked);
    assert ([box] + content)[1..] == content && box.text[1..] == [' '];
    OneSpace();
    TrimStep([' '], content);
  }

  lemma OneSpace()
    ensures Text.LStrip([' '], Blank) == []
  {
    assert [' '] + [] == [' '];
    StripOneMore([]);
  }

  // A checklist item keeps its check and its text exactly when the text does
  // not open with a space.
  lemma TaskParagraph(checked: bool, content: seq<Node>)
    requires Normal(content)
    ensures var read := Normalized([], [Box(checked)] + content);
            && BoxOf(read) == Some(if checked then CHECKED else UNCHECKED)
            && (Unboxed(read) == content <==> !OpensWithSpace(content))
  {
    hide Normalized, Normal, TrimSpaces, Unboxed;
    BoxedRuns(checked, content);
    TrimNothing(content);
    if content != [] && Mergeable(Box(checked), content[0]) {
      UnboxMerged(checked, content[0].text, content[1..]);
      assert [Node.Text(content[0].text, [])] + content[1..] == content;
    } else {
      UnboxAlone(checked, content);
    }
  }

  // A bulleted item stays one, with its text, exactly when the text does not
  // open with a box.
  lemma BulletParagraph(counters: Counters, level: nat, num: nat, content: seq<Node>, start: int)
    requires Normal(content)
    ensures ItemRead(counters, WordPara(level, num, content), Numbering("bullet", start))
            == ListPara(level, Bullet, 1, None, false, content)
            <==> BoxOf(content).None?
  {
    hide Normalized;
    NormalizedSelf(content);
  }

  // An ordered list keeps its numbering and its start exactly when the
  // numbering is one Word has a format for, and the start is positive.
  lemma OrderedNumbering(numbering: Option<string>, start: int)
    ensures TypeOf(FormatOf(numbering)) == numbering
            <==> numbering in {None, Some("a"), Some("A"), Some("i"), Some("I")}
    ensures ReadStart(if start == 0 then 1 else start) == start <==> start >= 1
    ensures FormatOf(numbering) != "bullet"
    ensures TypeOf("lowerLetter") == Some("a") && TypeOf("upperLetter") == Some("A")
    ensures TypeOf("lowerRoman") == Some("i") && TypeOf("upperRoman") == Some("I") && TypeOf("decimal") == None
    ensures FormatOf(None) == "decimal"
  {
  }

  // ----- boxes, whoever wrote them -----

  predicate IsSpaceToken(token: Token) {
    token.Unit? && token.code == 0x20
  }

  lemma {:induction false} SpaceTokens(s: string, marks: seq<Mark>)
    requires forall i :: 0 <= i < |s| ==> s[i] == ' '
    ensures |UnitTokens(s, marks)| == |s| && forall i :: 0 <= i < |s| ==> IsSpaceToken(UnitTokens(s, marks)[i])
    decreases |s|
  {
    if s != [] {
      SpaceTokens(s[1..], marks);
      UnitTokensConcat([' '], s[1..], marks);
      OneCharacter(' ', marks);
      assert s == [' '] + s[1..];
    }
  }

  lemma OneCharacter(c: char, marks: seq<Mark>)
    ensures UnitTokens([c], marks) != [] && (IsSpaceToken(UnitTokens([c], marks)[0]) <==> c == ' ')
    ensures c as int < 0x10000 ==> |UnitTokens([c], marks)| == 1
  {
    assert [c][1..] == [];
    assert Encode([c]) == Units(c) + [];
  }

  lemma FirstToken(text: string, marks: seq<Mark>)
    requires text != []
    ensures UnitTokens(text, marks) != [] && (IsSpaceToken(UnitTokens(text, marks)[0]) <==> text[0] == ' ')
  {
    UnitTokensConcat([text[0]], text[1..], marks);
    OneCharacter(text[0], marks);
    assert text == [text[0]] + text[1..];
  }

  // All of the spaces it opens with are taken off a text, whatever marks they
  // bear, and nothing else.
  ghost predicate LessSpaces(tokens: seq<Token>, left: seq<Token>, k: nat) {
    && k <= |tokens| && left == tokens[k..]
    && (forall i :: 0 <= i < k ==> IsSpaceToken(tokens[i]))
    && (k < |tokens| ==> !IsSpaceToken(tokens[k]))
  }

  lemma {:induction false} TrimTokens(content: seq<Node>) returns (k: nat)
    ensures LessSpaces(Tokens(content), Tokens(TrimSpaces(content)), k)
    decreases |content|
  {
    hide UnitTokens, Text.LStrip, LessSpaces, Tokens;
    k := 0;
    if content == [] || !content[0].Text? {
      NoSpaces(content);
    } else {
      var text, marks, rest := content[0].text, content[0].marks, content[1..];
      var t := Text.LStrip(text, Blank);
      var n := |text| - |t|;
      TextTokens(content, n);
      SpaceTokens(text[..n], marks);
      if t != [] {
        FirstToken(t, marks);
        FirstShortened(content, t);
        k := n;
        SpacesThenText(UnitTokens(text[..n], marks), UnitTokens(t, marks), Tokens(rest));
      } else {
        var later := TrimTokens(rest);
        k := n + later;
        NoText(marks);
        assert UnitTokens(text[..n], marks) + [] == UnitTokens(text[..n], marks);
        SpacesThenMore(UnitTokens(text[..n], marks), Tokens(rest), Tokens(TrimSpaces(rest)), later);
      }
    }
  }

  lemma TextTokens(content: seq<Node>, n: nat)
    requires content != [] && content[0].Text? && n <= |content[0].text|
    ensures var text, marks := content[0].text, content[0].marks;
            Tokens(content) == (UnitTokens(text[..n], marks) + UnitTokens(text[n..], marks)) + Tokens(content[1..])
  {
    hide UnitTokens;
    var text, marks := content[0].text, content[0].marks;
    TokensCons(content);
    TextNodeTokens(content[0]);
    UnitTokensConcat(text[..n], text[n..], marks);
    assert text == text[..n] + text[n..];
  }

  lemma FirstShortened(content: seq<Node>, t: string)
    requires content != [] && content[0].Text?
    ensures Tokens([content[0].(text := t)] + content[1..]) == UnitTokens(t, content[0].marks) + Tokens(content[1..])
  {
    hide UnitTokens;
    var nodes := [content[0].(text := t)] + content[1..];
    TokensCons(nodes);
    TextNodeTokens(nodes[0]);
    assert nodes[1..] == content[1..];
  }

  lemma NoText(marks: seq<Mark>)
    ensures UnitTokens("", marks) == []
  {
  }

  lemma NoSpaces(content: seq<Node>)
    requires content == [] || !content[0].Text?
    ensures LessSpaces(Tokens(content), Tokens(content), 0)
  {
  }

  lemma SpacesThenText(spaces: seq<Token>, text: seq<Token>, rest: seq<Token>)
    requires forall i :: 0 <= i < |spaces| ==> IsSpaceToken(spaces[i])
    requires text != [] && !IsSpaceToken(text[0])
    ensures LessSpaces((spaces + text) + rest, text + rest, |spaces|)
  {
  }

  lemma SpacesThenMore(spaces: seq<Token>, rest: seq<Token>, left: seq<Token>, k: nat)
    requires forall i :: 0 <= i < |spaces| ==> IsSpaceToken(spaces[i])
    requires LessSpaces(rest, left, k)
    ensures LessSpaces(spaces + rest, left, |spaces| + k)
  {
  }

  lemma BoxesAre(c: char)
    ensures IsBox(c) <==> c in {'\U{2610}', '\U{2611}', '\U{2612}', '\U{2713}', '\U{2714}'}
    ensures c as int < 0x10000 || !IsBox(c)
  {
  }

  lemma UnboxedTokens(content: seq<Node>) returns (k: nat)
    requires BoxOf(content).Some?
    ensures Tokens(content) != [] && LessSpaces(Tokens(content)[1..], Tokens(Unboxed(content)), k)
  {
    hide LessSpaces, UnitTokens, TrimSpaces, NodeTokens, Tokens, IsBox;
    var box, text, marks := content[0].text[0], content[0].text[1..], content[0].marks;
    var cut := [content[0].(text := text)] + content[1..];
    k := TrimTokens(cut);
    BoxesAre(box);
    TokensCons(content);
    TokensCons(cut);
    TextNodeTokens(content[0]);
    TextNodeTokens(cut[0]);
    UnitTokensConcat([box], text, marks);
    OneCharacter(box, marks);
    assert content[0].text == [box] + text;
    Seqs.Assoc(UnitTokens([box], marks), UnitTokens(text, marks), Tokens(content[1..]));
    assert Tokens(content)[1..] == Tokens(cut);
  }

  // A bulleted item is a task's exactly when its text opens with a box, and a
  // checked one's unless that is the empty box; the box and all spaces after it
  // are taken off.
  lemma BoxesRead(counters: Counters, para: WordPara, n: Numbering) returns (k: nat)
    requires n.format == "bullet"
    ensures var content, item := Normalized([], para.runs), ItemRead(counters, para, n);
            var box := if content != [] && content[0].Text? && content[0].text != [] then content[0].text[0] else ' ';
            && item.ListPara? && item.level == para.level
            && (item.tag.Task? <==> box in {'\U{2610}', '\U{2611}', '\U{2612}', '\U{2713}', '\U{2714}'})
            && (item.tag.Task? ==>
                  && (item.checked <==> box != '\U{2610}')
                  && Tokens(content) != [] && LessSpaces(Tokens(content)[1..], Tokens(item.content), k))
            && (!item.tag.Task? ==> item.tag.Bullet? && !item.checked && item.content == content)
  {
    var content := Normalized([], para.runs);
    hide LessSpaces, TrimSpaces, Unboxed, Normalized, Tokens, IsBox;
    BoxesAre(if content != [] && content[0].Text? && content[0].text != [] then content[0].text[0] else ' ');
    k := 0;
    if BoxOf(content).Some? {
      k := UnboxedTokens(content);
    }
  }

  // ----- a list -----

  // Nothing in the list is lost between Word's paragraphs.
  predicate KeptEntry(list: ListTree, k: nat)
    requires k < |list.items|
  {
    && Normal(list.items[k].content)
    && (list.tag.Task? ==> !OpensWithSpace(list.items[k].content))
    && (list.tag.Bullet? ==> BoxOf(list.items[k].content).None?)
  }

  predicate Kept(list: ListTree)
    decreases list
  {
    && (list.tag.Ordered? ==> list.start >= 1 && TypeOf(FormatOf(list.numbering)) == list.numbering)
    && forall k :: 0 <= k < |list.items| ==> KeptEntry(list, k) && AllKept(list.items[k].sublists)
  }

  predicate AllKept(forest: seq<ListTree>)
    decreases forest
  {
    forall i :: 0 <= i < |forest| ==> Kept(forest[i])
  }

  predicate NormalList(list: ListTree)
    decreases list
  {
    forall k :: 0 <= k < |list.items| ==> Normal(list.items[k].content) && AllNormal(list.items[k].sublists)
  }

  predicate AllNormal(forest: seq<ListTree>)
    decreases forest
  {
    forall i :: 0 <= i < |forest| ==> NormalList(forest[i])
  }

  // What is read of an entry: it is the `k`-th of its numbering instance.
  function ItemBack(list: ListTree, k: nat, level: nat): Item
    requires k < |list.items|
  {
    ItemRead(map[(0, Capped(level)) := k], WordPara(Capped(level), 0, RunsOf(list, k)), NumberingFor(list))
  }

  function EntriesBack(list: ListTree, k: nat, level: nat): seq<Item>
    requires k <= |list.items|
    decreases list, |list.items| - k
  {
    if k == |list.items| then [] else
      [ItemBack(list, k, level)] + ForestBack(list.items[k].sublists, level + 1) + EntriesBack(list, k + 1, level)
  }

  function ForestBack(forest: seq<ListTree>, level: nat): seq<Item>
    decreases forest
  {
    if forest == [] then [] else EntriesBack(forest[0], 0, level) + ForestBack(forest[1..], level)
  }

  lemma OneRead(counters: Counters, list: ListTree, k: nat, num: nat, level: nat)
    requires k < |list.items| && Seen(counters, num, Capped(level)) == k
    ensures ItemRead(counters, WordPara(Capped(level), num, RunsOf(list, k)), NumberingFor(list))
            == ItemBack(list, k, level)
  {
    hide Normalized, Unboxed, TypeOf, BoxOf, NumberingFor, RunsOf;
  }

  lemma OneKept(list: ListTree, k: nat, level: nat)
    requires k < |list.items| && Formed(list) && Kept(list)
    ensures ItemBack(list, k, level) == ItemOf(list, k, level)
  {
    assert KeptEntry(list, k);
    FormedTag(list, k);
    hide Normalized, Unboxed, Normal, Kept, Formed, TypeOf, FormatOf, BoxOf, OpensWithSpace;
    var content := list.items[k].content;
    NormalizedSelf(content);
    match list.tag
    case Task => TaskParagraph(list.items[k].checked, content);
    case Bullet => assert [] + content == content;
    case Ordered =>
      assert [] + content == content;
      OrderedNumbering(list.numbering, list.start);
      KeptOrdered(list);
  }

  lemma FormedTag(list: ListTree, k: nat)
    requires Formed(list) && k < |list.items|
    ensures !list.tag.Ordered? ==> list.start == 1 && list.numbering == None
    ensures list.items[k].checked ==> list.tag.Task?
  {
  }

  lemma KeptOrdered(list: ListTree)
    requires Kept(list) && list.tag.Ordered?
    ensures list.start >= 1 && TypeOf(FormatOf(list.numbering)) == list.numbering
  {
  }

  // ----- the counters -----

  function CountAll(counters: Counters, paras: seq<WordPara>): Counters
    decreases |paras|
  {
    if paras == [] then counters else CountAll(Counted(counters, paras[0].num, paras[0].level), paras[1..])
  }

  predicate Defined(paras: seq<WordPara>, nums: seq<Numbering>) {
    forall i :: 0 <= i < |paras| ==> paras[i].num < |nums|
  }

  lemma {:induction false} ReadConcat(counters: Counters, a: seq<WordPara>, b: seq<WordPara>, nums: seq<Numbering>)
    requires Defined(a, nums) && Defined(b, nums)
    ensures Defined(a + b, nums)
    ensures ReadAll(counters, a + b, nums) == ReadAll(counters, a, nums) + ReadAll(CountAll(counters, a), b, nums)
    ensures CountAll(counters, a + b) == CountAll(CountAll(counters, a), b)
    decreases |a|
  {
    hide Counted, ItemRead;
    if a == [] {
      assert a + b == b;
    } else {
      var next := Counted(counters, a[0].num, a[0].level);
      ReadConcat(next, a[1..], b, nums);
      Seqs.TailOfConcat(a, b);
      Seqs.Assoc([ItemRead(counters, a[0], nums[a[0].num])], ReadAll(next, a[1..], nums),
                 ReadAll(CountAll(next, a[1..]), b, nums));
    }
  }

  // No instance from `n` on has been counted yet.
  predicate Fresh(counters: Counters, n: nat) {
    forall key :: key in counters ==> key.0 < n
  }

  lemma {:induction false} CountingOthers(counters: Counters, paras: seq<WordPara>, num: nat, level: nat)
    requires forall i :: 0 <= i < |paras| ==> paras[i].num != num
    ensures Seen(CountAll(counters, paras), num, level) == Seen(counters, num, level)
    decreases |paras|
  {
    if paras != [] {
      CountingOthers(Counted(counters, paras[0].num, paras[0].level), paras[1..], num, level);
      hide CountAll;
    }
  }

  lemma {:induction false} CountingFresh(counters: Counters, paras: seq<WordPara>, n: nat)
    requires Fresh(counters, n) && forall i :: 0 <= i < |paras| ==> paras[i].num < n
    ensures Fresh(CountAll(counters, paras), n)
    decreases |paras|
  {
    if paras != [] {
      CountingFresh(Counted(counters, paras[0].num, paras[0].level), paras[1..], n);
      hide CountAll;
    }
  }

  // ----- what the counters count -----

  // The paragraphs before place `k` that an item there counts on from: of its
  // instance and level, and with none of the instance and a lower level since.
  ghost function CountedBefore(paras: seq<WordPara>, k: nat, num: nat, level: nat): set<nat>
    requires k <= |paras|
  {
    set j: nat | && j < k && paras[j].num == num && paras[j].level == level
                 && forall m :: j < m < k && paras[m].num == num ==> paras[m].level >= level
  }

  lemma {:induction false} CountMore(counters: Counters, paras: seq<WordPara>, para: WordPara)
    ensures CountAll(counters, paras + [para]) == Counted(CountAll(counters, paras), para.num, para.level)
    decreases |paras|
  {
    hide Counted;
    if paras == [] {
      assert [] + [para] == [para] && [para][1..] == [];
    } else {
      CountMore(Counted(counters, paras[0].num, paras[0].level), paras[1..], para);
      Seqs.TailOfConcat(paras, [para]);
    }
  }

  lemma CountedNext(paras: seq<WordPara>, k: nat, num: nat, level: nat)
    requires k < |paras|
    ensures var before, after := CountedBefore(paras, k, num, level), CountedBefore(paras, k + 1, num, level);
            && k !in before
            && after == if paras[k].num != num || paras[k].level > level then before
                        else if paras[k].level == level then before + {k} else {}
  {
    var before, after := CountedBefore(paras, k, num, level), CountedBefore(paras, k + 1, num, level);
    forall j
      ensures j in after <==> j in if paras[k].num != num || paras[k].level > level then before
                                   else if paras[k].level == level then before + {k} else {}
    {
    }
  }

  // The counter of an instance and a level is the number of paragraphs counted.
  lemma {:induction false} CountersCount(paras: seq<WordPara>, k: nat, num: nat, level: nat)
    requires k <= |paras|
    ensures Seen(CountAll(map[], paras[..k]), num, level) == |CountedBefore(paras, k, num, level)|
    decreases k
  {
    if k == 0 {
      assert paras[..0] == [] && CountedBefore(paras, 0, num, level) == {};
    } else {
      var para := paras[k - 1];
      CountersCount(paras, k - 1, num, level);
      assert paras[..k] == paras[..k - 1] + [para];
      CountMore(map[], paras[..k - 1], para);
      CountedNext(paras, k - 1, num, level);
      var counters := CountAll(map[], paras[..k - 1]);
      hide CountAll, CountedBefore;
      SeenNext(counters, para, num, level);
    }
  }

  lemma SeenNext(counters: Counters, para: WordPara, num: nat, level: nat)
    ensures Seen(Counted(counters, para.num, para.level), num, level)
            == if para.num != num || para.level > level then Seen(counters, num, level)
               else if para.level == level then Seen(counters, num, level) + 1 else 0
  {
  }

  // An ordered item starts at its instance's start and as many more as it
  // counts on from, and its kind is its numbering's.
  lemma ReadStarts(paras: seq<WordPara>, nums: seq<Numbering>, k: nat)
    requires Defined(paras, nums) && k < |paras| && nums[paras[k].num].format != "bullet"
    ensures |ReadAll(map[], paras, nums)| == |paras|
    ensures var para, n := paras[k], nums[paras[k].num];
            ReadAll(map[], paras, nums)[k]
            == ListPara(para.level, Ordered,
                        (if n.start >= 0 then n.start else 1) + |CountedBefore(paras, k, para.num, para.level)|,
                        TypeOf(n.format), false, Normalized([], para.runs))
  {
    ReadOne(map[], paras, nums, k);
    CountersCount(paras, k, paras[k].num, paras[k].level);
    hide ReadAll, CountAll, CountedBefore, Normalized, TypeOf;
  }

  lemma {:induction false} ReadOne(counters: Counters, paras: seq<WordPara>, nums: seq<Numbering>, k: nat)
    requires Defined(paras, nums) && k < |paras|
    ensures |ReadAll(counters, paras, nums)| == |paras|
    ensures ReadAll(counters, paras, nums)[k]
            == ItemRead(CountAll(counters, paras[..k]), paras[k], nums[paras[k].num])
    decreases |paras|
  {
    hide Counted, ItemRead;
    var next := Counted(counters, paras[0].num, paras[0].level);
    if k > 0 {
      ReadOne(next, paras[1..], nums, k - 1);
      assert paras[..k][1..] == paras[1..][..k - 1];
    } else {
      ReadLength(next, paras[1..], nums);
      assert paras[..0] == [];
    }
  }

  lemma {:induction false} ReadLength(counters: Counters, paras: seq<WordPara>, nums: seq<Numbering>)
    requires Defined(paras, nums)
    ensures |ReadAll(counters, paras, nums)| == |paras|
    decreases |paras|
  {
    hide Counted, ItemRead;
    if paras != [] {
      ReadLength(Counted(counters, paras[0].num, paras[0].level), paras[1..], nums);
    }
  }

  // ----- what writing adds -----

  // `w'` has more definitions and paragraphs than `w`; the new paragraphs are
  // of instance `num` or of new ones.
  predicate Grows(w: Word, w': Word, num: nat) {
    && w.nums <= w'.nums && w.paras <= w'.paras
    && forall i :: |w.paras| <= i < |w'.paras| ==>
         w'.paras[i].num < |w'.nums| && (w'.paras[i].num == num || |w.nums| <= w'.paras[i].num)
  }

  lemma GrowsThen(w: Word, w1: Word, w2: Word, num: nat, other: nat)
    requires Grows(w, w1, num) && Grows(w1, w2, other) && (other == num || other >= |w.nums|)
    ensures Grows(w, w2, num)
  {
    assert forall i :: |w.paras| <= i < |w1.paras| ==> w2.paras[i] == w1.paras[i];
  }

  lemma {:induction false} EntriesGrow(w: Word, list: ListTree, num: nat, k: nat, level: nat)
    requires k <= |list.items| && num < |w.nums|
    ensures Grows(w, WriteEntries(w, list, num, k, level), num)
    decreases list, |list.items| - k
  {
    if k < |list.items| {
      var w1 := w.(paras := w.paras + [WordPara(Capped(level), num, RunsOf(list, k))]);
      var w2 := WriteForest(w1, list.items[k].sublists, level + 1);
      ForestGrows(w1, list.items[k].sublists, level + 1);
      EntriesGrow(w2, list, num, k + 1, level);
      assert Grows(w, w1, num);
      hide Grows;
      GrowsThen(w, w1, w2, num, |w1.nums|);
      GrowsThen(w, w2, WriteEntries(w2, list, num, k + 1, level), num, num);
    }
  }

  lemma {:induction false} ForestGrows(w: Word, forest: seq<ListTree>, level: nat)
    ensures Grows(w, WriteForest(w, forest, level), |w.nums|)
    decreases forest
  {
    if forest != [] {
      ListGrows(w, forest[0], level);
      var w1 := WriteList(w, forest[0], level);
      ForestGrows(w1, forest[1..], level);
      assert |w.nums| <= |w1.nums|;
      hide Grows;
      GrowsThen(w, w1, WriteForest(w1, forest[1..], level), |w.nums|, |w1.nums|);
    }
  }

  lemma {:induction false} ListGrows(w: Word, list: ListTree, level: nat)
    ensures Grows(w, WriteList(w, list, level), |w.nums|)
    decreases list, |list.items| + 1
  {
    EntriesGrow(w.(nums := w.nums + [NumberingFor(list)]), list, |w.nums|, 0, level);
  }

  function New(w: Word, w': Word): seq<WordPara>
    requires |w.paras| <= |w'.paras|
  {
    w'.paras[|w.paras|..]
  }

  // ----- reading back what was written -----

  lemma NewFacts(w: Word, w': Word, num: nat, nums: seq<Numbering>)
    requires Grows(w, w', num) && |w'.nums| <= |nums|
    ensures Defined(New(w, w'), nums)
    ensures forall i :: 0 <= i < |New(w, w')| ==>
              New(w, w')[i].num < |w'.nums| && (New(w, w')[i].num == num || |w.nums| <= New(w, w')[i].num)
  {
  }

  lemma {:induction false} ReadEntries(w: Word, list: ListTree, num: nat, k: nat, level: nat,
                                       counters: Counters, nums: seq<Numbering>)
    requires k <= |list.items| && num < |w.nums|
    requires WriteEntries(w, list, num, k, level).nums <= nums && num < |nums| && nums[num] == NumberingFor(list)
    requires Fresh(counters, |w.nums|) && Seen(counters, num, Capped(level)) == k
    ensures var w' := WriteEntries(w, list, num, k, level);
            && Grows(w, w', num)
            && Defined(New(w, w'), nums)
            && ReadAll(counters, New(w, w'), nums) == EntriesBack(list, k, level)
    decreases list, |list.items| - k
  {
    hide Counted, ItemRead, ItemBack, NumberingFor, RunsOf, Fresh, Grows, Defined;
    EntriesGrow(w, list, num, k, level);
    var w' := WriteEntries(w, list, num, k, level);
    NewFacts(w, w', num, nums);
    if k < |list.items| {
      ReadEntry(w, list, num, k, level, counters, nums);
    } else {
      assert New(w, w') == [];
    }
  }

  lemma {:induction false} ReadEntry(w: Word, list: ListTree, num: nat, k: nat, level: nat,
                                     counters: Counters, nums: seq<Numbering>)
    requires k < |list.items| && num < |w.nums|
    requires WriteEntries(w, list, num, k, level).nums <= nums && num < |nums| && nums[num] == NumberingFor(list)
    requires Fresh(counters, |w.nums|) && Seen(counters, num, Capped(level)) == k
    ensures var w' := WriteEntries(w, list, num, k, level);
            && Grows(w, w', num)
            && Defined(New(w, w'), nums)
            && ReadAll(counters, New(w, w'), nums) == EntriesBack(list, k, level)
    decreases list, |list.items| - k, 0
  {
    hide Counted, ItemRead, ItemBack, NumberingFor, RunsOf, Fresh, Grows, Defined, ReadAll, CountAll;
    var para := WordPara(Capped(level), num, RunsOf(list, k));
    var subs := list.items[k].sublists;
    var w1 := w.(paras := w.paras + [para]);
    var w2 := WriteForest(w1, subs, level + 1);
    var w3 := WriteEntries(w2, list, num, k + 1, level);
    ForestGrows(w1, subs, level + 1);
    EntriesGrow(w, list, num, k, level);
    NumsGrow(w1, w2, |w1.nums|);
    EntriesGrow(w2, list, num, k + 1, level);
    NumsGrow(w2, w3, num);
    var c1 := Counted(counters, num, Capped(level));
    AfterOne(counters, num, Capped(level), |w.nums|);
    ReadForest(w1, subs, level + 1, c1, nums);
    var nested := New(w1, w2);
    NewFacts(w1, w2, |w1.nums|, nums);
    var c2 := CountAll(c1, nested);
    AfterNested(c1, nested, num, Capped(level), |w1.nums|, |w2.nums|);
    ReadEntries(w2, list, num, k + 1, level, c2, nums);
    var rest := New(w2, w3);
    NewFacts(w, w3, num, nums);
    assert New(w, w3) == [para] + (nested + rest);
    OneRead(counters, list, k, num, level);
    ReadConcat(c1, nested, rest, nums);
    ReadHead(counters, para, nested + rest, nums);
    Seqs.Assoc([ItemBack(list, k, level)], ForestBack(subs, level + 1), EntriesBack(list, k + 1, level));
  }

  lemma ReadHead(counters: Counters, para: WordPara, rest: seq<WordPara>, nums: seq<Numbering>)
    requires para.num < |nums| && Defined(rest, nums)
    ensures Defined([para] + rest, nums)
    ensures ReadAll(counters, [para] + rest, nums)
            == [ItemRead(counters, para, nums[para.num])] + ReadAll(Counted(counters, para.num, para.level), rest, nums)
  {
    assert ([para] + rest)[1..] == rest;
  }

  lemma NumsGrow(w: Word, w': Word, num: nat)
    requires Grows(w, w', num)
    ensures w.nums <= w'.nums && |w.paras| <= |w'.paras| && w.paras <= w'.paras
  {
  }

  lemma AfterOne(counters: Counters, num: nat, level: nat, n: nat)
    requires Fresh(counters, n) && num < n
    ensures Fresh(Counted(counters, num, level), n)
    ensures Seen(Counted(counters, num, level), num, level) == Seen(counters, num, level) + 1
  {
  }

  lemma AfterNested(counters: Counters, nested: seq<WordPara>, num: nat, level: nat, n: nat, n': nat)
    requires Fresh(counters, n) && num < n <= n'
    requires forall i :: 0 <= i < |nested| ==> n <= nested[i].num < n'
    ensures Fresh(CountAll(counters, nested), n')
    ensures Seen(CountAll(counters, nested), num, level) == Seen(counters, num, level)
  {
    CountingOthers(counters, nested, num, level);
    CountingFresh(counters, nested, n');
  }

  lemma {:induction false} ReadForest(w: Word, forest: seq<ListTree>, level: nat, counters: Counters,
                                      nums: seq<Numbering>)
    requires WriteForest(w, forest, level).nums <= nums && Fresh(counters, |w.nums|)
    ensures var w' := WriteForest(w, forest, level);
            && Grows(w, w', |w.nums|)
            && Defined(New(w, w'), nums)
            && ReadAll(counters, New(w, w'), nums) == ForestBack(forest, level)
    decreases forest
  {
    hide Counted, ItemRead, NumberingFor, Fresh, Grows, Defined, CountAll;
    ForestGrows(w, forest, level);
    var w' := WriteForest(w, forest, level);
    NewFacts(w, w', |w.nums|, nums);
    if forest == [] {
      assert New(w, w') == [];
    } else {
      hide ReadAll;
      var w0 := w.(nums := w.nums + [NumberingFor(forest[0])]);
      var w1 := WriteList(w, forest[0], level);
      ListGrows(w, forest[0], level);
      EntriesGrow(w0, forest[0], |w.nums|, 0, level);
      NumsGrow(w0, w1, |w.nums|);
      ForestGrows(w1, forest[1..], level);
      NumsGrow(w1, w', |w1.nums|);
      NewInstance(counters, |w.nums|, Capped(level));
      ReadEntries(w0, forest[0], |w.nums|, 0, level, counters, nums);
      var first, rest := New(w, w1), New(w1, w');
      NewFacts(w, w1, |w.nums|, nums);
      FreshLater(counters, |w.nums|, |w1.nums|);
      CountingFresh(counters, first, |w1.nums|);
      ReadForest(w1, forest[1..], level, CountAll(counters, first), nums);
      NewFacts(w1, w', |w1.nums|, nums);
      assert New(w, w') == first + rest;
      ReadConcat(counters, first, rest, nums);
    }
  }

  lemma FreshLater(counters: Counters, n: nat, m: nat)
    requires Fresh(counters, n) && n <= m
    ensures Fresh(counters, m)
  {
  }

  lemma NewInstance(counters: Counters, n: nat, level: nat)
    requires Fresh(counters, n)
    ensures Fresh(counters, n + 1) && Seen(counters, n, level) == 0
  {
  }

  // ----- lists nothing of which is lost come back paragraph by paragraph -----

  lemma KeptParts(list: ListTree, k: nat)
    requires k < |list.items| && Formed(list) && Kept(list)
    ensures AllFormed(list.items[k].sublists) && AllKept(list.items[k].sublists)
  {
  }

  lemma {:induction false} EntriesKept(list: ListTree, k: nat, level: nat)
    requires k <= |list.items| && Formed(list) && Kept(list)
    ensures EntriesBack(list, k, level) == EntryItems(list, k, level)
    decreases list, |list.items| - k
  {
    hide Formed, Kept, ItemBack, ItemOf;
    if k < |list.items| {
      OneKept(list, k, level);
      KeptParts(list, k);
      ForestKept(list.items[k].sublists, level + 1);
      EntriesKept(list, k + 1, level);
    }
  }

  lemma {:induction false} ForestKept(forest: seq<ListTree>, level: nat)
    requires AllFormed(forest) && AllKept(forest)
    ensures ForestBack(forest, level) == ForestItems(forest, level)
    decreases forest
  {
    hide Formed, Kept;
    if forest != [] {
      EntriesKept(forest[0], 0, level);
      ForestKept(forest[1..], level);
    }
  }

  // ----- and no others -----

  // A piece of the gathered lists tells what the paragraph read had.
  predicate Tells(piece: Piece, item: Item) {
    && item.ListPara? && piece.EntryPiece? && piece.tag == item.tag && piece.content == item.content
    && (piece.opens.Some? ==> piece.opens.value == HeadOf(NewList(item)))
  }

  predicate AllTell(pieces: seq<Piece>, items: seq<Item>) {
    |pieces| == |items| && forall i :: 0 <= i < |items| ==> Tells(pieces[i], items[i])
  }

  lemma TellParts(a: seq<Piece>, b: seq<Piece>, c: seq<Item>, d: seq<Item>)
    requires AllTell(a + b, c + d) && |a| == |c|
    ensures AllTell(a, c) && AllTell(b, d)
  {
    forall i | 0 <= i < |c|
      ensures Tells(a[i], c[i])
    {
      assert (a + b)[i] == a[i] && (c + d)[i] == c[i];
    }
    forall i | 0 <= i < |d|
      ensures Tells(b[i], d[i])
    {
      assert (a + b)[|a| + i] == b[i] && (c + d)[|a| + i] == d[i];
    }
  }

  lemma {:induction false} ItemsTell(stack: seq<Frame>, items: seq<Item>)
    requires forall i :: 0 <= i < |items| ==> items[i].ListPara?
    ensures AllTell(ItemPieces(stack, items), items)
    decreases |items|
  {
    hide OpenFor;
    if items != [] {
      ItemsTell(StackAfter(stack, items[0]), items[1..]);
      hide ItemPieces;
      assert Tells(PieceOf(stack, items[0])[0], items[0]);
    }
  }

  lemma {:induction false} EntriesBackShape(list: ListTree, k: nat, level: nat, opens: Option<ListHead>)
    requires k <= |list.items|
    ensures |EntriesBack(list, k, level)| == |EntryPieces(list.tag, opens, list.items[k..])|
    ensures forall i :: 0 <= i < |EntriesBack(list, k, level)| ==> EntriesBack(list, k, level)[i].ListPara?
    decreases list, |list.items| - k
  {
    hide Normalized, Unboxed, TypeOf, BoxOf, NumberingFor, RunsOf;
    if k < |list.items| {
      ForestBackShape(list.items[k].sublists, level + 1);
      EntriesBackShape(list, k + 1, level, None);
      assert list.items[k..][1..] == list.items[k + 1..];
      assert ItemBack(list, k, level).ListPara?;
    }
  }

  lemma {:induction false} ForestBackShape(forest: seq<ListTree>, level: nat)
    ensures |ForestBack(forest, level)| == |ForestPieces(forest)|
    ensures forall i :: 0 <= i < |ForestBack(forest, level)| ==> ForestBack(forest, level)[i].ListPara?
    decreases forest
  {
    if forest != [] {
      EntriesBackShape(forest[0], 0, level, Some(HeadOf(forest[0])));
      assert forest[0].items[0..] == forest[0].items;
      ForestBackShape(forest[1..], level);
    }
  }

  // An entry that comes back under its own kind with its own text was kept.
  lemma EntryWasKept(list: ListTree, k: nat, level: nat, checked: bool, opens: Option<ListHead>)
    requires k < |list.items| && Normal(list.items[k].content)
    requires Tells(EntryPiece(list.tag, checked, list.items[k].content, opens), ItemBack(list, k, level))
    ensures KeptEntry(list, k)
    ensures list.tag.Ordered? && k == 0 && opens == Some(HeadOf(list)) ==>
              list.start >= 1 && TypeOf(FormatOf(list.numbering)) == list.numbering
  {
    hide Normalized, Unboxed, Normal, BoxOf, OpensWithSpace, TypeOf, FormatOf;
    var content := list.items[k].content;
    NormalizedSelf(content);
    match list.tag
    case Task => TaskParagraph(list.items[k].checked, content);
    case Bullet => assert [] + content == content;
    case Ordered =>
      assert [] + content == content;
      OrderedNumbering(list.numbering, list.start);
  }

  lemma {:induction false} EntriesWereKept(list: ListTree, k: nat, level: nat, opens: Option<ListHead>)
    requires k <= |list.items| && NormalList(list) && Formed(list)
    requires AllTell(EntryPieces(list.tag, opens, list.items[k..]), EntriesBack(list, k, level))
    ensures forall j :: k <= j < |list.items| ==> KeptEntry(list, j) && AllKept(list.items[j].sublists)
    ensures k == 0 < |list.items| && list.tag.Ordered? && opens == Some(HeadOf(list)) ==>
              list.start >= 1 && TypeOf(FormatOf(list.numbering)) == list.numbering
    decreases list, |list.items| - k
  {
    hide Kept, KeptEntry, Tells, ItemBack, TypeOf, FormatOf, Normal;
    if k < |list.items| {
      var entry := list.items[k];
      var head := EntryPiece(list.tag, entry.checked, entry.content, opens);
      var item := ItemBack(list, k, level);
      assert list.items[k..][0] == entry && list.items[k..][1..] == list.items[k + 1..];
      var subs, rest := ForestPieces(entry.sublists), EntryPieces(list.tag, None, list.items[k + 1..]);
      var subsBack, restBack := ForestBack(entry.sublists, level + 1), EntriesBack(list, k + 1, level);
      ForestBackShape(entry.sublists, level + 1);
      TellParts([head] + subs, rest, [item] + subsBack, restBack);
      TellParts([head], subs, [item], subsBack);
      assert Tells([head][0], [item][0]);
      EntryWasKept(list, k, level, entry.checked, opens);
      ForestWasKept(entry.sublists, level + 1);
      EntriesWereKept(list, k + 1, level, None);
    }
  }

  lemma ListWasKept(list: ListTree)
    requires list.tag.Ordered? ==> list.start >= 1 && TypeOf(FormatOf(list.numbering)) == list.numbering
    requires forall k :: 0 <= k < |list.items| ==> KeptEntry(list, k) && AllKept(list.items[k].sublists)
    ensures Kept(list)
  {
  }

  lemma {:induction false} ForestWasKept(forest: seq<ListTree>, level: nat)
    requires AllNormal(forest) && AllFormed(forest) && AllTell(ForestPieces(forest), ForestBack(forest, level))
    ensures AllKept(forest)
    decreases forest
  {
    hide KeptEntry, Tells, Normal, TypeOf, FormatOf;
    if forest != [] {
      var list := forest[0];
      var opens := Some(HeadOf(list));
      assert list.items[0..] == list.items;
      EntriesBackShape(list, 0, level, opens);
      TellParts(EntryPieces(list.tag, opens, list.items), ForestPieces(forest[1..]),
                EntriesBack(list, 0, level), ForestBack(forest[1..], level));
      EntriesWereKept(list, 0, level, opens);
      ForestWasKept(forest[1..], level);
      ListWasKept(list);
      assert forall i :: 0 < i < |forest| ==> forest[i] == forest[1..][i - 1];
    }
  }

  lemma {:induction false} OutsPieces(forest: seq<ListTree>)
    ensures AllPieces(Outs(forest)) == ForestPieces(forest)
    decreases |forest|
  {
    if forest == [] {
      assert Outs(forest) == [];
    } else {
      hide ForestPieces, AllPieces, ListPieces;
      var front, last := Front(forest), Last(forest);
      OutsPieces(front);
      ForestPiecesConcat(front, [last]);
      OneTree(last);
      assert front + [last] == forest;
      assert Outs(forest) == Outs(front) + [ListOut(last)];
      AppendedPieces(Outs(front), ListOut(last));
    }
  }

  // ----- the round trip -----

  // The forest read back from Word is the forest written if and only if nothing
  // of it is lost paragraph by paragraph, it is at most nine levels deep and no
  // two lists of one kind are neighbours.
  lemma WordRoundTrip(forest: seq<ListTree>)
    requires AllFormed(forest) && AllNormal(forest)
    ensures var w := WriteForest(Word([], []), forest, 0);
            && Defined(w.paras, w.nums)
            && (GatherAll(ReadAll(map[], w.paras, w.nums)) == Outs(forest)
                <==> AllKept(forest) && ForestFits(forest, 0))
  {
    var w := WriteForest(Word([], []), forest, 0);
    ReadForest(Word([], []), forest, 0, map[], w.nums);
    assert New(Word([], []), w) == w.paras;
    hide ForestFits, GatherAll, ReadAll, AllKept, AllFormed, AllNormal, ForestBack, ForestItems, Outs, AllTell;
    var back := ForestBack(forest, 0);
    if GatherAll(back) == Outs(forest) {
      NothingIsLost(back);
      OutsPieces(forest);
      ForestBackShape(forest, 0);
      ItemsTell([], back);
      ForestWasKept(forest, 0);
    }
    if AllKept(forest) {
      ForestKept(forest, 0);
      RoundTripsExactly(forest);
    }
  }
}
