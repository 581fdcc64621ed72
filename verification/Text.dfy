// The string handling an edit needs: Python's strip family and the two
// regular expressions that read a model's answer as paragraphs.
module Text {
  import Seqs

  // str.isspace, which is also what \s matches.
  predicate IsSpace(c: char) {
    var v := c as int;
    || 9 <= v <= 13 || 28 <= v <= 32 || v == 0x85 || v == 0xA0 || v == 0x1680
    || 0x2000 <= v <= 0x200A || v == 0x2028 || v == 0x2029 || v == 0x202F || v == 0x205F || v == 0x3000
  }

  predicate Newline(c: char) {
    c == '\n'
  }

  function LStrip(s: string, drop: char -> bool): (r: string)
    ensures |r| <= |s| && r == s[|s| - |r|..]
    ensures r != [] ==> !drop(r[0])
    ensures forall i :: 0 <= i < |s| - |r| ==> drop(s[i])
  {
    if s != [] && drop(s[0]) then LStrip(s[1..], drop) else s
  }

  function RStrip(s: string, drop: char -> bool): (r: string)
    ensures |r| <= |s| && r == s[..|r|]
    ensures r != [] ==> !drop(r[|r| - 1])
    ensures forall i :: |r| <= i < |s| ==> drop(s[i])
  {
    if s != [] && drop(s[|s| - 1]) then RStrip(s[..|s| - 1], drop) else s
  }

  function Strip(s: string, drop: char -> bool): string {
    RStrip(LStrip(s, drop), drop)
  }

  // The whitespace a text opens and ends with.
  function Lead(s: string): (r: string)
    ensures r <= s && (forall i :: 0 <= i < |r| ==> IsSpace(s[i])) && (|r| < |s| ==> !IsSpace(s[|r|]))
  {
    s[..|s| - |LStrip(s, IsSpace)|]
  }

  function Trail(s: string): (r: string)
    ensures |r| <= |s| && r == s[|s| - |r|..]
    ensures (forall i :: |s| - |r| <= i < |s| ==> IsSpace(s[i])) && (|r| < |s| ==> !IsSpace(s[|s| - |r| - 1]))
  {
    s[|RStrip(s, IsSpace)|..]
  }

  // ----- what is left when whitespace is ignored -----

  function Ink(s: string): string {
    if s == [] then [] else (if IsSpace(s[0]) then [] else [s[0]]) + Ink(s[1..])
  }

  lemma {:induction false} InkConcat(a: string, b: string)
    ensures Ink(a + b) == Ink(a) + Ink(b)
  {
    hide IsSpace;
    if a == [] {
      assert a + b == b;
    } else {
      InkConcat(a[1..], b);
      Seqs.TailOfConcat(a, b);
      Seqs.Assoc(if IsSpace(a[0]) then [] else [a[0]], Ink(a[1..]), Ink(b));
    }
  }

  lemma {:induction false} InkOfSpace(s: string)
    requires forall i :: 0 <= i < |s| ==> IsSpace(s[i])
    ensures Ink(s) == []
  {
    hide IsSpace;
    if s != [] {
      InkOfSpace(s[1..]);
    }
  }

  lemma InkLStrip(s: string, drop: char -> bool)
    requires forall c :: drop(c) ==> IsSpace(c)
    ensures Ink(LStrip(s, drop)) == Ink(s)
  {
    hide IsSpace, Ink;
    var l := LStrip(s, drop);
    var front := s[..|s| - |l|];
    InkOfSpace(front);
    InkConcat(front, l);
    assert front + l == s;
  }

  lemma InkRStrip(s: string, drop: char -> bool)
    requires forall c :: drop(c) ==> IsSpace(c)
    ensures Ink(RStrip(s, drop)) == Ink(s)
  {
    hide IsSpace, Ink;
    var r := RStrip(s, drop);
    var back := s[|r|..];
    InkOfSpace(back);
    InkConcat(r, back);
    assert r + back == s;
  }

  lemma InkStrip(s: string, drop: char -> bool)
    requires forall c :: drop(c) ==> IsSpace(c)
    ensures Ink(Strip(s, drop)) == Ink(s)
  {
    InkLStrip(s, drop);
    InkRStrip(LStrip(s, drop), drop);
  }

  lemma LastHasInk(s: string)
    requires s != [] && !IsSpace(s[|s| - 1])
    ensures Ink(s) != []
  {
    var front, last := s[..|s| - 1], [s[|s| - 1]];
    assert front + last == s;
    InkConcat(front, last);
    assert Ink(last) == last by {
      assert last[1..] == [];
    }
  }

  // A text that strips to something is not blank.
  lemma StripHasInk(s: string)
    requires Strip(s, IsSpace) != []
    ensures Ink(s) != []
  {
    hide Ink;
    InkStrip(s, IsSpace);
    LastHasInk(Strip(s, IsSpace));
  }

  // ----- re.sub(r"\n\s*\n", "\n", s) -----

  // The length of the longest prefix that is whitespace ending in a newline.
  function BreakEnd(s: string): (n: nat)
    ensures n <= |s|
    ensures n > 0 ==> s[n - 1] == '\n' && forall i :: 0 <= i < n ==> IsSpace(s[i])
  {
    if s == [] || !IsSpace(s[0]) then 0
    else if BreakEnd(s[1..]) > 0 then 1 + BreakEnd(s[1..])
    else if s[0] == '\n' then 1 else 0
  }

  function Collapse(s: string): string {
    if s == [] then []
    else if s[0] == '\n' then ['\n'] + Collapse(s[1 + BreakEnd(s[1..])..])
    else [s[0]] + Collapse(s[1..])
  }

  // Only blank space between newlines, and the newline that ends it.
  predicate OpensBlankLine(s: string) {
    BreakEnd(s) > 0
  }

  lemma {:induction false} BreakEndIsLast(s: string)
    ensures BreakEnd(s[BreakEnd(s)..]) == 0
  {
    hide IsSpace;
    if s != [] && BreakEnd(s) > 0 {
      BreakEndIsLast(s[1..]);
      assert s[BreakEnd(s)..] == s[1..][BreakEnd(s) - 1..];
    }
  }

  lemma {:induction false} CollapseKeepsStart(s: string)
    ensures BreakEnd(s) == 0 ==> BreakEnd(Collapse(s)) == 0
  {
    hide IsSpace;
    if s != [] && BreakEnd(s) == 0 {
      if IsSpace(s[0]) {
        assert s[0] != '\n' && BreakEnd(s[1..]) == 0;
        CollapseKeepsStart(s[1..]);
        assert Collapse(s)[1..] == Collapse(s[1..]);
      } else {
        NewlineIsSpace();
        assert Collapse(s)[0] == s[0];
      }
    }
  }

  lemma NewlineIsSpace()
    ensures IsSpace('\n')
  {
  }

  // No line of the result is blank, and only whitespace is gone.
  lemma {:induction false} CollapseLeavesNoBlankLine(s: string)
    ensures forall i :: 0 <= i < |Collapse(s)| && Collapse(s)[i] == '\n' ==>
              !OpensBlankLine(Collapse(s)[i + 1..])
    ensures Ink(Collapse(s)) == Ink(s)
  {
    hide IsSpace;
    if s != [] {
      NewlineIsSpace();
      var skip := if s[0] == '\n' then BreakEnd(s[1..]) else 0;
      var rest := s[1 + skip..];
      CollapseLeavesNoBlankLine(rest);
      var c := Collapse(s);
      assert c == [s[0]] + Collapse(rest);
      assert c[1..] == Collapse(rest);
      if s[0] == '\n' {
        BreakEndIsLast(s[1..]);
        assert s[1..][skip..] == rest;
        CollapseKeepsStart(rest);
        InkOfSpace(s[1..][..skip]);
        InkConcat(s[1..][..skip], rest);
        assert s[1..][..skip] + rest == s[1..];
      }
      forall i | 0 <= i < |c| && c[i] == '\n'
        ensures !OpensBlankLine(c[i + 1..])
      {
        if i > 0 {
          assert c[i + 1..] == Collapse(rest)[i..];
        }
      }
    }
  }

  // From one newline to another, nothing but whitespace.
  predicate BlankBetween(s: string, a: int, b: int) {
    0 <= a < b < |s| && s[a] == '\n' && s[b] == '\n' && forall k :: a <= k <= b ==> IsSpace(s[k])
  }

  ghost predicate Dropped(s: string, p: nat) {
    exists a: nat, b: nat :: a < p <= b && BlankBetween(s, a, b)
  }

  // The characters from place `i` on that are not dropped.
  ghost function Undropped(s: string, i: nat): string
    requires i <= |s|
    decreases |s| - i
  {
    if i == |s| then [] else (if Dropped(s, i) then [] else [s[i]]) + Undropped(s, i + 1)
  }

  lemma {:induction false} NoBreak(s: string, b: nat)
    requires BreakEnd(s) == 0 && b < |s| && s[b] == '\n'
    ensures exists k :: 0 <= k <= b && !IsSpace(s[k])
    decreases |s|
  {
    hide IsSpace;
    if IsSpace(s[0]) && b > 0 {
      NoBreak(s[1..], b - 1);
      var k :| 0 <= k <= b - 1 && !IsSpace(s[1..][k]);
      assert !IsSpace(s[k + 1]);
    }
  }

  lemma {:induction false} DroppedRun(s: string, i: nat, j: nat)
    requires i <= j <= |s| && forall p: nat :: i <= p < j ==> Dropped(s, p)
    ensures Undropped(s, i) == Undropped(s, j)
    decreases j - i
  {
    hide Dropped;
    if i < j {
      DroppedRun(s, i + 1, j);
    }
  }

  // No blank stretch reaches over place `i` from before it.
  ghost predicate Apart(s: string, i: nat) {
    forall a: nat, b: nat :: a < i <= b ==> !BlankBetween(s, a, b)
  }

  lemma {:induction false} CollapseFrom(s: string, i: nat)
    requires i <= |s| && Apart(s, i)
    ensures Collapse(s[i..]) == Undropped(s, i)
    decreases |s| - i
  {
    hide Collapse, Apart, Dropped, BreakEnd, Undropped, IsSpace;
    if i < |s| {
      var n := if s[i] == '\n' then BreakEnd(s[i + 1..]) else 0;
      CollapseStep(s, i);
      UndroppedStep(s, i, n);
      CollapseFrom(s, i + 1 + n);
    } else {
      NothingLeft(s, i);
    }
  }

  lemma NothingLeft(s: string, i: nat)
    requires i == |s|
    ensures Collapse(s[i..]) == Undropped(s, i)
  {
    assert s[i..] == [];
  }

  lemma UndroppedNext(s: string, i: nat)
    requires i < |s|
    ensures Undropped(s, i) == (if Dropped(s, i) then [] else [s[i]]) + Undropped(s, i + 1)
  {
    hide Dropped;
  }

  lemma UndroppedStep(s: string, i: nat, n: nat)
    requires i < |s| && Apart(s, i) && n == if s[i] == '\n' then BreakEnd(s[i + 1..]) else 0
    ensures i + 1 + n <= |s| && Apart(s, i + 1 + n)
    ensures Undropped(s, i) == [s[i]] + Undropped(s, i + 1 + n)
  {
    hide Apart, Dropped, IsSpace, Undropped, BreakEnd;
    NotDropped(s, i);
    UndroppedNext(s, i);
    if s[i] == '\n' {
      BreakIsBlank(s, i);
      DroppedRun(s, i + 1, i + 1 + n);
      ApartAfter(s, i);
    } else {
      ApartNext(s, i);
    }
  }

  lemma NotDropped(s: string, i: nat)
    requires Apart(s, i)
    ensures !Dropped(s, i)
  {
    hide BlankBetween;
  }

  lemma CollapseStep(s: string, i: nat)
    requires i < |s|
    ensures Collapse(s[i..])
            == [s[i]] + Collapse(s[i + 1 + if s[i] == '\n' then BreakEnd(s[i + 1..]) else 0..])
  {
    var rest := s[i + 1..];
    assert s[i..][1..] == rest;
    if s[i] == '\n' {
      assert s[i..][1 + BreakEnd(rest)..] == s[i + 1 + BreakEnd(rest)..];
    }
  }

  lemma BreakIsBlank(s: string, i: nat)
    requires i < |s| && s[i] == '\n'
    ensures var n := BreakEnd(s[i + 1..]); forall p: nat :: i + 1 <= p < i + 1 + n ==> Dropped(s, p)
  {
    var n := BreakEnd(s[i + 1..]);
    NewlineIsSpace();
    if n > 0 {
      assert s[i + n] == s[i + 1..][n - 1];
      forall k | i < k <= i + n
        ensures IsSpace(s[k])
      {
        assert s[k] == s[i + 1..][k - i - 1];
      }
      assert BlankBetween(s, i, i + n);
    }
  }

  lemma ApartNext(s: string, i: nat)
    requires i < |s| && s[i] != '\n' && Apart(s, i)
    ensures Apart(s, i + 1)
  {
    hide IsSpace;
    forall a: nat, b: nat | a < i + 1 <= b
      ensures !BlankBetween(s, a, b)
    {
      assert a < i ==> !BlankBetween(s, a, b);
    }
  }

  lemma ApartAfter(s: string, i: nat)
    requires i < |s| && s[i] == '\n'
    ensures Apart(s, i + 1 + BreakEnd(s[i + 1..]))
  {
    hide IsSpace;
    var n := BreakEnd(s[i + 1..]);
    var j := i + 1 + n;
    BreakEndIsLast(s[i + 1..]);
    assert s[i + 1..][n..] == s[j..];
    forall a: nat, b: nat | a < j <= b
      ensures !BlankBetween(s, a, b)
    {
      if BlankBetween(s, a, b) {
        assert s[j..][b - j] == s[b];
        NoBreak(s[j..], b - j);
        assert false;
      }
    }
  }

  // Exactly the places between two newlines with only whitespace from one to
  // the other are dropped, and the second newline; the rest stays, in order. A
  // text without a blank line stays as it is.
  lemma CollapseKeepsExactly(s: string)
    ensures Collapse(s) == Undropped(s, 0)
    ensures (forall a: nat, b: nat :: !BlankBetween(s, a, b)) ==> Collapse(s) == s
  {
    assert s[0..] == s;
    CollapseFrom(s, 0);
    if forall a: nat, b: nat :: !BlankBetween(s, a, b) {
      NothingDropped(s, 0);
    }
  }

  lemma {:induction false} NothingDropped(s: string, i: nat)
    requires i <= |s| && forall a: nat, b: nat :: !BlankBetween(s, a, b)
    ensures Undropped(s, i) == s[i..]
    decreases |s| - i
  {
    hide BlankBetween;
    if i < |s| {
      NothingDropped(s, i + 1);
      assert s[i..] == [s[i]] + s[i + 1..];
    }
  }

  // ----- re.split(r"\n[ \t]*\n", s) -----

  // The length of a prefix matching [ \t]*\n, or 0.
  function GapEnd(s: string): (n: nat)
    ensures n <= |s|
    ensures forall i :: 0 <= i < n ==> IsSpace(s[i])
  {
    if s == [] then 0
    else if s[0] == '\n' then 1
    else if (s[0] == ' ' || s[0] == '\t') && GapEnd(s[1..]) > 0 then 1 + GapEnd(s[1..])
    else 0
  }

  function Blocks(current: string, s: string): (blocks: seq<string>)
    decreases |s|
  {
    if s == [] then [current]
    else if s[0] == '\n' && GapEnd(s[1..]) > 0 then
      [current] + Blocks([], s[1 + GapEnd(s[1..])..])
    else Blocks(current + [s[0]], s[1..])
  }

  function InkOfAll(blocks: seq<string>): string {
    if blocks == [] then [] else Ink(blocks[0]) + InkOfAll(blocks[1..])
  }

  lemma NothingInked(current: string)
    ensures InkOfAll([current]) == Ink(current) + Ink([])
  {
    hide IsSpace;
    assert [current][1..] == [];
  }

  lemma {:induction false} InkBlocks(current: string, s: string)
    ensures InkOfAll(Blocks(current, s)) == Ink(current) + Ink(s)
    decreases |s|
  {
    hide IsSpace, GapEnd, Ink;
    if s == [] {
      NothingInked(current);
    } else if s[0] == '\n' && GapEnd(s[1..]) > 0 {
      var n := GapEnd(s[1..]);
      NewlineIsSpace();
      InkOfSpace(s[..1 + n]);
      InkConcat(s[..1 + n], s[1 + n..]);
      assert s[..1 + n] + s[1 + n..] == s;
      InkBlocks([], s[1 + n..]);
      NothingInked([]);
      assert Blocks(current, s)[1..] == Blocks([], s[1 + n..]);
    } else {
      InkBlocks(current + [s[0]], s[1..]);
      InkConcat(current, [s[0]]);
      InkConcat([s[0]], s[1..]);
      assert [s[0]] + s[1..] == s;
    }
  }

  // A newline, blanks and tabs, and a newline.
  predicate IsGap(g: string) {
    && |g| >= 2 && g[0] == '\n' && g[|g| - 1] == '\n'
    && forall k :: 0 < k < |g| - 1 ==> g[k] == ' ' || g[k] == '\t'
  }

  predicate GapAt(s: string, a: int, b: int) {
    && 0 <= a < b < |s| && s[a] == '\n' && s[b] == '\n'
    && forall k :: a < k < b ==> s[k] == ' ' || s[k] == '\t'
  }

  ghost predicate HasGap(s: string) {
    exists a: nat, b: nat :: GapAt(s, a, b)
  }

  function Woven(blocks: seq<string>, gaps: seq<string>): string
    requires |blocks| == |gaps| + 1
  {
    if gaps == [] then blocks[0] else blocks[0] + gaps[0] + Woven(blocks[1..], gaps[1..])
  }

  // The text is the blocks with a gap between any two, each the first there is.
  ghost predicate SplitsAs(s: string, blocks: seq<string>, gaps: seq<string>) {
    && |blocks| == |gaps| + 1 && Woven(blocks, gaps) == s
    && (forall k :: 0 <= k < |gaps| ==>
          IsGap(gaps[k]) && !HasGap(blocks[k] + gaps[k][..|gaps[k]| - 1]))
    && !HasGap(blocks[|gaps|])
  }

  lemma {:induction false} GapEndExact(s: string)
    ensures var n := GapEnd(s);
            && (n > 0 ==> s[n - 1] == '\n' && forall k :: 0 <= k < n - 1 ==> s[k] == ' ' || s[k] == '\t')
            && (n == 0 ==> forall b: nat :: b < |s| && s[b] == '\n' ==>
                  exists k :: 0 <= k < b && s[k] != ' ' && s[k] != '\t')
    decreases |s|
  {
    if s != [] && (s[0] == ' ' || s[0] == '\t') {
      var t := s[1..];
      GapEndExact(t);
      if GapEnd(s) == 0 {
        forall b: nat | b < |s| && s[b] == '\n'
          ensures exists k :: 0 <= k < b && s[k] != ' ' && s[k] != '\t'
        {
          assert t[b - 1] == '\n';
          var k :| 0 <= k < b - 1 && t[k] != ' ' && t[k] != '\t';
          assert s[k + 1] == t[k];
        }
      }
    }
  }

  // What is gathered and what follows have no gap that begins in the former.
  ghost predicate NoneBefore(current: string, s: string) {
    forall a: nat, b: nat :: a < |current| ==> !GapAt(current + s, a, b)
  }

  lemma GapHere(current: string, s: string)
    requires s != [] && s[0] == '\n' && GapEnd(s[1..]) > 0 && NoneBefore(current, s)
    ensures var gap := s[..1 + GapEnd(s[1..])];
            IsGap(gap) && !HasGap(current + gap[..|gap| - 1])
  {
    hide GapEnd;
    var n := GapEnd(s[1..]);
    GapEndExact(s[1..]);
    var gap := s[..1 + n];
    assert gap[n] == s[1..][n - 1];
    forall k | 0 < k < n
      ensures gap[k] == ' ' || gap[k] == '\t'
    {
      assert gap[k] == s[1..][k - 1];
    }
    var short := current + gap[..n];
    assert short == (current + s)[..|current| + n];
    forall a: nat, b: nat
      ensures !GapAt(short, a, b)
    {
      if a < |current| {
        GapOfPrefix(current + s, |current| + n, a, b);
      } else if a < b < |short| {
        assert short[b] == gap[b - |current|];
      }
    }
  }

  lemma GapOfPrefix(s: string, n: nat, a: nat, b: nat)
    requires n <= |s|
    ensures GapAt(s[..n], a, b) ==> GapAt(s, a, b)
  {
    if a < b < n {
      assert forall k :: a < k < b ==> s[..n][k] == s[k];
    }
  }

  lemma NoGapHere(current: string, s: string)
    requires s != [] && (s[0] != '\n' || GapEnd(s[1..]) == 0) && NoneBefore(current, s)
    ensures NoneBefore(current + [s[0]], s[1..])
  {
    hide GapEnd;
    var all := current + s;
    assert current + [s[0]] + s[1..] == all;
    GapEndExact(s[1..]);
    forall a: nat, b: nat | a < |current| + 1
      ensures !GapAt(all, a, b)
    {
      if a == |current| < b < |all| && all[b] == '\n' && s[0] == '\n' {
        assert s[1..][b - a - 1] == '\n';
        var k :| 0 <= k < b - a - 1 && s[1..][k] != ' ' && s[1..][k] != '\t';
        assert all[a + 1 + k] == s[1..][k];
      }
    }
  }

  lemma NoGapLeft(current: string)
    requires NoneBefore(current, [])
    ensures !HasGap(current)
  {
    assert current + [] == current;
  }

  lemma {:induction false} BlocksFrom(current: string, s: string) returns (gaps: seq<string>)
    requires NoneBefore(current, s)
    ensures SplitsAs(current + s, Blocks(current, s), gaps)
    decreases |s|
  {
    hide GapEnd, HasGap, NoneBefore, IsGap;
    if s == [] {
      NoGapLeft(current);
      gaps := [];
      assert current + s == current;
    } else if s[0] == '\n' && GapEnd(s[1..]) > 0 {
      var n := 1 + GapEnd(s[1..]);
      GapHere(current, s);
      NothingBefore(s[n..]);
      var rest := BlocksFrom([], s[n..]);
      gaps := [s[..n]] + rest;
      FirstGap(current, s[..n], s[n..], Blocks([], s[n..]), rest);
      assert s[..n] + s[n..] == s;
    } else {
      NoGapHere(current, s);
      gaps := BlocksFrom(current + [s[0]], s[1..]);
      assert current + [s[0]] + s[1..] == current + s;
    }
  }

  lemma NothingBefore(s: string)
    ensures NoneBefore([], s)
  {
  }

  lemma FirstGap(block: string, gap: string, s: string, blocks: seq<string>, gaps: seq<string>)
    requires SplitsAs([] + s, blocks, gaps) && IsGap(gap) && !HasGap(block + gap[..|gap| - 1])
    ensures SplitsAs(block + (gap + s), [block] + blocks, [gap] + gaps)
  {
    hide HasGap, IsGap;
    var all, between := [block] + blocks, [gap] + gaps;
    assert [] + s == s && all[1..] == blocks && between[1..] == gaps;
    Seqs.Assoc(block, gap, s);
    assert forall k :: 0 < k < |between| ==> between[k] == gaps[k - 1] && all[k] == blocks[k - 1];
  }

  // The split is at the gaps, from the first on.
  lemma BlocksExactly(s: string)
    ensures exists gaps: seq<string> :: SplitsAs(s, Blocks([], s), gaps)
  {
    NothingBefore(s);
    var gaps := BlocksFrom([], s);
    assert [] + s == s;
  }

  // ----- s.split("\n") -----

  function Lines(current: string, s: string): (lines: seq<string>)
    ensures lines != []
    ensures '\n' !in current ==> forall i :: 0 <= i < |lines| ==> '\n' !in lines[i]
    decreases |s|
  {
    if s == [] then [current]
    else if s[0] == '\n' then [current] + Lines([], s[1..])
    else Lines(current + [s[0]], s[1..])
  }

  function Without(s: string, c: char): string {
    if s == [] then [] else (if s[0] == c then [] else [s[0]]) + Without(s[1..], c)
  }

  // Every other character stays, in order.
  lemma {:induction false} WithoutParts(a: string, b: string, c: char)
    ensures Without(a + b, c) == Without(a, c) + Without(b, c)
    ensures |a| == 1 ==> Without(a, c) == if a[0] == c then [] else a
    ensures Without([], c) == []
    decreases |a|
  {
    if a == [] {
      assert a + b == b;
    } else {
      WithoutParts(a[1..], b, c);
      Seqs.TailOfConcat(a, b);
      Seqs.Assoc(if a[0] == c then [] else [a[0]], Without(a[1..], c), Without(b, c));
      assert |a| == 1 ==> a[1..] == [] && a == [a[0]];
    }
  }

  lemma {:induction false} InkWithout(s: string, c: char)
    requires IsSpace(c)
    ensures Ink(Without(s, c)) == Ink(s)
  {
    hide IsSpace;
    if s != [] {
      InkWithout(s[1..], c);
      InkConcat(if s[0] == c then [] else [s[0]], Without(s[1..], c));
      InkConcat([s[0]], s[1..]);
    }
  }
}
