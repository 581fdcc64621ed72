// Strings as JavaScript counts them: in UTF-16 code units. A Dafny char is a
// Unicode scalar value, as a character of a Python string that encodes to
// UTF-16 is.
module Utf16 {
  import Seqs

  predicate IsHigh(unit: nat) {
    0xD800 <= unit < 0xDC00
  }

  predicate IsLow(unit: nat) {
    0xDC00 <= unit < 0xE000
  }

  // Section 3.9 of the Unicode Standard: one unit, or a surrogate pair.
  function Units(c: char): (u: seq<nat>)
    ensures 1 <= |u| <= 2
  {
    var v := c as int;
    if v <= 0xFFFF then [v]
    else [0xD800 + (v - 0x10000) / 0x400, 0xDC00 + (v - 0x10000) % 0x400]
  }

  function Encode(text: string): (u: seq<nat>)
    ensures |u| >= |text|
  {
    if text == [] then [] else Units(text[0]) + Encode(text[1..])
  }

  function Utf16Len(text: string): nat {
    |Encode(text)|
  }

  // Whether the unit offset `units` falls between the halves of a pair.
  predicate Splits(units: seq<nat>, at: int) {
    0 < at <= |units| && IsHigh(units[at - 1])
  }

  lemma UnitsShape(c: char)
    ensures |Units(c)| == 1 ==> !IsHigh(Units(c)[0]) && !IsLow(Units(c)[0])
    ensures |Units(c)| == 2 ==> IsHigh(Units(c)[0]) && IsLow(Units(c)[1])
  {
  }

  lemma UnitsInjective(c: char, d: char)
    requires Units(c)[0] == Units(d)[0]
    requires |Units(c)| == |Units(d)| == 2 ==> Units(c)[1] == Units(d)[1]
    ensures c == d
  {
    UnitsShape(c);
    UnitsShape(d);
    assert c as int == d as int;
  }

  lemma {:induction false} EncodeConcat(a: string, b: string)
    ensures Encode(a + b) == Encode(a) + Encode(b)
  {
    hide Units;
    if a == [] {
      assert a + b == b;
    } else {
      EncodeConcat(a[1..], b);
      Seqs.TailOfConcat(a, b);
      Seqs.Assoc(Units(a[0]), Encode(a[1..]), Encode(b));
    }
  }

  // A text is determined by its code units.
  lemma {:induction false} EncodeInjective(a: string, b: string)
    requires Encode(a) == Encode(b)
    ensures a == b
  {
    if a != [] && b != [] {
      var ea, eb := Encode(a), Encode(b);
      UnitsShape(a[0]);
      UnitsShape(b[0]);
      assert ea[0] == Units(a[0])[0] && eb[0] == Units(b[0])[0];
      assert |Units(a[0])| == |Units(b[0])|;
      assert |Units(a[0])| == 2 ==> ea[1] == Units(a[0])[1] && eb[1] == Units(b[0])[1];
      UnitsInjective(a[0], b[0]);
      assert Encode(a[1..]) == ea[|Units(a[0])|..];
      assert Encode(b[1..]) == eb[|Units(b[0])|..];
      EncodeInjective(a[1..], b[1..]);
    }
  }

  // The index `units` code units in, as the character loop of utf16_index
  // finds it.
  function IndexAt(text: string, units: int): (index: nat)
    ensures index <= |text|
  {
    if text == [] || units <= 0 then 0
    else 1 + IndexAt(text[1..], units - |Units(text[0])|)
  }

  // What the index means: the shortest prefix of at least `units` units.
  lemma {:induction false} IndexAtIsShortestPrefix(text: string, units: int)
    ensures forall k :: 0 <= k < IndexAt(text, units) ==> Utf16Len(text[..k]) < units
    ensures IndexAt(text, units) < |text| ==> units <= Utf16Len(text[..IndexAt(text, units)])
    ensures units <= Utf16Len(text) ==> units <= Utf16Len(text[..IndexAt(text, units)])
  {
    var index := IndexAt(text, units);
    if text == [] || units <= 0 {
      assert text[..0] == [];
    } else {
      var rest := units - |Units(text[0])|;
      IndexAtIsShortestPrefix(text[1..], rest);
      forall k | 0 <= k < index
        ensures Utf16Len(text[..k]) < units
      {
        if k > 0 {
          assert text[..k] == [text[0]] + text[1..][..k - 1];
          EncodeConcat([text[0]], text[1..][..k - 1]);
          assert Encode([text[0]]) == Units(text[0]);
        }
      }
      assert text[..index] == [text[0]] + text[1..][..index - 1];
      EncodeConcat([text[0]], text[1..][..index - 1]);
      assert Encode([text[0]]) == Units(text[0]);
    }
  }

  // Where the index lies in units: at `units`, or one further when that would
  // split a pair.
  function RoundUp(units: seq<nat>, at: int): int {
    if Splits(units, at) then at + 1 else at
  }

  lemma {:induction false} PrefixLength(text: string, units: int)
    requires 0 <= units <= Utf16Len(text)
    ensures Utf16Len(text[..IndexAt(text, units)]) == RoundUp(Encode(text), units)
  {
    hide Units;
    if units > 0 {
      var all, first, index := Encode(text), Units(text[0]), IndexAt(text, units);
      UnitsShape(text[0]);
      assert all[..|first|] == first;
      var rest := units - |first|;
      if rest >= 0 {
        PrefixLength(text[1..], rest);
        assert all[units - 1] == if rest > 0 then Encode(text[1..])[rest - 1] else first[|first| - 1];
      }
      assert text[..index][1..] == text[1..][..index - 1];
      if rest < 0 {
        assert index == 1 && all[0] == first[0];
        assert Encode(text[1..][..0]) == [];
      }
    }
  }

  lemma IndexAtRoundsUp(text: string, units: int)
    requires 0 <= units <= Utf16Len(text)
    ensures RoundUp(Encode(text), units) <= Utf16Len(text)
    ensures Encode(text[..IndexAt(text, units)]) == Encode(text)[..RoundUp(Encode(text), units)]
    ensures Encode(text[IndexAt(text, units)..]) == Encode(text)[RoundUp(Encode(text), units)..]
  {
    hide Encode, IndexAt;
    var index := IndexAt(text, units);
    PrefixLength(text, units);
    EncodeConcat(text[..index], text[index..]);
    assert text[..index] + text[index..] == text;
  }

  lemma {:induction false} IndexAtAscii(text: string, units: int)
    requires Utf16Len(text) == |text|
    ensures IndexAt(text, units) == if units < 0 then 0 else if units > |text| then |text| else units
  {
    if text != [] && units > 0 {
      IndexAtAscii(text[1..], units - 1);
    }
  }

  lemma {:induction false} IndexAtMonotone(text: string, a: int, b: int)
    requires a <= b
    ensures IndexAt(text, a) <= IndexAt(text, b)
  {
    if text != [] && a > 0 {
      IndexAtMonotone(text[1..], a - |Units(text[0])|, b - |Units(text[0])|);
    }
  }

  // The fast path and the loop agree: both are IndexAt.
  method Utf16Index(text: string, units: int) returns (index: nat)
    ensures index == IndexAt(text, units)
  {
    if |text| == Utf16Len(text) {
      IndexAtAscii(text, units);
      var least := if units < |text| then units else |text|;
      return if least > 0 then least else 0;
    }
    var count := 0;
    index := 0;
    while index < |text|
      invariant index <= |text|
      invariant IndexAt(text, units) == index + IndexAt(text[index..], units - count)
    {
      if count >= units {
        return;
      }
      count := count + if text[index] as int > 0xFFFF then 2 else 1;
      assert text[index..][1..] == text[index + 1..];
      index := index + 1;
    }
  }
}
