/**
 * The animated page heading (components/Heading.tsx): the text is split
 * into words at each space, each word into characters, and one counter
 * running across all words numbers the characters.
 */
module Heading {
  import opened JsString

  /** One animated character: its word, its global index and itself. */
  datatype CharSpan = CharSpan(word: nat, index: nat, ch: char)

  function Digit(d: nat): (c: char)
    requires d < 10
    ensures '0' <= c <= '9'
  {
    (48 + d) as char
  }

  /** The decimal numeral of `n`, as a template literal prints it. */
  function Decimal(n: nat): (r: string)
    ensures |r| >= 1 && (|r| == 1 <==> n < 10)
    ensures forall i :: 0 <= i < |r| ==> '0' <= r[i] <= '9'
  {
    if n < 10 then [Digit(n)] else Decimal(n / 10) + [Digit(n % 10)]
  }

  lemma {:induction false} DecimalInjective(a: nat, b: nat)
    requires Decimal(a) == Decimal(b)
    ensures a == b
  {
    if a >= 10 && b >= 10 {
      var da, db := Decimal(a), Decimal(b);
      assert da[|da| - 1] == Digit(a % 10) && db[|db| - 1] == Digit(b % 10);
      assert da[..|da| - 1] == Decimal(a / 10) && db[..|db| - 1] == Decimal(b / 10);
      DecimalInjective(a / 10, b / 10);
    }
  }

  /** The React key `${wordIndex}-${globalCharIndex}`. */
  function Key(word: nat, index: nat): string
  {
    Decimal(word) + "-" + Decimal(index)
  }

  /** The first `-` of a key ends the word index. */
  lemma DashAfterWord(w: nat, i: nat)
    ensures |Key(w, i)| > |Decimal(w)| && Key(w, i)[|Decimal(w)|] == '-'
    ensures forall j :: 0 <= j < |Decimal(w)| ==> Key(w, i)[j] != '-'
  {
    assert forall j :: 0 <= j < |Decimal(w)| ==> Key(w, i)[j] == Decimal(w)[j];
  }

  lemma {:induction false} KeyInjective(w1: nat, i1: nat, w2: nat, i2: nat)
    requires Key(w1, i1) == Key(w2, i2)
    ensures w1 == w2 && i1 == i2
  {
    var d1, d2 := Decimal(w1), Decimal(w2);
    var k := Key(w1, i1);
    DashAfterWord(w1, i1);
    DashAfterWord(w2, i2);
    assert |d1| == |d2|;
    assert k[..|d1|] == d1 && Key(w2, i2)[..|d2|] == d2;
    DecimalInjective(w1, w2);
    assert k[|d1| + 1..] == Decimal(i1);
    assert Key(w2, i2)[|d2| + 1..] == Decimal(i2);
    DecimalInjective(i1, i2);
  }

  function SpanKey(s: CharSpan): string
  {
    Key(s.word, s.index)
  }

  /** Characters in the words before word `w`. */
  function Offset(words: seq<string>, w: nat): nat
    requires w <= |words|
  {
    if w == 0 then 0 else Offset(words, w - 1) + |words[w - 1]|
  }

  lemma {:induction false} ConcatAt(words: seq<string>, w: nat, c: nat)
    requires w < |words| && c < |words[w]|
    ensures Offset(words, w) + c < |Concat(words)|
    ensures Concat(words)[Offset(words, w) + c] == words[w][c]
  {
    ConcatLength(words, |words|);
    OffsetPrefix(words, w, |words|);
    if w > 0 {
      ConcatAt(words[1..], w - 1, c);
      OffsetShift(words, w);
    }
  }

  lemma {:induction false} OffsetPrefix(words: seq<string>, w: nat, v: nat)
    requires w <= v <= |words|
    ensures Offset(words, w) <= Offset(words, v)
    ensures w < v ==> Offset(words, w) + |words[w]| <= Offset(words, v)
    decreases v
  {
    if w < v {
      OffsetPrefix(words, w, v - 1);
    }
  }

  lemma {:induction false} OffsetShift(words: seq<string>, w: nat)
    requires 0 < w <= |words|
    ensures Offset(words, w) == |words[0]| + Offset(words[1..], w - 1)
  {
    if w > 1 {
      OffsetShift(words, w - 1);
    }
  }

  lemma {:induction false} ConcatLength(words: seq<string>, w: nat)
    requires w == |words|
    ensures |Concat(words)| == Offset(words, w)
    decreases w
  {
    if w > 0 {
      ConcatLength(words[1..], w - 1);
      OffsetShift(words, w);
    }
  }

  /** The heading's characters in order, numbered by the running counter
      `globalCharIndex`, which starts at 0 and goes up by one per character. */
  method NumberCharacters(text: string) returns (spans: seq<CharSpan>, count: nat)
    // n, the final counter, is the text length less its spaces
    ensures count == |spans| == |text| - Count(text, ' ')
    // consecutive indices 0..n-1, in reading order, spaces left out
    ensures forall k :: 0 <= k < |spans| ==> spans[k].index == k && spans[k].ch == Remove(text, ' ')[k]
    // each character carries the word it belongs to
    ensures forall k :: 0 <= k < |spans| ==>
      var words := Split(text, ' ');
      spans[k].word < |words| && Offset(words, spans[k].word) <= k < Offset(words, spans[k].word + 1)
    // the keys are pairwise distinct
    ensures forall k, l :: 0 <= k < l < |spans| ==> SpanKey(spans[k]) != SpanKey(spans[l])
  {
    var words := Split(text, ' ');
    spans := [];
    var globalCharIndex := 0;
    for wordIndex := 0 to |words|
      invariant globalCharIndex == |spans| == Offset(words, wordIndex) <= |Concat(words)|
      invariant forall k :: 0 <= k < |spans| ==>
        spans[k].index == k && spans[k].ch == Concat(words)[k] &&
        spans[k].word < |words| && Offset(words, spans[k].word) <= k < Offset(words, spans[k].word + 1)
    {
      var word := words[wordIndex];
      for c := 0 to |word|
        invariant globalCharIndex == |spans| == Offset(words, wordIndex) + c <= |Concat(words)|
        invariant forall k :: 0 <= k < |spans| ==>
          spans[k].index == k && spans[k].ch == Concat(words)[k] &&
          spans[k].word < |words| && Offset(words, spans[k].word) <= k < Offset(words, spans[k].word + 1)
      {
        ConcatAt(words, wordIndex, c);
        spans := spans + [CharSpan(wordIndex, globalCharIndex, word[c])];
        globalCharIndex := globalCharIndex + 1;
      }
    }
    count := globalCharIndex;
    ConcatLength(words, |words|);
    ConcatSplit(text, ' ');
    forall k, l | 0 <= k < l < |spans|
      ensures SpanKey(spans[k]) != SpanKey(spans[l])
    {
      if SpanKey(spans[k]) == SpanKey(spans[l]) {
        KeyInjective(spans[k].word, spans[k].index, spans[l].word, spans[l].index);
      }
    }
  }

  /** `text.split(" ")` has one word more than the text has spaces; two
      spaces in a row give an empty word. */
  lemma WordCount(text: string)
    ensures |Split(text, ' ')| == Count(text, ' ') + 1
  {
    SplitLength(text, ' ');
  }
}
