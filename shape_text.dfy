/**
 * edges_to_string: the human-readable form of a shape's edge list,
 * "(x1,y1) -> (x2,y2)" per edge, joined with ", ". The engine and the
 * older vector-tile test program carry the same routine; both print
 * nothing for a shape whose approximate centre does not have two entries.
 *
 * The text is complete: reading the integers back out of it, in order,
 * gives the edge list again (`EdgeTextRoundTrip`).
 */
module ShapeText {
  import opened CppInt

  /**
   * The text of the first `count` edges of a flat edge list (four integers
   * per edge), in the order the C++ code appends its pieces.
   */
  function EdgesText(edges: seq<int>, count: nat): string
    requires 4 * count <= |edges|
  {
    if count == 0 then ""
    else
      var head := EdgesText(edges, count - 1);
      var lead := if count == 1 then head else head + ", ";
      var j := 4 * (count - 1);
      EdgeEntry(lead, edges[j], edges[j + 1], edges[j + 2], edges[j + 3])
  }

  /** One edge "(x1,y1) -> (x2,y2)" appended to the text written so far. */
  function EdgeEntry(lead: string, x1: int, y1: int, x2: int, y2: int): string
  {
    lead + "(" + IntToString(x1) + "," + IntToString(y1) + ") -> ("
      + IntToString(x2) + "," + IntToString(y2) + ")"
  }

  lemma EdgesTextUnfold(edges: seq<int>, count: nat)
    requires 4 * count + 4 <= |edges|
    ensures EdgesText(edges, count + 1)
         == EdgeEntry(if count == 0 then "" else EdgesText(edges, count) + ", ",
                      edges[4 * count], edges[4 * count + 1], edges[4 * count + 2], edges[4 * count + 3])
  {
  }

  /** The text of one more edge: the text so far, ", " unless it is the first, then the edge. */
  lemma EdgesTextNext(edges: seq<int>, count: nat, next: nat)
    requires next == count + 1 && 4 * next <= |edges|
    ensures EdgesText(edges, next)
         == EdgeEntry(if count == 0 then "" else EdgesText(edges, count) + ", ",
                      edges[4 * count], edges[4 * count + 1], edges[4 * count + 2], edges[4 * count + 3])
  {
    EdgesTextUnfold(edges, count);
  }

  /**
   * edges_to_string over the edge list and the number of centre entries,
   * as both copies read them; the loop steps 4 integers at a time until it
   * reaches the end exactly.
   */
  method EdgesToString(edges: seq<int>, approxCentreSize: nat) returns (res: string)
    requires approxCentreSize == 2 ==> |edges| % 4 == 0
    ensures approxCentreSize != 2 ==> res == ""
    ensures approxCentreSize == 2 ==> res == EdgesText(edges, |edges| / 4)
  {
    if approxCentreSize != 2 {
      return "";
    }
    res := "";
    ghost var m := |edges| / 4;
    assert |edges| == 4 * m;
    ghost var count := 0;
    var i := 0;
    while i != |edges|
      invariant i == 4 * count && count <= m
      invariant res == EdgesText(edges, count)
      decreases |edges| - i
    {
      ghost var before := count;
      if i != 0 {
        res := res + ", ";
      }
      res := res + "(";
      res := res + IntToString(edges[i]);
      res := res + ",";
      res := res + IntToString(edges[i + 1]);
      res := res + ") -> (";
      res := res + IntToString(edges[i + 2]);
      res := res + ",";
      res := res + IntToString(edges[i + 3]);
      res := res + ")";
      i, count := i + 4, count + 1;
      EdgesTextNext(edges, before, count);
    }
    assert count == m;
  }

  // ---------------------------------------------------------------------
  // Reading the integers back

  /** The text starts with an integer: a digit, or a '-' right before a digit. */
  predicate StartsNumber(s: string) {
    |s| > 0 && (IsDigit(s[0]) || (s[0] == '-' && |s| > 1 && IsDigit(s[1])))
  }

  /** Where the digits of the leading integer start: after its sign, if any. */
  function DigitsStart(s: string): (k: nat)
    requires StartsNumber(s)
    ensures k < |s| && IsDigit(s[k])
  {
    if IsDigit(s[0]) then 0 else 1
  }

  /** The length of the leading integer, sign included. */
  function TokenLength(s: string): (n: nat)
    requires StartsNumber(s)
    ensures DigitsStart(s) < n <= |s|
    ensures forall i :: DigitsStart(s) <= i < n ==> IsDigit(s[i])
    ensures n < |s| ==> !IsDigit(s[n])
  {
    var k := DigitsStart(s);
    k + DigitPrefixLength(s[k..])
  }

  /** The value of the leading integer. */
  function TokenValue(s: string): int
    requires StartsNumber(s)
  {
    var v := DigitsValue(s[DigitsStart(s)..TokenLength(s)]);
    if DigitsStart(s) == 1 then 0 - v else v
  }

  /** Every decimal integer in the text, in order: a digit run, with a '-' right before it when there is one. */
  function Numbers(s: string): seq<int>
    decreases |s|
  {
    if |s| == 0 then []
    else if StartsNumber(s) then [TokenValue(s)] + Numbers(s[TokenLength(s)..])
    else Numbers(s[1..])
  }

  /** No integer runs across the boundary between s and t. */
  predicate Splits(s: string, t: string) {
    |s| == 0 || |t| == 0 || !IsDigit(t[0]) || (!IsDigit(s[|s| - 1]) && s[|s| - 1] != '-')
  }

  lemma DigitPrefixSame(s: string, t: string)
    requires DigitPrefixLength(s) < |s| || |t| == 0 || !IsDigit(t[0])
    ensures DigitPrefixLength(s + t) == DigitPrefixLength(s)
  {
    assert forall i :: 0 <= i < |s| ==> (s + t)[i] == s[i];
    assert |t| > 0 ==> (s + t)[|s|] == t[0];
  }

  /** Appending text that no integer runs into leaves the leading integer as it is. */
  lemma TokenOfConcat(s: string, t: string)
    requires StartsNumber(s) && Splits(s, t)
    ensures StartsNumber(s + t)
    ensures DigitsStart(s + t) == DigitsStart(s)
    ensures TokenLength(s + t) == TokenLength(s)
    ensures TokenValue(s + t) == TokenValue(s)
  {
    var u := s + t;
    var k := DigitsStart(s);
    assert u[0] == s[0];
    assert |s| > 1 ==> u[1] == s[1];
    assert DigitsStart(u) == k;
    var w := s[k..];
    assert u[k..] == w + t;
    if |t| > 0 && IsDigit(t[0]) {
      assert w[|w| - 1] == s[|s| - 1];
    }
    DigitPrefixSame(w, t);
    var n := TokenLength(s);
    assert TokenLength(u) == n;
    assert u[k..n] == s[k..n];
  }

  /** Text that does not start an integer still does not once more text follows, unless an integer spans the boundary. */
  lemma NoTokenOfConcat(s: string, t: string)
    requires |s| > 0 && !StartsNumber(s) && Splits(s, t)
    ensures !StartsNumber(s + t)
    ensures (s + t)[1..] == s[1..] + t
  {
    var u := s + t;
    assert u[0] == s[0];
    assert |s| > 1 ==> u[1] == s[1];
    assert |s| == 1 && |t| > 0 ==> u[1] == t[0];
  }

  /** Reading integers out of s + t is reading them out of s, then out of t, when no integer spans the boundary. */
  lemma {:induction false} NumbersSplit(s: string, t: string)
    requires Splits(s, t)
    ensures Numbers(s + t) == Numbers(s) + Numbers(t)
    decreases |s|
  {
    if |s| == 0 {
      assert s + t == t;
    } else if StartsNumber(s) {
      var n := TokenLength(s);
      SuffixSplits(s, t, n);
      NumbersSplit(s[n..], t);
      TokenSplitStep(s, t);
    } else {
      SuffixSplits(s, t, 1);
      NumbersSplit(s[1..], t);
      NoTokenSplitStep(s, t);
    }
  }

  /** NumbersSplit when s opens with an integer, given the split of the rest. */
  lemma TokenSplitStep(s: string, t: string)
    requires StartsNumber(s) && Splits(s, t)
    requires Numbers(s[TokenLength(s)..] + t) == Numbers(s[TokenLength(s)..]) + Numbers(t)
    ensures Numbers(s + t) == Numbers(s) + Numbers(t)
  {
    var u := s + t;
    TokenOfConcat(s, t);
    var n := TokenLength(s);
    SuffixSplits(s, t, n);
    var rest := Numbers(s[n..]);
    assert Numbers(u) == [TokenValue(s)] + (rest + Numbers(t));
    assert [TokenValue(s)] + (rest + Numbers(t)) == [TokenValue(s)] + rest + Numbers(t);
  }

  /** NumbersSplit when s opens with something else, given the split of the rest. */
  lemma NoTokenSplitStep(s: string, t: string)
    requires |s| > 0 && !StartsNumber(s) && Splits(s, t)
    requires Numbers(s[1..] + t) == Numbers(s[1..]) + Numbers(t)
    ensures Numbers(s + t) == Numbers(s) + Numbers(t)
  {
    NoTokenOfConcat(s, t);
  }

  /** Dropping a prefix of s keeps the boundary with t. */
  lemma SuffixSplits(s: string, t: string, n: nat)
    requires n <= |s| && Splits(s, t)
    ensures (s + t)[n..] == s[n..] + t && Splits(s[n..], t)
  {
    if n < |s| {
      assert s[n..][|s[n..]| - 1] == s[|s| - 1];
    }
  }

  /** An integer written by `to_string` reads back as itself. */
  lemma NumbersOfInt(n: int)
    ensures Numbers(IntToString(n)) == [n]
  {
    var w := IntToString(n);
    IntToStringRoundTrip(n);
    var k := if n < 0 then 1 else 0;
    assert w[k..] == NatToString(if n < 0 then -n else n);
    DigitPrefixAll(w[k..]);
    assert StartsNumber(w) && DigitsStart(w) == k;
    assert TokenLength(w) == |w|;
    assert w[k..|w|] == w[k..];
    assert TokenValue(w) == n;
    assert w[|w|..] == "";
  }

  /** The integers of the first half of one more edge's text, "(x1,y1". */
  lemma NumbersOfFirstHalf(lead: string, a: int, b: int)
    ensures Numbers(lead + "(" + IntToString(a) + "," + IntToString(b)) == Numbers(lead) + [a, b]
  {
    var sa, sb := IntToString(a), IntToString(b);
    PunctuationHasNoNumbers();
    NumbersOfInt(a);
    NumbersOfInt(b);
    var p1 := lead + "(";
    NumbersSplit(lead, "(");
    assert p1[|p1| - 1] == '(';
    var p2 := p1 + sa;
    NumbersSplit(p1, sa);
    var p3 := p2 + ",";
    NumbersSplit(p2, ",");
    assert p3[|p3| - 1] == ',';
    NumbersSplit(p3, sb);
    var L := Numbers(lead);
    assert Numbers(p1) == L + [] == L;
    assert Numbers(p2) == L + [a];
    assert Numbers(p3) == L + [a] + [] == L + [a];
    assert Numbers(p3 + sb) == L + [a] + [b] == L + [a, b];
  }

  /** The integers of the second half, ") -> (x2,y2)", after any text. */
  lemma NumbersOfSecondHalf(q: string, c: int, d: int)
    ensures Numbers(q + ") -> (" + IntToString(c) + "," + IntToString(d) + ")") == Numbers(q) + [c, d]
  {
    var sc, sd := IntToString(c), IntToString(d);
    PunctuationHasNoNumbers();
    NumbersOfInt(c);
    NumbersOfInt(d);
    var p5 := q + ") -> (";
    NumbersSplit(q, ") -> (");
    assert p5[|p5| - 1] == '(';
    var p6 := p5 + sc;
    NumbersSplit(p5, sc);
    var p7 := p6 + ",";
    NumbersSplit(p6, ",");
    assert p7[|p7| - 1] == ',';
    var p8 := p7 + sd;
    NumbersSplit(p7, sd);
    NumbersSplit(p8, ")");
    var L := Numbers(q);
    assert Numbers(p5) == L + [] == L;
    assert Numbers(p6) == L + [c];
    assert Numbers(p7) == L + [c] + [] == L + [c];
    assert Numbers(p8) == L + [c] + [d] == L + [c, d];
    assert Numbers(p8 + ")") == L + [c, d] + [] == L + [c, d];
  }

  /** The integers of the text written for one more edge. */
  lemma NumbersOfEdge(lead: string, a: int, b: int, c: int, d: int)
    ensures Numbers(EdgeEntry(lead, a, b, c, d)) == Numbers(lead) + [a, b, c, d]
  {
    var q := lead + "(" + IntToString(a) + "," + IntToString(b);
    NumbersOfFirstHalf(lead, a, b);
    NumbersOfSecondHalf(q, c, d);
  }

  /** The punctuation the text is built from holds no integer. */
  lemma PunctuationHasNoNumbers()
    ensures Numbers("(") == [] && Numbers(",") == [] && Numbers(")") == []
    ensures Numbers(") -> (") == [] && Numbers(", ") == []
  {
  }

  /** The text of one or more edges ends with the ')' of the last one. */
  lemma EdgesTextEnds(edges: seq<int>, count: nat)
    requires 0 < count && 4 * count <= |edges|
    ensures var r := EdgesText(edges, count); |r| > 0 && r[|r| - 1] == ')'
  {
  }

  /** The ", " between two edges adds no integer. */
  lemma NumbersOfSeparator(head: string)
    requires |head| > 0 && head[|head| - 1] == ')'
    ensures Numbers(head + ", ") == Numbers(head)
  {
    PunctuationHasNoNumbers();
    NumbersSplit(head, ", ");
    assert Numbers(head) + [] == Numbers(head);
  }

  /** The first `next` edges are the first `count` edges and one more. */
  lemma PrefixOneMoreEdge(edges: seq<int>, count: nat, next: nat)
    requires next == count + 1 && 4 * next <= |edges|
    ensures edges[..4 * next]
         == edges[..4 * count] + [edges[4 * count], edges[4 * count + 1], edges[4 * count + 2], edges[4 * count + 3]]
  {
  }

  /** The text is complete: its integers, read back in order, are the edges written. */
  lemma {:induction false} EdgesTextRoundTrip(edges: seq<int>, count: nat)
    requires 4 * count <= |edges|
    ensures Numbers(EdgesText(edges, count)) == edges[..4 * count]
  {
    if count > 0 {
      var c := count - 1;
      var head := EdgesText(edges, c);
      EdgesTextRoundTrip(edges, c);
      var lead := if c == 0 then "" else head + ", ";
      if c > 0 {
        EdgesTextEnds(edges, c);
        NumbersOfSeparator(head);
      }
      assert Numbers(lead) == edges[..4 * c];
      EdgesTextNext(edges, c, count);
      NumbersOfEdge(lead, edges[4 * c], edges[4 * c + 1], edges[4 * c + 2], edges[4 * c + 3]);
      PrefixOneMoreEdge(edges, c, count);
    }
  }

  /** The whole list's text reads back as the whole list. */
  lemma EdgeTextRoundTrip(edges: seq<int>)
    requires |edges| % 4 == 0
    ensures Numbers(EdgesText(edges, |edges| / 4)) == edges
  {
    EdgesTextRoundTrip(edges, |edges| / 4);
    assert edges[..|edges|] == edges;
  }

  /** The rectangle of the C++ code's own test: a 3 x 1 box walked clockwise. */
  lemma RectangleText(e: seq<int>)
    requires e == [0, 0, 0, 1, 0, 1, 3, 1, 3, 1, 3, 0, 3, 0, 0, 0]
    ensures EdgesText(e, 4) == "(0,0) -> (0,1)" + ", " + "(0,1) -> (3,1)" + ", " + "(3,1) -> (3,0)" + ", " + "(3,0) -> (0,0)"
  {
    var t8 := "(0,0) -> (0,1)" + ", " + "(0,1) -> (3,1)";
    var t12 := t8 + ", " + "(3,1) -> (3,0)";
    RectangleFirstHalf(e);
    EdgeStep(e, 2, 3, t8, 3, 1, 3, 0, "(3,1) -> (3,0)");
    EdgeStep(e, 3, 4, t12, 3, 0, 0, 0, "(3,0) -> (0,0)");
  }

  lemma RectangleFirstHalf(e: seq<int>)
    requires e == [0, 0, 0, 1, 0, 1, 3, 1, 3, 1, 3, 0, 3, 0, 0, 0]
    ensures EdgesText(e, 2) == "(0,0) -> (0,1)" + ", " + "(0,1) -> (3,1)"
  {
    var t4 := "(0,0) -> (0,1)";
    EdgeStep(e, 0, 1, "", 0, 0, 0, 1, t4);
    EdgeStep(e, 1, 2, t4, 0, 1, 3, 1, "(0,1) -> (3,1)");
  }

  /** One more one-digit edge appended to a known edge text. */
  lemma EdgeStep(e: seq<int>, count: nat, next: nat, head: string, a: int, b: int, c: int, d: int, lit: string)
    requires next == count + 1 && 4 * next <= |e|
    requires EdgesText(e, count) == head
    requires e[4 * count] == a && e[4 * count + 1] == b && e[4 * count + 2] == c && e[4 * count + 3] == d
    requires 0 <= a <= 9 && 0 <= b <= 9 && 0 <= c <= 9 && 0 <= d <= 9
    requires lit == ['(', Digit(a), ',', Digit(b), ')', ' ', '-', '>', ' ', '(', Digit(c), ',', Digit(d), ')']
    ensures EdgesText(e, next) == (if count == 0 then "" else head + ", ") + lit
  {
    EdgesTextNext(e, count, next);
    EntryLiteral(if count == 0 then "" else head + ", ", a, b, c, d, lit);
  }

  /** EdgeEntry over one-digit coordinates, as the literal it spells. */
  lemma EntryLiteral(lead: string, a: int, b: int, c: int, d: int, lit: string)
    requires 0 <= a <= 9 && 0 <= b <= 9 && 0 <= c <= 9 && 0 <= d <= 9
    requires lit == ['(', Digit(a), ',', Digit(b), ')', ' ', '-', '>', ' ', '(', Digit(c), ',', Digit(d), ')']
    ensures EdgeEntry(lead, a, b, c, d) == lead + lit
  {
    OneDigitText(a);
    OneDigitText(b);
    OneDigitText(c);
    OneDigitText(d);
  }

  function Digit(n: int): char
    requires 0 <= n <= 9
  {
    ('0' as int + n) as char
  }

  lemma OneDigitText(n: int)
    requires 0 <= n <= 9
    ensures IntToString(n) == [Digit(n)]
  {
  }
}
