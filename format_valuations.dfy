/**
 * The valuation-list formatter: a '*'-separated record file whose first
 * field is the record type. Type "01" records open an entry and carry its
 * key in their second field; every other record is prefixed with the key of
 * the entry it belongs to. Records of types 1 to 7 go to seven output files,
 * other types are dropped, and a first field that is not a number stops the
 * program (`std::stoi` throws).
 *
 * The files are parameters: the input as its lines, the outputs as seven
 * sequences of lines.
 */
module FormatValuations {
  import opened Wrappers
  import opened CppInt

  /** The number of output files: related, items, additional items, plant and machinery, parking, adjustments, adjustment totals. */
  const OUTPUTS: nat := 7

  /** std::find: the first index from `from` on that holds c, or |s|. */
  function Find(s: string, from: nat, c: char): (k: nat)
    requires from <= |s|
    ensures from <= k <= |s| && (k < |s| ==> s[k] == c)
    ensures forall i :: from <= i < k ==> s[i] != c
    decreases |s| - from
  {
    if from == |s| || s[from] == c then from else Find(s, from + 1, c)
  }

  /** The record type: the text before the first '*', or the whole line. */
  function Field1(line: string): string {
    line[..Find(line, 0, '*')]
  }

  /** The code searches for the second '*' one past the first; a line "01" has no first. */
  predicate ReadableLine(line: string) {
    Field1(line) == "01" ==> Find(line, 0, '*') < |line|
  }

  /** Lines 0 to n-1 (those that exist) are readable. */
  predicate ReadableBefore(lines: seq<string>, n: nat) {
    forall j :: 0 <= j < n && j < |lines| ==> ReadableLine(lines[j])
  }

  /**
   * The entry key of a "01" record: the text between the first and second
   * '*'. For a line without '*' the code's search would start past the end;
   * the empty key given here is the evidently intended reading (see the
   * README's findings). `ReadLine`, which follows the code, only reads lines
   * that satisfy ReadableLine.
   */
  function ForeignKey(line: string): string {
    var lim1 := Find(line, 0, '*');
    if lim1 < |line| then line[lim1 + 1..Find(line, lim1 + 1, '*')] else ""
  }

  /** The entry key in force when line i is read: the key of the last "01" record before it, "" at first. */
  function FkAt(lines: seq<string>, i: nat): string
    requires i <= |lines|
  {
    if i == 0 then ""
    else if Field1(lines[i - 1]) == "01" then ForeignKey(lines[i - 1])
    else FkAt(lines, i - 1)
  }

  /** What is written for line i: a "01" record as it is, any other prefixed by its entry key and '*'. */
  function OutText(lines: seq<string>, i: nat): string
    requires i < |lines|
  {
    if Field1(lines[i]) == "01" then lines[i] else FkAt(lines, i) + "*" + lines[i]
  }

  /** The output a line goes to, by the number in its ORIGINAL first field. */
  function Route(line: string): Option<int> {
    StoI(Field1(line))
  }

  /** What reading one line yields: the text to write and the output number, None when stoi throws. */
  datatype Record = Record(text: string, route: Option<int>)

  /** Each line read with the entry key in force at it. */
  function Records(lines: seq<string>): (recs: seq<Record>)
    ensures |recs| == |lines|
  {
    seq(|lines|, j requires 0 <= j < |lines| => Record(OutText(lines, j), Route(lines[j])))
  }

  /** Record j is line j's text and route. */
  lemma RecordAt(lines: seq<string>, j: nat)
    requires j < |lines|
    ensures Records(lines)[j] == Record(OutText(lines, j), Route(lines[j]))
  {
  }

  /** The first record from k on that has no route (whose line makes stoi throw), or |recs|. */
  function FirstThrow(recs: seq<Record>, k: nat): (n: nat)
    requires k <= |recs|
    ensures k <= n <= |recs| && (n < |recs| ==> recs[n].route.None?)
    ensures forall j :: k <= j < n ==> recs[j].route.Some?
    decreases |recs| - k
  {
    if k == |recs| || recs[k].route.None? then k else FirstThrow(recs, k + 1)
  }

  /** The texts of records 0 to n-1 that go to output `out` (0 based), in input order. */
  function Collected(recs: seq<Record>, n: nat, out: nat): seq<string>
    requires n <= |recs|
  {
    if n == 0 then []
    else Collected(recs, n - 1, out) + (if recs[n - 1].route == Some(out + 1) then [recs[n - 1].text] else [])
  }

  /** Seven empty outputs. */
  const NO_OUTPUT: seq<seq<string>> := [[], [], [], [], [], [], []]

  /** The seven outputs after records 0 to n-1: each record with a route of 1 to 7 appended to that output. */
  function Outputs(recs: seq<Record>, n: nat): (outs: seq<seq<string>>)
    requires n <= |recs|
    ensures |outs| == OUTPUTS
  {
    if n == 0 then NO_OUTPUT
    else
      var prev := Outputs(recs, n - 1);
      var r := recs[n - 1];
      if r.route.Some? && 1 <= r.route.value <= OUTPUTS then prev[r.route.value - 1 := prev[r.route.value - 1] + [r.text]]
      else prev
  }

  /** Output `out` holds exactly the texts of the records routed to it, in input order. */
  lemma {:induction false} OutputsAreCollected(recs: seq<Record>, n: nat, out: nat)
    requires n <= |recs| && out < OUTPUTS
    ensures Outputs(recs, n)[out] == Collected(recs, n, out)
  {
    if n > 0 {
      OutputsAreCollected(recs, n - 1, out);
    }
  }

  /** The key in force after line i. */
  lemma KeyStep(lines: seq<string>, i: nat, next: nat)
    requires next == i + 1 <= |lines|
    ensures Field1(lines[i]) == "01" ==> FkAt(lines, next) == ForeignKey(lines[i])
    ensures Field1(lines[i]) != "01" ==> FkAt(lines, next) == FkAt(lines, i)
  {
  }

  /**
   * The line buffer grown in place: fk.size()+1 filler characters are
   * appended, the line is copied backwards to the end of the buffer, fk is
   * copied to the front and '*' follows it.
   */
  method PrefixInPlace(line: string, fk: string) returns (buf: string)
    ensures buf == fk + "*" + line
  {
    buf := line;
    var d := |fk| + 1;
    for i := 0 to d
      invariant |buf| == |line| + i && buf[..|line|] == line
    {
      buf := buf + ['-'];
    }
    buf := ShiftBack(buf, line, d);
    for i := 0 to |fk|
      invariant |buf| == |line| + d && buf[..i] == fk[..i] && buf[d..] == line
    {
      buf := buf[i := fk[i]];
      assert buf[d..] == line;
    }
    buf := buf[|fk| := '*'];
    assert buf[..|fk|] == fk && buf[d..] == line;
    assert buf == buf[..|fk|] + [buf[|fk|]] + buf[d..];
  }

  /** The backward copy `for (k = size; k > d; --k) s[k - 1] = s[k - 1 - d]`: the line ends up d places further on. */
  method ShiftBack(buf0: string, line: string, d: nat) returns (buf: string)
    requires |buf0| == |line| + d && buf0[..|line|] == line
    ensures |buf| == |line| + d && buf[d..] == line
  {
    buf := buf0;
    var k := |buf|;
    while k > d
      invariant d <= k <= |buf| == |line| + d
      invariant forall p :: 0 <= p < k && p < |line| ==> buf[p] == line[p]
      invariant forall p :: k <= p < |buf| ==> buf[p] == line[p - d]
    {
      k := k - 1;
      assert buf[k - d] == line[k - d];
      buf := buf[k := buf[k - d]];
    }
    assert forall p :: 0 <= p < |line| ==> buf[d..][p] == line[p];
  }

  /**
   * One pass of the main loop up to routing: the first field is cut off, a
   * "01" record sets the entry key and any other record is prefixed.
   */
  method ReadLine(lines: seq<string>, i: nat, fk: string) returns (text: string, route: Option<int>, fkNext: string)
    requires i < |lines| && ReadableLine(lines[i])
    requires fk == FkAt(lines, i)
    ensures Record(text, route) == Records(lines)[i]
    ensures fkNext == FkAt(lines, i + 1)
  {
    var next := i + 1;
    KeyStep(lines, i, next);
    text := lines[i];
    var lim1 := Find(text, 0, '*');
    var field1 := text[..lim1];
    fkNext := fk;
    if field1 == "01" {
      var lim2 := Find(text, lim1 + 1, '*');
      fkNext := text[lim1 + 1..lim2];
    } else {
      text := PrefixInPlace(text, fk);
    }
    route := StoI(field1);
    RecordAt(lines, i);
  }

  /** Record n appended to the output its route names, if it names one of the seven. */
  lemma OutputsStep(recs: seq<Record>, n: nat)
    requires n < |recs|
    ensures recs[n].route.Some? && 1 <= recs[n].route.value <= OUTPUTS ==>
              Outputs(recs, n + 1) == Outputs(recs, n)[recs[n].route.value - 1 := Outputs(recs, n)[recs[n].route.value - 1] + [recs[n].text]]
    ensures !(recs[n].route.Some? && 1 <= recs[n].route.value <= OUTPUTS) ==> Outputs(recs, n + 1) == Outputs(recs, n)
  {
  }

  /** One pass of the main loop: read line i and append it to the output its type names; `stop` when stoi throws. */
  method FormatLine(lines: seq<string>, i: nat, fk: string, outs: seq<seq<string>>)
    returns (fkNext: string, outsNext: seq<seq<string>>, stop: bool)
    requires i < |lines| && ReadableLine(lines[i])
    requires fk == FkAt(lines, i) && outs == Outputs(Records(lines), i)
    ensures stop <==> FirstThrow(Records(lines), i) == i
    ensures !stop ==> FirstThrow(Records(lines), i) == FirstThrow(Records(lines), i + 1)
    ensures stop ==> outsNext == outs
    ensures !stop ==> fkNext == FkAt(lines, i + 1) && outsNext == Outputs(Records(lines), i + 1)
  {
    ghost var recs := Records(lines);
    var line, route;
    line, route, fkNext := ReadLine(lines, i, fk);
    assert recs[i] == Record(line, route);
    if route.None? {
      assert FirstThrow(recs, i) == i;
      return fkNext, outs, true;
    }
    assert FirstThrow(recs, i) == FirstThrow(recs, i + 1);
    OutputsStep(recs, i);
    var out := route.value - 1;
    outsNext := outs;
    if 0 <= out < OUTPUTS {
      outsNext := outs[out := outs[out] + [line]];
    }
    stop := false;
  }

  /**
   * The main loop: each line's first field is cut off, a "01" record sets
   * the entry key, any other record is prefixed, and the record is routed
   * by its original first field. `thrown` reports the `std::stoi` exception
   * that ends the program; the outputs are those written before that line.
   * Only the lines up to that one are read, so only they need be readable.
   */
  method Format(lines: seq<string>) returns (outs: seq<seq<string>>, thrown: bool)
    requires ReadableBefore(lines, FirstThrow(Records(lines), 0) + 1)
    ensures thrown <==> FirstThrow(Records(lines), 0) < |lines|
    ensures outs == Outputs(Records(lines), FirstThrow(Records(lines), 0))
  {
    ghost var recs := Records(lines);
    ghost var last := FirstThrow(recs, 0);
    var fk := "";
    outs := NO_OUTPUT;
    var i := 0;
    while i != |lines|
      invariant 0 <= i <= |lines|
      invariant fk == FkAt(lines, i)
      invariant outs == Outputs(recs, i)
      invariant last == FirstThrow(recs, i)
      decreases |lines| - i
    {
      assert ReadableLine(lines[i]) by {
        assert i <= last;
      }
      var stop;
      fk, outs, stop := FormatLine(lines, i, fk, outs);
      if stop {
        return outs, true;
      }
      i := i + 1;
    }
    return outs, false;
  }
}

module FormatValuationsProperties {
  import opened Wrappers
  import opened CppInt
  import opened FormatValuations

  /** The entry key is "" until the first "01" record. */
  lemma {:induction false} KeyStartsEmpty(lines: seq<string>, i: nat)
    requires i <= |lines|
    requires forall j :: 0 <= j < i ==> Field1(lines[j]) != "01"
    ensures FkAt(lines, i) == ""
  {
    if i > 0 {
      KeyStartsEmpty(lines, i - 1);
    }
  }

  /** The key of a "01" record stays in force until the next "01" record. */
  lemma {:induction false} KeyPersists(lines: seq<string>, e: nat, i: nat)
    requires e < i <= |lines|
    requires Field1(lines[e]) == "01"
    requires forall j :: e < j < i ==> Field1(lines[j]) != "01"
    ensures FkAt(lines, i) == ForeignKey(lines[e])
  {
    if i - 1 > e {
      KeyPersists(lines, e, i - 1);
    }
  }

  /**
   * A prefixed record's own first field is the entry key, not its type:
   * routing must use the first field read before the rewrite.
   */
  lemma PrefixHidesType(fk: string, line: string)
    requires '*' !in fk
    ensures Field1(fk + "*" + line) == fk
  {
    var s := fk + "*" + line;
    assert s[|fk|] == '*';
    assert forall i :: 0 <= i < |fk| ==> s[i] == fk[i] && fk[i] in fk;
    assert s[..|fk|] == fk;
  }

  /** The formatter stops at the first line whose type is not a number, and only there. */
  lemma FirstThrowIsFirstBadLine(lines: seq<string>)
    ensures var n := FirstThrow(Records(lines), 0);
      (n < |lines| ==> Route(lines[n]).None?) && forall j :: 0 <= j < n ==> Route(lines[j]).Some?
  {
    var n := FirstThrow(Records(lines), 0);
    forall j | 0 <= j < |lines| ensures Route(lines[j]) == Records(lines)[j].route {
      RecordAt(lines, j);
    }
  }

  /** An output only grows: what it holds after n records begins with what it held after i. */
  lemma {:induction false} CollectedGrows(recs: seq<Record>, i: nat, n: nat, out: nat)
    requires i <= n <= |recs|
    ensures |Collected(recs, i, out)| <= |Collected(recs, n, out)|
    ensures Collected(recs, n, out)[..|Collected(recs, i, out)|] == Collected(recs, i, out)
  {
    if n > i {
      CollectedGrows(recs, i, n - 1, out);
      var c := Collected(recs, n - 1, out);
      var before := Collected(recs, i, out);
      assert Collected(recs, n, out)[..|c|] == c;
      assert Collected(recs, n, out)[..|before|] == c[..|before|];
    }
  }

  /** The number of records among the first n whose type is 1 to 7. */
  function RoutedCount(recs: seq<Record>, n: nat): nat
    requires n <= |recs|
  {
    if n == 0 then 0
    else RoutedCount(recs, n - 1) + (if recs[n - 1].route.Some? && 1 <= recs[n - 1].route.value <= OUTPUTS then 1 else 0)
  }

  /** The total length of outputs o to the last. */
  function TotalFrom(outs: seq<seq<string>>, o: nat): nat
    requires o <= |outs|
    decreases |outs| - o
  {
    if o == |outs| then 0 else |outs[o]| + TotalFrom(outs, o + 1)
  }

  /** Appending one line to one output adds one to the total. */
  lemma {:induction false} TotalOfUpdate(outs: seq<seq<string>>, o: nat, out: nat, t: string)
    requires o <= |outs| && out < |outs|
    ensures TotalFrom(outs[out := outs[out] + [t]], o) == TotalFrom(outs, o) + (if o <= out then 1 else 0)
    decreases |outs| - o
  {
    if o < |outs| {
      TotalOfUpdate(outs, o + 1, out, t);
    }
  }

  /** With nothing in them, the outputs hold no line. */
  lemma {:induction false} TotalOfEmpty(outs: seq<seq<string>>, o: nat)
    requires o <= |outs| && forall k :: 0 <= k < |outs| ==> outs[k] == []
    ensures TotalFrom(outs, o) == 0
    decreases |outs| - o
  {
    if o < |outs| {
      TotalOfEmpty(outs, o + 1);
    }
  }

  /** Every record of type 1 to 7 is written exactly once: the outputs hold as many lines as there are such records. */
  lemma {:induction false} EveryRoutedLineWrittenOnce(recs: seq<Record>, n: nat)
    requires n <= |recs|
    ensures TotalFrom(Outputs(recs, n), 0) == RoutedCount(recs, n)
  {
    if n == 0 {
      TotalOfEmpty(Outputs(recs, 0), 0);
    } else {
      EveryRoutedLineWrittenOnce(recs, n - 1);
      var r := recs[n - 1];
      if r.route.Some? && 1 <= r.route.value <= OUTPUTS {
        TotalOfUpdate(Outputs(recs, n - 1), 0, r.route.value - 1, r.text);
      }
    }
  }

  /** The key of a record "01*K1*x" is its second field. */
  lemma EntryKeyExample()
    ensures ReadableLine("01*K1*x") && Field1("01*K1*x") == "01" && ForeignKey("01*K1*x") == "K1"
  {
    var s := "01*K1*x";
    assert Find(s, 2, '*') == 2;
    assert Find(s, 0, '*') == Find(s, 1, '*') == 2;
    assert Find(s, 5, '*') == 5;
    assert Find(s, 3, '*') == Find(s, 4, '*') == 5;
    assert s[..2] == "01" && s[3..5] == "K1";
  }

  /**
   * The entry key is the second field: the text after the first '*' up to
   * the next '*' or the end of the line, and "" when the line has no '*'
   * (the reading the code evidently intends for a bare "01" record).
   */
  lemma ForeignKeyIsSecondField(line: string)
    ensures var lim1 := Find(line, 0, '*'); var fk := ForeignKey(line);
      && (lim1 == |line| ==> fk == "")
      && (lim1 < |line| ==>
            && lim1 + 1 + |fk| <= |line|
            && line[lim1 + 1..lim1 + 1 + |fk|] == fk
            && '*' !in fk
            && (lim1 + 1 + |fk| == |line| || line[lim1 + 1 + |fk|] == '*'))
  {
    var lim1 := Find(line, 0, '*');
    if lim1 < |line| {
      var lim2 := Find(line, lim1 + 1, '*');
      var fk := line[lim1 + 1..lim2];
      assert forall k :: 0 <= k < |fk| ==> fk[k] == line[lim1 + 1 + k];
    }
  }

  /**
   * A bare "01" record: the code would look for the second '*' from one past
   * the end of the line, so the formatter cannot read it; the intended
   * reading opens an entry with the empty key, and the next record is
   * written with an empty prefix.
   */
  lemma BareEntryLine()
    ensures Field1("01") == "01" && Find("01", 0, '*') == |"01"| && !ReadableLine("01")
    ensures ForeignKey("01") == "" && OutText(["01", "2*x"], 1) == "*2*x"
  {
    var s := "01";
    assert Find(s, 2, '*') == 2;
    assert Find(s, 0, '*') == Find(s, 1, '*') == 2;
    assert s[..2] == s;
    var t := "2*x";
    assert Find(t, 1, '*') == 1 && Find(t, 0, '*') == 1;
    assert t[..1] == "2" != "01";
    assert FkAt(["01", "2*x"], 1) == "";
  }
}
