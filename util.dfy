/**
 * The utilities of the backend: the dynamic-programming longest common
 * substring (two identical copies in the repository) and the `key=value`
 * configuration table that is loaded on the first lookup.
 *
 * The table as written has two defects (see the README's findings): the
 * row-0 initialisation loop runs over the length of `a` instead of `b`, and
 * the best run is only looked for outside row 0 and column 0. `AsWritten`
 * models the code as it stands and `Corrected` the evidently intended
 * table. combine_buildings calls the table as written, and so does the
 * model of it.
 */
module Util {

  // ---------------------------------------------------------------------
  // longest_common_substr

  /** Which dp table: the one the code fills, or the intended one. */
  datatype Table = AsWritten | Corrected

  /** The number of equal characters in a common run ending at a[i] and b[j]. */
  function RunLength(a: string, b: string, i: nat, j: nat): (k: nat)
    requires i < |a| && j < |b|
    ensures k <= i + 1 && k <= j + 1
  {
    if a[i] != b[j] then 0
    else if i == 0 || j == 0 then 1
    else 1 + RunLength(a, b, i - 1, j - 1)
  }

  /**
   * dp[i][j] as the code leaves it: column 0 compares with b[0], row 0 is
   * only filled for the first |a| columns (the rest keep their 0), and the
   * inner cells extend the diagonal.
   */
  function WrittenCell(a: string, b: string, i: nat, j: nat): (k: nat)
    requires i < |a| && j < |b|
    ensures k <= i + 1 && k <= j + 1
  {
    if j == 0 then (if a[i] == b[0] then 1 else 0)
    else if i == 0 then (if j < |a| && a[0] == b[j] then 1 else 0)
    else if a[i] == b[j] then 1 + WrittenCell(a, b, i - 1, j - 1)
    else 0
  }

  function Cell(t: Table, a: string, b: string, i: nat, j: nat): (k: nat)
    requires i < |a| && j < |b|
    ensures k <= i + 1 && k <= j + 1
  {
    if t == AsWritten then WrittenCell(a, b, i, j) else RunLength(a, b, i, j)
  }

  /** The first row and column that compete for the best run: 1 as written, 0 as intended. */
  function FirstScanned(t: Table): nat {
    if t == AsWritten then 1 else 0
  }

  /** The running best, `lcs_size` and `lcs_beg`. */
  datatype Best = Best(size: nat, beg: int)

  /** A best that names a slice of `a`. */
  predicate Fits(a: string, best: Best) {
    0 <= best.beg && best.beg + best.size <= |a|
  }

  /** One cell against the running best: only a strictly longer run replaces it. */
  function Consider(best: Best, k: nat, i: nat): Best {
    if k > best.size then Best(k, i - (k - 1)) else best
  }

  /** Scans row i from column j to the end. */
  function ScanRow(t: Table, a: string, b: string, i: nat, j: nat, best: Best): (r: Best)
    requires i < |a| && j <= |b| && Fits(a, best)
    ensures Fits(a, r)
    decreases |b| - j
  {
    if j == |b| then best
    else ScanRow(t, a, b, i, j + 1, Consider(best, Cell(t, a, b, i, j), i))
  }

  /** Scans rows i to the end, each from the first scanned column. */
  function ScanRows(t: Table, a: string, b: string, i: nat, best: Best): (r: Best)
    requires i <= |a| && FirstScanned(t) <= |b| && Fits(a, best)
    ensures Fits(a, r)
    decreases |a| - i
  {
    if i == |a| then best
    else ScanRows(t, a, b, i + 1, ScanRow(t, a, b, i, FirstScanned(t), best))
  }

  /** One cell of a row scan. */
  lemma ScanRowStep(t: Table, a: string, b: string, i: nat, j: nat, next: nat, best: Best, k: nat)
    requires i < |a| && j < |b| && next == j + 1 && Fits(a, best) && k == Cell(t, a, b, i, j)
    ensures ScanRow(t, a, b, i, j, best) == ScanRow(t, a, b, i, next, Consider(best, k, i))
  {
  }

  /** Scanning rows from i is scanning row i, then the rows after it. */
  lemma ScanRowsNext(t: Table, a: string, b: string, i: nat, next: nat, best: Best)
    requires i < |a| && next == i + 1 && FirstScanned(t) <= |b| && Fits(a, best)
    ensures ScanRows(t, a, b, i, best) == ScanRows(t, a, b, next, ScanRow(t, a, b, i, FirstScanned(t), best))
  {
  }

  /** The string the table yields: "" for an empty input, else the best slice of `a`. */
  function Lcs(t: Table, a: string, b: string): string {
    if |a| == 0 || |b| == 0 then ""
    else
      var best := ScanRows(t, a, b, FirstScanned(t), Best(0, 0));
      a[best.beg..best.beg + best.size]
  }

  /**
   * The rows of dp before row i hold their cells; as written, column 0 is
   * filled up front for every row.
   */
  ghost predicate RowsFilled(t: Table, a: string, b: string, dp: array2<nat>, i: nat)
    reads dp
    requires dp.Length0 == |a| && dp.Length1 == |b|
  {
    forall r, c :: 0 <= r < |a| && 0 <= c < |b| && (r < i || (t == AsWritten && c == 0)) ==>
      dp[r, c] == Cell(t, a, b, r, c)
  }

  /**
   * The two initialisation loops as written: column 0 for every row, then
   * row 0 for the first |a| columns, the rest of row 0 keeping its 0.
   */
  method FillBordersAsWritten(a: string, b: string, dp: array2<nat>)
    requires 0 < |a| <= |b| && dp.Length0 == |a| && dp.Length1 == |b|
    requires forall r, c :: 0 <= r < |a| && 0 <= c < |b| ==> dp[r, c] == 0
    modifies dp
    ensures RowsFilled(AsWritten, a, b, dp, 1)
  {
    var m, n := |a|, |b|;
    for i := 0 to m
      invariant forall r, c :: 0 <= r < m && 0 <= c < n ==>
        dp[r, c] == if c == 0 && r < i then WrittenCell(a, b, r, 0) else 0
    {
      dp[i, 0] := if a[i] == b[0] then 1 else 0;
    }
    for i := 0 to m
      invariant forall r, c :: 0 <= r < m && 0 <= c < n && (c == 0 || (r == 0 && c < i)) ==>
        dp[r, c] == WrittenCell(a, b, r, c)
      invariant forall c :: i <= c < n && c != 0 ==> dp[0, c] == 0
    {
      dp[0, i] := if a[0] == b[i] then 1 else 0;
    }
  }

  /**
   * One pass of the inner loop over row i: each cell extends the diagonal
   * run or resets to 0, and a strictly longer run becomes the best.
   */
  method FillRow(t: Table, a: string, b: string, dp: array2<nat>, i: nat, size0: nat, beg0: int)
    returns (size: nat, beg: int)
    requires dp.Length0 == |a| && dp.Length1 == |b| && i < |a| && FirstScanned(t) <= i
    requires FirstScanned(t) <= |b| && RowsFilled(t, a, b, dp, i) && Fits(a, Best(size0, beg0))
    modifies dp
    ensures RowsFilled(t, a, b, dp, i + 1)
    ensures Best(size, beg) == ScanRow(t, a, b, i, FirstScanned(t), Best(size0, beg0))
  {
    var n := |b|;
    size, beg := size0, beg0;
    var j := FirstScanned(t);
    while j != n
      invariant FirstScanned(t) <= j <= n
      invariant forall r, c :: 0 <= r < |a| && 0 <= c < n && (r < i || (t == AsWritten && c == 0) || (r == i && c < j)) ==>
        dp[r, c] == Cell(t, a, b, r, c)
      invariant Fits(a, Best(size, beg))
      invariant ScanRow(t, a, b, i, j, Best(size, beg)) == ScanRow(t, a, b, i, FirstScanned(t), Best(size0, beg0))
    {
      if a[i] != b[j] {
        dp[i, j] := 0;
      } else if i == 0 || j == 0 {
        dp[i, j] := 1;
      } else {
        dp[i, j] := 1 + dp[i - 1, j - 1];
      }
      ghost var k := dp[i, j];
      assert k == Cell(t, a, b, i, j);
      ghost var before := Best(size, beg);
      if dp[i, j] > size {
        size := dp[i, j];
        beg := i - (size - 1);
      }
      assert Best(size, beg) == Consider(before, k, i);
      var next := j + 1;
      ScanRowStep(t, a, b, i, j, next, before, k);
      j := next;
    }
  }

  /**
   * The inputs on which the table as written stays inside dp: row 0 is
   * written for |a| columns of a row that has |b|, so the code demands
   * |a| <= |b| when both are non-empty.
   */
  predicate LcsInBounds(a: string, b: string) {
    |a| == 0 || |b| == 0 || |a| <= |b|
  }

  /** longest_common_substr as written. */
  method LongestCommonSubstrAsWritten(a: string, b: string) returns (res: string)
    requires LcsInBounds(a, b)
    ensures res == Lcs(AsWritten, a, b)
  {
    var m, n := |a|, |b|;
    if n == 0 || m == 0 {
      return "";
    }
    // The C++ code leaves lcs_beg uninitialised; while no run is found the
    // slice below reads it, and the model takes it to be 0.
    var lcsBeg: int, lcsSize: nat := 0, 0;
    var dp := new nat[m, n]((i, j) => 0);
    FillBordersAsWritten(a, b, dp);
    var i := 1;
    while i != m
      invariant 1 <= i <= m
      invariant RowsFilled(AsWritten, a, b, dp, i)
      invariant Fits(a, Best(lcsSize, lcsBeg))
      invariant ScanRows(AsWritten, a, b, i, Best(lcsSize, lcsBeg)) == ScanRows(AsWritten, a, b, 1, Best(0, 0))
    {
      ghost var before := Best(lcsSize, lcsBeg);
      lcsSize, lcsBeg := FillRow(AsWritten, a, b, dp, i, lcsSize, lcsBeg);
      var nextRow := i + 1;
      ScanRowsNext(AsWritten, a, b, i, nextRow, before);
      i := nextRow;
    }
    res := a[lcsBeg..lcsBeg + lcsSize];
  }

  /**
   * The intended table: every cell holds the run ending there, and every
   * cell competes for the best in row-major order.
   */
  method LongestCommonSubstr(a: string, b: string) returns (res: string)
    ensures res == Lcs(Corrected, a, b)
  {
    var m, n := |a|, |b|;
    if n == 0 || m == 0 {
      return "";
    }
    var lcsBeg: int, lcsSize: nat := 0, 0;
    var dp := new nat[m, n]((i, j) => 0);
    var i := 0;
    while i != m
      invariant 0 <= i <= m
      invariant RowsFilled(Corrected, a, b, dp, i)
      invariant Fits(a, Best(lcsSize, lcsBeg))
      invariant ScanRows(Corrected, a, b, i, Best(lcsSize, lcsBeg)) == ScanRows(Corrected, a, b, 0, Best(0, 0))
    {
      ghost var before := Best(lcsSize, lcsBeg);
      lcsSize, lcsBeg := FillRow(Corrected, a, b, dp, i, lcsSize, lcsBeg);
      var nextRow := i + 1;
      ScanRowsNext(Corrected, a, b, i, nextRow, before);
      i := nextRow;
    }
    res := a[lcsBeg..lcsBeg + lcsSize];
  }

  // ---------------------------------------------------------------------
  // init_config and config

  /** The position of the first '=' in a line that has one. */
  function EqualsAt(line: string): (k: nat)
    requires '=' in line
    ensures k < |line| && line[k] == '=' && '=' !in line[..k]
  {
    if line[0] == '=' then 0
    else
      assert '=' in line[1..] by { var p :| 0 <= p < |line| && line[p] == '='; assert line[1..][p - 1] == '='; }
      var k := 1 + EqualsAt(line[1..]);
      assert line[..k] == [line[0]] + line[1..][..k - 1];
      k
  }

  /** The key of a configuration line: the text before its first '='. */
  function ConfigKey(line: string): string
    requires '=' in line
  {
    line[..EqualsAt(line)]
  }

  /** The value of a configuration line: the text after its first '='. */
  function ConfigValue(line: string): string
    requires '=' in line
  {
    line[EqualsAt(line) + 1..]
  }

  /** Every line of the file carries a '='; the code reads past the end of one that does not. */
  predicate WellFormedLines(lines: seq<string>) {
    forall i :: 0 <= i < |lines| ==> '=' in lines[i]
  }

  /** The table after reading `lines` in order into `table`: later lines overwrite. */
  function LoadLines(table: map<string, string>, lines: seq<string>): map<string, string>
    requires WellFormedLines(lines)
    decreases |lines|
  {
    if |lines| == 0 then table
    else LoadLines(table[ConfigKey(lines[0]) := ConfigValue(lines[0])], lines[1..])
  }

  /**
   * The table as loading was evidently meant to work: a line without '='
   * (where the code builds its value from one past the end) is skipped.
   */
  function LoadLinesSkipping(table: map<string, string>, lines: seq<string>): map<string, string>
    decreases |lines|
  {
    if |lines| == 0 then table
    else
      var next := if '=' in lines[0] then table[ConfigKey(lines[0]) := ConfigValue(lines[0])] else table;
      LoadLinesSkipping(next, lines[1..])
  }

  /** The global configuration table and its loading from the configuration file's lines. */
  class Config {
    var table: map<string, string>

    constructor()
      ensures table == map[]
    {
      table := map[];
    }

    /** init_config: every line `key=value` of the file sets the key. */
    method InitConfig(lines: seq<string>)
      requires WellFormedLines(lines)
      modifies this
      ensures table == LoadLines(old(table), lines)
    {
      var i := 0;
      while i != |lines|
        invariant 0 <= i <= |lines|
        invariant LoadLines(table, lines[i..]) == LoadLines(old(table), lines)
      {
        var line := lines[i];
        var eq := EqualsAt(line);
        var key, value := line[..eq], line[eq + 1..];
        assert lines[i..][1..] == lines[i + 1..];
        table := table[key := value];
        i := i + 1;
      }
    }

    /**
     * config(key): loads the file when the table is empty, then reads the
     * key with `operator[]`, which inserts "" for a missing key.
     */
    method Lookup(key: string, lines: seq<string>) returns (value: string)
      requires |table| == 0 ==> WellFormedLines(lines)
      modifies this
      ensures var loaded := if |old(table)| == 0 then LoadLines(old(table), lines) else old(table);
        value == (if key in loaded then loaded[key] else "") && table == loaded[key := value]
    {
      if |table| == 0 {
        InitConfig(lines);
      }
      if key !in table {
        table := table[key := ""];
      }
      value := table[key];
    }
  }
}

/** What the table yields, against the longest common substring it is meant to find. */
module UtilProperties {
  import opened Util

  /** `s` occurs in `b` at position q. */
  predicate OccursAt(s: string, b: string, q: int) {
    0 <= q && q + |s| <= |b| && b[q..q + |s|] == s
  }

  /** a[p..p+len] and b[q..q+len] are the same string. */
  predicate CommonAt(a: string, b: string, p: nat, q: nat, len: nat) {
    p + len <= |a| && q + len <= |b| && a[p..p + len] == b[q..q + len]
  }

  /** A run ending at a[i] and b[j] is a common substring. */
  lemma {:induction false} RunLengthIsCommon(a: string, b: string, i: nat, j: nat)
    requires i < |a| && j < |b|
    ensures var k := RunLength(a, b, i, j); CommonAt(a, b, i + 1 - k, j + 1 - k, k)
  {
    var k := RunLength(a, b, i, j);
    if k > 0 {
      assert a[i] == b[j];
      var p, q := i + 1 - k, j + 1 - k;
      assert a[p..i + 1] == a[p..i] + [a[i]];
      assert b[q..j + 1] == b[q..j] + [b[j]];
      if k > 1 {
        assert i > 0 && j > 0 && k - 1 == RunLength(a, b, i - 1, j - 1);
        RunLengthIsCommon(a, b, i - 1, j - 1);
        assert a[p..i] == b[q..j];
      }
    }
  }

  /** No common run ending at a[i] and b[j] is longer than RunLength. */
  lemma {:induction false} RunLengthIsLongest(a: string, b: string, i: nat, j: nat, len: nat)
    requires i < |a| && j < |b| && len <= i + 1 && len <= j + 1
    requires a[i + 1 - len..i + 1] == b[j + 1 - len..j + 1]
    ensures len <= RunLength(a, b, i, j)
  {
    if len > 0 {
      assert a[i] == a[i + 1 - len..i + 1][len - 1] == b[j + 1 - len..j + 1][len - 1] == b[j];
      if len > 1 {
        assert a[i + 1 - len..i] == a[i + 1 - len..i + 1][..len - 1];
        assert b[j + 1 - len..j] == b[j + 1 - len..j + 1][..len - 1];
        RunLengthIsLongest(a, b, i - 1, j - 1, len - 1);
      }
    }
  }

  /** The table as written never overstates a run: its cells are common runs too. */
  lemma {:induction false} WrittenCellIsCommon(a: string, b: string, i: nat, j: nat)
    requires i < |a| && j < |b|
    ensures var k := WrittenCell(a, b, i, j); CommonAt(a, b, i + 1 - k, j + 1 - k, k)
  {
    var k := WrittenCell(a, b, i, j);
    if k > 0 {
      assert a[i] == b[j];
      var p, q := i + 1 - k, j + 1 - k;
      assert a[p..i + 1] == a[p..i] + [a[i]];
      assert b[q..j + 1] == b[q..j] + [b[j]];
      if k > 1 {
        assert i > 0 && j > 0 && k - 1 == WrittenCell(a, b, i - 1, j - 1);
        WrittenCellIsCommon(a, b, i - 1, j - 1);
        assert a[p..i] == b[q..j];
      }
    }
  }

  lemma CellIsCommon(t: Table, a: string, b: string, i: nat, j: nat)
    requires i < |a| && j < |b|
    ensures var k := Cell(t, a, b, i, j); CommonAt(a, b, i + 1 - k, j + 1 - k, k)
  {
    if t == AsWritten {
      WrittenCellIsCommon(a, b, i, j);
    } else {
      RunLengthIsCommon(a, b, i, j);
    }
  }

  /** The running best names a slice of `a` that also occurs in `b`. */
  function Slice(a: string, best: Best): string
    requires Fits(a, best)
  {
    a[best.beg..best.beg + best.size]
  }

  ghost predicate Witnessed(a: string, b: string, best: Best) {
    Fits(a, best) && (best.size == 0 || exists q :: OccursAt(Slice(a, best), b, q))
  }

  lemma ConsiderWitnessed(t: Table, a: string, b: string, i: nat, j: nat, best: Best)
    requires i < |a| && j < |b| && Witnessed(a, b, best)
    ensures Witnessed(a, b, Consider(best, Cell(t, a, b, i, j), i))
  {
    var k := Cell(t, a, b, i, j);
    if k > best.size {
      CellIsCommon(t, a, b, i, j);
      var next := Best(k, i - (k - 1));
      assert Slice(a, next) == a[i + 1 - k..i + 1 - k + k];
      assert OccursAt(Slice(a, next), b, j + 1 - k);
    }
  }

  lemma {:induction false} ScanRowWitnessed(t: Table, a: string, b: string, i: nat, j: nat, best: Best)
    requires i < |a| && j <= |b| && Witnessed(a, b, best)
    ensures Witnessed(a, b, ScanRow(t, a, b, i, j, best))
    decreases |b| - j
  {
    if j < |b| {
      ConsiderWitnessed(t, a, b, i, j, best);
      ScanRowWitnessed(t, a, b, i, j + 1, Consider(best, Cell(t, a, b, i, j), i));
    }
  }

  lemma {:induction false} ScanRowsWitnessed(t: Table, a: string, b: string, i: nat, best: Best)
    requires i <= |a| && FirstScanned(t) <= |b| && Witnessed(a, b, best)
    ensures Witnessed(a, b, ScanRows(t, a, b, i, best))
    decreases |a| - i
  {
    if i < |a| {
      ScanRowWitnessed(t, a, b, i, FirstScanned(t), best);
      ScanRowsWitnessed(t, a, b, i + 1, ScanRow(t, a, b, i, FirstScanned(t), best));
    }
  }

  /**
   * Either table yields a slice of `a` that also occurs in `b`, so it is
   * no longer than either input.
   */
  lemma LcsIsCommon(t: Table, a: string, b: string)
    ensures exists p :: OccursAt(Lcs(t, a, b), a, p)
    ensures exists q :: OccursAt(Lcs(t, a, b), b, q)
    ensures |Lcs(t, a, b)| <= |a| && |Lcs(t, a, b)| <= |b|
  {
    if |a| == 0 || |b| == 0 {
      assert Lcs(t, a, b) == "";
      assert OccursAt("", b, 0) && OccursAt("", a, 0);
    } else {
      var best := ScanRows(t, a, b, FirstScanned(t), Best(0, 0));
      ScanRowsWitnessed(t, a, b, FirstScanned(t), Best(0, 0));
      assert Lcs(t, a, b) == Slice(a, best);
      if best.size == 0 {
        assert OccursAt(Lcs(t, a, b), b, 0);
      }
      assert OccursAt(Lcs(t, a, b), a, best.beg);
    }
  }

  /** Scanning a row never shrinks the best and reaches every cell it passes. */
  lemma {:induction false} ScanRowCovers(t: Table, a: string, b: string, i: nat, j: nat, best: Best)
    requires i < |a| && j <= |b| && Fits(a, best)
    ensures ScanRow(t, a, b, i, j, best).size >= best.size
    ensures forall c :: j <= c < |b| ==> ScanRow(t, a, b, i, j, best).size >= Cell(t, a, b, i, c)
    decreases |b| - j
  {
    if j < |b| {
      ScanRowCovers(t, a, b, i, j + 1, Consider(best, Cell(t, a, b, i, j), i));
    }
  }

  lemma {:induction false} ScanRowsCovers(t: Table, a: string, b: string, i: nat, best: Best)
    requires i <= |a| && FirstScanned(t) <= |b| && Fits(a, best)
    ensures ScanRows(t, a, b, i, best).size >= best.size
    ensures forall r, c :: i <= r < |a| && FirstScanned(t) <= c < |b| ==>
      ScanRows(t, a, b, i, best).size >= Cell(t, a, b, r, c)
    decreases |a| - i
  {
    if i < |a| {
      var next := ScanRow(t, a, b, i, FirstScanned(t), best);
      ScanRowCovers(t, a, b, i, FirstScanned(t), best);
      ScanRowsCovers(t, a, b, i + 1, next);
    }
  }

  /** The corrected table finds a LONGEST common substring: no common substring is longer. */
  lemma LcsIsLongest(a: string, b: string, p: nat, q: nat, len: nat)
    requires CommonAt(a, b, p, q, len)
    ensures len <= |Lcs(Corrected, a, b)|
  {
    if len > 0 {
      var i, j := p + len - 1, q + len - 1;
      assert a[i + 1 - len..i + 1] == b[j + 1 - len..j + 1];
      RunLengthIsLongest(a, b, i, j, len);
      var best := ScanRows(Corrected, a, b, 0, Best(0, 0));
      ScanRowsCovers(Corrected, a, b, 0, Best(0, 0));
      assert best.size >= Cell(Corrected, a, b, i, j);
      assert |Lcs(Corrected, a, b)| == best.size;
    }
  }

  /**
   * Row 0 as written stops at column |a|: for "xy" and "zzxy" the match of
   * 'x' in column 2 is never recorded, so the code yields "y" where "xy" is
   * the longest common substring.
   */
  lemma ShortRowZeroExample()
    ensures Lcs(AsWritten, "xy", "zzxy") == "y"
    ensures Lcs(Corrected, "xy", "zzxy") == "xy"
  {
    var a, b := "xy", "zzxy";
    assert WrittenCell(a, b, 1, 1) == 0 && WrittenCell(a, b, 1, 2) == 0;
    assert WrittenCell(a, b, 0, 2) == 0;
    assert WrittenCell(a, b, 1, 3) == 1;
    var row1 := ScanRow(AsWritten, a, b, 1, 1, Best(0, 0));
    assert row1 == Best(1, 1);
    assert ScanRows(AsWritten, a, b, 1, Best(0, 0)) == ScanRows(AsWritten, a, b, 2, row1);
    assert a[1..2] == "y";
    assert RunLength(a, b, 0, 0) == 0 && RunLength(a, b, 0, 1) == 0;
    assert RunLength(a, b, 0, 2) == 1 && RunLength(a, b, 0, 3) == 0;
    assert RunLength(a, b, 1, 0) == 0 && RunLength(a, b, 1, 1) == 0 && RunLength(a, b, 1, 2) == 0;
    assert RunLength(a, b, 1, 3) == 2;
    var row0 := ScanRow(Corrected, a, b, 0, 0, Best(0, 0));
    assert row0 == Best(1, 0);
    var rowOne := ScanRow(Corrected, a, b, 1, 0, row0);
    assert rowOne == Best(2, 0);
    assert ScanRows(Corrected, a, b, 0, Best(0, 0)) == ScanRows(Corrected, a, b, 2, rowOne);
    assert a[0..2] == "xy";
  }

  /**
   * Row 0 and column 0 never compete as written: for "a" and "a" no run is
   * found, and the "" below is the model's reading of the C++ code's
   * uninitialised lcs_beg as 0.
   */
  lemma BorderIgnoredExample()
    ensures Lcs(AsWritten, "a", "a") == ""
    ensures Lcs(Corrected, "a", "a") == "a"
  {
    var a := "a";
    assert RunLength(a, a, 0, 0) == 1;
    assert ScanRow(Corrected, a, a, 0, 0, Best(0, 0)) == Best(1, 0);
    assert a[0..1] == "a";
  }

  /** Ties keep the first cell in row-major order: "ab" and "ba" yield "a", not "b". */
  lemma TieKeepsFirstExample()
    ensures Lcs(Corrected, "ab", "ba") == "a"
  {
    var a, b := "ab", "ba";
    var one := Best(1, 0);
    assert Cell(Corrected, a, b, 0, 0) == 0 && Cell(Corrected, a, b, 0, 1) == 1;
    assert Cell(Corrected, a, b, 1, 0) == 1 && Cell(Corrected, a, b, 1, 1) == 0;
    assert ScanRow(Corrected, a, b, 0, 1, Best(0, 0)) == ScanRow(Corrected, a, b, 0, 2, one) == one;
    assert ScanRow(Corrected, a, b, 0, 0, Best(0, 0)) == one;
    assert ScanRow(Corrected, a, b, 1, 1, one) == ScanRow(Corrected, a, b, 1, 2, one) == one;
    assert ScanRow(Corrected, a, b, 1, 0, one) == one;
    assert ScanRows(Corrected, a, b, 1, one) == ScanRows(Corrected, a, b, 2, one) == one;
    assert ScanRows(Corrected, a, b, 0, Best(0, 0)) == one;
    assert a[0..1] == "a";
  }

  // ---------------------------------------------------------------------
  // Configuration lines

  /** A line splits at its first '=' into a key without '=' and the rest. */
  lemma ConfigLineSplits(line: string)
    requires '=' in line
    ensures ConfigKey(line) + "=" + ConfigValue(line) == line
    ensures '=' !in ConfigKey(line)
  {
    var k := EqualsAt(line);
    assert line == line[..k] + [line[k]] + line[k + 1..];
  }

  /** The line `key=value` reads back as that key and value when the key has no '='. */
  lemma ConfigLineRoundTrip(key: string, value: string)
    requires '=' !in key
    ensures '=' in key + "=" + value
    ensures ConfigKey(key + "=" + value) == key && ConfigValue(key + "=" + value) == value
  {
    var line := key + "=" + value;
    assert line[|key|] == '=';
    var k := EqualsAt(line);
    assert line[..|key|] == key;
    assert k == |key|;
    assert line[|key| + 1..] == value;
  }

  /** Loading a file is loading its first n lines, then the rest. */
  lemma {:induction false} LoadLinesSplit(table: map<string, string>, lines: seq<string>, n: nat)
    requires WellFormedLines(lines) && n <= |lines|
    ensures LoadLines(table, lines) == LoadLines(LoadLines(table, lines[..n]), lines[n..])
    decreases n
  {
    if n > 0 {
      var t := table[ConfigKey(lines[0]) := ConfigValue(lines[0])];
      LoadLinesSplit(t, lines[1..], n - 1);
      assert lines[..n][1..] == lines[1..][..n - 1];
      assert lines[1..][n - 1..] == lines[n..];
    }
  }

  /** Lines that do not name k leave its entry alone. */
  lemma {:induction false} LoadLinesUntouched(table: map<string, string>, lines: seq<string>, k: string)
    requires WellFormedLines(lines)
    requires forall i :: 0 <= i < |lines| ==> ConfigKey(lines[i]) != k
    ensures k in LoadLines(table, lines) <==> k in table
    ensures k in table ==> LoadLines(table, lines)[k] == table[k]
    decreases |lines|
  {
    if |lines| > 0 {
      var t := table[ConfigKey(lines[0]) := ConfigValue(lines[0])];
      assert forall i :: 0 <= i < |lines| - 1 ==> lines[1..][i] == lines[i + 1];
      LoadLinesUntouched(t, lines[1..], k);
    }
  }

  /** After loading, a key is present exactly when the table had it or some line names it. */
  lemma {:induction false} LoadLinesKeys(table: map<string, string>, lines: seq<string>, k: string)
    requires WellFormedLines(lines)
    ensures k in LoadLines(table, lines) <==> k in table || exists i :: 0 <= i < |lines| && ConfigKey(lines[i]) == k
    decreases |lines|
  {
    if |lines| > 0 {
      var t := table[ConfigKey(lines[0]) := ConfigValue(lines[0])];
      var rest := lines[1..];
      LoadLinesKeys(t, rest, k);
      if exists i :: 0 <= i < |rest| && ConfigKey(rest[i]) == k {
        var i :| 0 <= i < |rest| && ConfigKey(rest[i]) == k;
        assert rest[i] == lines[i + 1];
      }
      if exists i :: 0 <= i < |lines| && ConfigKey(lines[i]) == k {
        var i :| 0 <= i < |lines| && ConfigKey(lines[i]) == k;
        if i > 0 {
          assert rest[i - 1] == lines[i];
        }
      }
    }
  }

  /** The value of a key is the one of the LAST line naming it: later lines overwrite. */
  lemma LastLineWins(table: map<string, string>, lines: seq<string>, k: string, i: nat)
    requires WellFormedLines(lines) && i < |lines| && ConfigKey(lines[i]) == k
    requires forall j :: i < j < |lines| ==> ConfigKey(lines[j]) != k
    ensures k in LoadLines(table, lines) && LoadLines(table, lines)[k] == ConfigValue(lines[i])
  {
    var head := lines[..i + 1];
    LoadLinesSplit(table, lines, i + 1);
    LoadLinesSplit(table, head, i);
    assert head[..i] == lines[..i] && head[i..] == [lines[i]];
    var before := LoadLines(table, lines[..i]);
    assert LoadLines(table, head) == LoadLines(before, [lines[i]]) == before[k := ConfigValue(lines[i])];
    var rest := lines[i + 1..];
    assert forall j :: 0 <= j < |rest| ==> rest[j] == lines[i + 1 + j];
    LoadLinesUntouched(LoadLines(table, head), rest, k);
  }

  /** On a file whose every line has a '=', skipping malformed lines changes nothing. */
  lemma {:induction false} LoadLinesSkippingAgrees(table: map<string, string>, lines: seq<string>)
    requires WellFormedLines(lines)
    ensures LoadLinesSkipping(table, lines) == LoadLines(table, lines)
    decreases |lines|
  {
    if |lines| > 0 {
      LoadLinesSkippingAgrees(table[ConfigKey(lines[0]) := ConfigValue(lines[0])], lines[1..]);
    }
  }

  /** A line without '=' leaves the table as it was; the lines after it load as usual. */
  lemma SkippedLine(table: map<string, string>, line: string, rest: seq<string>)
    requires '=' !in line
    ensures LoadLinesSkipping(table, [line] + rest) == LoadLinesSkipping(table, rest)
  {
    assert ([line] + rest)[1..] == rest;
  }

  /**
   * A configuration file with a line "port": the code would take its value
   * from one past the end, so init_config cannot read it; the intended
   * loading skips it and still reads the next line.
   */
  lemma UnreadableConfigLine()
    ensures !WellFormedLines(["port", "a=b"])
    ensures LoadLinesSkipping(map[], ["port", "a=b"]) == map["a" := "b"]
  {
    var lines := ["port", "a=b"];
    assert '=' !in lines[0] by {
      assert forall k :: 0 <= k < 4 ==> "port"[k] != '=';
    }
    assert lines == ["port"] + ["a=b"];
    SkippedLine(map[], "port", ["a=b"]);
    assert "a=b"[1..] == "=b";
    assert EqualsAt("a=b") == 1;
    assert ConfigKey("a=b") == "a" && ConfigValue("a=b") == "b";
    assert ["a=b"][1..] == [];
  }
}
