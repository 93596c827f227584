/**
 * The character survey: reads a file character by character, collects the
 * distinct characters in lower case, and prints every collected character
 * that is neither alphanumeric nor a space on a line of its own, then an
 * empty line.
 *
 * The file is the parameter `input`; what is printed is the result `out`.
 * The set's iteration order is unspecified, so the emitting loop picks its
 * next character nondeterministically and reports the order it chose.
 */
module Script {
  import opened CppInt

  /** The characters of `input`, each in lower case. */
  function LowerChars(input: string): set<char> {
    set i | 0 <= i < |input| :: ToLower(input[i])
  }

  /** What remove_copy_if drops: alphanumerics and the space. */
  predicate Dropped(c: char) {
    IsAlnum(c) || c == ' '
  }

  /** The characters of a set that are printed. */
  function Kept(chars: set<char>): set<char> {
    set c | c in chars && !Dropped(c)
  }

  /** Each character followed by a newline, as the ostream_iterator with "\n" writes them. */
  function EachOnALine(cs: seq<char>): (out: string)
    ensures |out| == 2 * |cs|
  {
    if |cs| == 0 then "" else EachOnALine(cs[..|cs| - 1]) + [cs[|cs| - 1], '\n']
  }

  /** No character occurs twice. */
  predicate Distinct(cs: seq<char>) {
    forall i, j :: 0 <= i < j < |cs| ==> cs[i] != cs[j]
  }

  /** The reading loop: insert each character in lower case into the set. */
  method CollectChars(input: string) returns (chars: set<char>)
    ensures chars == LowerChars(input)
  {
    chars := {};
    for k := 0 to |input|
      invariant chars == LowerChars(input[..k])
    {
      assert input[..k + 1] == input[..k] + [input[k]];
      assert LowerChars(input[..k + 1]) == LowerChars(input[..k]) + {ToLower(input[k])} by {
        var s := input[..k + 1];
        forall c | c in LowerChars(s) ensures c in LowerChars(input[..k]) + {ToLower(input[k])} {
          var i :| 0 <= i < |s| && ToLower(s[i]) == c;
          if i < k {
            assert input[..k][i] == s[i];
          }
        }
        forall c | c in LowerChars(input[..k]) ensures c in LowerChars(s) {
          var i :| 0 <= i < k && ToLower(input[..k][i]) == c;
          assert s[i] == input[..k][i];
        }
        assert s[k] == input[k];
      }
      chars := chars + {ToLower(input[k])};
    }
    assert input[..|input|] == input;
  }

  /**
   * The emitting step: walks the set in the order it yields, writes every
   * kept character and a newline, and ends with one more newline. `order`
   * is the order the walk chose among the kept characters.
   */
  method Emit(chars: set<char>) returns (order: seq<char>, out: string)
    ensures Distinct(order) && (forall c :: c in order <==> c in Kept(chars))
    ensures out == EachOnALine(order) + "\n"
  {
    var remaining := chars;
    order := [];
    out := "";
    while remaining != {}
      invariant remaining <= chars && Distinct(order)
      invariant forall c :: c in order <==> c in Kept(chars - remaining)
      invariant out == EachOnALine(order)
      decreases |remaining|
    {
      var c :| c in remaining;
      if !Dropped(c) {
        assert c !in order;
        order := order + [c];
        out := out + [c, '\n'];
      }
      remaining := remaining - {c};
    }
    out := out + "\n";
  }

  /** The whole program: collect, then emit. */
  method Survey(input: string) returns (order: seq<char>, out: string)
    ensures Distinct(order) && (forall c :: c in order <==> c in Kept(LowerChars(input)))
    ensures out == EachOnALine(order) + "\n"
  {
    var chars := CollectChars(input);
    order, out := Emit(chars);
  }
}

module ScriptProperties {
  import opened CppInt
  import opened Script

  /** The printed text: line k holds the k-th chosen character, and an empty line ends it. */
  lemma {:induction false} LinesLayout(cs: seq<char>)
    ensures var out := EachOnALine(cs);
      forall k :: 0 <= k < |cs| ==> out[2 * k] == cs[k] && out[2 * k + 1] == '\n'
  {
    if |cs| > 0 {
      var init := cs[..|cs| - 1];
      LinesLayout(init);
      var out := EachOnALine(cs);
      assert out == EachOnALine(init) + [cs[|cs| - 1], '\n'];
      forall k | 0 <= k < |cs| ensures out[2 * k] == cs[k] && out[2 * k + 1] == '\n' {
        if k < |cs| - 1 {
          assert out[2 * k] == EachOnALine(init)[2 * k];
          assert out[2 * k + 1] == EachOnALine(init)[2 * k + 1];
        }
      }
    }
  }

  /**
   * A character is printed exactly when some input character lowers to it
   * and it is neither a letter, a digit nor a space.
   */
  lemma PrintedExactly(input: string, c: char)
    ensures c in Kept(LowerChars(input)) <==>
      !IsAlnum(c) && c != ' ' && exists i :: 0 <= i < |input| && ToLower(input[i]) == c
  {
  }

  /** Cases fold together: 'A' and 'a' are one character, and both are alphanumeric, so neither prints. */
  lemma CaseFoldedExample()
    ensures LowerChars("A-a-") == {'a', '-'}
    ensures Kept(LowerChars("A-a-")) == {'-'}
  {
    var s := "A-a-";
    assert ToLower(s[0]) == 'a' && ToLower(s[1]) == '-' && ToLower(s[2]) == 'a' && ToLower(s[3]) == '-';
    assert LowerChars(s) == {'a', '-'} by {
      forall c | c in LowerChars(s) ensures c in {'a', '-'} {
        var i :| 0 <= i < |s| && ToLower(s[i]) == c;
      }
    }
    assert IsAlnum('a') && !IsAlnum('-');
  }
}
