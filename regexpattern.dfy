/**
 * `RegexPattern`: the three regular expressions the amount field uses to
 * trim zeros after the decimal separator. Each is `[`, the separator, `]`
 * and a fixed suffix. The model takes a pattern apart textually, at the
 * first `]` after the leading `[`; this is not how a regular expression
 * engine parses a bracket expression (a `]` right after `[` is a literal
 * there, a `\` escapes, a `^` negates), and the matching itself is done by
 * the platform's engine and is not part of this model.
 */
module RegexPattern {
  import opened Wrappers

  /** A pattern taken apart at the first `]` after its leading `[`: the text between, and what follows. */
  datatype BracketSplit = BracketSplit(members: string, rest: string)

  /** The index of the first `]`, or the length when there is none. */
  function FirstClose(s: string): (r: nat)
    ensures r <= |s|
    ensures r < |s| ==> s[r] == ']'
    ensures forall i :: 0 <= i < r ==> s[i] != ']'
  {
    if s == [] then 0
    else if s[0] == ']' then 0
    else 1 + FirstClose(s[1..])
  }

  /** The text between the leading `[` and the first `]`, and what follows that `]`. */
  function SplitClass(pattern: string): (r: Option<BracketSplit>)
    ensures r.Some? ==> pattern == "[" + r.value.members + "]" + r.value.rest
    ensures r.Some? ==> ']' !in r.value.members
  {
    if |pattern| == 0 || pattern[0] != '[' then None
    else
      var body := pattern[1..];
      var k := FirstClose(body);
      if k == |body| then None
      else
        assert pattern == "[" + body[..k] + "]" + body[k + 1..];
        Some(BracketSplit(body[..k], body[k + 1..]))
  }

  /** A separator without `]` comes back whole as the text between the leading `[` and the first `]`. */
  lemma {:induction false} SplitClassOf(separator: string, tail: string)
    requires ']' !in separator
    ensures SplitClass("[" + separator + "]" + tail) == Some(BracketSplit(separator, tail))
  {
    var pattern := "[" + separator + "]" + tail;
    var body := pattern[1..];
    assert body == separator + "]" + tail;
    FirstCloseAfter(separator, tail);
    assert body[..|separator|] == separator;
    assert body[|separator| + 1..] == tail;
  }

  /** The first `]` after a run without one is the one that ends the run. */
  lemma {:induction false} FirstCloseAfter(prefix: string, tail: string)
    requires ']' !in prefix
    ensures FirstClose(prefix + "]" + tail) == |prefix|
  {
    if prefix != [] {
      assert (prefix + "]" + tail)[1..] == prefix[1..] + "]" + tail;
      FirstCloseAfter(prefix[1..], tail);
    }
  }

  /** `exactZero(separator:)`: a single zero after the separator at the end. */
  function ExactZero(separator: string): (r: string)
    ensures ']' !in separator ==> SplitClass(r) == Some(BracketSplit(separator, "0$"))
  {
    var pattern := "[" + separator + "]0$";
    assert ']' !in separator ==> SplitClass(pattern) == Some(BracketSplit(separator, "0$")) by {
      if ']' !in separator {
        assert pattern == "[" + separator + "]" + "0$";
        SplitClassOf(separator, "0$");
      }
    }
    pattern
  }

  /** `twoToThreeZeros(separator:)`: two or three zeros after the separator, then any digits to the end. */
  function TwoToThreeZeros(separator: string): (r: string)
    ensures ']' !in separator ==> SplitClass(r) == Some(BracketSplit(separator, "0{2,3}[0-9]*$"))
  {
    var pattern := "[" + separator + "]0{2,3}[0-9]*$";
    assert ']' !in separator ==> SplitClass(pattern) == Some(BracketSplit(separator, "0{2,3}[0-9]*$")) by {
      if ']' !in separator {
        assert pattern == "[" + separator + "]" + "0{2,3}[0-9]*$";
        SplitClassOf(separator, "0{2,3}[0-9]*$");
      }
    }
    pattern
  }

  /** `zeroAtEnd(separator:)`: the separator, one digit, then a zero. */
  function ZeroAtEnd(separator: string): (r: string)
    ensures ']' !in separator ==> SplitClass(r) == Some(BracketSplit(separator, "[0-9]0"))
  {
    var pattern := "[" + separator + "][0-9]0";
    assert ']' !in separator ==> SplitClass(pattern) == Some(BracketSplit(separator, "[0-9]0")) by {
      if ']' !in separator {
        assert pattern == "[" + separator + "]" + "[0-9]0";
        SplitClassOf(separator, "[0-9]0");
      }
    }
    pattern
  }

  /** For one separator the three patterns differ from each other. */
  lemma PatternsDistinct(separator: string)
    ensures ExactZero(separator) != TwoToThreeZeros(separator)
    ensures ExactZero(separator) != ZeroAtEnd(separator)
    ensures TwoToThreeZeros(separator) != ZeroAtEnd(separator)
  {
  }

  /** Different separators give different patterns. */
  lemma SeparatorRecovered(a: string, b: string)
    ensures ExactZero(a) == ExactZero(b) ==> a == b
    ensures TwoToThreeZeros(a) == TwoToThreeZeros(b) ==> a == b
    ensures ZeroAtEnd(a) == ZeroAtEnd(b) ==> a == b
  {
    SeparatorBetween(a, b, "]0$");
    SeparatorBetween(a, b, "]0{2,3}[0-9]*$");
    SeparatorBetween(a, b, "][0-9]0");
  }

  /** The separator is read back from its place between `[` and a fixed suffix. */
  lemma SeparatorBetween(a: string, b: string, suffix: string)
    ensures "[" + a + suffix == "[" + b + suffix ==> a == b
  {
    if "[" + a + suffix == "[" + b + suffix {
      assert ("[" + a + suffix)[1..|a| + 1] == a;
      assert ("[" + b + suffix)[1..|b| + 1] == b;
    }
  }

  /** For a separator that is itself `]`, the first `]` comes right after the leading `[`. */
  lemma CloseBracketSeparator()
    ensures SplitClass(ExactZero("]")) == Some(BracketSplit("", "]0$"))
  {
    var pattern := ExactZero("]");
    assert pattern[1..][0] == ']';
    assert pattern[1..][..0] == "";
    assert pattern[1..][1..] == "]0$";
  }
}
