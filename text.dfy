/**
 * The string operations the core relies on, restricted to ASCII:
 * character classes, `lowercased()`/`uppercased()`, `hasPrefix`,
 * `components(separatedBy:)` for a one-character separator, and the
 * lexicographic `<` on strings that `sort { $0.code < $1.code }` uses.
 */
module Text {

  predicate IsAsciiUpper(ch: char) { 'A' <= ch <= 'Z' }
  predicate IsAsciiLower(ch: char) { 'a' <= ch <= 'z' }
  predicate IsAsciiDigit(ch: char) { '0' <= ch <= '9' }

  /** `CharacterSet.alphanumerics`, restricted to ASCII letters and digits. */
  predicate IsAlphanumeric(ch: char) {
    IsAsciiUpper(ch) || IsAsciiLower(ch) || IsAsciiDigit(ch)
  }

  function Lower(ch: char): (r: char)
    ensures IsAsciiUpper(ch) ==> IsAsciiLower(r)
    ensures !IsAsciiUpper(ch) ==> r == ch
    ensures IsAlphanumeric(r) == IsAlphanumeric(ch)
  {
    if IsAsciiUpper(ch) then (ch as int + 32) as char else ch
  }

  function Upper(ch: char): (r: char)
    ensures IsAsciiLower(ch) ==> IsAsciiUpper(r) && Lower(r) == ch
    ensures !IsAsciiLower(ch) ==> r == ch
    ensures IsAlphanumeric(r) == IsAlphanumeric(ch)
  {
    if IsAsciiLower(ch) then (ch as int - 32) as char else ch
  }

  function LowerCased(s: string): (r: string)
    ensures |r| == |s|
    ensures forall i :: 0 <= i < |s| ==> r[i] == Lower(s[i])
  {
    seq(|s|, i requires 0 <= i < |s| => Lower(s[i]))
  }

  function UpperCased(s: string): (r: string)
    ensures |r| == |s|
    ensures forall i :: 0 <= i < |s| ==> r[i] == Upper(s[i])
  {
    seq(|s|, i requires 0 <= i < |s| => Upper(s[i]))
  }

  /** Lower-casing the upper-cased form of an all-lower-case string gives it back. */
  lemma LowerUpperCased(s: string)
    requires forall i :: 0 <= i < |s| ==> IsAsciiLower(s[i])
    ensures LowerCased(UpperCased(s)) == s
  {
  }

  lemma LowerCasedAppend(a: string, b: string)
    ensures LowerCased(a + b) == LowerCased(a) + LowerCased(b)
  {
  }

  lemma UpperCasedAppend(a: string, b: string)
    ensures UpperCased(a + b) == UpperCased(a) + UpperCased(b)
  {
  }

  /** Lower-casing twice is lower-casing once. */
  lemma LowerCasedTwice(s: string)
    ensures LowerCased(LowerCased(s)) == LowerCased(s)
  {
  }

  /** Upper-casing first makes no difference once the string is lower-cased. */
  lemma LowerCasedUpperCased(s: string)
    ensures LowerCased(UpperCased(s)) == LowerCased(s)
  {
  }

  /** Swift's `hasPrefix`. */
  predicate HasPrefix(s: string, prefix: string) {
    |prefix| <= |s| && s[..|prefix|] == prefix
  }

  /**
   * `components(separatedBy:)` for a single-character separator: the pieces
   * between separators, empty pieces included, and always at least one.
   */
  function Components(s: string, sep: char): (r: seq<string>)
    ensures |r| >= 1
  {
    if s == [] then [[]]
    else if s[0] == sep then [[]] + Components(s[1..], sep)
    else
      var rest := Components(s[1..], sep);
      [[s[0]] + rest[0]] + rest[1..]
  }

  /** The pieces joined with the separator (Swift's `joined(separator:)`). */
  function Join(parts: seq<string>, sep: char): string {
    if parts == [] then ""
    else if |parts| == 1 then parts[0]
    else parts[0] + [sep] + Join(parts[1..], sep)
  }

  /** Splitting and joining again gives back the original string. */
  lemma {:induction false} JoinComponents(s: string, sep: char)
    ensures Join(Components(s, sep), sep) == s
  {
    if s == [] {
    } else if s[0] == sep {
      JoinComponents(s[1..], sep);
      assert s == [sep] + s[1..];
    } else {
      JoinComponents(s[1..], sep);
      var rest := Components(s[1..], sep);
      if |rest| == 1 {
        assert s == [s[0]] + s[1..];
      } else {
        assert Join(rest, sep) == rest[0] + [sep] + Join(rest[1..], sep);
        assert s == [s[0]] + s[1..];
      }
    }
  }

  /** A string without the separator is one piece. */
  lemma {:induction false} ComponentsOfPiece(s: string, sep: char)
    requires sep !in s
    ensures Components(s, sep) == [s]
  {
    if s != [] {
      assert sep !in s[1..] by {
        forall k | 0 <= k < |s[1..]| ensures s[1..][k] != sep { assert s[1..][k] == s[k + 1]; }
      }
      ComponentsOfPiece(s[1..], sep);
      assert [s[0]] + s[1..] == s;
    }
  }

  /** The pieces of a string that starts with a non-separator character. */
  lemma ComponentsCons(ch: char, t: string, sep: char)
    requires ch != sep
    ensures Components([ch] + t, sep) ==
      [[ch] + Components(t, sep)[0]] + Components(t, sep)[1..]
  {
    assert ([ch] + t)[1..] == t;
  }

  /** Splitting at one separator splits the two sides independently. */
  lemma {:induction false} ComponentsAround(a: string, b: string, sep: char)
    ensures Components(a + [sep] + b, sep) == Components(a, sep) + Components(b, sep)
  {
    if a == [] {
      assert a + [sep] + b == [sep] + b;
      assert ([sep] + b)[1..] == b;
    } else {
      var t := a[1..] + [sep] + b;
      assert a + [sep] + b == [a[0]] + t;
      assert a == [a[0]] + a[1..];
      ComponentsAround(a[1..], b, sep);
      if a[0] == sep {
        assert ([sep] + t)[1..] == t;
        assert ([sep] + a[1..])[1..] == a[1..];
      } else {
        ComponentsCons(a[0], t, sep);
        ComponentsCons(a[0], a[1..], sep);
        var ra := Components(a[1..], sep);
        assert Components(t, sep)[1..] == ra[1..] + Components(b, sep);
      }
    }
  }

  /** Joining pieces that do not contain the separator and splitting gives them back. */
  lemma {:induction false} ComponentsJoin(parts: seq<string>, sep: char)
    requires |parts| >= 1
    requires forall k :: 0 <= k < |parts| ==> sep !in parts[k]
    ensures Components(Join(parts, sep), sep) == parts
  {
    ComponentsOfPiece(parts[0], sep);
    if |parts| > 1 {
      ComponentsJoin(parts[1..], sep);
      ComponentsAround(parts[0], Join(parts[1..], sep), sep);
      assert parts == [parts[0]] + parts[1..];
    }
  }

  /** A string made only of separators splits into empty pieces. */
  lemma {:induction false} ComponentsOfSeparators(s: string, sep: char)
    requires forall i :: 0 <= i < |s| ==> s[i] == sep
    ensures forall k :: 0 <= k < |Components(s, sep)| ==> Components(s, sep)[k] == []
  {
    if s != [] {
      assert forall i :: 0 <= i < |s[1..]| ==> s[1..][i] == s[i + 1];
      ComponentsOfSeparators(s[1..], sep);
    }
  }

  /** Lexicographic order on strings, by character code. */
  predicate StrLess(a: string, b: string)
    decreases |a|
  {
    if a == [] then b != []
    else if b == [] then false
    else a[0] < b[0] || (a[0] == b[0] && StrLess(a[1..], b[1..]))
  }

  lemma {:induction false} StrLessIrreflexive(a: string)
    ensures !StrLess(a, a)
  {
    if a != [] { StrLessIrreflexive(a[1..]); }
  }

  lemma {:induction false} StrLessTransitive(a: string, b: string, c: string)
    requires StrLess(a, b) && StrLess(b, c)
    ensures StrLess(a, c)
    decreases |a|
  {
    if a != [] && b != [] && c != [] && a[0] == b[0] == c[0] {
      StrLessTransitive(a[1..], b[1..], c[1..]);
    }
  }

  lemma StrLessAsymmetric(a: string, b: string)
    requires StrLess(a, b)
    ensures !StrLess(b, a)
  {
    if StrLess(b, a) {
      StrLessTransitive(a, b, a);
      StrLessIrreflexive(a);
    }
  }

  lemma {:induction false} StrLessTotal(a: string, b: string)
    requires a != b
    ensures StrLess(a, b) || StrLess(b, a)
    decreases |a|
  {
    if a != [] && b != [] && a[0] == b[0] {
      assert a == [a[0]] + a[1..] && b == [b[0]] + b[1..];
      StrLessTotal(a[1..], b[1..]);
    }
  }

  /** `!(b < a)`, the order a sort with `<` leaves adjacent elements in. */
  predicate StrLessOrEqual(a: string, b: string) {
    !StrLess(b, a)
  }

  lemma StrLessOrEqualTransitive(a: string, b: string, c: string)
    requires StrLessOrEqual(a, b) && StrLessOrEqual(b, c)
    ensures StrLessOrEqual(a, c)
  {
    if StrLess(c, a) {
      if a == b {
      } else {
        StrLessTotal(a, b);
        StrLessTransitive(c, a, b);
      }
    }
  }
}
