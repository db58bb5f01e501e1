/**
 * The string library calls the components rely on: `String.prototype.trim`,
 * `split` on a one-character separator, `Array.prototype.join`, and the
 * decimal rendering of integers inside template literals.
 */
module Text {

  /**
   * WhiteSpace and LineTerminator code points of ECMA-262 (sections 12.2 and
   * 12.3), the characters `trim` removes.
   */
  predicate IsSpace(c: char) {
    ('\U{9}' <= c <= '\U{D}') || c == ' ' || c == '\U{A0}' || c == '\U{1680}'
    || ('\U{2000}' <= c <= '\U{200A}') || c == '\U{2028}' || c == '\U{2029}'
    || c == '\U{202F}' || c == '\U{205F}' || c == '\U{3000}' || c == '\U{FEFF}'
  }

  predicate AllSpace(s: string) {
    forall i :: 0 <= i < |s| ==> IsSpace(s[i])
  }

  /** `s.trimStart()`: drops the leading white space and nothing else. */
  function TrimStart(s: string): (r: string)
    ensures |r| <= |s| && r == s[|s| - |r|..]
    ensures r == [] || !IsSpace(r[0])
    ensures AllSpace(s[..|s| - |r|])
  {
    if s != [] && IsSpace(s[0]) then
      var t := TrimStart(s[1..]);
      assert s[..|s| - |t|] == [s[0]] + s[1..][..|s| - 1 - |t|];
      t
    else s
  }

  /** `s.trimEnd()`: drops the trailing white space and nothing else. */
  function TrimEnd(s: string): (r: string)
    ensures |r| <= |s| && r == s[..|r|]
    ensures r == [] || !IsSpace(r[|r| - 1])
    ensures AllSpace(s[|r|..])
  {
    if s != [] && IsSpace(s[|s| - 1]) then
      var t := TrimEnd(s[..|s| - 1]);
      assert s[|t|..] == s[..|s| - 1][|t|..] + [s[|s| - 1]];
      t
    else s
  }

  /** `s.trim()`. */
  function Trim(s: string): (r: string)
    ensures |r| <= |s|
    ensures r == [] || (!IsSpace(r[0]) && !IsSpace(r[|r| - 1]))
  {
    TrimEnd(TrimStart(s))
  }

  /** A string trims to nothing exactly when it is all white space. */
  lemma TrimEmpty(s: string)
    ensures Trim(s) == [] <==> AllSpace(s)
  {
    var t := TrimStart(s);
    if Trim(s) == [] {
      assert t[0..] == t;
      assert t == [];
      assert s[..|s|] == s;
    } else {
      assert t != [] && t[0] == s[|s| - |t|];
    }
  }

  /** Trimming twice is trimming once. */
  lemma TrimIdempotent(s: string)
    ensures Trim(Trim(s)) == Trim(s)
  {
    var r := Trim(s);
    if r != [] {
      assert TrimStart(r) == r;
      assert TrimEnd(r) == r;
    }
  }

  /** `s.split(sep)` for a one-character separator: never empty, `""` gives `[""]`. */
  function Split(s: string, sep: char): (r: seq<string>)
    ensures |r| >= 1
    ensures forall k :: 0 <= k < |r| ==> sep !in r[k]
  {
    if s == [] then [[]]
    else
      var t := Split(s[1..], sep);
      if s[0] == sep then [[]] + t
      else [[s[0]] + t[0]] + t[1..]
  }

  /** `parts.join(sep)`: the parts with `sep` between neighbours. */
  function Join(parts: seq<string>, sep: string): string {
    if |parts| == 0 then []
    else if |parts| == 1 then parts[0]
    else parts[0] + sep + Join(parts[1..], sep)
  }

  /** A character found in no part and not in the separator is not in the joined text. */
  lemma {:induction false} JoinAvoids(parts: seq<string>, sep: string, c: char)
    requires c !in sep
    requires forall k :: 0 <= k < |parts| ==> c !in parts[k]
    ensures c !in Join(parts, sep)
  {
    if |parts| > 1 {
      JoinAvoids(parts[1..], sep, c);
    }
  }

  /** Splitting and joining back on the same separator restores the text. */
  lemma {:induction false} JoinSplit(s: string, sep: char)
    ensures Join(Split(s, sep), [sep]) == s
  {
    if s != [] {
      var t := Split(s[1..], sep);
      JoinSplit(s[1..], sep);
      if s[0] == sep {
        assert s == [sep] + s[1..];
      } else if |t| == 1 {
        assert s == [s[0]] + t[0];
      } else {
        assert Join(t, [sep]) == t[0] + [sep] + Join(t[1..], [sep]);
        assert Join([[s[0]] + t[0]] + t[1..], [sep])
            == [s[0]] + t[0] + [sep] + Join(t[1..], [sep]);
        assert s == [s[0]] + s[1..];
      }
    }
  }

  /** Splitting a piece free of the separator, followed by the separator. */
  lemma {:induction false} SplitPrefix(a: string, sep: char, b: string)
    requires sep !in a
    ensures Split(a + [sep] + b, sep) == [a] + Split(b, sep)
  {
    if a == [] {
      assert a + [sep] + b == [sep] + b;
    } else {
      assert (a + [sep] + b)[1..] == a[1..] + [sep] + b;
      SplitPrefix(a[1..], sep, b);
      assert a == [a[0]] + a[1..];
    }
  }

  lemma {:induction false} SplitPlain(a: string, sep: char)
    requires sep !in a
    ensures Split(a, sep) == [a]
  {
    if a != [] {
      SplitPlain(a[1..], sep);
      assert a == [a[0]] + a[1..];
    }
  }

  /** Joining lines free of the separator and splitting again gives the lines. */
  lemma {:induction false} SplitJoin(parts: seq<string>, sep: char)
    requires |parts| >= 1
    requires forall k :: 0 <= k < |parts| ==> sep !in parts[k]
    ensures Split(Join(parts, [sep]), sep) == parts
  {
    if |parts| == 1 {
      SplitPlain(parts[0], sep);
    } else {
      SplitJoin(parts[1..], sep);
      SplitPrefix(parts[0], sep, Join(parts[1..], [sep]));
      assert parts == [parts[0]] + parts[1..];
    }
  }

  /** `SplitJoin` for a first line followed by the others. */
  lemma SplitJoinCons(joined: string, first: string, rest: seq<string>, sep: char)
    requires joined == Join([first] + rest, [sep])
    requires sep !in first
    requires forall k :: 0 <= k < |rest| ==> sep !in rest[k]
    ensures Split(joined, sep) == [first] + rest
  {
    var parts := [first] + rest;
    forall k | 0 <= k < |parts| ensures sep !in parts[k] {
      if k > 0 {
        assert parts[k] == rest[k - 1];
      }
    }
    SplitJoin(parts, sep);
  }

  function Digit(d: int): char
    requires 0 <= d <= 9
  {
    ['0', '1', '2', '3', '4', '5', '6', '7', '8', '9'][d]
  }

  /** The decimal digits of `n`, as a template literal renders a non-negative integer. */
  function NatStr(n: nat): (r: string)
    ensures |r| >= 1
    ensures forall k :: 0 <= k < |r| ==> '0' <= r[k] <= '9'
  {
    if n < 10 then [Digit(n)] else NatStr(n / 10) + [Digit(n % 10)]
  }

  /** An integer in a template literal: a minus sign, then the digits. */
  function IntStr(i: int): (r: string)
    ensures |r| >= 1
    ensures forall k :: 0 <= k < |r| ==> r[k] == '-' || '0' <= r[k] <= '9'
    ensures (r[0] == '-') == (i < 0)
  {
    if i < 0 then "-" + NatStr(-i) else NatStr(i)
  }
}
