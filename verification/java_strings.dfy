/** The parts of `java.lang.String` the modelled code relies on: `split` on a
    literal separator, joining with a separator, `lastIndexOf`, `startsWith`,
    `Integer.toString` of a non-negative number and `StringUtils.isNotBlank`. */
module JavaStrings {
  import opened Wrappers

  /** `sep` occurs in `s` starting at index `j`. */
  predicate OccursAt(s: string, sep: string, j: int) {
    0 <= j && j + |sep| <= |s| && s[j..j + |sep|] == sep
  }

  /** `s` contains no occurrence of `sep`. */
  predicate Free(s: string, sep: string) {
    forall j :: 0 <= j <= |s| - |sep| ==> !OccursAt(s, sep, j)
  }

  /** Index of the first occurrence of `sep` at or after `from`, or -1. */
  function IndexOfFrom(s: string, sep: string, from: nat): (i: int)
    requires |sep| > 0
    ensures i == -1 || (from <= i && OccursAt(s, sep, i))
    ensures i == -1 ==> forall j :: from <= j <= |s| - |sep| ==> !OccursAt(s, sep, j)
    ensures i >= 0 ==> forall j :: from <= j < i ==> !OccursAt(s, sep, j)
    decreases |s| - from
  {
    if from + |sep| > |s| then -1
    else if OccursAt(s, sep, from) then from
    else IndexOfFrom(s, sep, from + 1)
  }

  /** `String.indexOf(sep)`. */
  function IndexOf(s: string, sep: string): int
    requires |sep| > 0
  {
    IndexOfFrom(s, sep, 0)
  }

  /** Leftmost, non-overlapping split of `s` at the occurrences of `sep`,
      keeping every piece (also the empty ones at the end). */
  function SplitAll(s: string, sep: string): (r: seq<string>)
    requires |sep| > 0
    ensures |r| >= 1
    ensures forall k :: 0 <= k < |r| ==> Free(r[k], sep)
    decreases |s|
  {
    var i := IndexOf(s, sep);
    if i < 0 then [s]
    else
      assert Free(s[..i], sep) by {
        forall j | 0 <= j <= i - |sep|
          ensures !OccursAt(s[..i], sep, j)
        {
          assert !OccursAt(s, sep, j);
          assert s[..i][j..j + |sep|] == s[j..j + |sep|];
        }
      }
      [s[..i]] + SplitAll(s[i + |sep|..], sep)
  }

  /** `xs` without its trailing empty strings. */
  function DropTrailingEmpty(xs: seq<string>): (r: seq<string>)
    ensures |r| <= |xs| && r == xs[..|r|]
    ensures |r| > 0 ==> r[|r| - 1] != ""
    ensures forall k :: |r| <= k < |xs| ==> xs[k] == ""
  {
    if |xs| == 0 then []
    else if xs[|xs| - 1] == "" then DropTrailingEmpty(xs[..|xs| - 1])
    else xs
  }

  /** `s.split(quote(sep))` with Java's default limit: when `sep` does not
      occur the whole input is the only piece (so `""` gives `[""]`);
      otherwise the pieces between occurrences, trailing empty pieces removed. */
  function Split(s: string, sep: string): (r: seq<string>)
    requires |sep| > 0
    ensures forall k :: 0 <= k < |r| ==> Free(r[k], sep)
    ensures s == "" ==> r == [""]
    ensures s != "" ==> |r| <= |SplitAll(s, sep)| && r == SplitAll(s, sep)[..|r|]
    ensures s != "" && |r| > 0 ==> r[|r| - 1] != ""
    ensures s != "" ==> forall k :: |r| <= k < |SplitAll(s, sep)| ==> SplitAll(s, sep)[k] == ""
  {
    if s == "" then [""] else DropTrailingEmpty(SplitAll(s, sep))
  }

  /** The pieces of `xs` separated by `sep` (`String.join`). */
  function Join(xs: seq<string>, sep: string): string
  {
    if |xs| == 0 then ""
    else if |xs| == 1 then xs[0]
    else xs[0] + sep + Join(xs[1..], sep)
  }

  /** Appending one more piece appends the separator and the piece: the
      cumulative keys of a TOC path can be built left to right. */
  lemma {:induction false} JoinSnoc(xs: seq<string>, x: string, sep: string)
    requires |xs| > 0
    ensures Join(xs + [x], sep) == Join(xs, sep) + sep + x
    decreases |xs|
  {
    if |xs| == 1 {
      assert (xs + [x])[1..] == [x];
    } else {
      assert (xs + [x])[1..] == xs[1..] + [x];
      JoinSnoc(xs[1..], x, sep);
    }
  }

  /** Joining a piece in front of a non-empty list puts a separator between. */
  lemma JoinCons(x: string, xs: seq<string>, sep: string)
    requires |xs| > 0
    ensures Join([x] + xs, sep) == x + sep + Join(xs, sep)
  {
    assert ([x] + xs)[1..] == xs;
  }

  /** Splitting and joining again gives back the input. */
  lemma {:induction false} JoinSplitAll(s: string, sep: string)
    requires |sep| > 0
    ensures Join(SplitAll(s, sep), sep) == s
    decreases |s|
  {
    var i := IndexOf(s, sep);
    if i >= 0 {
      var rest := s[i + |sep|..];
      assert SplitAll(s, sep) == [s[..i]] + SplitAll(rest, sep);
      JoinSplitAll(rest, sep);
      JoinCons(s[..i], SplitAll(rest, sep), sep);
      assert s[i..i + |sep|] == sep;
      assert s == s[..i] + sep + rest by {
        assert s == s[..i] + s[i..i + |sep|] + rest;
      }
    }
  }

  /** A one-character separator occurs exactly where that character is. */
  lemma OccursAtChar(s: string, c: char, j: int)
    ensures OccursAt(s, [c], j) <==> 0 <= j < |s| && s[j] == c
  {
    if 0 <= j < |s| {
      assert s[j..j + 1] == [s[j]];
    }
  }

  /** The first occurrence of a one-character separator that the prefix
      does not contain is right after the prefix. */
  lemma IndexOfAfterPrefix(x: string, c: char, rest: string)
    requires c !in x
    ensures IndexOf(x + [c] + rest, [c]) == |x|
  {
    var s := x + [c] + rest;
    OccursAtChar(s, c, |x|);
    forall j | 0 <= j < |x|
      ensures !OccursAt(s, [c], j)
    {
      OccursAtChar(s, c, j);
      assert s[j] == x[j];
    }
  }

  /** A string without the character `c` does not contain it as a separator. */
  lemma IndexOfAbsent(x: string, c: char)
    requires c !in x
    ensures IndexOf(x, [c]) == -1
  {
    forall j | 0 <= j < |x|
      ensures !OccursAt(x, [c], j)
    {
      OccursAtChar(x, c, j);
    }
  }

  /** Splitting on a one-character separator undoes joining pieces that do
      not contain it. */
  lemma {:induction false} SplitAllJoinChar(parts: seq<string>, c: char)
    requires |parts| >= 1
    requires forall k :: 0 <= k < |parts| ==> c !in parts[k]
    ensures SplitAll(Join(parts, [c]), [c]) == parts
    decreases |parts|
  {
    if |parts| == 1 {
      IndexOfAbsent(parts[0], c);
    } else {
      var rest := Join(parts[1..], [c]);
      assert Join(parts, [c]) == parts[0] + [c] + rest;
      IndexOfAfterPrefix(parts[0], c, rest);
      var s := parts[0] + [c] + rest;
      assert s[..|parts[0]|] == parts[0];
      assert s[|parts[0]| + 1..] == rest;
      assert SplitAll(s, [c]) == [parts[0]] + SplitAll(rest, [c]);
      SplitAllJoinChar(parts[1..], c);
      assert parts == [parts[0]] + parts[1..];
    }
  }

  /** With a non-empty last piece, `split` undoes the join as well. */
  lemma SplitJoinChar(parts: seq<string>, c: char)
    requires |parts| >= 1 && parts[|parts| - 1] != ""
    requires forall k :: 0 <= k < |parts| ==> c !in parts[k]
    ensures Split(Join(parts, [c]), [c]) == parts
  {
    SplitAllJoinChar(parts, c);
    JoinNonEmpty(parts, [c]);
  }

  /** A join whose last piece is non-empty is non-empty. */
  lemma {:induction false} JoinNonEmpty(parts: seq<string>, sep: string)
    requires |parts| >= 1 && parts[|parts| - 1] != ""
    ensures Join(parts, sep) != ""
    decreases |parts|
  {
    if |parts| > 1 {
      JoinNonEmpty(parts[1..], sep);
    }
  }

  /** `n` copies of `sep`. */
  function Repeat(sep: string, n: nat): (r: string)
    ensures |r| == n * |sep|
  {
    if n == 0 then "" else sep + Repeat(sep, n - 1)
  }

  /** Splitting a string made only of separators keeps an empty piece for each. */
  lemma {:induction false} SplitAllRepeat(sep: string, n: nat)
    requires |sep| > 0
    ensures SplitAll(Repeat(sep, n), sep) == seq(n + 1, k => "")
    decreases n
  {
    var s := Repeat(sep, n);
    if n == 0 {
      assert IndexOf(s, sep) == -1;
    } else {
      assert OccursAt(s, sep, 0);
      assert s[|sep|..] == Repeat(sep, n - 1);
      SplitAllRepeat(sep, n - 1);
      assert seq(n + 1, k => "") == [""] + seq(n, k => "");
    }
  }

  /** A string that consists only of separators (at least one) splits into no
      segments at all. */
  lemma OnlySeparatorsSplitEmpty(sep: string, n: nat)
    requires |sep| > 0 && n > 0
    ensures Split(Repeat(sep, n), sep) == []
  {
    SplitAllRepeat(sep, n);
  }

  /** Conversely, a non-empty string with no segments is made only of separators. */
  lemma {:induction false} SplitEmptyOnlySeparators(s: string, sep: string) returns (n: nat)
    requires |sep| > 0
    requires s != "" && Split(s, sep) == []
    ensures n > 0 && s == Repeat(sep, n)
  {
    var all := SplitAll(s, sep);
    assert forall k :: 0 <= k < |all| ==> all[k] == "";
    n := AllEmptyPieces(s, sep);
  }

  /** One step of `SplitAll`: the whole input when `sep` is absent, else the
      piece before the first occurrence and the split of what follows it. */
  lemma SplitAllUnfold(s: string, sep: string)
    requires |sep| > 0
    ensures IndexOf(s, sep) < 0 ==> SplitAll(s, sep) == [s]
    ensures IndexOf(s, sep) >= 0 ==> OccursAt(s, sep, IndexOf(s, sep))
    ensures IndexOf(s, sep) >= 0 ==>
      SplitAll(s, sep) == [s[..IndexOf(s, sep)]] + SplitAll(s[IndexOf(s, sep) + |sep|..], sep)
  {
  }

  /** A string whose pieces are all empty is `|pieces| - 1` separators. */
  lemma {:induction false} AllEmptyPieces(s: string, sep: string) returns (n: nat)
    requires |sep| > 0
    requires forall k :: 0 <= k < |SplitAll(s, sep)| ==> SplitAll(s, sep)[k] == ""
    ensures s == Repeat(sep, n) && n == |SplitAll(s, sep)| - 1
    decreases |s|
  {
    var all := SplitAll(s, sep);
    var i := IndexOf(s, sep);
    SplitAllUnfold(s, sep);
    if i < 0 {
      assert s == all[0] == "";
      n := 0;
    } else {
      var rest := s[i + |sep|..];
      var tail := SplitAll(rest, sep);
      assert s[..i] == all[0] == "";
      forall k | 0 <= k < |tail|
        ensures tail[k] == ""
      {
        assert tail[k] == all[k + 1];
      }
      var m := AllEmptyPieces(rest, sep);
      n := m + 1;
      assert s[..|sep|] == sep;
      assert s == s[..|sep|] + rest;
    }
  }

  // ---------------------------------------------------------------------
  // Decimal rendering of a non-negative int (`Integer.toString`, or the
  // implicit conversion in `"-" + n`).

  predicate IsDigit(c: char) {
    '0' <= c <= '9'
  }

  predicate AllDigits(s: string) {
    forall k :: 0 <= k < |s| ==> IsDigit(s[k])
  }

  function DigitChar(d: nat): (c: char)
    requires d < 10
    ensures IsDigit(c)
  {
    ['0', '1', '2', '3', '4', '5', '6', '7', '8', '9'][d]
  }

  function DigitValue(c: char): (d: nat)
    requires IsDigit(c)
    ensures d < 10
  {
    (c as int - '0' as int) as nat
  }

  function NatToString(n: nat): (r: string)
    ensures |r| > 0 && AllDigits(r)
  {
    if n < 10 then [DigitChar(n)] else NatToString(n / 10) + [DigitChar(n % 10)]
  }

  /** Reads a string of decimal digits back as a number. */
  function ParseNat(s: string): nat
    requires AllDigits(s)
  {
    if |s| == 0 then 0 else ParseNat(s[..|s| - 1]) * 10 + DigitValue(s[|s| - 1])
  }

  /** The decimal rendering is read back as the same number. */
  lemma {:induction false} ParseNatToString(n: nat)
    ensures ParseNat(NatToString(n)) == n
  {
    var r := NatToString(n);
    if n < 10 {
      assert r[..0] == [];
    } else {
      ParseNatToString(n / 10);
      assert r[..|r| - 1] == NatToString(n / 10);
    }
  }

  /** Different numbers render differently. */
  lemma NatToStringInjective(a: nat, b: nat)
    requires NatToString(a) == NatToString(b)
    ensures a == b
  {
    ParseNatToString(a);
    ParseNatToString(b);
  }

  /** Splitting `p + "-" + digits` at its last dash recovers both parts: the
      digits never contain the dash. */
  lemma DashSuffixInjective(p1: string, n1: nat, p2: string, n2: nat)
    requires p1 + "-" + NatToString(n1) == p2 + "-" + NatToString(n2)
    ensures p1 == p2 && n1 == n2
  {
    var x := p1 + "-" + NatToString(n1);
    LastDash(p1, NatToString(n1));
    LastDash(p2, NatToString(n2));
    assert p1 == x[..|p1|] == p2;
    assert NatToString(n1) == x[|p1| + 1..] == NatToString(n2);
    NatToStringInjective(n1, n2);
  }

  /** The last dash of `p + "-" + digits` is the one after `p`. */
  lemma LastDash(p: string, d: string)
    requires AllDigits(d)
    ensures LastIndexOf(p + "-" + d, '-') == |p|
  {
    var x := p + "-" + d;
    var i := LastIndexOf(x, '-');
    assert x[|p|] == '-';
    assert forall k :: 0 <= k < |d| ==> d[k] != '-';
    assert x[|p| + 1..] == d;
    if i > |p| {
      assert false;
    }
  }

  // ---------------------------------------------------------------------
  // Smaller helpers.

  /** `s.startsWith(p)`. */
  predicate StartsWith(s: string, p: string) {
    |p| <= |s| && s[..|p|] == p
  }

  /** `s.lastIndexOf(c)`: the index of the last `c`, or -1. */
  function LastIndexOf(s: string, c: char): (i: int)
    ensures -1 <= i < |s|
    ensures i >= 0 ==> s[i] == c
    ensures forall j :: i < j < |s| ==> s[j] != c
  {
    if |s| == 0 then -1
    else if s[|s| - 1] == c then |s| - 1
    else LastIndexOf(s[..|s| - 1], c)
  }

  /** `Character.isWhitespace`. */
  predicate IsWhitespace(c: char) {
    c == ' ' || c == '\t' || c == '\n' || c == '\U{000B}' || c == '\U{000C}' || c == '\r'
    || ('\U{001C}' <= c <= '\U{001F}')
    || c == '\U{1680}' || ('\U{2000}' <= c <= '\U{2006}') || ('\U{2008}' <= c <= '\U{200A}')
    || c == '\U{2028}' || c == '\U{2029}' || c == '\U{205F}' || c == '\U{3000}'
  }

  /** `StringUtils.isNotBlank`: present and not only whitespace. */
  predicate IsNotBlank(s: Option<string>) {
    s.Some? && exists k :: 0 <= k < |s.value| && !IsWhitespace(s.value[k])
  }

  /** A possibly-null string as Java's string concatenation renders it. */
  function Show(s: Option<string>): string {
    match s
    case Some(v) => v
    case None => "null"
  }
}
