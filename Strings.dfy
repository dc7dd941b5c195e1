/** String operations standing for the Swift/Foundation calls the app makes:
    `contains`, `replacingOccurrences(of:with:)`, `split(separator:)`, `joined(separator:)`,
    `hasPrefix` and decimal rendering of integers (`String(n)`, string interpolation). */
module Strings {

  predicate StartsWith(s: string, prefix: string) {
    |prefix| <= |s| && s[..|prefix|] == prefix
  }

  /** `s.contains(pat)`: `pat` occurs in `s` as a contiguous substring. */
  predicate Contains(s: string, pat: string)
    decreases |s|
  {
    StartsWith(s, pat) || (s != [] && Contains(s[1..], pat))
  }

  /** `pat` occurs in `s` starting at position `i`. */
  predicate OccursAt(s: string, pat: string, i: int) {
    0 <= i <= |s| - |pat| && s[i..i + |pat|] == pat
  }

  /** The reference meaning of Contains: some position of `s` starts a copy of `pat`. */
  lemma {:induction false} ContainsAt(s: string, pat: string)
    ensures Contains(s, pat) <==> exists i :: OccursAt(s, pat, i)
    decreases |s|
  {
    if StartsWith(s, pat) {
      assert OccursAt(s, pat, 0);
    } else if s != [] {
      ContainsAt(s[1..], pat);
      if Contains(s[1..], pat) {
        var i :| OccursAt(s[1..], pat, i);
        assert s[1..][i..i + |pat|] == s[i + 1..i + 1 + |pat|];
        assert OccursAt(s, pat, i + 1);
      }
      if exists i :: OccursAt(s, pat, i) {
        var i :| OccursAt(s, pat, i);
        assert i != 0;
        assert s[1..][i - 1..i - 1 + |pat|] == s[i..i + |pat|];
        assert OccursAt(s[1..], pat, i - 1);
      }
    }
  }

  /** `s.replacingOccurrences(of: pat, with: rep)`: left-to-right, non-overlapping replacement. */
  function ReplaceAll(s: string, pat: string, rep: string): string
    requires pat != []
    decreases |s|
  {
    if |s| < |pat| then s
    else if s[..|pat|] == pat then rep + ReplaceAll(s[|pat|..], pat, rep)
    else [s[0]] + ReplaceAll(s[1..], pat, rep)
  }

  /** A line without the pattern is returned unchanged. */
  lemma {:induction false} ReplaceAllAbsent(s: string, pat: string, rep: string)
    requires pat != [] && !Contains(s, pat)
    ensures ReplaceAll(s, pat, rep) == s
    decreases |s|
  {
    if |s| >= |pat| {
      assert s[..|pat|] != pat;
      ReplaceAllAbsent(s[1..], pat, rep);
      assert s == [s[0]] + s[1..];
    }
  }

  /** A string opening with the pattern: the pattern becomes `rep` and the scan resumes after it. */
  lemma ReplaceAllHead(pat: string, b: string, rep: string)
    requires pat != []
    ensures ReplaceAll(pat + b, pat, rep) == rep + ReplaceAll(b, pat, rep)
  {
    var s := pat + b;
    assert s[..|pat|] == pat && s[|pat|..] == b;
  }

  /** The pattern's first character does not occur again in it, so one occurrence cannot
      start inside another; `{user_pasuk}` is such a pattern. */
  predicate HeadOnce(pat: string) {
    pat != [] && pat[0] !in pat[1..]
  }

  /** Before an occurrence of such a pattern, a non-empty stretch free of it does not start a
      match: the replacement keeps its first character. */
  lemma ReplaceAllSkip(a: string, pat: string, b: string, rep: string)
    requires a != [] && HeadOnce(pat) && !Contains(a, pat)
    ensures ReplaceAll(a + pat + b, pat, rep) == [a[0]] + ReplaceAll(a[1..] + pat + b, pat, rep)
  {
    var s := a + pat + b;
    assert s[1..] == a[1..] + pat + b;
    assert !StartsWith(a, pat);
    if |a| >= |pat| {
      assert s[..|pat|] == a[..|pat|];
    } else {
      assert s[..|pat|][|a|] == pat[0];
      assert pat[1..][|a| - 1] == pat[|a|];
    }
  }

  /** A string free of the pattern stays free of it without its first character. */
  lemma ContainsTail(a: string, pat: string)
    requires a != [] && !Contains(a, pat)
    ensures !Contains(a[1..], pat)
  {
  }

  /** Putting a string's first character back in front of its rest. */
  lemma ConsRest(a: string, x: string, y: string)
    requires a != []
    ensures [a[0]] + (a[1..] + x + y) == a + x + y
  {
    assert a == [a[0]] + a[1..];
  }

  /** An occurrence of the pattern after a stretch free of it is replaced, and the scan resumes
      right after it. */
  lemma {:induction false} ReplaceAllAt(a: string, pat: string, b: string, rep: string)
    requires HeadOnce(pat) && !Contains(a, pat)
    ensures ReplaceAll(a + pat + b, pat, rep) == a + rep + ReplaceAll(b, pat, rep)
    decreases |a|
  {
    if a == [] {
      assert a + pat + b == pat + b;
      ReplaceAllHead(pat, b, rep);
    } else {
      ContainsTail(a, pat);
      ReplaceAllAt(a[1..], pat, b, rep);
      ReplaceAllSkip(a, pat, b, rep);
      ConsRest(a, rep, ReplaceAll(b, pat, rep));
    }
  }

  /** `parts.joined(separator: sep)` for a string separator. */
  function JoinedBy(parts: seq<string>, sep: string): string {
    if parts == [] then []
    else if |parts| == 1 then parts[0]
    else parts[0] + sep + JoinedBy(parts[1..], sep)
  }

  /** Replacement turns every occurrence into `rep`: pieces free of the pattern, joined by it,
      come out joined by `rep` instead. */
  lemma {:induction false} ReplaceAllJoined(parts: seq<string>, pat: string, rep: string)
    requires HeadOnce(pat) && forall k :: 0 <= k < |parts| ==> !Contains(parts[k], pat)
    ensures ReplaceAll(JoinedBy(parts, pat), pat, rep) == JoinedBy(parts, rep)
    decreases |parts|
  {
    if |parts| == 1 {
      ReplaceAllAbsent(parts[0], pat, rep);
    } else if |parts| > 1 {
      ReplaceAllJoined(parts[1..], pat, rep);
      ReplaceAllAt(parts[0], pat, JoinedBy(parts[1..], pat), rep);
    }
  }

  /** `s.replacingOccurrences(of: String(c), with: String(d))` for single characters. */
  function ReplaceChar(s: string, c: char, d: char): (r: string)
    ensures |r| == |s|
    ensures forall k :: 0 <= k < |s| ==> r[k] == (if s[k] == c then d else s[k])
  {
    seq(|s|, k requires 0 <= k < |s| => if s[k] == c then d else s[k])
  }

  // ---------------------------------------------------------------------------
  // split / joined

  /** `s.split(separator: sep)` with Swift's default of omitting empty pieces;
      `cur` is the piece collected so far. */
  function SplitFrom(s: string, sep: char, cur: string): (r: seq<string>)
    requires sep !in cur
    ensures forall k :: 0 <= k < |r| ==> r[k] != [] && sep !in r[k]
    decreases |s|
  {
    if s == [] then (if cur == [] then [] else [cur])
    else if s[0] == sep then (if cur == [] then [] else [cur]) + SplitFrom(s[1..], sep, [])
    else SplitFrom(s[1..], sep, cur + [s[0]])
  }

  function Split(s: string, sep: char): (r: seq<string>)
    ensures forall k :: 0 <= k < |r| ==> r[k] != [] && sep !in r[k]
  {
    SplitFrom(s, sep, [])
  }

  /** `parts.joined(separator: String(sep))`. */
  function Join(parts: seq<string>, sep: char): string {
    if parts == [] then []
    else if |parts| == 1 then parts[0]
    else parts[0] + [sep] + Join(parts[1..], sep)
  }

  lemma {:induction false} SplitFromPiece(t: string, rest: string, sep: char, cur: string)
    requires sep !in cur && sep !in t
    ensures SplitFrom(t + rest, sep, cur) == SplitFrom(rest, sep, cur + t)
    decreases |t|
  {
    if t != [] {
      assert t == [t[0]] + t[1..];
      assert t[0] in t;
      assert (t + rest)[0] == t[0];
      assert (t + rest)[1..] == t[1..] + rest;
      assert t[0] != sep;
      assert SplitFrom(t + rest, sep, cur) == SplitFrom(t[1..] + rest, sep, cur + [t[0]]);
      SplitFromPiece(t[1..], rest, sep, cur + [t[0]]);
      assert cur + [t[0]] + t[1..] == cur + t;
    } else {
      assert t + rest == rest && cur + t == cur;
    }
  }

  /** Splitting undoes joining, for non-empty pieces that do not contain the separator. */
  lemma {:induction false} SplitJoin(parts: seq<string>, sep: char)
    requires forall k :: 0 <= k < |parts| ==> parts[k] != [] && sep !in parts[k]
    ensures Split(Join(parts, sep), sep) == parts
    decreases |parts|
  {
    if |parts| == 1 {
      SplitFromPiece(parts[0], [], sep, []);
      assert parts[0] + [] == parts[0];
      assert [] + parts[0] == parts[0];
    } else if |parts| > 1 {
      var tail := Join(parts[1..], sep);
      assert Join(parts, sep) == parts[0] + ([sep] + tail);
      SplitFromPiece(parts[0], [sep] + tail, sep, []);
      assert [] + parts[0] == parts[0];
      assert ([sep] + tail)[1..] == tail;
      SplitJoin(parts[1..], sep);
      assert parts == [parts[0]] + parts[1..];
    }
  }

  /** Two non-empty pieces joined by a separator neither holds split back into those pieces. */
  lemma SplitPair(a: string, b: string, sep: char)
    ensures a != [] && b != [] && sep !in a && sep !in b ==> Split(a + [sep] + b, sep) == [a, b]
  {
    if a != [] && b != [] && sep !in a && sep !in b {
      assert Join([a, b], sep) == a + [sep] + b;
      SplitJoin([a, b], sep);
    }
  }

  /** Three non-empty pieces joined by a separator none holds split back into those pieces. */
  lemma SplitTriple(a: string, b: string, c: string, sep: char)
    ensures a != [] && b != [] && c != [] && sep !in a && sep !in b && sep !in c ==>
              Split(a + [sep] + b + [sep] + c, sep) == [a, b, c]
  {
    if a != [] && b != [] && c != [] && sep !in a && sep !in b && sep !in c {
      assert Join([a, b, c], sep) == a + [sep] + Join([b, c], sep);
      assert Join([b, c], sep) == b + [sep] + c;
      assert a + [sep] + (b + [sep] + c) == a + [sep] + b + [sep] + c;
      SplitJoin([a, b, c], sep);
    }
  }

  /** Two strings `a + [sep] + b` and `c + [sep] + d` whose first pieces are free of the
      separator are equal only when their pieces are. */
  lemma SeparatedUnique(a: string, b: string, c: string, d: string, sep: char)
    requires sep !in a && sep !in c
    requires a + [sep] + b == c + [sep] + d
    ensures a == c && b == d
  {
    var s := a + [sep] + b;
    SeparatorFirst(a, b, sep);
    SeparatorFirst(c, d, sep);
    assert s[|a|] == sep && s[|c|] == sep;
    assert |a| == |c|;
    assert a == s[..|a|] == c;
    assert b == s[|a| + 1..] == d;
  }

  /** In `a + [sep] + b` with `sep` not in `a`, position `|a|` holds the first separator. */
  lemma SeparatorFirst(a: string, b: string, sep: char)
    requires sep !in a
    ensures |a| < |a + [sep] + b| && (a + [sep] + b)[|a|] == sep
    ensures forall i :: 0 <= i < |a| ==> (a + [sep] + b)[i] != sep
  {
    forall i | 0 <= i < |a| ensures (a + [sep] + b)[i] != sep {
      assert (a + [sep] + b)[i] == a[i];
    }
  }

  // ---------------------------------------------------------------------------
  // decimal rendering

  predicate IsDigit(c: char) {
    '0' <= c <= '9'
  }

  function DigitChar(d: nat): (c: char)
    requires d < 10
    ensures IsDigit(c)
  {
    (48 + d) as char
  }

  /** `String(n)` for a non-negative integer: its shortest decimal numeral. */
  function NatToString(n: nat): (r: string)
    ensures r != []
    ensures forall k :: 0 <= k < |r| ==> IsDigit(r[k])
    decreases n
  {
    if n < 10 then [DigitChar(n)] else NatToString(n / 10) + [DigitChar(n % 10)]
  }

  /** The value of a numeral (the inverse direction, used only to state what NatToString means). */
  function DigitsValue(s: string): nat
    requires forall k :: 0 <= k < |s| ==> IsDigit(s[k])
  {
    if s == [] then 0
    else
      assert IsDigit(s[|s| - 1]);
      DigitsValue(s[..|s| - 1]) * 10 + (s[|s| - 1] as int - 48)
  }

  lemma {:induction false} NatToStringValue(n: nat)
    ensures DigitsValue(NatToString(n)) == n
    decreases n
  {
    if n >= 10 {
      NatToStringValue(n / 10);
      var r := NatToString(n);
      assert r[..|r| - 1] == NatToString(n / 10);
    }
  }

  /** `String(i)` / `"\(i)"` for an `Int`: a minus sign before the numeral of a negative value. */
  function IntToString(i: int): (r: string)
    ensures '-' !in r <==> i >= 0
    ensures r != [] && forall k :: 0 <= k < |r| ==> IsDigit(r[k]) || r[k] == '-'
  {
    if i < 0 then "-" + NatToString(-i) else NatToString(i)
  }

  lemma IntToStringInjective(i: int, j: int)
    requires IntToString(i) == IntToString(j)
    ensures i == j
  {
    if i < 0 {
      assert NatToString(-i) == IntToString(i)[1..] == NatToString(-j);
    }
    NatToStringValue(if i < 0 then -i else i);
    NatToStringValue(if j < 0 then -j else j);
  }
}
