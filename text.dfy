/**
 * String helpers with the JavaScript semantics the dashboard relies on:
 * `toLowerCase` (ASCII letters), `includes`, `trim`, `startsWith`, `replace`
 * with a string pattern (first occurrence only), `split('/')`, `join('/')`,
 * number-to-string conversion and the code-point order used by `<` and
 * `localeCompare` on strings.
 */
module Text {

  // ---------------------------------------------------------------------
  // Lower-casing

  /** `toLowerCase` restricted to ASCII letters. */
  function LowerChar(c: char): (r: char)
    ensures 'A' <= c <= 'Z' ==> r == (c as int + 32) as char
    ensures !('A' <= c <= 'Z') ==> r == c
    ensures !('A' <= r <= 'Z')
  {
    if 'A' <= c <= 'Z' then (c as int + 32) as char else c
  }

  function Lower(s: string): (r: string)
    ensures |r| == |s|
    ensures forall i :: 0 <= i < |s| ==> r[i] == LowerChar(s[i])
  {
    if s == [] then [] else [LowerChar(s[0])] + Lower(s[1..])
  }

  /** Lower-casing twice is lower-casing once. */
  lemma LowerIdempotent(s: string)
    ensures Lower(Lower(s)) == Lower(s)
  {
    var l := Lower(s);
    var ll := Lower(l);
    forall i | 0 <= i < |s| ensures ll[i] == l[i] {
      assert !('A' <= l[i] <= 'Z');
    }
  }

  // ---------------------------------------------------------------------
  // Substring search (`String.prototype.includes`)

  ghost predicate OccursAt(s: string, t: string, i: int) {
    0 <= i && i + |t| <= |s| && s[i..i + |t|] == t
  }

  /** `s.includes(t)`: `t` occurs somewhere in `s`; the empty string occurs everywhere. */
  function Contains(s: string, t: string): (b: bool)
    ensures b <==> exists i :: OccursAt(s, t, i)
    decreases |s|
  {
    if t <= s then
      assert OccursAt(s, t, 0);
      true
    else if s == [] then
      false
    else
      ContainsShift(s, t);
      Contains(s[1..], t)
  }

  lemma ContainsShift(s: string, t: string)
    requires s != [] && !(t <= s)
    ensures (exists i :: OccursAt(s, t, i)) <==> (exists i :: OccursAt(s[1..], t, i))
  {
    if exists i :: OccursAt(s, t, i) {
      var i :| OccursAt(s, t, i);
      assert i != 0;
      assert s[1..][i - 1..i - 1 + |t|] == s[i..i + |t|];
      assert OccursAt(s[1..], t, i - 1);
    }
    if exists i :: OccursAt(s[1..], t, i) {
      var i :| OccursAt(s[1..], t, i);
      assert s[1..][i..i + |t|] == s[i + 1..i + 1 + |t|];
      assert OccursAt(s, t, i + 1);
    }
  }

  lemma ContainsEmpty(s: string)
    ensures Contains(s, "")
  {
    assert OccursAt(s, "", 0);
  }

  /** Case-insensitive `includes`: both sides lower-cased, as the search boxes do. */
  predicate IncludesIgnoringCase(haystack: string, needle: string) {
    Contains(Lower(haystack), Lower(needle))
  }

  /** The empty search term matches every string. */
  lemma EmptyTermMatches(haystack: string)
    ensures IncludesIgnoringCase(haystack, "")
  {
    ContainsEmpty(Lower(haystack));
  }

  // ---------------------------------------------------------------------
  // Whitespace and trim

  /** The characters JavaScript's `trim` and regular-expression `\s` treat as white space. */
  predicate IsSpace(c: char) {
    c == ' ' || c == '\t' || c == '\n' || c == '\r' || c == '\U{000B}' || c == '\U{000C}'
    || c == '\U{00A0}' || c == '\U{1680}' || ('\U{2000}' <= c <= '\U{200A}')
    || c == '\U{2028}' || c == '\U{2029}' || c == '\U{202F}' || c == '\U{205F}'
    || c == '\U{3000}' || c == '\U{FEFF}'
  }

  function TrimStart(s: string): (r: string)
    ensures r <= s || (exists k :: 0 <= k <= |s| && r == s[k..])
    ensures r != [] ==> !IsSpace(r[0])
    ensures r == [] <==> (forall i :: 0 <= i < |s| ==> IsSpace(s[i]))
  {
    if s != [] && IsSpace(s[0]) then
      var r := TrimStart(s[1..]);
      assert forall k :: 0 <= k <= |s| - 1 ==> s[1..][k..] == s[k + 1..];
      r
    else
      s
  }

  function TrimEnd(s: string): (r: string)
    ensures r <= s
    ensures r != [] ==> !IsSpace(r[|r| - 1])
    ensures r == [] <==> (forall i :: 0 <= i < |s| ==> IsSpace(s[i]))
  {
    if s != [] && IsSpace(s[|s| - 1]) then TrimEnd(s[..|s| - 1]) else s
  }

  /** `s.trim()`: leading and trailing white space removed. */
  function Trim(s: string): (r: string)
    ensures r != [] ==> !IsSpace(r[0]) && !IsSpace(r[|r| - 1])
  {
    TrimEnd(TrimStart(s))
  }

  /** `!s.trim()`: the string is empty after trimming. */
  predicate IsBlank(s: string) {
    Trim(s) == []
  }

  /** A string is blank exactly when every character in it is white space. */
  lemma {:induction false} BlankIffAllSpace(s: string)
    ensures IsBlank(s) <==> forall i :: 0 <= i < |s| ==> IsSpace(s[i])
  {
    var t := TrimStart(s);
    if t != [] {
      assert !IsSpace(t[0]);
      assert TrimEnd(t) != [];
    }
  }

  // ---------------------------------------------------------------------
  // Code-point order of strings (`<`, `>` and `localeCompare` on strings)

  /** `a <= b` in lexicographic code-point order. */
  predicate LexLe(a: string, b: string) {
    a == [] || (b != [] && (a[0] < b[0] || (a[0] == b[0] && LexLe(a[1..], b[1..]))))
  }

  /** `a < b`. */
  predicate LexLt(a: string, b: string) {
    !LexLe(b, a)
  }

  lemma {:induction false} LexLeReflexive(a: string)
    ensures LexLe(a, a)
  {
    if a != [] {
      LexLeReflexive(a[1..]);
    }
  }

  lemma {:induction false} LexLeTotal(a: string, b: string)
    ensures LexLe(a, b) || LexLe(b, a)
  {
    if a != [] && b != [] && a[0] == b[0] {
      LexLeTotal(a[1..], b[1..]);
    }
  }

  lemma {:induction false} LexLeTransitive(a: string, b: string, c: string)
    requires LexLe(a, b) && LexLe(b, c)
    ensures LexLe(a, c)
  {
    if a != [] && b != [] && c != [] && a[0] == b[0] && b[0] == c[0] {
      LexLeTransitive(a[1..], b[1..], c[1..]);
    }
  }

  lemma {:induction false} LexLeAntisymmetric(a: string, b: string)
    requires LexLe(a, b) && LexLe(b, a)
    ensures a == b
  {
    if a != [] && b != [] {
      LexLeAntisymmetric(a[1..], b[1..]);
      assert a == [a[0]] + a[1..];
      assert b == [b[0]] + b[1..];
    }
  }

  /** The order facts every sort over strings needs, for all strings at once. */
  lemma LexLeIsTotalPreorder()
    ensures forall a :: LexLe(a, a)
    ensures forall a, b :: LexLe(a, b) || LexLe(b, a)
    ensures forall a, b, c :: LexLe(a, b) && LexLe(b, c) ==> LexLe(a, c)
  {
    forall a ensures LexLe(a, a) {
      LexLeReflexive(a);
    }
    forall a, b ensures LexLe(a, b) || LexLe(b, a) {
      LexLeTotal(a, b);
    }
    forall a, b, c | LexLe(a, b) && LexLe(b, c) ensures LexLe(a, c) {
      LexLeTransitive(a, b, c);
    }
  }

  // ---------------------------------------------------------------------
  // Numbers rendered into strings (template literals like `${n}h ago`)

  function DigitChar(d: int): (c: char)
    requires 0 <= d < 10
    ensures '0' <= c <= '9' && c as int - '0' as int == d
  {
    (d + '0' as int) as char
  }

  /** Decimal digits of a natural number, most significant first, without leading zeros. */
  function NatToString(n: nat): (s: string)
    ensures |s| >= 1
    ensures forall i :: 0 <= i < |s| ==> '0' <= s[i] <= '9'
    ensures n > 0 ==> s[0] != '0'
  {
    if n < 10 then [DigitChar(n)] else NatToString(n / 10) + [DigitChar(n % 10)]
  }

  /** The value of a string of decimal digits. */
  function DigitsValue(s: string): nat
    requires forall i :: 0 <= i < |s| ==> '0' <= s[i] <= '9'
  {
    if s == [] then 0 else DigitsValue(s[..|s| - 1]) * 10 + (s[|s| - 1] as int - '0' as int)
  }

  /** Reading back the digits gives the number: the rendering loses nothing. */
  lemma {:induction false} NatToStringRoundTrip(n: nat)
    ensures DigitsValue(NatToString(n)) == n
  {
    if n >= 10 {
      NatToStringRoundTrip(n / 10);
      var s := NatToString(n);
      assert s[..|s| - 1] == NatToString(n / 10);
    }
  }

  /** `String(i)` for an integer, with a leading '-' for negative values. */
  function IntToString(i: int): (s: string)
    ensures |s| >= 1
    ensures (s[0] == '-') <==> i < 0
  {
    if i < 0 then "-" + NatToString(-i) else NatToString(i)
  }

  // ---------------------------------------------------------------------
  // `replace` with a one-character string pattern

  /** `s.replace(from, to)` for one-character strings: only the FIRST occurrence changes. */
  function ReplaceFirst(s: string, from: char, to: char): (r: string)
    ensures |r| == |s|
    ensures from !in s ==> r == s
    ensures forall j :: 0 <= j < |s| ==> r[j] == (if s[j] == from && from !in s[..j] then to else s[j])
  {
    if s == [] then []
    else
      PrefixesOfTail(s, from);
      if s[0] == from then [to] + s[1..]
      else [s[0]] + ReplaceFirst(s[1..], from, to)
  }

  /** A prefix of `s` longer than one holds `c` when the head is `c` or the tail's prefix holds it. */
  lemma PrefixesOfTail(s: string, c: char)
    ensures s != [] ==> forall j :: 0 < j < |s| ==> (c in s[..j] <==> s[0] == c || c in s[1..][..j - 1])
  {
    if s != [] {
      forall j | 0 < j < |s| ensures c in s[..j] <==> s[0] == c || c in s[1..][..j - 1] {
        assert s[..j] == [s[0]] + s[1..][..j - 1];
      }
    }
  }

  // ---------------------------------------------------------------------
  // Path segments: `split('/')` followed by dropping the empty pieces

  /** The longest prefix of `s` without a '/'. */
  function SegmentPrefix(s: string): (r: string)
    ensures r <= s
    ensures '/' !in r
    ensures |r| < |s| ==> s[|r|] == '/'
  {
    if s == [] || s[0] == '/' then [] else [s[0]] + SegmentPrefix(s[1..])
  }

  /** `s.split('/').filter(segment => segment)`. */
  function Segments(s: string): (r: seq<string>)
    ensures forall k :: 0 <= k < |r| ==> r[k] != [] && '/' !in r[k]
    decreases |s|
  {
    if s == [] then []
    else if s[0] == '/' then Segments(s[1..])
    else
      var seg := SegmentPrefix(s);
      [seg] + Segments(s[|seg|..])
  }

  /** `parts.join('/')`. */
  function JoinSlash(parts: seq<string>): string {
    if parts == [] then ""
    else if |parts| == 1 then parts[0]
    else parts[0] + "/" + JoinSlash(parts[1..])
  }

  ghost predicate ProperSegments(parts: seq<string>) {
    forall k :: 0 <= k < |parts| ==> parts[k] != [] && '/' !in parts[k]
  }

  lemma {:induction false} SegmentPrefixOfJoin(seg: string, rest: string)
    requires seg != [] && '/' !in seg
    requires rest == [] || rest[0] == '/'
    ensures SegmentPrefix(seg + rest) == seg
    decreases |seg|
  {
    var whole := seg + rest;
    assert whole[0] == seg[0] && whole[0] != '/';
    assert SegmentPrefix(whole) == [seg[0]] + SegmentPrefix(whole[1..]);
    if |seg| > 1 {
      assert whole[1..] == seg[1..] + rest;
      SegmentPrefixOfJoin(seg[1..], rest);
      assert seg == [seg[0]] + seg[1..];
    } else {
      assert whole[1..] == rest;
      assert SegmentPrefix(rest) == [];
      assert seg == [seg[0]];
    }
  }

  lemma SegmentsCons(seg: string, rest: string)
    requires seg != [] && '/' !in seg
    requires rest == [] || rest[0] == '/'
    ensures Segments(seg + rest) == [seg] + Segments(rest)
  {
    var whole := seg + rest;
    assert whole[0] != '/';
    SegmentPrefixOfJoin(seg, rest);
    assert whole[|seg|..] == rest;
  }

  lemma SegmentsSkipSlash(s: string)
    ensures Segments("/" + s) == Segments(s)
  {
    assert ("/" + s)[1..] == s;
  }

  /** Splitting a path rebuilt from proper segments gives back those segments. */
  lemma {:induction false} SegmentsOfJoin(parts: seq<string>)
    requires ProperSegments(parts)
    ensures Segments("/" + JoinSlash(parts)) == parts
    decreases |parts|
  {
    SegmentsSkipSlash(JoinSlash(parts));
    if parts == [] {
    } else if |parts| == 1 {
      SegmentsCons(parts[0], "");
      assert parts[0] + "" == parts[0];
    } else {
      var rest := parts[1..];
      assert ProperSegments(rest) by {
        forall k | 0 <= k < |rest| ensures rest[k] != [] && '/' !in rest[k] {
          assert rest[k] == parts[k + 1];
        }
      }
      var tail := "/" + JoinSlash(rest);
      assert tail[0] == '/';
      assert JoinSlash(parts) == parts[0] + tail;
      SegmentsOfJoin(rest);
      SegmentsCons(parts[0], tail);
      assert parts == [parts[0]] + rest;
    }
  }
}
