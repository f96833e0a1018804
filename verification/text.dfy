/** The Python string operations the reporting helpers and the feed's
    column matching rely on: `str.strip`, one-character `str.replace`,
    substring `str.replace`, `str.join` and ASCII case mapping. */
module Text {

  /** Python's `str.isspace` for one character, which is what `str.strip()`
      removes from both ends. */
  predicate IsSpace(c: char) {
    var n := c as int;
    (9 <= n <= 13) || (28 <= n <= 32) || n == 0x85 || n == 0xA0 || n == 0x1680
    || (0x2000 <= n <= 0x200A) || n == 0x2028 || n == 0x2029 || n == 0x202F
    || n == 0x205F || n == 0x3000
  }

  /** How many whitespace characters s starts with. */
  function Leading(s: string): (n: nat)
    ensures n <= |s|
    decreases |s|
  {
    if |s| == 0 || !IsSpace(s[0]) then 0 else 1 + Leading(s[1..])
  }

  /** How many whitespace characters s ends with. */
  function Trailing(s: string): (n: nat)
    ensures n <= |s|
    decreases |s|
  {
    if |s| == 0 || !IsSpace(s[|s| - 1]) then 0 else 1 + Trailing(s[..|s| - 1])
  }

  /** `s.strip()`: s without its leading whitespace, then without its
      trailing whitespace. */
  function Strip(s: string): string {
    var rest := s[Leading(s)..];
    rest[..|rest| - Trailing(rest)]
  }

  /** Leading counts exactly the whitespace run at the front. */
  lemma {:induction false} LeadingRun(s: string)
    ensures Leading(s) == |s| || !IsSpace(s[Leading(s)])
    ensures forall i :: 0 <= i < Leading(s) ==> IsSpace(s[i])
    decreases |s|
  {
    if |s| > 0 && IsSpace(s[0]) {
      LeadingRun(s[1..]);
    }
  }

  /** Trailing counts exactly the whitespace run at the back. */
  lemma {:induction false} TrailingRun(s: string)
    ensures Trailing(s) == |s| || !IsSpace(s[|s| - 1 - Trailing(s)])
    ensures forall i :: |s| - Trailing(s) <= i < |s| ==> IsSpace(s[i])
    decreases |s|
  {
    if |s| > 0 && IsSpace(s[|s| - 1]) {
      TrailingRun(s[..|s| - 1]);
    }
  }

  /** The strip is a contiguous piece of s that neither starts nor ends
      with whitespace, and everything cut away on either side is
      whitespace. */
  lemma StripPiece(s: string)
    ensures var r := Strip(s);
            && (|r| == 0 || (!IsSpace(r[0]) && !IsSpace(r[|r| - 1])))
            && Leading(s) + |r| <= |s| && r == s[Leading(s)..Leading(s) + |r|]
            && (forall i :: 0 <= i < Leading(s) ==> IsSpace(s[i]))
            && (forall i :: Leading(s) + |r| <= i < |s| ==> IsSpace(s[i]))
  {
    var lead := Leading(s);
    var rest := s[lead..];
    LeadingRun(s);
    TrailingRun(rest);
    var r := rest[..|rest| - Trailing(rest)];
    assert Strip(s) == r;
    if |r| > 0 {
      assert r[0] == s[lead];
      assert r[|r| - 1] == rest[|rest| - 1 - Trailing(rest)];
    }
    forall i | lead + |r| <= i < |s| ensures IsSpace(s[i]) {
      assert s[i] == rest[i - lead];
    }
  }

  /** A string that starts and ends with non-whitespace is its own strip. */
  lemma StripPlain(s: string)
    requires |s| > 0 && !IsSpace(s[0]) && !IsSpace(s[|s| - 1])
    ensures Strip(s) == s
  {
    assert Leading(s) == 0;
    assert s[0..] == s;
    assert Trailing(s) == 0;
  }

  /** `s.replace(c, rep)` for a one-character pattern, which cannot overlap
      itself: every occurrence of c is replaced, left to right. */
  function ReplaceChar(s: string, c: char, rep: string): string
    decreases |s|
  {
    if |s| == 0 then ""
    else (if s[0] == c then rep else [s[0]]) + ReplaceChar(s[1..], c, rep)
  }

  /** After the replacement c occurs only where rep put it, and every other
      character occurs exactly where it did, or in rep. */
  lemma {:induction false} ReplaceCharOccurrences(s: string, c: char, rep: string)
    ensures c !in rep ==> c !in ReplaceChar(s, c, rep)
    ensures forall d :: d != c && d !in rep ==> (d in ReplaceChar(s, c, rep) <==> d in s)
    decreases |s|
  {
    if |s| > 0 {
      ReplaceCharOccurrences(s[1..], c, rep);
      var head := if s[0] == c then rep else [s[0]];
      assert ReplaceChar(s, c, rep) == head + ReplaceChar(s[1..], c, rep);
      assert s == [s[0]] + s[1..];
      forall d | d != c && d !in rep
        ensures d in ReplaceChar(s, c, rep) <==> d in s
      {
        assert d in s <==> d == s[0] || d in s[1..];
      }
    }
  }

  /** Replacing a character that does not occur changes nothing. */
  lemma {:induction false} ReplaceCharAbsent(s: string, c: char, rep: string)
    requires c !in s
    ensures ReplaceChar(s, c, rep) == s
    decreases |s|
  {
    if |s| > 0 {
      assert s[0] != c;
      assert c !in s[1..];
      ReplaceCharAbsent(s[1..], c, rep);
      assert [s[0]] + s[1..] == s;
    }
  }

  /** Replacing a character by a single character keeps every position:
      only the occurrences change. */
  lemma {:induction false} ReplaceCharPointwise(s: string, c: char, d: char)
    ensures |ReplaceChar(s, c, [d])| == |s|
    ensures forall i :: 0 <= i < |s| ==> ReplaceChar(s, c, [d])[i] == (if s[i] == c then d else s[i])
    decreases |s|
  {
    if |s| > 0 {
      ReplaceCharPointwise(s[1..], c, d);
      var r := ReplaceChar(s, c, [d]);
      assert r == [if s[0] == c then d else s[0]] + ReplaceChar(s[1..], c, [d]);
      forall i | 0 <= i < |s| ensures r[i] == (if s[i] == c then d else s[i]) {
        if i > 0 {
          assert r[i] == ReplaceChar(s[1..], c, [d])[i - 1];
          assert s[i] == s[1..][i - 1];
        }
      }
    }
  }

  lemma ReplaceCharAppend(a: string, b: string, c: char, rep: string)
    ensures ReplaceChar(a + b, c, rep) == ReplaceChar(a, c, rep) + ReplaceChar(b, c, rep)
  {
    if |a| > 0 {
      assert (a + b)[1..] == a[1..] + b;
      ReplaceCharAppend(a[1..], b, c, rep);
    } else {
      assert a + b == b;
    }
  }

  /** Whether `pat` occurs in `s` starting at index k. */
  predicate OccursAt(s: string, pat: string, k: int) {
    0 <= k && k + |pat| <= |s| && s[k..k + |pat|] == pat
  }

  /** `s.replace(pat, rep)` for a non-empty pattern: occurrences are found
      left to right and do not overlap. A text without the pattern comes
      back unchanged, a replacement no longer than the pattern never makes
      the text longer, and every character of the result comes from the
      text or from the replacement. */
  function ReplaceAll(s: string, pat: string, rep: string): (r: string)
    requires |pat| > 0
    ensures (forall k :: !OccursAt(s, pat, k)) ==> r == s
    ensures |rep| <= |pat| ==> |r| <= |s|
    ensures forall c :: c in r ==> c in s || c in rep
    decreases |s|
  {
    if |s| < |pat| then s
    else if s[..|pat|] == pat then
      assert OccursAt(s, pat, 0);
      rep + ReplaceAll(s[|pat|..], pat, rep)
    else
      OccursInTail(s, pat);
      [s[0]] + ReplaceAll(s[1..], pat, rep)
  }

  /** An occurrence in the tail is an occurrence in the text, one further on. */
  lemma OccursInTail(s: string, pat: string)
    requires |s| > 0
    ensures forall k :: OccursAt(s[1..], pat, k) ==> OccursAt(s, pat, k + 1)
  {
    forall k | OccursAt(s[1..], pat, k)
      ensures OccursAt(s, pat, k + 1)
    {
      assert s[1..][k..k + |pat|] == s[k + 1..k + 1 + |pat|];
    }
  }

  /** `sep.join(parts)`. */
  function Join(parts: seq<string>, sep: string): string {
    if |parts| == 0 then ""
    else if |parts| == 1 then parts[0]
    else parts[0] + sep + Join(parts[1..], sep)
  }

  /** ASCII `str.lower()` for one character. */
  function LowerChar(c: char): char {
    if 'A' <= c <= 'Z' then (c as int + 32) as char else c
  }

  /** ASCII `str.upper()` for one character. */
  function UpperChar(c: char): char {
    if 'a' <= c <= 'z' then (c as int - 32) as char else c
  }

  predicate IsAsciiUpper(c: char) {
    'A' <= c <= 'Z'
  }

  predicate IsAsciiLower(c: char) {
    'a' <= c <= 'z'
  }

  /** `str.lower()` on ASCII text: each capital becomes the small letter at
      the same place in the alphabet, and every other character is kept. */
  function Lower(s: string): (r: string)
    ensures |r| == |s|
    ensures forall i :: 0 <= i < |r| ==> !IsAsciiUpper(r[i])
    ensures forall i :: 0 <= i < |s| && IsAsciiUpper(s[i]) ==>
              IsAsciiLower(r[i]) && r[i] as int - 'a' as int == s[i] as int - 'A' as int
    ensures forall i :: 0 <= i < |s| && !IsAsciiUpper(s[i]) ==> r[i] == s[i]
  {
    seq(|s|, i requires 0 <= i < |s| => LowerChar(s[i]))
  }

  /** `str.upper()` on ASCII text: each small letter becomes the capital at
      the same place in the alphabet, and every other character is kept. */
  function Upper(s: string): (r: string)
    ensures |r| == |s|
    ensures forall i :: 0 <= i < |r| ==> !IsAsciiLower(r[i])
    ensures forall i :: 0 <= i < |s| && IsAsciiLower(s[i]) ==>
              IsAsciiUpper(r[i]) && r[i] as int - 'A' as int == s[i] as int - 'a' as int
    ensures forall i :: 0 <= i < |s| && !IsAsciiLower(s[i]) ==> r[i] == s[i]
  {
    seq(|s|, i requires 0 <= i < |s| => UpperChar(s[i]))
  }

  /** The two maps agree up to case: lower-casing after upper-casing is
      lower-casing, and the other way round. */
  lemma CaseRoundTrip(s: string)
    ensures Lower(Upper(s)) == Lower(s)
    ensures Upper(Lower(s)) == Upper(s)
  {
  }

  /** Lower-casing twice is lower-casing once. */
  lemma LowerIdempotent(s: string)
    ensures Lower(Lower(s)) == Lower(s)
  {
  }
}
