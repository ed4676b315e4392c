/** String helpers shared by the views: decimal rendering and reading of integers,
    searching, splitting and joining, and ASCII lower-casing. */
module Text {

  predicate IsDigit(c: char) { '0' <= c <= '9' }

  predicate AllDigits(s: string) { forall i :: 0 <= i < |s| ==> IsDigit(s[i]) }

  function DigitChar(d: nat): (c: char)
    requires d < 10
    ensures IsDigit(c) && c as int - '0' as int == d
  {
    ('0' as int + d) as char
  }

  /** The decimal text of a natural number, without leading zeros. */
  function NatToString(n: nat): (s: string)
    ensures |s| >= 1 && AllDigits(s)
    ensures s == "0" <==> n == 0
    ensures s[0] != '0' || s == "0"
    decreases n
  {
    if n < 10 then [DigitChar(n)] else NatToString(n / 10) + [DigitChar(n % 10)]
  }

  /** The number a string of decimal digits denotes. */
  function DigitsValue(s: string): nat
    requires AllDigits(s)
  {
    if s == [] then 0 else DigitsValue(s[..|s| - 1]) * 10 + (s[|s| - 1] as int - '0' as int)
  }

  lemma {:induction false} NatToStringRoundTrip(n: nat)
    ensures DigitsValue(NatToString(n)) == n
  {
    if n >= 10 {
      var s := NatToString(n);
      NatToStringRoundTrip(n / 10);
      assert s[..|s| - 1] == NatToString(n / 10);
    }
  }

  /** The text JavaScript's String(n) gives for an integer. */
  function IntToString(n: int): (s: string)
  {
    if n < 0 then "-" + NatToString(-n) else NatToString(n)
  }

  /** Integer text as it reads back: an optional '-' and at least one digit. */
  function ParseInteger(s: string): (r: Option<int>)
  {
    if |s| >= 2 && s[0] == '-' && AllDigits(s[1..]) then Some(0 - DigitsValue(s[1..]))
    else if |s| >= 1 && AllDigits(s) then Some(DigitsValue(s))
    else None
  }

  lemma IntToStringRoundTrip(n: int)
    ensures ParseInteger(IntToString(n)) == Some(n)
  {
    var s := IntToString(n);
    if n < 0 {
      var digits := NatToString(-n);
      assert s[1..] == digits;
      assert !IsDigit(s[0]);
      NatToStringRoundTrip(-n);
    } else {
      NatToStringRoundTrip(n);
    }
  }

  /** Integer text holds only digits and a minus sign. */
  lemma IntToStringChars(n: int)
    ensures forall i :: 0 <= i < |IntToString(n)| ==> IsDigit(IntToString(n)[i]) || IntToString(n)[i] == '-'
  {
  }

  datatype Option<T> = None | Some(value: T)

  /** `s` left-padded with '0' to at least `width` characters. */
  function PadZeros(s: string, width: nat): (r: string)
    ensures |r| == if |s| >= width then |s| else width
    ensures AllDigits(s) ==> AllDigits(r)
    ensures r[|r| - |s|..] == s
  {
    if |s| >= width then s else seq(width - |s|, _ => '0') + s
  }

  /** Index of the first occurrence of `c` in `s`. */
  function IndexOfChar(s: string, c: char): (r: Option<nat>)
    ensures r.None? <==> c !in s
    ensures r.Some? ==> r.value < |s| && s[r.value] == c && c !in s[..r.value]
  {
    if s == [] then None
    else if s[0] == c then Some(0)
    else match IndexOfChar(s[1..], c)
      case None => None
      case Some(i) => assert s[1..][..i] == s[1..i + 1]; Some(i + 1)
  }

  /** JavaScript's `s.split(sep)` for a one-character separator. */
  function Split(s: string, sep: char): (parts: seq<string>)
    ensures |parts| >= 1
    ensures sep !in s ==> parts == [s]
    decreases |s|
  {
    match IndexOfChar(s, sep)
    case None => [s]
    case Some(i) => [s[..i]] + Split(s[i + 1..], sep)
  }

  /** JavaScript's `parts.join(sep)` for a one-character separator. */
  function Join(parts: seq<string>, sep: char): (s: string)
  {
    if |parts| == 0 then ""
    else if |parts| == 1 then parts[0]
    else parts[0] + [sep] + Join(parts[1..], sep)
  }

  /** Splitting what was joined gives the parts back, when no part holds the separator. */
  lemma {:induction false} SplitJoin(parts: seq<string>, sep: char)
    requires |parts| >= 1
    requires forall i :: 0 <= i < |parts| ==> sep !in parts[i]
    ensures Split(Join(parts, sep), sep) == parts
  {
    if |parts| > 1 {
      var rest := Join(parts[1..], sep);
      var s := parts[0] + [sep] + rest;
      FirstSeparator(parts[0], sep, rest);
      assert s[..|parts[0]|] == parts[0];
      assert s[|parts[0]| + 1..] == rest;
      SplitJoin(parts[1..], sep);
    }
  }

  lemma FirstSeparator(a: string, sep: char, b: string)
    requires sep !in a
    ensures IndexOfChar(a + [sep] + b, sep) == Some(|a|)
  {
    var s := a + [sep] + b;
    assert s[|a|] == sep;
  }

  /** The text before the first `sep`, as `s.split(sep)[0]` gives it. */
  function Before(s: string, sep: char): (r: string)
    ensures sep !in r
    ensures sep !in s ==> r == s
    ensures forall a, b :: sep !in a && s == a + [sep] + b ==> r == a
  {
    var parts := Split(s, sep);
    match IndexOfChar(s, sep)
    case None => parts[0]
    case Some(i) =>
      assert forall a, b :: sep !in a && s == a + [sep] + b ==> i == |a| by {
        forall a, b | sep !in a && s == a + [sep] + b ensures i == |a| {
          FirstSeparator(a, sep, b);
        }
      }
      parts[0]
  }

  /** `w` occurs in `s` starting at index `i`. */
  predicate OccursAt(s: string, w: string, i: int)
  {
    0 <= i && i + |w| <= |s| && s[i..i + |w|] == w
  }

  /** Index of the first occurrence of `w` in `s`, as `s.indexOf(w)` finds it. */
  function IndexOf(s: string, w: string): (r: Option<nat>)
    ensures r.None? ==> forall j :: !OccursAt(s, w, j)
    ensures r.Some? ==> OccursAt(s, w, r.value) && forall j :: 0 <= j < r.value ==> !OccursAt(s, w, j)
    decreases |s|
  {
    if |s| < |w| then None
    else if s[..|w|] == w then Some(0)
    else
      var r := IndexOf(s[1..], w);
      assert forall j :: 1 <= j ==> (OccursAt(s, w, j) <==> OccursAt(s[1..], w, j - 1)) by {
        forall j | 1 <= j ensures OccursAt(s, w, j) <==> OccursAt(s[1..], w, j - 1) {
          ShiftOccurrence(s, w, j - 1);
        }
      }
      match r
      case None => None
      case Some(i) => Some(i + 1)
  }

  lemma ShiftOccurrence(s: string, w: string, j: int)
    requires |s| >= 1 && 0 <= j
    ensures OccursAt(s[1..], w, j) <==> OccursAt(s, w, j + 1)
  {
    if 0 <= j && j + |w| <= |s| - 1 {
      assert s[1..][j..j + |w|] == s[j + 1..j + 1 + |w|];
    }
  }

  /** JavaScript's `s.includes(w)`. */
  function Contains(s: string, w: string): (r: bool)
    ensures r <==> exists j :: OccursAt(s, w, j)
  {
    IndexOf(s, w).Some?
  }

  /** JavaScript's `s.replace(pat, rep)` with a string pattern: only the first occurrence is replaced. */
  function ReplaceFirst(s: string, pat: string, rep: string): (r: string)
    ensures !Contains(s, pat) ==> r == s
    ensures forall i :: OccursAt(s, pat, i) && (forall j :: 0 <= j < i ==> !OccursAt(s, pat, j)) ==>
      r == s[..i] + rep + s[i + |pat|..]
  {
    match IndexOf(s, pat)
    case None => s
    case Some(i) => s[..i] + rep + s[i + |pat|..]
  }

  /** A pattern whose first character is absent from `s` is never replaced. */
  lemma ReplaceAbsent(s: string, pat: string, rep: string)
    requires pat != [] && pat[0] !in s
    ensures ReplaceFirst(s, pat, rep) == s
  {
  }

  /** A pattern `s` starts with is replaced there. */
  lemma ReplacePrefix(s: string, pat: string, rep: string)
    requires |pat| <= |s| && s[..|pat|] == pat
    ensures ReplaceFirst(s, pat, rep) == rep + s[|pat|..]
  {
    assert IndexOf(s, pat) == Some(0);
    assert s[..0] + rep == rep;
  }

  function ToLowerChar(c: char): char
  {
    if 'A' <= c <= 'Z' then (c as int + 32) as char else c
  }

  /** `s.toLowerCase()` on ASCII letters. */
  function ToLower(s: string): (r: string)
    ensures |r| == |s|
    ensures forall i :: 0 <= i < |s| ==> r[i] == ToLowerChar(s[i])
  {
    seq(|s|, i requires 0 <= i < |s| => ToLowerChar(s[i]))
  }
}
