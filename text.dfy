/** The string operations of the modelled code: whitespace as Python's
    str.isspace() and the regular-expression class \s see it, strip, split with
    a maximum number of splits, replace, ASCII case mapping, and decimal
    integers as str() prints them and int() reads them. */
module Text {
  import opened Outcomes

  /** Python's str.isspace(), which is also what \s matches in a str pattern. */
  predicate IsSpace(c: char) {
    || c == ' '
    || ('\t' <= c <= '\r')
    || ('\U{1C}' <= c <= '\U{1F}')
    || c == '\U{85}' || c == '\U{A0}' || c == '\U{1680}'
    || ('\U{2000}' <= c <= '\U{200A}')
    || c == '\U{2028}' || c == '\U{2029}' || c == '\U{202F}' || c == '\U{205F}' || c == '\U{3000}'
  }

  /** The character class [A-Za-z\s]. */
  predicate IsLetterOrSpace(c: char) {
    ('A' <= c <= 'Z') || ('a' <= c <= 'z') || IsSpace(c)
  }

  predicate IsDigit(c: char) {
    '0' <= c <= '9'
  }

  /** Number of whitespace characters at the start of s. */
  function LeadingSpaces(s: string): (n: nat)
    ensures n <= |s|
    ensures forall k :: 0 <= k < n ==> IsSpace(s[k])
    ensures n < |s| ==> !IsSpace(s[n])
  {
    if s == [] || !IsSpace(s[0]) then 0 else 1 + LeadingSpaces(s[1..])
  }

  /** Number of whitespace characters at the end of s. */
  function TrailingSpaces(s: string): (n: nat)
    ensures n <= |s|
    ensures forall k :: |s| - n <= k < |s| ==> IsSpace(s[k])
    ensures n < |s| ==> !IsSpace(s[|s| - 1 - n])
  {
    if s == [] || !IsSpace(s[|s| - 1]) then 0 else 1 + TrailingSpaces(s[..|s| - 1])
  }

  /** Python's str.strip() with no argument. */
  function Strip(s: string): (r: string)
    ensures |r| <= |s|
    ensures r != [] ==> !IsSpace(r[0]) && !IsSpace(r[|r| - 1])
    ensures (forall k :: 0 <= k < |s| ==> IsSpace(s[k])) <==> r == []
    ensures s != [] && !IsSpace(s[0]) && !IsSpace(s[|s| - 1]) ==> r == s
  {
    var a := LeadingSpaces(s);
    var t := s[a..];
    var b := TrailingSpaces(t);
    assert a < |s| ==> t != [] && !IsSpace(t[0]);
    t[..|t| - b]
  }

  function UpperChar(c: char): char {
    if 'a' <= c <= 'z' then (c as int - 32) as char else c
  }

  function LowerChar(c: char): char {
    if 'A' <= c <= 'Z' then (c as int + 32) as char else c
  }

  /** str.upper() on the ASCII letters. */
  function Upper(s: string): (r: string)
    ensures |r| == |s|
    ensures forall i :: 0 <= i < |s| ==> r[i] == UpperChar(s[i])
  {
    seq(|s|, i requires 0 <= i < |s| => UpperChar(s[i]))
  }

  /** Upper-casing twice is upper-casing once. */
  lemma UpperIdempotent(s: string)
    ensures Upper(Upper(s)) == Upper(s)
  {
  }

  /** str.lower() on the ASCII letters. */
  function Lower(s: string): (r: string)
    ensures |r| == |s|
    ensures forall i :: 0 <= i < |s| ==> r[i] == LowerChar(s[i])
  {
    seq(|s|, i requires 0 <= i < |s| => LowerChar(s[i]))
  }

  /** The index of the first occurrence of c in s, if any. */
  function Find(s: string, c: char): (r: Option<nat>)
    ensures r.None? <==> c !in s
    ensures r.Some? ==> r.value < |s| && s[r.value] == c && c !in s[..r.value]
  {
    if s == [] then None
    else if s[0] == c then Some(0)
    else match Find(s[1..], c)
      case None => None
      case Some(i) =>
        assert s[..i + 1] == [s[0]] + s[1..][..i];
        Some(i + 1)
  }

  /** Number of occurrences of c in s. */
  function Count(s: string, c: char): nat {
    if s == [] then 0 else (if s[0] == c then 1 else 0) + Count(s[1..], c)
  }

  /** Python's s.split(sep, n) for a one-character separator: at most n
      splits, from the left. */
  function SplitN(s: string, sep: char, n: nat): (parts: seq<string>)
    ensures |parts| >= 1
    decreases |s|
  {
    match Find(s, sep)
    case None => [s]
    case Some(i) => if n == 0 then [s] else [s[..i]] + SplitN(s[i + 1..], sep, n - 1)
  }

  /** Python's s.split(sep) for a one-character separator: every split. */
  function Split(s: string, sep: char): seq<string> {
    SplitN(s, sep, |s|)
  }

  /** Python's sep.join(parts). */
  function Join(sep: string, parts: seq<string>): string {
    if parts == [] then []
    else if |parts| == 1 then parts[0]
    else parts[0] + sep + Join(sep, parts[1..])
  }

  lemma CountSplit(s: string, c: char, i: nat)
    requires i < |s| && s[i] == c && c !in s[..i]
    ensures Count(s, c) == 1 + Count(s[i + 1..], c)
  {
    if i > 0 {
      assert s[0] != c by { assert s[0] == s[..i][0]; }
      assert s[1..][..i - 1] == s[1..i];
      CountSplit(s[1..], c, i - 1);
      assert s[1..][i..] == s[i + 1..];
    }
  }

  lemma CountAbsent(s: string, c: char)
    requires c !in s
    ensures Count(s, c) == 0
  {
    if s != [] {
      assert s[0] in s;
      CountAbsent(s[1..], c);
    }
  }

  lemma {:induction false} CountZero(s: string, c: char)
    ensures Count(s, c) == 0 <==> c !in s
  {
    if s != [] {
      CountZero(s[1..], c);
      assert s == [s[0]] + s[1..];
    }
  }

  /** A bounded split makes one split per occurrence of the separator, up to
      its bound. */
  lemma {:induction false} SplitNCount(s: string, sep: char, n: nat)
    ensures |SplitN(s, sep, n)| == (if Count(s, sep) < n then Count(s, sep) else n) + 1
    decreases |s|
  {
    match Find(s, sep)
    case None => CountAbsent(s, sep);
    case Some(i) =>
      CountSplit(s, sep, i);
      if n > 0 { SplitNCount(s[i + 1..], sep, n - 1); }
  }

  /** Joining the parts with the separator gives back the original string. */
  lemma {:induction false} SplitNJoin(s: string, sep: char, n: nat)
    ensures Join([sep], SplitN(s, sep, n)) == s
    decreases |s|, 1
  {
    var f := Find(s, sep);
    if f.Some? && n > 0 {
      SplitNJoinStep(s, sep, n, f.value);
    } else {
      assert SplitN(s, sep, n) == [s];
    }
  }

  /** The split at the first separator joins back, since the rest does. */
  lemma {:induction false} SplitNJoinStep(s: string, sep: char, n: nat, i: nat)
    requires n > 0 && Find(s, sep) == Some(i)
    ensures Join([sep], SplitN(s, sep, n)) == s
    decreases |s|, 0
  {
    var rest := SplitN(s[i + 1..], sep, n - 1);
    calc {
      Join([sep], SplitN(s, sep, n));
      { SplitNAt(s, sep, n, i); }
      Join([sep], [s[..i]] + rest);
      { JoinCons([sep], s[..i], rest); }
      s[..i] + [sep] + Join([sep], rest);
      { SplitNJoin(s[i + 1..], sep, n - 1); }
      s[..i] + [sep] + s[i + 1..];
      { CutAt(s, i); }
      s;
    }
  }

  lemma SplitNAt(s: string, sep: char, n: nat, i: nat)
    requires n > 0 && Find(s, sep) == Some(i)
    ensures SplitN(s, sep, n) == [s[..i]] + SplitN(s[i + 1..], sep, n - 1)
  {
  }

  lemma CutAt(s: string, i: nat)
    requires i < |s|
    ensures s == s[..i] + [s[i]] + s[i + 1..]
  {
  }

  lemma JoinCons(sep: string, a: string, rest: seq<string>)
    requires rest != []
    ensures Join(sep, [a] + rest) == a + sep + Join(sep, rest)
  {
    assert ([a] + rest)[1..] == rest;
  }

  /** The string with every non-overlapping occurrence of pat (non-empty),
      scanned from the left, replaced by rep; Python's str.replace. */
  function ReplaceAll(s: string, pat: string, rep: string): (r: string)
    requires pat != []
    ensures rep == [] ==> |r| <= |s|
    decreases |s|
  {
    if |s| < |pat| then s
    else if s[..|pat|] == pat then rep + ReplaceAll(s[|pat|..], pat, rep)
    else [s[0]] + ReplaceAll(s[1..], pat, rep)
  }

  /** Replacing by nothing introduces no character. */
  lemma {:induction false} ReplaceAllWithin(s: string, pat: string)
    requires pat != []
    ensures forall c :: c in ReplaceAll(s, pat, []) ==> c in s
    decreases |s|
  {
    if |s| >= |pat| {
      if s[..|pat|] == pat {
        ReplaceAllWithin(s[|pat|..], pat);
        assert forall c :: c in s[|pat|..] ==> c in s;
      } else {
        ReplaceAllWithin(s[1..], pat);
        assert forall c :: c in s[1..] ==> c in s;
      }
    }
  }

  /** Stripping introduces no character. */
  lemma StripWithin(s: string)
    ensures forall c :: c in Strip(s) ==> c in s
  {
    var t := s[LeadingSpaces(s)..];
    assert forall c :: c in t ==> c in s;
    assert forall c :: c in t[..|t| - TrailingSpaces(t)] ==> c in t;
  }

  /** The longest prefix of s made of letters and whitespace. */
  function TakeWhileLetterOrSpace(s: string): (r: string)
    ensures |r| <= |s| && r == s[..|r|]
    ensures forall k :: 0 <= k < |r| ==> IsLetterOrSpace(r[k])
    ensures |r| < |s| ==> !IsLetterOrSpace(s[|r|])
  {
    if s == [] || !IsLetterOrSpace(s[0]) then [] else [s[0]] + TakeWhileLetterOrSpace(s[1..])
  }

  function DigitChar(d: nat): char
    requires d < 10
  {
    ('0' as int + d) as char
  }

  /** The decimal digits of n, most significant first. */
  function NatToString(n: nat): (r: string)
    ensures r != [] && forall k :: 0 <= k < |r| ==> IsDigit(r[k])
    decreases n
  {
    if n < 10 then [DigitChar(n)] else NatToString(n / 10) + [DigitChar(n % 10)]
  }

  /** Python's str() of an int. */
  function IntToString(n: int): string {
    if n < 0 then "-" + NatToString(-n) else NatToString(n)
  }

  /** The value of a non-empty string of decimal digits. */
  function DigitsValue(s: string): nat
    requires forall k :: 0 <= k < |s| ==> IsDigit(s[k])
  {
    if s == [] then 0
    else
      assert IsDigit(s[|s| - 1]);
      10 * DigitsValue(s[..|s| - 1]) + (s[|s| - 1] as int - '0' as int)
  }

  predicate AllDigits(s: string) {
    s != [] && forall k :: 0 <= k < |s| ==> IsDigit(s[k])
  }

  /** Python's int() on a str: surrounding whitespace, an optional sign and
      ASCII decimal digits; None where int() raises ValueError. */
  function ParseInt(s: string): (r: Option<int>)
  {
    var t := Strip(s);
    if t != [] && (t[0] == '-' || t[0] == '+') then
      (if AllDigits(t[1..]) then
         var v: int := DigitsValue(t[1..]);
         Some(if t[0] == '-' then -v else v)
       else None)
    else if AllDigits(t) then Some(DigitsValue(t))
    else None
  }

  lemma {:induction false} DigitsOfNat(n: nat)
    ensures DigitsValue(NatToString(n)) == n
    decreases n
  {
    var r := NatToString(n);
    if n >= 10 {
      DigitsOfNat(n / 10);
      assert r[..|r| - 1] == NatToString(n / 10);
    }
  }

  /** int(str(n)) == n. */
  lemma IntToStringRoundTrip(n: int)
    ensures ParseInt(IntToString(n)) == Some(n)
  {
    var s := IntToString(n);
    if n < 0 {
      DigitsOfNat(-n);
      assert s[1..] == NatToString(-n);
    } else {
      DigitsOfNat(n);
    }
    assert !IsSpace(s[0]) && !IsSpace(s[|s| - 1]);
  }
}
