/** The value transforms that mapping rules apply to a raw string before it is
    stored. Each record module of the source carries its own copy of
    clean_string; they are identical and are defined once here. */
module Transforms {
  import opened Outcomes
  import opened Text

  /** The characters of the class [.,#!$%^&*;:{}=\-_`~()]. */
  predicate IsPunctuation(c: char) {
    c in ".,#!$%^&*;:{}=-_`~()"
  }

  /** The characters that are neither whitespace nor punctuation, in order. */
  function Significant(s: string): string {
    if s == [] then []
    else (if IsSpace(s[0]) || IsPunctuation(s[0]) then [] else [s[0]]) + Significant(s[1..])
  }

  /** The characters that are not whitespace, in order. */
  function Solid(s: string): string {
    if s == [] then [] else (if IsSpace(s[0]) then [] else [s[0]]) + Solid(s[1..])
  }

  /** No two adjacent whitespace characters. */
  predicate SingleSpaced(s: string) {
    forall i :: 0 <= i < |s| - 1 ==> !IsSpace(s[i]) || !IsSpace(s[i + 1])
  }

  lemma {:induction false} SolidAppend(a: string, b: string)
    ensures Solid(a + b) == Solid(a) + Solid(b)
  {
    if a == [] {
      assert a + b == b;
    } else {
      assert (a + b)[1..] == a[1..] + b;
      SolidAppend(a[1..], b);
    }
  }

  lemma {:induction false} SolidOfSpaces(s: string, n: nat)
    requires n <= |s| && forall k :: 0 <= k < n ==> IsSpace(s[k])
    ensures Solid(s) == Solid(s[n..])
  {
    if n > 0 {
      assert s[1..][n - 1..] == s[n..];
      SolidOfSpaces(s[1..], n - 1);
    }
  }

  /** re.sub(r'[.,#!$%^&*;:{}=\-_`~()]', ' ', s). */
  function BlankPunctuation(s: string): string {
    seq(|s|, i requires 0 <= i < |s| => if IsPunctuation(s[i]) then ' ' else s[i])
  }

  lemma {:induction false} SolidOfBlanked(s: string)
    ensures Solid(BlankPunctuation(s)) == Significant(s)
  {
    if s != [] {
      SolidOfBlanked(s[1..]);
      assert BlankPunctuation(s) == [BlankPunctuation(s)[0]] + BlankPunctuation(s[1..]);
    }
  }

  /** re.sub(r'\s{2,}', ' ', s): every run of two or more whitespace characters
      becomes one space; a lone whitespace character is kept as it is. */
  function CollapseSpaceRuns(s: string): string
    decreases |s|
  {
    if s == [] then []
    else
      var n := LeadingSpaces(s);
      if n >= 2 then [' '] + CollapseSpaceRuns(s[n..])
      else [s[0]] + CollapseSpaceRuns(s[1..])
  }

  /** Collapsing never lengthens the text, leaves no two adjacent whitespace
      characters, keeps whether it starts with whitespace, introduces no
      character other than a space, and keeps every non-whitespace character
      in order. */
  lemma {:induction false} CollapseProperties(s: string)
    ensures |CollapseSpaceRuns(s)| <= |s|
    ensures SingleSpaced(CollapseSpaceRuns(s))
    ensures s != [] ==> CollapseSpaceRuns(s) != [] && (IsSpace(CollapseSpaceRuns(s)[0]) <==> IsSpace(s[0]))
    ensures forall i :: 0 <= i < |CollapseSpaceRuns(s)| ==> CollapseSpaceRuns(s)[i] == ' ' || CollapseSpaceRuns(s)[i] in s
    ensures Solid(CollapseSpaceRuns(s)) == Solid(s)
    decreases |s|
  {
    if s != [] {
      var n := LeadingSpaces(s);
      var r := CollapseSpaceRuns(s);
      if n >= 2 {
        var rest := CollapseSpaceRuns(s[n..]);
        CollapseProperties(s[n..]);
        SolidOfSpaces(s, n);
        SolidAppend([' '], rest);
        assert forall c :: c in s[n..] ==> c in s;
        assert r == [' '] + rest;
      } else {
        var rest := CollapseSpaceRuns(s[1..]);
        CollapseProperties(s[1..]);
        SolidAppend([s[0]], rest);
        assert s == [s[0]] + s[1..];
        assert forall c :: c in s[1..] ==> c in s;
        assert r == [s[0]] + rest;
        assert n == 1 && |s| > 1 ==> !IsSpace(s[1]);
      }
    }
  }

  lemma {:induction false} CollapseKeepsSingleSpaced(s: string)
    requires SingleSpaced(s)
    ensures CollapseSpaceRuns(s) == s
    decreases |s|
  {
    if s != [] {
      assert LeadingSpaces(s) <= 1 by {
        if |s| >= 2 && IsSpace(s[0]) { assert !IsSpace(s[1]); }
      }
      assert SingleSpaced(s[1..]) by {
        forall i | 0 <= i < |s[1..]| - 1 ensures !IsSpace(s[1..][i]) || !IsSpace(s[1..][i + 1]) {
          assert s[1..][i] == s[i + 1] && s[1..][i + 1] == s[i + 2];
        }
      }
      CollapseKeepsSingleSpaced(s[1..]);
    }
  }

  /** clean_string: punctuation becomes spaces, then runs of whitespace are
      collapsed. Leading and trailing whitespace is not trimmed. */
  function CleanString(s: string): string {
    CollapseSpaceRuns(BlankPunctuation(s))
  }

  /** A cleaned string is no longer than the input, empty only when the input
      is, holds no punctuation and no two adjacent whitespace characters, and
      keeps exactly the input's characters that are neither whitespace nor
      punctuation, in order. */
  lemma CleanStringProperties(s: string)
    ensures |CleanString(s)| <= |s|
    ensures s != [] ==> CleanString(s) != []
    ensures forall i :: 0 <= i < |CleanString(s)| ==> !IsPunctuation(CleanString(s)[i])
    ensures SingleSpaced(CleanString(s))
    ensures Solid(CleanString(s)) == Significant(s)
  {
    var b := BlankPunctuation(s);
    SolidOfBlanked(s);
    CollapseProperties(b);
    assert forall c :: c in b ==> !IsPunctuation(c);
  }

  /** Cleaning a cleaned string changes nothing. */
  lemma CleanStringIdempotent(s: string)
    ensures CleanString(CleanString(s)) == CleanString(s)
  {
    var r := CleanString(s);
    CleanStringProperties(s);
    assert BlankPunctuation(r) == r;
    CollapseKeepsSingleSpaced(r);
  }

  /** make_street_link: clean_string, then every whitespace character becomes
      '+'. */
  function MakeStreetLink(s: string): string {
    var c := CleanString(s);
    seq(|c|, i requires 0 <= i < |c| => if IsSpace(c[i]) then '+' else c[i])
  }

  /** The link text is as long as the cleaned text, holds no whitespace, and
      has '+' exactly where the cleaned text has whitespace or a '+'. */
  lemma StreetLinkProperties(s: string)
    ensures |MakeStreetLink(s)| == |CleanString(s)|
    ensures forall i :: 0 <= i < |MakeStreetLink(s)| ==> !IsSpace(MakeStreetLink(s)[i])
    ensures forall i :: 0 <= i < |MakeStreetLink(s)| ==>
      (MakeStreetLink(s)[i] == '+' <==> IsSpace(CleanString(s)[i]) || CleanString(s)[i] == '+')
  {
    var c := CleanString(s);
    assert forall i :: 0 <= i < |c| ==> MakeStreetLink(s)[i] == if IsSpace(c[i]) then '+' else c[i];
  }

  /** tx_deed_book_id: "Book " before a non-empty value. */
  function TxDeedBookId(s: string): (r: string)
    ensures s == "" ==> r == ""
    ensures s != "" ==> |r| == |s| + 5 && r[..5] == "Book " && r[5..] == s
  {
    if s != "" then "Book " + s else s
  }

  /** tx_book_page: "Page " before a non-empty value. */
  function TxBookPage(s: string): (r: string)
    ensures s == "" ==> r == ""
    ensures s != "" ==> |r| == |s| + 5 && r[..5] == "Page " && r[5..] == s
  {
    if s != "" then "Page " + s else s
  }

  /** tx_deed_num: "Instrument # " before a value other than "" and "0". */
  function TxDeedNum(s: string): (r: string)
    ensures s == "" || s == "0" ==> r == s
    ensures s != "" && s != "0" ==> |r| == |s| + 13 && r[..13] == "Instrument # " && r[13..] == s
  {
    if s != "" && s != "0" then "Instrument # " + s else s
  }

  /** The text after the first colon, up to the next colon if there is one. */
  function AfterFirstColon(s: string): string
    requires ':' in s
  {
    var rest := s[Find(s, ':').value + 1..];
    match Find(rest, ':')
    case None => rest
    case Some(j) => rest[..j]
  }

  /** text_after_colon: s.split(":", 2) has exactly two parts only when s holds
      exactly one colon; then the stripped text after it, otherwise s itself. */
  function TextAfterColon(s: string): string {
    var parts := SplitN(s, ':', 2);
    if |parts| == 2 then Strip(parts[1]) else s
  }

  /** The text after the colon is taken only when there is exactly one. */
  lemma TextAfterColonMeaning(s: string)
    ensures Count(s, ':') != 1 ==> TextAfterColon(s) == s
    ensures Count(s, ':') == 1 ==> Find(s, ':').Some? && TextAfterColon(s) == Strip(s[Find(s, ':').value + 1..])
  {
    SplitNCount(s, ':', 2);
    CountZero(s, ':');
    if Count(s, ':') == 1 {
      var i := Find(s, ':').value;
      CountSplit(s, ':', i);
      CountZero(s[i + 1..], ':');
    }
  }

  /** The second part of s.split(":") is the text between the first colon
      and the next one (or the end). */
  lemma SplitParts(s: string)
    ensures ':' !in s ==> Split(s, ':') == [s]
    ensures ':' in s ==> |Split(s, ':')| >= 2 && Split(s, ':')[1] == AfterFirstColon(s)
  {
    if ':' in s {
      var i := Find(s, ':').value;
      var rest := s[i + 1..];
      assert Split(s, ':') == [s[..i]] + SplitN(rest, ':', |s| - 1);
      match Find(rest, ':')
      case None =>
      case Some(j) => assert |s| - 1 > 0;
    }
  }

  /** transform_tx_year_make_model and transform_tx_plate (the same code):
      s.split(":")[1].strip(), or s itself when there is no colon. */
  function ColonSegment(s: string): string {
    var parts := Split(s, ':');
    if |parts| >= 2 then Strip(parts[1]) else s
  }

  /** Without a colon the text is kept; with one, the stripped text after
      the first colon up to the next. */
  lemma ColonSegmentMeaning(s: string)
    ensures ':' !in s ==> ColonSegment(s) == s
    ensures ':' in s ==> ColonSegment(s) == Strip(AfterFirstColon(s))
  {
    SplitParts(s);
  }

  /** One trailing "/" removed, as result[:-1] when result[-1:] == "/". */
  function DropTrailingSlash(s: string): (r: string)
    ensures s != [] && s[|s| - 1] == '/' ==> r == s[..|s| - 1]
    ensures (s == [] || s[|s| - 1] != '/') ==> r == s
  {
    if s != [] && s[|s| - 1] == '/' then s[..|s| - 1] else s
  }

  /** transform_co_owner as written: with no colon the fallback calls .copy()
      on a str, which raises AttributeError. */
  function CoOwnerAsWritten(s: string): (r: Result<string>)
    ensures ':' !in s ==> r == Err(AttributeError("copy"))
    ensures ':' in s ==> r == Ok(CleanString(DropTrailingSlash(ColonSegment(s))))
  {
    var parts := Split(s, ':');
    if |parts| >= 2 then Ok(CleanString(DropTrailingSlash(Strip(parts[1]))))
    else Err(AttributeError("copy"))
  }

  /** transform_co_owner as evidently intended: with no colon the whole input
      is the owner text. */
  function CoOwner(s: string): string {
    CleanString(DropTrailingSlash(ColonSegment(s)))
  }

  /** The corrected owner transform never fails, agrees with the code as
      written wherever that succeeds, and cleans the whole text when there is
      no colon. */
  lemma CoOwnerCorrects(s: string)
    ensures CoOwnerAsWritten(s).Ok? ==> CoOwner(s) == CoOwnerAsWritten(s).value
    ensures ':' !in s ==> CoOwner(s) == CleanString(DropTrailingSlash(s))
    ensures DropTrailingSlash(ColonSegment(s)) != [] ==> CoOwner(s) != []
  {
    CleanStringProperties(DropTrailingSlash(ColonSegment(s)));
  }

  /** The colon-less owner text that the code as written cannot handle. */
  lemma CoOwnerWithoutColon()
    ensures CoOwnerAsWritten("SMITH JOHN").Err?
    ensures CoOwner("SMITH JOHN") == CleanString("SMITH JOHN")
  {
    assert ':' !in "SMITH JOHN";
  }

  /** The transforms a mapping rule may name. */
  datatype Transform =
    | Identity
    | Clean
    | StreetLink
    | DeedBookId
    | BookPage
    | DeedNum
    | AfterColon
    | Segment
    | Owner

  /** The value mapping["transform"](value) stands for; for the owner
      transform this is the corrected transform, which returns a value on
      every input (ApplyAsWritten is what the code runs). */
  function Apply(t: Transform, s: string): (r: string) {
    match t
    case Identity => s
    case Clean => CleanString(s)
    case StreetLink => MakeStreetLink(s)
    case DeedBookId => TxDeedBookId(s)
    case BookPage => TxBookPage(s)
    case DeedNum => TxDeedNum(s)
    case AfterColon => TextAfterColon(s)
    case Segment => ColonSegment(s)
    case Owner => CoOwner(s)
  }

  /** mapping["transform"](value) as the code runs it: the owner transform
      raises AttributeError on text without a colon; every transform that
      returns agrees with Apply. */
  function ApplyAsWritten(t: Transform, s: string): (r: Result<string>)
    ensures r.Err? <==> t == Owner && ':' !in s
    ensures r.Err? ==> r.error == AttributeError("copy")
    ensures r.Ok? ==> r.value == Apply(t, s)
  {
    if t == Owner then CoOwnerAsWritten(s) else Ok(Apply(t, s))
  }
}
