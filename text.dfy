/** The string primitives of Python 2 that the interpreter relies on:
    str.strip, str.startswith, string.find, str.lower, re.split with a
    capturing separator group, ''.join and int(). */
module Text {
  import opened Errors

  /** The characters Python 2 treats as whitespace in str.strip() and in
      the regular-expression class \s: space, \t, \n, \v, \f and \r. */
  predicate IsSpace(c: char) {
    c == ' ' || c == '\t' || c == '\n' || c == '\r' || c == '\U{000B}' || c == '\U{000C}'
  }

  /** str.startswith */
  predicate StartsWith(s: string, prefix: string) {
    |prefix| <= |s| && s[..|prefix|] == prefix
  }

  /** s[k:] in Python: never fails, empty when k is past the end. */
  function Drop(s: string, k: nat): (r: string)
    ensures |s| <= k ==> r == []
    ensures k < |s| ==> |r| == |s| - k
  {
    if |s| <= k then [] else s[k..]
  }

  lemma DropSpec(s: string, k: nat)
    ensures forall i :: 0 <= i < |Drop(s, k)| ==> Drop(s, k)[i] == s[k + i]
  {
  }

  /** The leading-whitespace half of str.strip(). */
  function StripLeft(s: string): (r: string)
    ensures |r| <= |s|
  {
    if |s| > 0 && IsSpace(s[0]) then StripLeft(s[1..]) else s
  }

  /** StripLeft removes a prefix made of whitespace, and all of it. */
  lemma {:induction false} StripLeftSpec(s: string)
    ensures StripLeft(s) == s[|s| - |StripLeft(s)|..]
    ensures forall i :: 0 <= i < |s| - |StripLeft(s)| ==> IsSpace(s[i])
    ensures StripLeft(s) == [] || !IsSpace(StripLeft(s)[0])
    decreases |s|
  {
    if |s| > 0 && IsSpace(s[0]) {
      StripLeftSpec(s[1..]);
      assert s[1..][|s| - 1 - |StripLeft(s)|..] == s[|s| - |StripLeft(s)|..];
      forall i | 0 <= i < |s| - |StripLeft(s)| ensures IsSpace(s[i]) {
        if i > 0 {
          assert s[i] == s[1..][i - 1];
        }
      }
    }
  }

  /** The trailing-whitespace half of str.strip(). */
  function StripRight(s: string): (r: string)
    ensures |r| <= |s|
  {
    if |s| > 0 && IsSpace(s[|s| - 1]) then StripRight(s[..|s| - 1]) else s
  }

  /** StripRight removes a suffix made of whitespace, and all of it. */
  lemma {:induction false} StripRightSpec(s: string)
    ensures StripRight(s) == s[..|StripRight(s)|]
    ensures forall i :: |StripRight(s)| <= i < |s| ==> IsSpace(s[i])
    ensures StripRight(s) == [] || !IsSpace(StripRight(s)[|StripRight(s)| - 1])
    decreases |s|
  {
    if |s| > 0 && IsSpace(s[|s| - 1]) {
      var t := s[..|s| - 1];
      StripRightSpec(t);
      assert t[..|StripRight(s)|] == s[..|StripRight(s)|];
      forall i | |StripRight(s)| <= i < |s| ensures IsSpace(s[i]) {
        if i < |s| - 1 {
          assert s[i] == t[i];
        }
      }
    }
  }

  /** str.strip(): s without its leading and trailing whitespace. */
  function Strip(s: string): (r: string)
    ensures |r| <= |s|
  {
    StripRight(StripLeft(s))
  }

  /** What str.strip() promises: no whitespace at either end, empty only
      for an all-whitespace string, and the identity on a string whose
      ends are not whitespace. */
  lemma StripSpec(s: string)
    ensures Strip(s) == [] || (!IsSpace(Strip(s)[0]) && !IsSpace(Strip(s)[|Strip(s)| - 1]))
    ensures Strip(s) == [] <==> forall i :: 0 <= i < |s| ==> IsSpace(s[i])
    ensures (|s| > 0 && !IsSpace(s[0]) && !IsSpace(s[|s| - 1])) ==> Strip(s) == s
  {
    var l := StripLeft(s);
    var r := Strip(s);
    StripLeftSpec(s);
    StripRightSpec(l);
    var d := |s| - |l|;
    assert l == s[d..];
    assert r == l[..|r|];
    if r != [] {
      assert r[0] == l[0];
    }
    if r == [] {
      assert |l| == 0;
    } else {
      assert !IsSpace(s[d]) by { assert s[d] == l[0]; }
    }
    if |s| > 0 && !IsSpace(s[0]) && !IsSpace(s[|s| - 1]) {
      assert l == s;
      assert r == l;
    }
  }

  /** t occurs in s starting at index i. */
  predicate OccursAt(s: string, t: string, i: int) {
    0 <= i <= |s| - |t| && s[i..i + |t|] == t
  }

  /** string.find(s, t) != -1, written as a scan from the front. */
  function Contains(s: string, t: string): bool
    decreases |s|
  {
    if |t| > |s| then false
    else if s[..|t|] == t then true
    else Contains(s[1..], t)
  }

  /** The scan finds t exactly when t occurs somewhere in s. */
  lemma {:induction false} ContainsSpec(s: string, t: string)
    ensures Contains(s, t) <==> exists i :: OccursAt(s, t, i)
    decreases |s|
  {
    if |t| > |s| {
    } else if s[..|t|] == t {
      assert OccursAt(s, t, 0);
    } else {
      ContainsSpec(s[1..], t);
      assert forall i :: OccursAt(s[1..], t, i) ==> OccursAt(s, t, i + 1) by {
        forall i | OccursAt(s[1..], t, i) ensures OccursAt(s, t, i + 1) {
          assert s[1..][i..i + |t|] == s[i + 1..i + 1 + |t|];
        }
      }
      if exists i :: OccursAt(s, t, i) {
        var i :| OccursAt(s, t, i);
        assert i != 0;
        assert s[1..][i - 1..i - 1 + |t|] == s[i..i + |t|];
        assert OccursAt(s[1..], t, i - 1);
      }
    }
  }

  /** ''.join(pieces) */
  function Concat(pieces: seq<string>): string {
    if pieces == [] then [] else pieces[0] + Concat(pieces[1..])
  }

  lemma {:induction false} ConcatAppend(a: seq<string>, b: seq<string>)
    ensures Concat(a + b) == Concat(a) + Concat(b)
  {
    if a == [] {
      assert a + b == b;
    } else {
      assert (a + b)[1..] == a[1..] + b;
      ConcatAppend(a[1..], b);
    }
  }

  /** The separators of the two splits in sqlCmd.py: r'(\'|\s)' when
      withQuote holds, r'(\s)' otherwise. */
  predicate IsSep(c: char, withQuote: bool) {
    IsSpace(c) || (withQuote && c == '\'')
  }

  /** Index of the first separator in s, or |s| when there is none. */
  function SepIndex(s: string, withQuote: bool): (j: nat)
    ensures j <= |s|
    ensures j < |s| ==> IsSep(s[j], withQuote)
  {
    if s == [] then 0
    else if IsSep(s[0], withQuote) then 0
    else 1 + SepIndex(s[1..], withQuote)
  }

  /** No separator comes before the one SepIndex finds. */
  lemma {:induction false} SepIndexSpec(s: string, withQuote: bool)
    ensures NoSep(s[..SepIndex(s, withQuote)], withQuote)
    decreases |s|
  {
    if s != [] && !IsSep(s[0], withQuote) {
      var j := SepIndex(s, withQuote);
      SepIndexSpec(s[1..], withQuote);
      assert s[..j] == [s[0]] + s[1..][..j - 1];
    }
  }

  /** A piece with no separator in it. */
  predicate NoSep(p: string, withQuote: bool) {
    forall k :: 0 <= k < |p| ==> !IsSep(p[k], withQuote)
  }

  /** A piece that is exactly one separator. */
  predicate OneSep(p: string, withQuote: bool) {
    |p| == 1 && IsSep(p[0], withQuote)
  }

  /** The shape of every result of re.split with one single-character
      capturing group: text, separator, text, ..., text. */
  predicate Alternates(r: seq<string>, withQuote: bool) {
    && |r| % 2 == 1
    && (forall i :: 0 <= i < |r| && i % 2 == 0 ==> NoSep(r[i], withQuote))
    && (forall i :: 0 <= i < |r| && i % 2 == 1 ==> OneSep(r[i], withQuote))
  }

  /** re.split with one capturing group that matches a single separator
      character: the text between separators at even positions, each
      separator itself at the odd position between them. */
  function Split(s: string, withQuote: bool): (r: seq<string>)
    ensures |r| % 2 == 1
    decreases |s|
  {
    var j := SepIndex(s, withQuote);
    if j == |s| then [s]
    else [s[..j], [s[j]]] + Split(s[j + 1..], withQuote)
  }

  /** re.split loses nothing: its pieces alternate between text and one
      separator, and joined again they give back the input. */
  lemma SplitSpec(s: string, withQuote: bool)
    ensures Alternates(Split(s, withQuote), withQuote)
    ensures Concat(Split(s, withQuote)) == s
  {
    SplitAlternates(s, withQuote);
    SplitConcat(s, withQuote);
  }

  lemma {:induction false} SplitAlternates(s: string, withQuote: bool)
    ensures Alternates(Split(s, withQuote), withQuote)
    decreases |s|
  {
    var j := SepIndex(s, withQuote);
    SepIndexSpec(s, withQuote);
    if j == |s| {
      assert s[..j] == s;
    } else {
      var tail := s[j + 1..];
      SplitAlternates(tail, withQuote);
      SplitStep(s, withQuote);
      AlternatesCons(s[..j], [s[j]], Split(tail, withQuote), withQuote);
    }
  }

  lemma {:induction false} SplitConcat(s: string, withQuote: bool)
    ensures Concat(Split(s, withQuote)) == s
    decreases |s|
  {
    var j := SepIndex(s, withQuote);
    if j < |s| {
      var tail := s[j + 1..];
      SplitConcat(tail, withQuote);
      SplitStep(s, withQuote);
      ConcatCons(s[..j], [s[j]], Split(tail, withQuote));
      assert s == s[..j] + [s[j]] + tail;
    }
  }

  /** One step of re.split: the text before the first separator, the
      separator, and the split of the rest. */
  lemma SplitStep(s: string, withQuote: bool)
    requires SepIndex(s, withQuote) < |s|
    ensures Split(s, withQuote) ==
              [s[..SepIndex(s, withQuote)], [s[SepIndex(s, withQuote)]]] + Split(s[SepIndex(s, withQuote) + 1..], withQuote)
  {
  }

  lemma ConcatCons(a: string, b: string, rest: seq<string>)
    ensures Concat([a, b] + rest) == a + b + Concat(rest)
  {
    var r := [a, b] + rest;
    assert r[1..] == [b] + rest;
    assert r[1..][1..] == rest;
  }

  lemma AlternatesCons(text: string, sep: string, rest: seq<string>, withQuote: bool)
    requires NoSep(text, withQuote) && OneSep(sep, withQuote) && Alternates(rest, withQuote)
    ensures Alternates([text, sep] + rest, withQuote)
  {
    var r := [text, sep] + rest;
    forall i | 2 <= i < |r| ensures r[i] == rest[i - 2] && (i % 2 == 0 <==> (i - 2) % 2 == 0) {
    }
  }

  /** str.lower() on ASCII letters. */
  function LowerChar(c: char): char {
    if 'A' <= c <= 'Z' then (c as int + 32) as char else c
  }

  function Lower(s: string): string {
    seq(|s|, i requires 0 <= i < |s| => LowerChar(s[i]))
  }

  lemma LowerIdempotent(s: string)
    ensures Lower(Lower(s)) == Lower(s)
  {
  }

  // ---------------------------------------------------------------------
  // int() on a string, and the decimal rendering it inverts

  predicate IsDigit(c: char) { '0' <= c <= '9' }

  predicate AllDigits(s: string) {
    forall i :: 0 <= i < |s| ==> IsDigit(s[i])
  }

  function DigitValue(c: char): nat
    requires IsDigit(c)
  {
    c as int - '0' as int
  }

  /** The natural number a string of decimal digits denotes. */
  function DigitsValue(s: string): nat
    requires AllDigits(s)
  {
    if s == [] then 0 else DigitsValue(s[..|s| - 1]) * 10 + DigitValue(s[|s| - 1])
  }

  function DigitChar(d: nat): (c: char)
    requires d < 10
    ensures IsDigit(c) && DigitValue(c) == d
  {
    ('0' as int + d) as char
  }

  /** str(n) for a natural number. */
  function NatToString(n: nat): (s: string)
    ensures |s| > 0 && AllDigits(s)
    ensures DigitsValue(s) == n
  {
    if n < 10 then [DigitChar(n)]
    else
      var s := NatToString(n / 10) + [DigitChar(n % 10)];
      assert s[..|s| - 1] == NatToString(n / 10);
      s
  }

  /** str(n) for an integer. */
  function IntToString(n: int): string {
    if n < 0 then "-" + NatToString(-n) else NatToString(n)
  }

  /** int(s) with base 10: surrounding whitespace is ignored, then one
      optional sign, more whitespace, which CPython 2 skips after the sign
      as well, and at least one decimal digit. */
  function ParseInt(s: string): (r: Result<int>)
    ensures r.Ok? ==> |Strip(s)| > 0
  {
    var t := Strip(s);
    if |t| > 0 && (t[0] == '-' || t[0] == '+') then
      var d := StripLeft(t[1..]);
      var v: int := if |d| > 0 && AllDigits(d) then DigitsValue(d) else 0;
      if |d| > 0 && AllDigits(d) then Ok(if t[0] == '-' then -v else v)
      else Err(InvalidLiteral(s))
    else if |t| > 0 && AllDigits(t) then Ok(DigitsValue(t))
    else Err(InvalidLiteral(s))
  }

  /** Whitespace before a string that does not start with whitespace is
      all that StripLeft removes. */
  lemma {:induction false} StripLeftSpaces(w: string, d: string)
    requires forall i :: 0 <= i < |w| ==> IsSpace(w[i])
    requires d == [] || !IsSpace(d[0])
    ensures StripLeft(w + d) == d
    decreases |w|
  {
    if w == [] {
      assert w + d == d;
    } else {
      assert (w + d)[0] == w[0] && (w + d)[1..] == w[1..] + d;
      StripLeftSpaces(w[1..], d);
    }
  }

  /** A sign, then whitespace, then the digits of n: int() reads n with
      that sign. */
  lemma ParseIntSpaceAfterSign(sign: char, w: string, n: nat)
    requires sign == '-' || sign == '+'
    requires forall i :: 0 <= i < |w| ==> IsSpace(w[i])
    ensures ParseInt([sign] + w + NatToString(n)) == Ok(if sign == '-' then -(n as int) else n)
  {
    var d := NatToString(n);
    var s := [sign] + w + d;
    assert s[0] == sign && s[|s| - 1] == d[|d| - 1];
    assert StripLeft(s) == s;
    assert StripRight(s) == s;
    assert s[1..] == w + d;
    StripLeftSpaces(w, d);
    ParseIntSigned(s, d);
  }

  /** A string with a sign and digits after whitespace, and nothing to
      strip at its ends, is read as the signed value of its digits. */
  lemma ParseIntSigned(s: string, d: string)
    requires |s| > 0 && (s[0] == '-' || s[0] == '+') && Strip(s) == s
    requires StripLeft(s[1..]) == d && |d| > 0 && AllDigits(d)
    ensures ParseInt(s) == Ok(if s[0] == '-' then -(DigitsValue(d) as int) else DigitsValue(d))
  {
  }

  /** int(str(n)) == n */
  lemma ParseIntOfIntToString(n: int)
    ensures ParseInt(IntToString(n)) == Ok(n)
  {
    var s := IntToString(n);
    assert !IsSpace(s[0]) && !IsSpace(s[|s| - 1]);
    StripSpec(s);
    assert Strip(s) == s;
    if n < 0 {
      var d := NatToString(-n);
      assert s[1..] == d;
      assert !IsSpace(d[0]);
      assert StripLeft(d) == d;
    }
  }
}
