/** shlex.split(s) of Python 2.7: a POSIX-mode shlex with whitespace_split
    set and no comment characters. The built-ins `set`, `get`, `pushAll`
    and `reg` split their argument string with it. */
module Shlex {
  import opened Errors

  /** shlex's whitespace: space, tab, carriage return and newline. */
  predicate IsBlank(c: char) {
    c == ' ' || c == '\t' || c == '\r' || c == '\n'
  }

  predicate IsQuote(c: char) {
    c == '\'' || c == '"'
  }

  /** The states of shlex.read_token: between tokens (' '), inside a word
      ('a'), inside a quote, and just after a backslash, remembering
      whether the backslash stood inside double quotes. */
  datatype Mode = Between | InWord | InQuote(q: char) | Escaped(inDouble: bool)

  /** Reads the rest of the input in the given mode, with the token read
      so far and the tokens already emitted. A word is emitted at the next
      blank or at the end, even when it is empty: in 'a' mode shlex always
      holds a non-empty token or has seen a quote, so its emit test passes. */
  function Lex(s: string, mode: Mode, token: string, acc: seq<string>): Result<seq<string>>
    decreases |s|
  {
    if s == [] then
      match mode
      case Between => Ok(acc)
      case InWord => Ok(acc + [token])
      case InQuote(_) => Err(NoClosingQuotation)
      case Escaped(_) => Err(NoEscapedCharacter)
    else
      var c, rest := s[0], s[1..];
      match mode
      case Between =>
        if IsBlank(c) then Lex(rest, Between, token, acc)
        else if c == '\\' then Lex(rest, Escaped(false), token, acc)
        else if IsQuote(c) then Lex(rest, InQuote(c), token, acc)
        else Lex(rest, InWord, token + [c], acc)
      case InWord =>
        if IsBlank(c) then Lex(rest, Between, "", acc + [token])
        else if IsQuote(c) then Lex(rest, InQuote(c), token, acc)
        else if c == '\\' then Lex(rest, Escaped(false), token, acc)
        else Lex(rest, InWord, token + [c], acc)
      case InQuote(q) =>
        if c == q then Lex(rest, InWord, token, acc)
        else if c == '\\' && q == '"' then Lex(rest, Escaped(true), token, acc)
        else Lex(rest, InQuote(q), token + [c], acc)
      case Escaped(inDouble) =>
        // inside double quotes only \ and " are escapable; before anything
        // else the backslash is kept
        var kept := if inDouble && c != '\\' && c != '"' then token + ['\\'] else token;
        Lex(rest, if inDouble then InQuote('"') else InWord, kept + [c], acc)
  }

  /** shlex.split(s): it fails only with the two errors of read_token, an
      unclosed quotation or a backslash at the end. */
  function Split(s: string): (r: Result<seq<string>>)
    ensures r.Err? ==> r.error == NoClosingQuotation || r.error == NoEscapedCharacter
  {
    LexGrows(s, Between, "", []);
    Lex(s, Between, "", [])
  }

  /** Lex only adds tokens, and it adds at least one once a token has been
      started; its only failures are the two of read_token. */
  lemma {:induction false} LexGrows(s: string, mode: Mode, token: string, acc: seq<string>)
    ensures Lex(s, mode, token, acc).Ok? ==> |acc| <= |Lex(s, mode, token, acc).value|
    ensures Lex(s, mode, token, acc).Ok? && mode != Between ==> |acc| < |Lex(s, mode, token, acc).value|
    ensures Lex(s, mode, token, acc).Err? ==>
              Lex(s, mode, token, acc).error == NoClosingQuotation || Lex(s, mode, token, acc).error == NoEscapedCharacter
    decreases |s|
  {
    if s != [] {
      var c, rest := s[0], s[1..];
      match mode
      case Between =>
        if IsBlank(c) { LexGrows(rest, Between, token, acc); }
        else if c == '\\' { LexGrows(rest, Escaped(false), token, acc); }
        else if IsQuote(c) { LexGrows(rest, InQuote(c), token, acc); }
        else { LexGrows(rest, InWord, token + [c], acc); }
      case InWord =>
        if IsBlank(c) { LexGrows(rest, Between, "", acc + [token]); }
        else if IsQuote(c) { LexGrows(rest, InQuote(c), token, acc); }
        else if c == '\\' { LexGrows(rest, Escaped(false), token, acc); }
        else { LexGrows(rest, InWord, token + [c], acc); }
      case InQuote(q) =>
        if c == q { LexGrows(rest, InWord, token, acc); }
        else if c == '\\' && q == '"' { LexGrows(rest, Escaped(true), token, acc); }
        else { LexGrows(rest, InQuote(q), token + [c], acc); }
      case Escaped(inDouble) =>
        var kept := if inDouble && c != '\\' && c != '"' then token + ['\\'] else token;
        LexGrows(rest, if inDouble then InQuote('"') else InWord, kept + [c], acc);
    }
  }

  /** Blanks between tokens are skipped. */
  lemma {:induction false} LexBlanks(w: string, t: string, token: string, acc: seq<string>)
    requires forall i :: 0 <= i < |w| ==> IsBlank(w[i])
    ensures Lex(w + t, Between, token, acc) == Lex(t, Between, token, acc)
    decreases |w|
  {
    if w == [] {
      assert w + t == t;
    } else {
      var s := w + t;
      assert s[0] == w[0] && s[1..] == w[1..] + t;
      LexBlanks(w[1..], t, token, acc);
    }
  }

  /** shlex.split finds no token exactly when the input is all blanks. */
  lemma SplitEmpty(s: string)
    ensures Split(s) == Ok([]) <==> forall i :: 0 <= i < |s| ==> IsBlank(s[i])
  {
    var j := FirstNonBlank(s);
    LexBlanks(s[..j], s[j..], "", []);
    assert s == s[..j] + s[j..];
    if j == |s| {
      assert s[j..] == [];
    } else {
      var t := s[j..];
      assert t[0] == s[j] && !IsBlank(t[0]);
      var m := if t[0] == '\\' then Escaped(false) else if IsQuote(t[0]) then InQuote(t[0]) else InWord;
      var tok := if t[0] == '\\' || IsQuote(t[0]) then "" else "" + [t[0]];
      assert Lex(t, Between, "", []) == Lex(t[1..], m, tok, []);
      LexGrows(t[1..], m, tok, []);
    }
  }

  /** Without a blank in the input, Lex never ends a token before the end,
      so it adds at most one. */
  lemma {:induction false} LexNoBlank(s: string, mode: Mode, token: string, acc: seq<string>)
    requires forall i :: 0 <= i < |s| ==> !IsBlank(s[i])
    ensures Lex(s, mode, token, acc).Ok? ==> |Lex(s, mode, token, acc).value| <= |acc| + 1
    decreases |s|
  {
    if s != [] {
      var c, rest := s[0], s[1..];
      assert !IsBlank(c);
      assert forall i :: 0 <= i < |rest| ==> !IsBlank(rest[i]) by {
        forall i | 0 <= i < |rest| ensures !IsBlank(rest[i]) {
          assert rest[i] == s[i + 1];
        }
      }
      match mode
      case Between =>
        if c == '\\' { LexNoBlank(rest, Escaped(false), token, acc); }
        else if IsQuote(c) { LexNoBlank(rest, InQuote(c), token, acc); }
        else { LexNoBlank(rest, InWord, token + [c], acc); }
      case InWord =>
        if IsQuote(c) { LexNoBlank(rest, InQuote(c), token, acc); }
        else if c == '\\' { LexNoBlank(rest, Escaped(false), token, acc); }
        else { LexNoBlank(rest, InWord, token + [c], acc); }
      case InQuote(q) =>
        if c == q { LexNoBlank(rest, InWord, token, acc); }
        else if c == '\\' && q == '"' { LexNoBlank(rest, Escaped(true), token, acc); }
        else { LexNoBlank(rest, InQuote(q), token + [c], acc); }
      case Escaped(inDouble) =>
        var kept := if inDouble && c != '\\' && c != '"' then token + ['\\'] else token;
        LexNoBlank(rest, if inDouble then InQuote('"') else InWord, kept + [c], acc);
    }
  }

  /** shlex.split of a string without a blank gives at most one word. */
  lemma SplitNoBlank(s: string)
    requires forall i :: 0 <= i < |s| ==> !IsBlank(s[i])
    ensures Split(s).Ok? ==> |Split(s).value| <= 1
  {
    LexNoBlank(s, Between, "", []);
  }

  /** The index of the first non-blank character, or |s|. */
  function FirstNonBlank(s: string): (j: nat)
    ensures j <= |s|
    ensures forall i :: 0 <= i < j ==> IsBlank(s[i])
    ensures j < |s| ==> !IsBlank(s[j])
    decreases |s|
  {
    if s == [] || !IsBlank(s[0]) then 0 else 1 + FirstNonBlank(s[1..])
  }

  /** A character shlex gives no special meaning to. */
  predicate IsPlain(c: char) {
    !IsBlank(c) && !IsQuote(c) && c != '\\'
  }

  predicate PlainWord(w: string) {
    |w| > 0 && forall i :: 0 <= i < |w| ==> IsPlain(w[i])
  }

  /** The words written out with one space between each two. */
  function JoinWords(ws: seq<string>): string
    decreases |ws|
  {
    if |ws| == 0 then ""
    else if |ws| == 1 then ws[0]
    else ws[0] + " " + JoinWords(ws[1..])
  }

  lemma {:induction false} LexPlainRun(w: string, rest: string, token: string, acc: seq<string>)
    requires forall i :: 0 <= i < |w| ==> IsPlain(w[i])
    ensures Lex(w + rest, InWord, token, acc) == Lex(rest, InWord, token + w, acc)
    decreases |w|
  {
    if w == [] {
      assert w + rest == rest && token + w == token;
    } else {
      var s := w + rest;
      assert s[0] == w[0] && s[1..] == w[1..] + rest;
      assert IsPlain(w[0]);
      assert Lex(s, InWord, token, acc) == Lex(w[1..] + rest, InWord, token + [w[0]], acc);
      LexPlainRun(w[1..], rest, token + [w[0]], acc);
      assert token + [w[0]] + w[1..] == token + w;
    }
  }

  lemma {:induction false} LexJoinWords(ws: seq<string>, acc: seq<string>)
    requires forall i :: 0 <= i < |ws| ==> PlainWord(ws[i])
    ensures Lex(JoinWords(ws), Between, "", acc) == Ok(acc + ws)
    decreases |ws|
  {
    if |ws| == 0 {
      assert acc + ws == acc;
    } else {
      var w := ws[0];
      var rest := if |ws| == 1 then "" else " " + JoinWords(ws[1..]);
      assert JoinWords(ws) == w + rest;
      assert (w + rest)[0] == w[0] && (w + rest)[1..] == w[1..] + rest;
      assert PlainWord(ws[0]) && IsPlain(w[0]);
      assert "" + [w[0]] == [w[0]];
      assert Lex(w + rest, Between, "", acc) == Lex(w[1..] + rest, InWord, [w[0]], acc);
      LexPlainRun(w[1..], rest, [w[0]], acc);
      assert [w[0]] + w[1..] == w;
      if |ws| == 1 {
        assert ws == [w];
      } else {
        assert rest[0] == ' ' && rest[1..] == JoinWords(ws[1..]);
        LexJoinWords(ws[1..], acc + [w]);
        assert acc + [w] + ws[1..] == acc + ws;
      }
    }
  }

  /** Words that need no quoting come back from shlex.split unchanged. */
  lemma SplitJoinWords(ws: seq<string>)
    requires forall i :: 0 <= i < |ws| ==> PlainWord(ws[i])
    ensures Split(JoinWords(ws)) == Ok(ws)
  {
    LexJoinWords(ws, []);
    assert [] + ws == ws;
  }

  lemma {:induction false} LexInSingleQuotes(w: string, rest: string, token: string, acc: seq<string>)
    requires forall i :: 0 <= i < |w| ==> w[i] != '\''
    ensures Lex(w + rest, InQuote('\''), token, acc) == Lex(rest, InQuote('\''), token + w, acc)
    decreases |w|
  {
    if w == [] {
      assert w + rest == rest && token + w == token;
    } else {
      var s := w + rest;
      assert s[0] == w[0] && s[1..] == w[1..] + rest;
      assert Lex(s, InQuote('\''), token, acc) == Lex(w[1..] + rest, InQuote('\''), token + [w[0]], acc);
      LexInSingleQuotes(w[1..], rest, token + [w[0]], acc);
      assert token + [w[0]] + w[1..] == token + w;
    }
  }

  /** Anything without a single quote in it, blanks and backslashes
      included, survives being wrapped in single quotes as one token. */
  lemma SplitSingleQuoted(w: string)
    requires forall i :: 0 <= i < |w| ==> w[i] != '\''
    ensures Split("'" + w + "'") == Ok([w])
  {
    var s := "'" + w + "'";
    assert s[0] == '\'' && s[1..] == w + "'";
    assert Lex(s, Between, "", []) == Lex(w + "'", InQuote('\''), "", []);
    LexInSingleQuotes(w, "'", "", []);
    assert "" + w == w;
    assert "'"[0] == '\'' && "'"[1..] == "";
    assert Lex("'", InQuote('\''), w, []) == Lex("", InWord, w, []);
    assert [] + [w] == [w];
  }

  /** An opening quote that is never closed is an error, whatever follows. */
  lemma {:induction false} UnclosedQuoteFails(w: string, q: char, token: string, acc: seq<string>)
    requires IsQuote(q)
    requires forall i :: 0 <= i < |w| ==> w[i] != q && w[i] != '\\'
    ensures Lex(w, InQuote(q), token, acc) == Err(NoClosingQuotation)
    decreases |w|
  {
    if w != [] {
      UnclosedQuoteFails(w[1..], q, token + [w[0]], acc);
    }
  }
}
