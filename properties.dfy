/** What the interpreter promises, proved about the functions of Semantics
    (and so, through the contracts of Console.SqlCmd, about the class). */
module Properties {
  import opened Errors
  import opened Text
  import Shlex
  import CS = ConfigStore
  import opened Semantics

  // ---------------------------------------------------------------------
  // precmd: the prefix rules

  /** The state precmd leaves before any substitution: the stripped line
      added to the history. */
  function Recorded(st: State, line: string): State {
    st.(hist := st.hist + [Strip(line)])
  }

  /** A line that starts with REM becomes the line "REM", and nothing but
      the history changes. */
  lemma PrecmdRem(env: Env, st: State, line: string)
    requires StartsWith(line, "REM")
    ensures Precmd(env, st, line) == Next(Recorded(st, line), Ok("REM"))
  {
  }

  /** A line that starts with repeat is passed on unchanged: its STACK
      pieces are left for do_repeat to substitute on every round. */
  lemma PrecmdRepeat(env: Env, st: State, line: string)
    requires StartsWith(line, "repeat")
    ensures Precmd(env, st, line) == Next(Recorded(st, line), Ok(line))
  {
    assert line[0] == 'r';
  }

  /** A parseList line: the third piece, less its first two characters,
      names a workOrder option; an empty value gives "REM", any other
      value takes the place of the piece. The store and stack are left as
      they were. */
  lemma PrecmdParseList(env: Env, st: State, line: string, v: string)
    requires StartsWith(line, "parseList")
    requires |Split(line, true)| >= 3
    requires CS.Get(st.config, CS.WorkOrder, Drop(Split(line, true)[2], 2)) == Ok(v)
    ensures v == "" ==> Precmd(env, st, line) == Next(Recorded(st, line), Ok("REM"))
    ensures v != "" ==>
              Precmd(env, st, line) == Next(Recorded(st, line), Ok(Concat(Split(line, true)[2 := v])))
  {
    SubstituteParseList(env, Recorded(st, line), line);
  }

  /** Substitution of a parseList line is the parseList rule alone: no
      third piece is an IndexError; otherwise config.get decides. */
  lemma SubstituteParseList(env: Env, st: State, line: string)
    requires StartsWith(line, "parseList")
    ensures |Split(line, true)| < 3 ==> Substitute(env, st, line) == Next(st, Err(IndexOutOfRange))
    ensures |Split(line, true)| >= 3 ==>
              var g := CS.Get(st.config, CS.WorkOrder, Drop(Split(line, true)[2], 2));
              Substitute(env, st, line) ==
              Next(st, if g.Err? then Err(g.error)
                       else Ok(if g.value == "" then "REM" else Concat(Split(line, true)[2 := g.value])))
  {
    assert line[0] == 'p';
    FirstCharDiffers(line, "REM");
    FirstCharDiffers(line, "IF");
    FirstCharDiffers(line, "repeat");
  }

  /** A parseList line whose option is missing fails like config.get:
      the empty line on the console, the NoOptionError from a script. */
  lemma PrecmdParseListMissing(env: Env, st: State, line: string)
    requires StartsWith(line, "parseList")
    requires |Split(line, true)| >= 3
    requires CS.Get(st.config, CS.WorkOrder, Drop(Split(line, true)[2], 2)).Err?
    ensures env.fromStdin ==> Precmd(env, st, line) == Next(Recorded(st, line), Ok(""))
    ensures !env.fromStdin ==>
              Precmd(env, st, line) ==
              Next(Recorded(st, line), Err(CS.Get(st.config, CS.WorkOrder, Drop(Split(line, true)[2], 2)).error))
  {
    SubstituteParseList(env, Recorded(st, line), line);
  }

  /** The parseList rule in terms of the line: for "parseList REF rest",
      with no separator inside REF, the option that REF names (less its
      first two characters) takes REF's place and every word of rest is
      passed through as it was; an empty value gives "REM", a missing
      option the empty line on the console and the error from a script.
      Only the history changes. */
  lemma PrecmdParseListWords(env: Env, st: State, line: string, ref: string, rest: string)
    requires NoSep(ref, true)
    requires line == "parseList " + ref + " " + rest
    ensures CS.Get(st.config, CS.WorkOrder, Drop(ref, 2)) == Ok("") ==>
              Precmd(env, st, line) == Next(Recorded(st, line), Ok("REM"))
    ensures (CS.Get(st.config, CS.WorkOrder, Drop(ref, 2)).Ok? &&
             CS.Get(st.config, CS.WorkOrder, Drop(ref, 2)).value != "") ==>
              Precmd(env, st, line) ==
              Next(Recorded(st, line), Ok("parseList " + CS.Get(st.config, CS.WorkOrder, Drop(ref, 2)).value + " " + rest))
    ensures (CS.Get(st.config, CS.WorkOrder, Drop(ref, 2)).Err? && env.fromStdin) ==>
              Precmd(env, st, line) == Next(Recorded(st, line), Ok(""))
    ensures (CS.Get(st.config, CS.WorkOrder, Drop(ref, 2)).Err? && !env.fromStdin) ==>
              Precmd(env, st, line) ==
              Next(Recorded(st, line), Err(CS.Get(st.config, CS.WorkOrder, Drop(ref, 2)).error))
  {
    ParseListSubstituted(line, ref, rest, "");
    var g := CS.Get(st.config, CS.WorkOrder, Drop(ref, 2));
    if g.Ok? {
      ParseListSubstituted(line, ref, rest, g.value);
      PrecmdParseList(env, st, line, g.value);
    } else {
      PrecmdParseListMissing(env, st, line);
    }
  }

  /** The pieces of "parseList REF rest" as the parseList rule reads them:
      REF is the third, and putting v in its place gives "parseList v rest". */
  lemma ParseListSubstituted(line: string, ref: string, rest: string, v: string)
    requires NoSep(ref, true)
    requires line == "parseList " + ref + " " + rest
    ensures StartsWith(line, "parseList")
    ensures |Split(line, true)| >= 3 && Split(line, true)[2] == ref
    ensures Concat(Split(line, true)[2 := v]) == "parseList " + v + " " + rest
  {
    var w := "parseList";
    assert NoSep(w, true) && |w| == 9;
    assert line == w + " " + ref + " " + rest;
    assert line[..9] == w;
    WordsSubstituted(line, w, ref, rest, v);
  }

  /** For "w REF rest" with no separator in w or REF: the split gives w, a
      blank, REF, a blank and the split of rest, and putting v in REF's
      place gives "w v rest". */
  lemma WordsSubstituted(line: string, w: string, ref: string, rest: string, v: string)
    requires NoSep(w, true) && NoSep(ref, true)
    requires line == w + " " + ref + " " + rest
    ensures |Split(line, true)| >= 3 && Split(line, true)[2] == ref
    ensures Concat(Split(line, true)[2 := v]) == w + " " + v + " " + rest
  {
    WordsPieces(line, w, ref, rest);
    var tail := Split(rest, true);
    var x := Split(line, true)[2 := v];
    assert x == [w, " "] + ([v, " "] + tail);
    ConcatCons(w, " ", [v, " "] + tail);
    ConcatCons(v, " ", tail);
    SplitConcat(rest, true);
    assert Concat(x) == w + " " + (v + " " + rest);
  }

  /** re.split of "w REF rest": w, a blank, REF, a blank, and the split of
      rest. */
  lemma WordsPieces(line: string, w: string, ref: string, rest: string)
    requires NoSep(w, true) && NoSep(ref, true)
    requires line == w + " " + ref + " " + rest
    ensures Split(line, true) == [w, " ", ref, " "] + Split(rest, true)
  {
    var t := ref + " " + rest;
    assert line == w + " " + t;
    FirstWord(line, w, t);
    FirstWord(t, ref, rest);
  }

  /** re.split of "w t" with no separator in w: w, a blank, and the split
      of t. */
  lemma FirstWord(s: string, w: string, t: string)
    requires NoSep(w, true)
    requires s == w + " " + t
    ensures Split(s, true) == [w, " "] + Split(t, true)
  {
    assert s[..|w|] == w && s[|w|] == ' ' && s[|w| + 1..] == t;
    SepIndexAt(s, |w|, true);
    SplitStep(s, true);
  }

  /** An ALG piece of a line has no words after its first: re.split cuts
      the line at every blank, so shlex.split of the piece gives at most
      one word, alg[1:] is empty and eval('') raises. This is why
      ResolvePiece makes every ALG piece fail. */
  lemma AlgPieceHasOneWord(line: string, i: nat)
    requires i < |Split(line, true)| && Contains(Split(line, true)[i], "ALG")
    ensures Shlex.Split(Split(line, true)[i]).Ok? ==> |Shlex.Split(Split(line, true)[i]).value| <= 1
  {
    var pieces := Split(line, true);
    var p := pieces[i];
    SplitSpec(line, true);
    if i % 2 == 1 {
      assert false;
    }
    assert NoSep(p, true);
    assert forall k :: 0 <= k < |p| ==> !Shlex.IsBlank(p[k]) by {
      forall k | 0 <= k < |p| ensures !Shlex.IsBlank(p[k]) {
        assert !IsSep(p[k], true);
      }
    }
    Shlex.SplitNoBlank(p);
  }

  // ---------------------------------------------------------------------
  // precmd: the substitution loop

  /** Resolving the pieces of a line one part after the other is resolving
      them all at once: the loop joins the resolved pieces in order, and a
      failure in the first part stops before the second is looked at. */
  lemma {:induction false} ResolveAppend(env: Env, st: State, a: seq<string>, b: seq<string>)
    ensures Resolve(env, st, a + b) ==
              match Resolve(env, st, a).result
              case Err(_) => Resolve(env, st, a)
              case Ok(u) => Prepend(u, Resolve(env, Resolve(env, st, a).state, b))
    decreases |a|
  {
    if a == [] {
      assert a + b == b;
      var n := Resolve(env, st, b);
      if n.result.Ok? {
        assert "" + n.result.value == n.result.value;
      }
    } else {
      assert (a + b)[0] == a[0] && (a + b)[1..] == a[1..] + b;
      var first := ResolvePiece(env, st, a[0]);
      if first.result.Ok? {
        ResolveAppend(env, first.state, a[1..], b);
        var r1 := Resolve(env, first.state, a[1..]);
        if r1.result.Ok? {
          PrependPrepend(first.result.value, r1.result.value, Resolve(env, r1.state, b));
        }
      }
    }
  }

  /** A piece that holds none of the markers. */
  predicate PlainPiece(p: string) {
    forall m :: m in Markers() ==> !Contains(p, m)
  }

  /** Pieces without markers resolve to themselves, joined in order, and
      touch nothing. */
  lemma {:induction false} ResolvePlain(env: Env, st: State, pieces: seq<string>)
    requires forall i :: 0 <= i < |pieces| ==> PlainPiece(pieces[i])
    ensures Resolve(env, st, pieces) == Next(st, Ok(Concat(pieces)))
    decreases |pieces|
  {
    if pieces != [] {
      assert PlainPiece(pieces[0]);
      assert Classify(pieces[0]) == Literal;
      ResolvePlain(env, st, pieces[1..]);
    }
  }

  /** A line outside the prefix rules whose pieces hold no marker comes out
      of precmd exactly as it went in, separators and all. */
  lemma PrecmdPlain(env: Env, st: State, line: string)
    requires !StartsWith(line, "REM") && !StartsWith(line, "repeat") && !StartsWith(line, "parseList")
    requires forall i :: 0 <= i < |Split(line, true)| ==> PlainPiece(Split(line, true)[i])
    ensures Precmd(env, st, line) == Next(Recorded(st, line), Ok(line))
  {
    ResolvePlain(env, Recorded(st, line), Split(line, true));
    SplitSpec(line, true);
  }

  /** The state the loop leaves when the first piece is a stack reference
      and the second a missing store reference: the pop is made and stays
      made, whatever happens to the failure. */
  lemma ResolvePopThenFail(env: Env, st: State, p: string, q: string, rest: seq<string>)
    requires st.stack != []
    requires Contains(p, "STACK") && !Contains(p, "@$")
    requires Contains(q, "@$") && CS.Get(st.config, CS.WorkOrder, Drop(q, 2)).Err?
    ensures Resolve(env, st, [p, q] + rest) ==
              Next(st.(stack := Popped(st.stack)), Err(CS.Get(st.config, CS.WorkOrder, Drop(q, 2)).error))
  {
    var pieces := [p, q] + rest;
    assert pieces[0] == p && pieces[1..] == [q] + rest;
    assert pieces[1..][0] == q;
  }

  /** A failed substitution on the console: the empty line, the history
      entry made, and the pops before the failure kept; from a script the
      failure itself, with the same state. */
  lemma PrecmdFailure(env: Env, st: State, line: string)
    requires Substitute(env, Recorded(st, line), line).result.Err?
    ensures Precmd(env, st, line).state == Substitute(env, Recorded(st, line), line).state
    ensures Precmd(env, st, line).state.hist == st.hist + [Strip(line)]
    ensures env.fromStdin ==> Precmd(env, st, line).result == Ok("")
    ensures !env.fromStdin ==> Precmd(env, st, line).result == Substitute(env, Recorded(st, line), line).result
  {
  }

  /** The loop changes the stack only, popping exactly one value for each
      STACK piece when it succeeds, and leaves the registers and store as
      they were. */
  lemma ResolveFrame(env: Env, st: State, pieces: seq<string>)
    ensures Resolve(env, st, pieces).state.config == st.config
    ensures Resolve(env, st, pieces).state.reg1 == st.reg1 && Resolve(env, st, pieces).state.reg2 == st.reg2
    ensures Resolve(env, st, pieces).state.reg3 == st.reg3 && Resolve(env, st, pieces).state.reg4 == st.reg4
    ensures Resolve(env, st, pieces).result.Ok? ==>
              Resolve(env, st, pieces).state.stack == st.stack[..|st.stack| - CountStackRefs(pieces)]
  {
    var n := Resolve(env, st, pieces);
    assert n.state.stack <= st.stack;
  }

  // ---------------------------------------------------------------------
  // Dispatch

  /** Every handler's name leads back to it through the table. */
  lemma LookupVerbRoundTrip(v: Verb)
    ensures LookupVerb(VerbName(v)) == Some(v)
  {
  }

  /** The table knows no other names. */
  lemma LookupVerbNames(cmd: string)
    requires LookupVerb(cmd).Some?
    ensures VerbName(LookupVerb(cmd).value) == cmd
  {
  }

  /** exit and EOF stop the loop and change nothing. */
  lemma ExitStops(env: Env, st: State, arg: string, fuel: nat)
    ensures Dispatch(env, st, Exit, arg, fuel) == Next(st, Ok(true))
    ensures Dispatch(env, st, Eof, arg, fuel) == Next(st, Ok(true))
  {
  }

  /** A command that is no handler's name goes to the backend. */
  lemma OneCmdDefault(env: Env, st: State, line: string, fuel: nat)
    requires ParseLine(line).Command? && LookupVerb(ParseLine(line).cmd).None?
    ensures OneCmd(env, st, line, fuel) == Catch(env, Default(env, st, ParseLine(line).line))
    ensures OneCmd(env, st, line, fuel).state.executed == st.executed + [ParseLine(line).line]
  {
  }

  /** An empty or all-whitespace line does nothing: emptyline is a no-op. */
  lemma OneCmdEmpty(env: Env, st: State, line: string, fuel: nat)
    requires forall i :: 0 <= i < |line| ==> IsSpace(line[i])
    ensures OneCmd(env, st, line, fuel) == Next(st, Ok(false))
  {
    StripSpec(line);
  }

  // ---------------------------------------------------------------------
  // do_set

  /** 'set S K V' stores V as option K of section S, which get then reads
      back; that store update is the whole new state. */
  lemma DoSetStores(st: State, args: string, w: seq<string>)
    requires Shlex.Split(args) == Ok(w) && |w| >= 3 && w[0] in st.config
    requires w[1] != "select" && w[1] != "=" && w[1] != "pop"
    ensures DoSet(st, args) == Next(st.(config := CS.Set(st.config, w[0], w[1], w[2]).value), Ok(()))
    ensures CS.Get(DoSet(st, args).state.config, w[0], w[1]) == Ok(w[2])
    ensures DoSet(st, args).state.stack == st.stack
  {
    CS.SetThenGet(st.config, w[0], w[1], w[2]);
  }

  /** 'set S = T S2 K2' copies option K2 of section S2 into option T of S;
      that store update is the whole new state. */
  lemma DoSetCopies(st: State, args: string, w: seq<string>, v: string)
    requires Shlex.Split(args) == Ok(w) && |w| >= 5 && w[1] == "=" && w[0] in st.config
    requires CS.Get(st.config, w[3], w[4]) == Ok(v)
    ensures DoSet(st, args) == Next(st.(config := CS.Set(st.config, w[0], w[2], v).value), Ok(()))
    ensures CS.Get(DoSet(st, args).state.config, w[0], w[2]) == Ok(v)
    ensures DoSet(st, args).state.stack == st.stack
  {
    CS.SetThenGet(st.config, w[0], w[2], v);
  }

  /** 'set S pop K' pops the top of the stack into option K of S; when S
      does not exist the pop is still made and the failure reported. */
  lemma DoSetPops(st: State, args: string, w: seq<string>)
    requires Shlex.Split(args) == Ok(w) && |w| >= 3 && w[1] == "pop" && st.stack != []
    ensures DoSet(st, args).state.stack == Popped(st.stack)
    ensures w[0] in st.config ==>
              DoSet(st, args) ==
              Next(st.(stack := Popped(st.stack), config := CS.Set(st.config, w[0], w[2], Top(st.stack)).value), Ok(()))
    ensures w[0] in st.config ==> CS.Get(DoSet(st, args).state.config, w[0], w[2]) == Ok(Top(st.stack))
    ensures w[0] !in st.config ==>
              DoSet(st, args) == Next(st.(stack := Popped(st.stack)), Err(NoSection(w[0])))
  {
    if w[0] in st.config {
      CS.SetThenGet(st.config, w[0], w[2], Top(st.stack));
    }
  }

  // ---------------------------------------------------------------------
  // The stack built-ins

  /** do_pushAllRows grows the stack by the number of cells. */
  lemma PushAllRowsCount(st: State)
    ensures |DoPushAllRows(st).stack| == |st.stack| + CellCount(st.rows)
    ensures DoPushAllRows(st).stack[..|st.stack|] == st.stack
  {
    FlattenCount(st.rows);
  }

  /** Rows go on one after the other, each left to right: the cells of the
      last row come last, so its last cell is popped first. */
  lemma PushAllRowsOrder(st: State)
    requires st.rows != [] && st.rows[|st.rows| - 1] != []
    ensures DoPushAllRows(st).stack ==
              st.stack + Flatten(st.rows[..|st.rows| - 1]) + st.rows[|st.rows| - 1]
    ensures DoPop(DoPushAllRows(st)).result == Ok(st.rows[|st.rows| - 1][|st.rows[|st.rows| - 1]| - 1])
  {
    var k := |st.rows| - 1;
    FlattenAppend(st.rows[..k], [st.rows[k]]);
    assert st.rows[..k] + [st.rows[k]] == st.rows;
    assert Flatten([st.rows[k]]) == st.rows[k] + Flatten([]);
  }

  /** do_pushAll fails exactly when the argument does not split into words
      naming an existing section, and then leaves the stack empty; when it
      succeeds it pushes the section's values in items() order. */
  lemma PushAllSpec(st: State, args: string)
    ensures DoPushAll(st, args).result.Ok? <==>
              Shlex.Split(args).Ok? && |Shlex.Split(args).value| > 0 && Shlex.Split(args).value[0] in st.config
    ensures DoPushAll(st, args).result.Err? ==> DoPushAll(st, args).state.stack == []
    ensures DoPushAll(st, args).result.Ok? ==>
              DoPushAll(st, args).state.stack == st.stack + CS.Values(st.config[Shlex.Split(args).value[0]])
  {
  }

  /** do_pop answers the top of the stack and removes it. */
  lemma PopTop(st: State, v: string)
    ensures DoPop(st.(stack := st.stack + [v])) == Next(st, Ok(v))
  {
    assert (st.stack + [v])[..|st.stack|] == st.stack;
  }

  /** The register an id names: '1' to '4'. */
  function RegisterId(k: int): string
    requires 1 <= k <= 4
  {
    [DigitChar(k)]
  }

  /** do_reg with id '1' to '4' sets that register to the second word and
      no other; any other id sets none. Nothing but registers changes. */
  lemma RegSetsOne(st: State, args: string, k: int)
    requires 1 <= k <= 4
    requires Shlex.Split(args).Ok? && |Shlex.Split(args).value| >= 2
    ensures DoReg(st, args).result.Ok?
    ensures Register(DoReg(st, args).state, k) ==
              if Shlex.Split(args).value[0] == RegisterId(k) then Shlex.Split(args).value[1] else Register(st, k)
    ensures DoReg(st, args).state == st.(reg1 := DoReg(st, args).state.reg1, reg2 := DoReg(st, args).state.reg2,
                                         reg3 := DoReg(st, args).state.reg3, reg4 := DoReg(st, args).state.reg4)
  {
    assert RegisterId(1) == "1" && RegisterId(2) == "2" && RegisterId(3) == "3" && RegisterId(4) == "4";
  }

  // ---------------------------------------------------------------------
  // returnValue

  /** returnValue gives back the number stored as workOrder's OrderID. */
  lemma ReturnValueOfOrderId(config: CS.Store, n: int)
    requires CS.WorkOrder in config
    ensures ReturnValue(CS.Set(config, CS.WorkOrder, "OrderID", IntToString(n)).value) == Ok(n)
  {
    CS.SetThenGet(config, CS.WorkOrder, "OrderID", IntToString(n));
    ParseIntOfIntToString(n);
  }

  // ---------------------------------------------------------------------
  // do_repeat

  /** onecmd(precmd(line)) when precmd succeeds. */
  lemma RunLineOk(env: Env, st: State, line: string, fuel: nat)
    requires Precmd(env, st, line).result.Ok?
    ensures RunLine(env, st, line, fuel) ==
              OneCmd(env, Precmd(env, st, line).state, Precmd(env, st, line).result.value, fuel)
  {
    assert RunLine(env, st, line, fuel) == RunPrecmd(env, st, line, fuel);
  }

  /** onecmd on a line naming one of the handlers that run no further lines. */
  lemma OneCmdBuiltin(env: Env, st: State, line: string, fuel: nat, v: Verb)
    requires ParseLine(line).Command? && LookupVerb(ParseLine(line).cmd) == Some(v)
    requires !v.Exit? && !v.Eof? && !v.ParseList? && !v.Repeat?
    ensures OneCmd(env, st, line, fuel) == Catch(env, Builtin(st, v, ParseLine(line).arg))
  {
    assert Dispatch(env, st, v, ParseLine(line).arg, fuel) == Builtin(st, v, ParseLine(line).arg);
  }

  /** A single word of identifier characters is its own command. */
  lemma ParseLineWord(w: string)
    requires w != [] && IsIdent(w) && w[0] != '?' && w[0] != '!'
    ensures ParseLine(w) == Command(w, "", w)
  {
    StripSpec(w);
    assert Strip(w) == w;
    IdentLenAll(w);
    assert w[|w|..] == "";
    StripSpec("");
  }

  lemma {:induction false} IdentLenAll(w: string)
    requires IsIdent(w)
    ensures IdentLen(w) == |w|
    decreases |w|
  {
    if w != [] {
      IdentLenAll(w[1..]);
    }
  }

  /** A REM template runs the do-nothing handler do_REM. */
  lemma RunRem(env: Env, st: State, template: string, fuel: nat)
    requires StartsWith(template, "REM")
    ensures RunLine(env, st, template, fuel) == Next(Recorded(st, template), Ok(false))
  {
    PrecmdRem(env, st, template);
    ParseLineRem();
    LookupRem();
    RunWord(env, st, template, "REM", fuel, Rem);
    BuiltinRem(env, Recorded(st, template));
  }

  lemma ParseLineRem()
    ensures ParseLine("REM") == Command("REM", "", "REM")
  {
    ParseLineWord("REM");
  }

  lemma LookupRem()
    ensures LookupVerb("REM") == Some(Rem)
  {
  }

  lemma BuiltinRem(env: Env, st: State)
    ensures Catch(env, Builtin(st, Rem, "")) == Next(st, Ok(false))
  {
  }

  /** A REM template never pops, so with anything on the stack the repeat
      loop only ends at the step bound. */
  lemma {:induction false} RepeatRemNeverEnds(env: Env, st: State, template: string, fuel: nat)
    requires StartsWith(template, "REM")
    requires st.stack != []
    ensures DoRepeat(env, st, template, fuel).result == Err(OutOfFuel)
    decreases fuel
  {
    if fuel > 0 {
      RunRem(env, st, template, fuel - 1);
      RepeatRemNeverEnds(env, Recorded(st, template), template, fuel - 1);
    }
  }

  /** A template that, whenever the stack is not empty, runs without
      failing and pops exactly one value. */
  ghost predicate PopsOnce(env: Env, template: string) {
    forall s: State, f: nat {:trigger RunLine(env, s, template, f)} :: s.stack != [] ==>
      RunLine(env, s, template, f).result.Ok? && RunLine(env, s, template, f).state.stack == Popped(s.stack)
  }

  /** k runs of the template, one after the other, each with one step less. */
  function Rounds(env: Env, st: State, template: string, k: nat, fuel: nat): State
    requires k <= fuel
    decreases k
  {
    if k == 0 then st
    else Rounds(env, RunLine(env, st, template, fuel - 1).state, template, k - 1, fuel - 1)
  }

  /** A template that pops once per run is run exactly as many times as
      there are values on the stack, and the loop then ends with it empty;
      with fewer steps than values the step bound is reached. */
  lemma {:induction false} RepeatRunsPerValue(env: Env, st: State, template: string, fuel: nat)
    requires PopsOnce(env, template)
    ensures |st.stack| <= fuel ==>
              DoRepeat(env, st, template, fuel) == Next(Rounds(env, st, template, |st.stack|, fuel), Ok(()))
    ensures fuel < |st.stack| ==> DoRepeat(env, st, template, fuel).result == Err(OutOfFuel)
    decreases fuel
  {
    if st.stack != [] && fuel > 0 {
      var c := RunLine(env, st, template, fuel - 1);
      assert c.result.Ok? && c.state.stack == Popped(st.stack);
      RepeatRunsPerValue(env, c.state, template, fuel - 1);
    }
  }

  /** The template 'pop' is one such template. */
  lemma PopPopsOnce(env: Env)
    ensures PopsOnce(env, "pop")
  {
    forall s: State, f: nat | s.stack != []
      ensures RunLine(env, s, "pop", f).result.Ok? && RunLine(env, s, "pop", f).state.stack == Popped(s.stack)
    {
      RunPop(env, s, f);
    }
  }

  /** precmd leaves 'pop' as it is. */
  lemma PrecmdPop(env: Env, st: State)
    ensures Precmd(env, st, "pop") == Next(Recorded(st, "pop"), Ok("pop"))
  {
    SplitPop();
    PlainPop();
    PrefixPop();
    PrecmdWord(env, st, "pop");
  }

  lemma SplitPop()
    ensures Split("pop", true) == ["pop"]
  {
    assert SepIndex("pop", true) == 3;
  }

  lemma PlainPop()
    ensures PlainPiece("pop")
  {
    forall m | m in Markers() ensures !Contains("pop", m) {
      LacksFirstChar("pop", m);
    }
  }

  lemma PrefixPop()
    ensures !StartsWith("pop", "REM") && !StartsWith("pop", "repeat") && !StartsWith("pop", "parseList")
  {
    FirstCharDiffers("pop", "REM");
    FirstCharDiffers("pop", "repeat");
  }

  lemma FirstCharDiffers(s: string, p: string)
    requires |s| > 0 && |p| > 0 && s[0] != p[0]
    ensures !StartsWith(s, p)
  {
    if |p| <= |s| {
      assert s[..|p|][0] == s[0];
    }
  }

  /** A string none of whose characters starts t does not contain t. */
  lemma {:induction false} LacksFirstChar(s: string, t: string)
    requires |t| > 0 && forall i :: 0 <= i < |s| ==> s[i] != t[0]
    ensures !Contains(s, t)
    decreases |s|
  {
    if |t| <= |s| {
      assert s[..|t|][0] == s[0];
      LacksFirstChar(s[1..], t);
    }
  }

  /** A line with no separator and no marker passes precmd unchanged. */
  lemma PrecmdWord(env: Env, st: State, w: string)
    requires !StartsWith(w, "REM") && !StartsWith(w, "repeat") && !StartsWith(w, "parseList")
    requires Split(w, true) == [w] && PlainPiece(w)
    ensures Precmd(env, st, w) == Next(Recorded(st, w), Ok(w))
  {
    PrecmdPlain(env, st, w);
  }

  /** The line 'pop' pops the top of the stack and prints it. */
  lemma RunPop(env: Env, st: State, fuel: nat)
    ensures RunLine(env, st, "pop", fuel) == Next(DoPop(Recorded(st, "pop")).state, Ok(false))
  {
    PrecmdPop(env, st);
    ParseLinePop();
    LookupPop();
    RunWord(env, st, "pop", "pop", fuel, Pop);
    BuiltinPop(env, Recorded(st, "pop"));
  }

  lemma BuiltinPop(env: Env, st: State)
    ensures Catch(env, Builtin(st, Pop, "")) == Next(DoPop(st).state, Ok(false))
  {
  }

  lemma ParseLinePop()
    ensures ParseLine("pop") == Command("pop", "", "pop")
  {
    ParseLineWord("pop");
  }

  lemma LookupPop()
    ensures LookupVerb("pop") == Some(Pop)
  {
  }

  /** A line that precmd leaves as it is and that is one handler's bare
      name runs that handler with an empty argument. */
  lemma RunWord(env: Env, st: State, line: string, w: string, fuel: nat, v: Verb)
    requires Precmd(env, st, line) == Next(Recorded(st, line), Ok(w))
    requires ParseLine(w) == Command(w, "", w) && LookupVerb(w) == Some(v)
    requires !v.Exit? && !v.Eof? && !v.ParseList? && !v.Repeat?
    ensures RunLine(env, st, line, fuel) == Catch(env, Builtin(Recorded(st, line), v, ""))
  {
    RunLineOk(env, st, line, fuel);
    OneCmdBuiltin(env, Recorded(st, line), w, fuel, v);
  }

  // ---------------------------------------------------------------------
  // do_parseList

  /** The argument do_parseList recurses with, the next section's name, a
      space and the template, splits back into that name and template. */
  lemma WalkArgs(section: string, template: string)
    requires NoSep(section, false)
    ensures WalkSection(section + " " + template) == section
    ensures WalkTemplate(section + " " + template) == template
  {
    var s := section + " " + template;
    assert SepIndex(s, false) == |section| by {
      SepIndexSpec(s, false);
      assert s[..|section|] == section;
      SepIndexAt(s, |section|, false);
    }
    assert s[..|section|] == section && s[|section| + 1..] == template;
    SplitStep(s, false);
    var parts := Split(s, false);
    assert parts[2..] == Split(template, false);
    SplitSpec(template, false);
  }

  /** SepIndex finds the first separator: one at k with none before it. */
  lemma {:induction false} SepIndexAt(s: string, k: nat, withQuote: bool)
    requires k < |s| && IsSep(s[k], withQuote) && NoSep(s[..k], withQuote)
    ensures SepIndex(s, withQuote) == k
    decreases k
  {
    if k > 0 {
      assert s[..k][0] == s[0];
      assert s[1..][..k - 1] == s[..k][1..];
      SepIndexAt(s[1..], k - 1, withQuote);
    }
  }

  /** Copying a section's items into workOrder: every item can then be read
      back from workOrder, and every option the section lacks reads as
      before. The section's options are distinct and lower-case, as
      config.items(section) returns them. */
  lemma {:induction false} CopyItemsSets(config: CS.Store, items: CS.Section)
    requires CS.WorkOrder in config
    requires CS.DistinctOptions(items) && CS.LowerOptions(items)
    ensures CopyItems(config, items).Ok?
    ensures forall i :: 0 <= i < |items| ==>
              CS.Get(CopyItems(config, items).value, CS.WorkOrder, items[i].0) == Ok(items[i].1)
    ensures forall o :: (forall i :: 0 <= i < |items| ==> items[i].0 != Lower(o)) ==>
              CS.Get(CopyItems(config, items).value, CS.WorkOrder, o) == CS.Get(config, CS.WorkOrder, o)
    decreases |items|
  {
    if items != [] {
      var (k, v) := items[0];
      var tail := items[1..];
      var c := CS.Set(config, CS.WorkOrder, k, v).value;
      assert CS.DistinctOptions(tail) && CS.LowerOptions(tail) by {
        forall i | 0 <= i < |tail| ensures tail[i] == items[i + 1] { }
      }
      CopyItemsSets(c, tail);
      var r := CopyItems(c, tail).value;
      assert CopyItems(config, items) == CopyItems(c, tail);
      assert Lower(k) == k;
      assert forall i :: 0 <= i < |tail| ==> tail[i].0 != Lower(k) by {
        forall i | 0 <= i < |tail| ensures tail[i].0 != Lower(k) {
          assert tail[i] == items[i + 1];
        }
      }
      CS.SetThenGet(config, CS.WorkOrder, k, v);
      assert CS.Get(r, CS.WorkOrder, k) == Ok(v);
      forall i | 0 <= i < |items|
        ensures CS.Get(r, CS.WorkOrder, items[i].0) == Ok(items[i].1)
      {
        if i > 0 {
          assert items[i] == tail[i - 1];
        }
      }
      forall o | forall i :: 0 <= i < |items| ==> items[i].0 != Lower(o)
        ensures CS.Get(r, CS.WorkOrder, o) == CS.Get(config, CS.WorkOrder, o)
      {
        assert items[0].0 != Lower(o);
        assert forall i :: 0 <= i < |tail| ==> tail[i].0 != Lower(o) by {
          forall i | 0 <= i < |tail| ensures tail[i].0 != Lower(o) {
            assert tail[i] == items[i + 1];
          }
        }
        CS.SetLeavesOthers(config, CS.WorkOrder, k, v, CS.WorkOrder, o);
      }
    }
  }

  // ---------------------------------------------------------------------
  // do_parseList: one run of the template per section of the chain

  /** A template whose successful runs leave the store as it was. */
  ghost predicate KeepsStore(env: Env, template: string) {
    forall s: State, f: nat {:trigger RunLine(env, s, template, f)} ::
      RunLine(env, s, template, f).result.Ok? ==> RunLine(env, s, template, f).state.config == s.config
  }

  /** The walk from section along the option next: each section present,
      none of them workOrder and none holding whitespace, and the chain
      ending within k sections. */
  ghost predicate ChainFits(config: CS.Store, section: string, k: nat)
    decreases k
  {
    k > 0 && section in config && section != CS.WorkOrder && NoSep(section, false) &&
    (CS.HasOption(config, section, "next") ==>
       ChainFits(config, CS.GetOr(config, section, "next", ""), k - 1))
  }

  /** The number of sections of such a chain. */
  ghost function ChainLength(config: CS.Store, section: string, k: nat): nat
    requires ChainFits(config, section, k)
    decreases k
  {
    if CS.HasOption(config, section, "next") then
      1 + ChainLength(config, CS.GetOr(config, section, "next", ""), k - 1)
    else 1
  }

  /** Two stores that differ at most in workOrder have the same chains. */
  lemma {:induction false} ChainFrame(c1: CS.Store, c2: CS.Store, section: string, k: nat)
    requires forall s :: s != CS.WorkOrder ==> (s in c1 <==> s in c2)
    requires forall s :: s != CS.WorkOrder && s in c1 ==> c1[s] == c2[s]
    ensures ChainFits(c1, section, k) <==> ChainFits(c2, section, k)
    ensures ChainFits(c1, section, k) ==> ChainLength(c1, section, k) == ChainLength(c2, section, k)
    decreases k
  {
    if k > 0 && section in c1 && section != CS.WorkOrder {
      var next := CS.GetOr(c1, section, "next", "");
      assert CS.HasOption(c1, section, "next") == CS.HasOption(c2, section, "next");
      assert next == CS.GetOr(c2, section, "next", "");
      ChainFrame(c1, c2, next, k - 1);
    }
  }

  /** A walk with a template that pops once and keeps the store runs the
      template once for each section of the chain: it succeeds and takes
      exactly that many values off the stack. */
  lemma {:induction false} WalkPopsPerSection(env: Env, st: State, section: string, template: string, fuel: nat)
    requires PopsOnce(env, template) && KeepsStore(env, template)
    requires CS.WorkOrder in st.config
    requires ChainFits(st.config, section, fuel)
    requires ChainLength(st.config, section, fuel) <= |st.stack|
    ensures WalkNode(env, st, section, template, fuel).result.Ok?
    ensures WalkNode(env, st, section, template, fuel).state.stack ==
              st.stack[..|st.stack| - ChainLength(st.config, section, fuel)]
    decreases fuel
  {
    var items := st.config[section];
    var copied := CopyItems(st.config, items).value;
    var st1 := st.(config := copied);
    assert WalkNode(env, st, section, template, fuel) == WalkRun(env, st1, section, template, fuel - 1);
    var c := RunLine(env, st1, template, fuel - 1);
    assert c.result.Ok? && c.state.stack == Popped(st.stack) && c.state.config == copied;
    assert CS.HasOption(copied, section, "next") == CS.HasOption(st.config, section, "next");
    if CS.HasOption(st.config, section, "next") {
      var next := CS.GetOr(st.config, section, "next", "");
      assert next == CS.GetOr(copied, section, "next", "");
      WalkArgs(next, template);
      ChainFrame(st.config, copied, next, fuel - 1);
      WalkPopsPerSection(env, c.state, next, template, fuel - 1);
      assert WalkRun(env, st1, section, template, fuel - 1) ==
             WalkNode(env, c.state, next, template, fuel - 1);
    }
  }

  /** The template 'pop' keeps the store. */
  lemma PopKeepsStore(env: Env)
    ensures KeepsStore(env, "pop")
  {
    forall s: State, f: nat
      ensures RunLine(env, s, "pop", f).state.config == s.config
    {
      RunPop(env, s, f);
    }
  }

  /** The same for the command itself: parseList with a section name and a
      template. */
  lemma ParseListPopsPerSection(env: Env, st: State, section: string, template: string, fuel: nat)
    requires PopsOnce(env, template) && KeepsStore(env, template)
    requires CS.WorkOrder in st.config
    requires ChainFits(st.config, section, fuel)
    requires ChainLength(st.config, section, fuel) <= |st.stack|
    ensures DoParseList(env, st, section + " " + template, fuel).result.Ok?
    ensures DoParseList(env, st, section + " " + template, fuel).state.stack ==
              st.stack[..|st.stack| - ChainLength(st.config, section, fuel)]
  {
    WalkArgs(section, template);
    WalkPopsPerSection(env, st, section, template, fuel);
  }
}
