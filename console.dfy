/** The interpreter object of sqlCmd.py: its fields are updated in place
    by the hooks and built-ins, exactly as the functions of Semantics say. */
module Console {
  import opened Errors
  import opened Text
  import Shlex
  import CS = ConfigStore
  import S = Semantics

  class SqlCmd {
    /** Console or script input, and the backend. */
    const env: S.Env

    var stack: seq<string>
    var register1: string
    var register2: string
    var register3: string
    var register4: string
    var config: CS.Store
    var rows: seq<seq<string>>
    var hist: seq<string>
    /** The statements sent to the backend so far. */
    var executed: seq<string>

    /** The fields as one value. */
    function Snapshot(): S.State
      reads this
    {
      S.State(stack, register1, register2, register3, register4, config, rows, hist, executed)
    }

    /** __init__ and preloop: empty stack, registers, rows and history; the
        store read at start-up, or only an empty workOrder section. */
    constructor (env: S.Env, initial: Option<CS.Store>)
      ensures this.env == env
      ensures Snapshot() == S.Initial(initial)
    {
      this.env := env;
      stack := [];
      register1, register2, register3, register4 := "", "", "", "";
      config := if initial.Some? then initial.value else map[CS.WorkOrder := []];
      rows := [];
      hist := [];
      executed := [];
    }

    /** returnValue */
    method ReturnValue() returns (r: Result<int>)
      ensures r == S.ReturnValue(config)
    {
      if CS.HasOption(config, CS.WorkOrder, "OrderID") {
        r := ParseInt(CS.GetOr(config, CS.WorkOrder, "OrderID", ""));
      } else {
        r := Ok(0);
      }
    }

    // -------------------------------------------------------------------
    // precmd

    /** One piece of the line, resolved; a stack reference pops. */
    method ResolvePiece(p: string) returns (r: Result<string>)
      modifies this
      ensures Snapshot() == S.ResolvePiece(env, old(Snapshot()), p).state
      ensures r == S.ResolvePiece(env, old(Snapshot()), p).result
    {
      match S.Classify(p)
      case StoreRef =>
        r := CS.Get(config, CS.WorkOrder, Drop(p, 2));
      case StackRef =>
        if stack == [] {
          return Err(EmptyPop);
        }
        r := Ok(stack[|stack| - 1]);
        stack := stack[..|stack| - 1];
      case RegisterRef(k) =>
        r := Ok(if k == 1 then register1 else if k == 2 then register2 else if k == 3 then register3 else register4);
      case Expression =>
        var w := Shlex.Split(p);
        r := if w.Err? then Err(w.error) else Err(EvalFailed(p));
      case Literal =>
        r := Ok(p);
    }

    /** The substitution loop over the split pieces. */
    method Resolve(pieces: seq<string>) returns (r: Result<string>)
      modifies this
      ensures Snapshot() == S.Resolve(env, old(Snapshot()), pieces).state
      ensures r == S.Resolve(env, old(Snapshot()), pieces).result
    {
      var output := "";
      ghost var whole := S.Resolve(env, Snapshot(), pieces);
      assert whole.result.Ok? ==> "" + whole.result.value == whole.result.value;
      assert pieces[0..] == pieces;
      for i := 0 to |pieces|
        invariant S.Resolve(env, old(Snapshot()), pieces) == S.Prepend(output, S.Resolve(env, Snapshot(), pieces[i..]))
      {
        assert pieces[i..][1..] == pieces[i + 1..];
        var value := ResolvePiece(pieces[i]);
        if value.Err? {
          return Err(value.error);
        }
        S.PrependPrepend(output, value.value, S.Resolve(env, Snapshot(), pieces[i + 1..]));
        output := output + value.value;
      }
      assert pieces[|pieces|..] == [];
      r := Ok(output);
      assert output + "" == output;
    }

    /** precmd: record the stripped line, then rewrite it. */
    method Precmd(line: string) returns (r: Result<string>)
      modifies this
      ensures Snapshot() == S.Precmd(env, old(Snapshot()), line).state
      ensures r == S.Precmd(env, old(Snapshot()), line).result
    {
      hist := hist + [Strip(line)];
      var pieces := Split(line, true);
      if StartsWith(line, "REM") {
        r := Ok("REM");
      } else if StartsWith(line, "IF") {
        r := Resolve(pieces);
      } else if StartsWith(line, "repeat") {
        r := Ok(line);
      } else if StartsWith(line, "parseList") {
        if |pieces| < 3 {
          r := Err(IndexOutOfRange);
        } else {
          var v := CS.Get(config, CS.WorkOrder, Drop(pieces[2], 2));
          r := if v.Err? then v else Ok(if v.value == "" then "REM" else Concat(pieces[2 := v.value]));
        }
      } else {
        r := Resolve(pieces);
      }
      if r.Err? && env.fromStdin {
        r := Ok("");
      }
    }

    // -------------------------------------------------------------------
    // onecmd and default

    /** onecmd(precmd(line)) */
    method RunLine(line: string, fuel: nat) returns (r: Result<bool>)
      modifies this
      ensures Snapshot() == S.RunLine(env, old(Snapshot()), line, fuel).state
      ensures r == S.RunLine(env, old(Snapshot()), line, fuel).result
      decreases fuel, 5
    {
      assert S.RunLine(env, Snapshot(), line, fuel) == S.RunPrecmd(env, Snapshot(), line, fuel);
      var l := Precmd(line);
      if l.Err? {
        return Err(l.error);
      }
      r := OneCmd(l.value, fuel);
    }

    /** onecmd: the result says whether the command loop should stop. */
    method OneCmd(line: string, fuel: nat) returns (r: Result<bool>)
      modifies this
      ensures Snapshot() == S.OneCmd(env, old(Snapshot()), line, fuel).state
      ensures r == S.OneCmd(env, old(Snapshot()), line, fuel).result
      decreases fuel, 3
    {
      var parsed := S.ParseLine(line);
      if parsed.EmptyLine? {
        return Ok(false);
      }
      var verb := S.LookupVerb(parsed.cmd);
      if verb.Some? {
        r := Dispatch(verb.value, parsed.arg, fuel);
      } else {
        r := Default(parsed.line);
      }
      if r.Err? && r.error != OutOfFuel && env.fromStdin {
        r := Ok(false);
      }
    }

    /** default: hand the line to the backend. */
    method Default(line: string) returns (r: Result<bool>)
      modifies this
      ensures Snapshot() == S.Default(env, old(Snapshot()), line).state
      ensures r == S.Default(env, old(Snapshot()), line).result
    {
      var reply := env.backend(executed, line);
      executed := executed + [line];
      r := Ok(false);
      match reply
      case Table(rs) => rows := rs;
      case NoTable => rows := [];
      case Failure =>
        if !env.fromStdin {
          r := Err(BackendFailed(line));
        }
    }

    /** getattr(self, 'do_' + cmd)(arg) */
    method Dispatch(v: S.Verb, arg: string, fuel: nat) returns (r: Result<bool>)
      modifies this
      ensures Snapshot() == S.Dispatch(env, old(Snapshot()), v, arg, fuel).state
      ensures r == S.Dispatch(env, old(Snapshot()), v, arg, fuel).result
      decreases fuel, 2
    {
      if v.Exit? || v.Eof? {
        r := Ok(true);
      } else if v.ParseList? {
        var b := DoParseList(arg, fuel);
        r := if b.Err? then Err(b.error) else Ok(false);
      } else if v.Repeat? {
        var b := DoRepeat(arg, fuel);
        r := if b.Err? then Err(b.error) else Ok(false);
      } else {
        r := Builtin(v, arg);
      }
    }

    /** The handlers that run no other command line. */
    method Builtin(v: S.Verb, arg: string) returns (r: Result<bool>)
      requires !v.Exit? && !v.Eof? && !v.ParseList? && !v.Repeat?
      modifies this
      ensures Snapshot() == S.Builtin(old(Snapshot()), v, arg).state
      ensures r == S.Builtin(old(Snapshot()), v, arg).result
    {
      r := Ok(false);
      match v
      case Set => var _ := DoSet(arg);
      case Build =>
        var b := DoBuild(arg);
        if b.Err? { r := Err(b.error); }
      case PushAllRows => DoPushAllRows();
      case PushAll => var _ := DoPushAll(arg);
      case Flush => DoFlush();
      case Pop => var _ := DoPop();
      case Reg =>
        var b := DoReg(arg);
        if b.Err? { r := Err(b.error); }
      case PrintOne =>
        if rows == [] { r := Err(IndexOutOfRange); }
      case _ =>
    }

    // -------------------------------------------------------------------
    // The store built-ins

    /** do_set, without its select branch; returns what it prints. */
    method DoSet(args: string) returns (r: Result<()>)
      modifies this
      ensures Snapshot() == S.DoSet(old(Snapshot()), args).state
      ensures r == S.DoSet(old(Snapshot()), args).result
    {
      var split := Shlex.Split(args);
      if split.Err? {
        return Err(split.error);
      }
      var w := split.value;
      if |w| < 2 {
        return Err(IndexOutOfRange);
      }
      var section, option, value;
      if w[1] == "select" {
        return Ok(());
      } else if w[1] == "=" {
        if |w| < 5 {
          return Err(IndexOutOfRange);
        }
        var v := CS.Get(config, w[3], w[4]);
        if v.Err? {
          return Err(v.error);
        }
        section, option, value := w[0], w[2], v.value;
      } else if w[1] == "pop" {
        if |w| < 3 {
          return Err(IndexOutOfRange);
        }
        if stack == [] {
          return Err(EmptyPop);
        }
        value := stack[|stack| - 1];
        stack := stack[..|stack| - 1];
        section, option := w[0], w[2];
      } else {
        if |w| < 3 {
          return Err(IndexOutOfRange);
        }
        section, option, value := w[0], w[1], w[2];
      }
      var c := CS.Set(config, section, option, value);
      if c.Err? {
        return Err(c.error);
      }
      config := c.value;
      r := Ok(());
    }

    /** do_build */
    method DoBuild(args: string) returns (r: Result<()>)
      modifies this
      ensures Snapshot() == S.DoBuild(old(Snapshot()), args).state
      ensures r == S.DoBuild(old(Snapshot()), args).result
    {
      var c := CS.AddSection(config, args);
      if c.Err? {
        return Err(c.error);
      }
      config := c.value;
      r := Ok(());
    }

    /** do_get: returns what it prints. */
    method DoGet(args: string) returns (r: Result<string>)
      ensures r == S.DoGet(config, args)
    {
      var split := Shlex.Split(args);
      if split.Err? {
        return Err(split.error);
      }
      if |split.value| < 2 {
        return Err(IndexOutOfRange);
      }
      r := CS.Get(config, split.value[0], split.value[1]);
    }

    // -------------------------------------------------------------------
    // The stack and register built-ins

    /** do_pushAllRows: every row in turn, each by the inner loop. */
    method DoPushAllRows()
      modifies this
      ensures Snapshot() == S.DoPushAllRows(old(Snapshot()))
    {
      for i := 0 to |rows|
        invariant Snapshot() == old(Snapshot()).(stack := stack)
        invariant stack == old(stack) + S.Flatten(rows[..i])
      {
        PushRow(rows[i]);
        S.FlattenAppend(rows[..i], [rows[i]]);
        assert rows[..i + 1] == rows[..i] + [rows[i]];
      }
      assert rows[..|rows|] == rows;
    }

    /** The inner loop of do_pushAllRows: the cells of one row, left to
        right, onto the stack. */
    method PushRow(row: seq<string>)
      modifies this
      ensures Snapshot() == old(Snapshot()).(stack := old(stack) + row)
    {
      for j := 0 to |row|
        invariant Snapshot() == old(Snapshot()).(stack := old(stack) + row[..j])
      {
        stack := stack + [row[j]];
        assert row[..j + 1] == row[..j] + [row[j]];
      }
      assert row[..|row|] == row;
    }

    /** do_pushAll: returns what it prints on failure. */
    method DoPushAll(args: string) returns (r: Result<()>)
      modifies this
      ensures Snapshot() == S.DoPushAll(old(Snapshot()), args).state
      ensures r == S.DoPushAll(old(Snapshot()), args).result
    {
      var split := Shlex.Split(args);
      if split.Err? {
        stack := [];
        return Err(split.error);
      }
      if |split.value| == 0 {
        stack := [];
        return Err(IndexOutOfRange);
      }
      var items := CS.Items(config, split.value[0]);
      if items.Err? {
        stack := [];
        return Err(items.error);
      }
      var sec := items.value;
      for j := 0 to |sec|
        invariant Snapshot() == old(Snapshot()).(stack := old(stack) + CS.Values(sec[..j]))
      {
        stack := stack + [sec[j].1];
        assert CS.Values(sec[..j + 1]) == CS.Values(sec[..j]) + [sec[j].1];
      }
      assert sec[..|sec|] == sec;
      r := Ok(());
    }

    /** do_flush */
    method DoFlush()
      modifies this
      ensures Snapshot() == old(Snapshot()).(stack := [])
    {
      stack := [];
    }

    /** do_pop: returns the value it prints. */
    method DoPop() returns (r: Result<string>)
      modifies this
      ensures Snapshot() == S.DoPop(old(Snapshot())).state
      ensures r == S.DoPop(old(Snapshot())).result
    {
      if stack == [] {
        return Err(EmptyPop);
      }
      r := Ok(stack[|stack| - 1]);
      stack := stack[..|stack| - 1];
    }

    /** do_reg */
    method DoReg(args: string) returns (r: Result<()>)
      modifies this
      ensures Snapshot() == S.DoReg(old(Snapshot()), args).state
      ensures r == S.DoReg(old(Snapshot()), args).result
    {
      var split := Shlex.Split(args);
      if split.Err? {
        return Err(split.error);
      }
      var w := split.value;
      if |w| < 2 {
        return Err(IndexOutOfRange);
      }
      if w[0] == "1" {
        register1 := w[1];
      } else if w[0] == "2" {
        register2 := w[1];
      } else if w[0] == "3" {
        register3 := w[1];
      } else if w[0] == "4" {
        register4 := w[1];
      }
      r := Ok(());
    }

    // -------------------------------------------------------------------
    // The two built-ins that run other commands

    /** One round of do_repeat's loop. */
    method RepeatRound(template: string, budget: nat) returns (r: Result<bool>)
      requires stack != [] && budget > 0
      modifies this
      ensures r.Err? ==> S.DoRepeat(env, old(Snapshot()), template, budget) == S.Next(Snapshot(), Err(r.error))
      ensures r.Ok? ==> S.DoRepeat(env, old(Snapshot()), template, budget) == S.DoRepeat(env, Snapshot(), template, budget - 1)
      decreases budget, 0, 0
    {
      r := RunLine(template, budget - 1);
    }

    /** do_repeat: run the template while the stack is not empty. */
    method DoRepeat(template: string, fuel: nat) returns (r: Result<()>)
      modifies this
      ensures Snapshot() == S.DoRepeat(env, old(Snapshot()), template, fuel).state
      ensures r == S.DoRepeat(env, old(Snapshot()), template, fuel).result
      decreases fuel, 0, 1
    {
      ghost var goal := S.DoRepeat(env, Snapshot(), template, fuel);
      var budget: nat := fuel;
      var failure: Option<Error> := None;
      while failure.None? && stack != []
        invariant budget <= fuel
        invariant failure.None? ==> goal == S.DoRepeat(env, Snapshot(), template, budget)
        invariant failure.Some? ==> goal == S.Next(Snapshot(), Err(failure.value))
        decreases budget, if failure.None? then 1 else 0
      {
        if budget == 0 {
          failure := Some(OutOfFuel);
        } else {
          var c := RepeatRound(template, budget);
          if c.Err? {
            failure := Some(c.error);
          }
          budget := budget - 1;
        }
      }
      r := if failure.Some? then Err(failure.value) else Ok(());
    }

    /** The for loop of do_parseList: set each (option, value) into workOrder. */
    method CopyItems(sec: CS.Section) returns (r: Result<()>)
      modifies this
      ensures r.Ok? <==> S.CopyItems(old(config), sec).Ok?
      ensures r.Ok? ==> Snapshot() == old(Snapshot()).(config := S.CopyItems(old(config), sec).value)
      ensures r.Err? ==> Snapshot() == old(Snapshot()) && r.error == S.CopyItems(old(config), sec).error
    {
      for k := 0 to |sec|
        invariant Snapshot() == old(Snapshot()).(config := config)
        invariant S.CopyItems(old(config), sec) == S.CopyItems(config, sec[k..])
        invariant k == 0 ==> config == old(config)
        invariant k > 0 ==> CS.WorkOrder in old(config) && CS.WorkOrder in config
      {
        assert sec[k..][1..] == sec[k + 1..];
        var c := CS.Set(config, CS.WorkOrder, sec[k].0, sec[k].1);
        if c.Err? {
          return Err(c.error);
        }
        config := c.value;
      }
      assert sec[|sec|..] == [];
      r := Ok(());
    }

    /** do_parseList: split the argument into a section and a template. */
    method DoParseList(args: string, fuel: nat) returns (r: Result<()>)
      modifies this
      ensures Snapshot() == S.DoParseList(env, old(Snapshot()), args, fuel).state
      ensures r == S.DoParseList(env, old(Snapshot()), args, fuel).result
      decreases fuel, 1
    {
      r := WalkNode(S.WalkSection(args), S.WalkTemplate(args), fuel);
    }

    /** One section of do_parseList's walk: copy its items, then run the
        template. */
    method WalkNode(section: string, template: string, fuel: nat) returns (r: Result<()>)
      modifies this
      ensures Snapshot() == S.WalkNode(env, old(Snapshot()), section, template, fuel).state
      ensures r == S.WalkNode(env, old(Snapshot()), section, template, fuel).result
      decreases fuel, 0
    {
      if fuel == 0 {
        return Err(OutOfFuel);
      }
      var items := CS.Items(config, section);
      if items.Err? {
        return Err(items.error);
      }
      var copied := CopyItems(items.value);
      if copied.Err? {
        return Err(copied.error);
      }
      r := WalkRun(section, template, fuel - 1);
    }

    /** The template run once, then the walk on to the next section. */
    method WalkRun(section: string, template: string, fuel: nat) returns (r: Result<()>)
      modifies this
      ensures Snapshot() == S.WalkRun(env, old(Snapshot()), section, template, fuel).state
      ensures r == S.WalkRun(env, old(Snapshot()), section, template, fuel).result
      decreases fuel, 6
    {
      var c := RunLine(template, fuel);
      if c.Err? {
        return Err(c.error);
      }
      if CS.HasOption(config, section, "next") {
        r := DoParseList(CS.GetOr(config, section, "next", "") + " " + template, fuel);
      } else {
        r := Ok(());
      }
    }
  }
}
