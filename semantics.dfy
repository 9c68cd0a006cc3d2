/** The interpreter of sqlCmd.py as functions on one explicit state value:
    line substitution (precmd), dispatch (onecmd, default), the built-ins,
    the chained-record walk and the repeat loop. The methods of class
    Console.SqlCmd are proved to compute exactly these functions. */
module Semantics {
  import opened Errors
  import opened Text
  import Shlex
  import CS = ConfigStore

  /** What the backend answers to one statement: a result set (each cell as
      str() renders it), no result set, or an exception from execute. */
  datatype Reply = Table(rows: seq<seq<string>>) | NoTable | Failure

  /** What the interpreter is given and never changes: whether its input
      is sys.stdin, typed or piped in (errors are reported and skipped), or
      the infile named on the command line (errors are raised again); the
      backend, as a function of the statements already executed in the
      session and the new one. */
  datatype Env = Env(
    fromStdin: bool,
    backend: (seq<string>, string) -> Reply)

  /** The interpreter's fields: the stack (top last), the four registers,
      the store, the current result set, the history and the statements
      the backend has been sent. */
  datatype State = State(
    stack: seq<string>,
    reg1: string, reg2: string, reg3: string, reg4: string,
    config: CS.Store,
    rows: seq<seq<string>>,
    hist: seq<string>,
    executed: seq<string>)

  /** The state after an operation, with what it returned or raised. */
  datatype Next<T> = Next(state: State, result: Result<T>)

  /** Start-up: a given store, or one holding only an empty workOrder
      section when there is no file to read. */
  function Initial(config: Option<CS.Store>): (st: State)
    ensures st.stack == [] && st.rows == [] && st.hist == [] && st.executed == []
    ensures st.reg1 == st.reg2 == st.reg3 == st.reg4 == ""
    ensures config.None? ==> st.config == map[CS.WorkOrder := []]
    ensures config.Some? ==> st.config == config.value
  {
    State([], "", "", "", "", if config.Some? then config.value else map[CS.WorkOrder := []], [], [], [])
  }

  function Register(st: State, k: int): string
    requires 1 <= k <= 4
  {
    if k == 1 then st.reg1 else if k == 2 then st.reg2 else if k == 3 then st.reg3 else st.reg4
  }

  function Top(stack: seq<string>): string
    requires stack != []
  {
    stack[|stack| - 1]
  }

  function Popped(stack: seq<string>): seq<string>
    requires stack != []
  {
    stack[..|stack| - 1]
  }

  // ---------------------------------------------------------------------
  // Line substitution: precmd (sqlCmd.py:135-185)

  /** How a piece of the split line is resolved; the tests run in this
      order and each is a substring test anywhere in the piece. */
  datatype PieceKind = StoreRef | StackRef | RegisterRef(k: int) | Expression | Literal

  function Classify(p: string): (r: PieceKind)
    ensures r.RegisterRef? ==> 1 <= r.k <= 4
    ensures r.StoreRef? <==> Contains(p, "@$")
    ensures r.StackRef? <==> !Contains(p, "@$") && Contains(p, "STACK")
    ensures r == RegisterRef(1) <==> !Contains(p, "@$") && !Contains(p, "STACK") && Contains(p, "REG1")
    ensures r == RegisterRef(2) <==>
              !Contains(p, "@$") && !Contains(p, "STACK") && !Contains(p, "REG1") && Contains(p, "REG2")
    ensures r == RegisterRef(3) <==>
              !Contains(p, "@$") && !Contains(p, "STACK") && !Contains(p, "REG1") && !Contains(p, "REG2") &&
              Contains(p, "REG3")
    ensures r == RegisterRef(4) <==>
              !Contains(p, "@$") && !Contains(p, "STACK") && !Contains(p, "REG1") && !Contains(p, "REG2") &&
              !Contains(p, "REG3") && Contains(p, "REG4")
    ensures r.Expression? <==>
              !Contains(p, "@$") && !Contains(p, "STACK") && !Contains(p, "REG1") && !Contains(p, "REG2") &&
              !Contains(p, "REG3") && !Contains(p, "REG4") && Contains(p, "ALG")
    ensures r.Literal? <==> forall m :: m in Markers() ==> !Contains(p, m)
  {
    if Contains(p, "@$") then StoreRef
    else if Contains(p, "STACK") then StackRef
    else if Contains(p, "REG1") then RegisterRef(1)
    else if Contains(p, "REG2") then RegisterRef(2)
    else if Contains(p, "REG3") then RegisterRef(3)
    else if Contains(p, "REG4") then RegisterRef(4)
    else if Contains(p, "ALG") then Expression
    else Literal
  }

  /** The substrings that make a piece something other than a literal. */
  function Markers(): seq<string> {
    ["@$", "STACK", "REG1", "REG2", "REG3", "REG4", "ALG"]
  }

  /** One piece: a store reference reads workOrder[piece[2:]], a stack
      reference pops one value, a register reference reads that register,
      a literal stays as it is. An ALG piece is shlex-split and the words
      after the first are joined and evaluated; a piece of re.split holds
      no blank, so there are no such words and eval('') raises a
      SyntaxError (Properties.AlgPieceHasOneWord), unless shlex fails
      first. */
  function ResolvePiece(env: Env, st: State, p: string): (n: Next<string>)
    ensures n.state == st.(stack := n.state.stack)
    ensures Classify(p).StackRef? && st.stack != [] ==>
              n == Next(st.(stack := Popped(st.stack)), Ok(Top(st.stack)))
    ensures Classify(p).StackRef? && st.stack == [] ==> n == Next(st, Err(EmptyPop))
    ensures !Classify(p).StackRef? ==> n.state == st
    ensures Classify(p).Literal? ==> n.result == Ok(p)
    ensures Classify(p).StoreRef? ==> n == Next(st, CS.Get(st.config, CS.WorkOrder, Drop(p, 2)))
    ensures Classify(p).RegisterRef? ==> n == Next(st, Ok(Register(st, Classify(p).k)))
    ensures Classify(p).Expression? ==> n.result.Err?
    ensures Classify(p).Expression? ==> (n.result == Err(EvalFailed(p)) <==> Shlex.Split(p).Ok?)
    ensures Classify(p).Expression? && Shlex.Split(p).Err? ==> n.result.error == Shlex.Split(p).error
  {
    match Classify(p)
    case StoreRef => Next(st, CS.Get(st.config, CS.WorkOrder, Drop(p, 2)))
    case StackRef =>
      if st.stack == [] then Next(st, Err(EmptyPop))
      else Next(st.(stack := Popped(st.stack)), Ok(Top(st.stack)))
    case RegisterRef(k) => Next(st, Ok(Register(st, k)))
    case Expression =>
      Next(st, match Shlex.Split(p) case Err(e) => Err(e) case Ok(_) => Err(EvalFailed(p)))
    case Literal => Next(st, Ok(p))
  }

  /** The number of pieces that pop the stack. */
  function CountStackRefs(pieces: seq<string>): nat {
    if pieces == [] then 0
    else (if Classify(pieces[0]).StackRef? then 1 else 0) + CountStackRefs(pieces[1..])
  }

  /** Prefixes v to a successful resolution of the rest of the line. */
  function Prepend(v: string, n: Next<string>): Next<string> {
    match n.result
    case Ok(rest) => Next(n.state, Ok(v + rest))
    case Err(e) => n
  }

  lemma PrependPrepend(u: string, v: string, n: Next<string>)
    ensures Prepend(u, Prepend(v, n)) == Prepend(u + v, n)
  {
    if n.result.Ok? {
      assert u + (v + n.result.value) == (u + v) + n.result.value;
    }
  }

  /** The substitution loop: pieces are resolved left to right and joined
      in order; the first failure stops it, and the pops made before the
      failure stay made. */
  function Resolve(env: Env, st: State, pieces: seq<string>): (n: Next<string>)
    ensures n.state == st.(stack := n.state.stack)
    ensures n.state.stack <= st.stack
    ensures n.result.Ok? ==> |st.stack| - |n.state.stack| == CountStackRefs(pieces)
    decreases |pieces|
  {
    if pieces == [] then Next(st, Ok(""))
    else
      var first := ResolvePiece(env, st, pieces[0]);
      match first.result
      case Err(e) => first
      case Ok(v) => Prepend(v, Resolve(env, first.state, pieces[1..]))
  }

  /** The body of precmd's try block, before its exception handler. The
      parseList rule looks the third piece, less its first two characters,
      up in workOrder; an empty value turns the line into REM, any other
      value replaces the piece. */
  function Substitute(env: Env, st: State, line: string): (n: Next<string>)
    ensures n.state == st.(stack := n.state.stack)
    ensures n.state.stack <= st.stack
  {
    var pieces := Split(line, true);
    if StartsWith(line, "REM") then Next(st, Ok("REM"))
    else if StartsWith(line, "IF") then Resolve(env, st, pieces)   // 'pass': falls through to the loop
    else if StartsWith(line, "repeat") then Next(st, Ok(line))
    else if StartsWith(line, "parseList") then
      if |pieces| < 3 then Next(st, Err(IndexOutOfRange))
      else match CS.Get(st.config, CS.WorkOrder, Drop(pieces[2], 2))
        case Err(e) => Next(st, Err(e))
        case Ok(v) => Next(st, Ok(if v == "" then "REM" else Concat(pieces[2 := v])))
    else Resolve(env, st, pieces)
  }

  /** precmd: the stripped line goes to the history first; a failure is
      reported and gives the empty line on the console, and is raised
      again when reading a script. */
  function Precmd(env: Env, st: State, line: string): (n: Next<string>)
    ensures n.state.hist == st.hist + [Strip(line)]
    ensures n.state == st.(stack := n.state.stack, hist := n.state.hist)
    ensures n.state.stack <= st.stack
    ensures env.fromStdin ==> n.result.Ok?
    ensures !env.fromStdin ==> n == Substitute(env, st.(hist := st.hist + [Strip(line)]), line)
  {
    var st1 := st.(hist := st.hist + [Strip(line)]);
    var n := Substitute(env, st1, line);
    assert n.state == st1.(stack := n.state.stack);
    if n.result.Err? && env.fromStdin then Next(n.state, Ok("")) else n
  }

  // ---------------------------------------------------------------------
  // Dispatch: cmd.Cmd.parseline and the verb table

  /** cmd.Cmd.identchars: ASCII letters, digits and underscore. */
  predicate IsIdentChar(c: char) {
    ('a' <= c <= 'z') || ('A' <= c <= 'Z') || ('0' <= c <= '9') || c == '_'
  }

  predicate IsIdent(s: string) {
    forall k :: 0 <= k < |s| ==> IsIdentChar(s[k])
  }

  /** Length of the longest prefix of identifier characters. */
  function IdentLen(s: string): (n: nat)
    ensures n <= |s|
    ensures IsIdent(s[..n])
    ensures n < |s| ==> !IsIdentChar(s[n])
  {
    if s == [] || !IsIdentChar(s[0]) then 0
    else
      var n := 1 + IdentLen(s[1..]);
      assert s[..n] == [s[0]] + s[1..][..n - 1];
      n
  }

  datatype Parsed = EmptyLine | Command(cmd: string, arg: string, line: string)

  /** cmd.Cmd.parseline: strip; '?' stands for help and '!' for shell; the
      command is the leading run of identifier characters and the argument
      the stripped rest. */
  function ParseLine(line: string): (p: Parsed)
    ensures p.EmptyLine? <==> Strip(line) == []
    ensures p.Command? ==> p.line == (if Strip(line)[0] == '?' then "help " + Strip(line)[1..]
                                      else if Strip(line)[0] == '!' then "shell " + Strip(line)[1..]
                                      else Strip(line))
    ensures p.Command? ==> IsIdent(p.cmd) && StartsWith(p.line, p.cmd)
    ensures p.Command? ==> |p.cmd| == |p.line| || !IsIdentChar(p.line[|p.cmd|])
    ensures p.Command? ==> p.arg == Strip(p.line[|p.cmd|..])
  {
    var l := Strip(line);
    if l == [] then EmptyLine
    else
      var l' := if l[0] == '?' then "help " + l[1..] else if l[0] == '!' then "shell " + l[1..] else l;
      var i := IdentLen(l');
      Command(l'[..i], Strip(l'[i..]), l')
  }

  /** The do_* methods of the class. */
  datatype Verb =
    | Hist | Exit | Eof | Shell | Help | Python | Set | Build | Get | GetAll
    | ParseList | Repeat | PushAllRows | PushAll | Flush | Push | Pop | Reg
    | ListReg | SendToFile | Rollback | PrintDecode | Print | PrintOne | Desc
    | MailAll | Rem

  /** The name after do_ of each handler. */
  function VerbName(v: Verb): string {
    match v
    case Hist => "hist"
    case Exit => "exit"
    case Eof => "EOF"
    case Shell => "shell"
    case Help => "help"
    case Python => "python"
    case Set => "set"
    case Build => "build"
    case Get => "get"
    case GetAll => "getAll"
    case ParseList => "parseList"
    case Repeat => "repeat"
    case PushAllRows => "pushAllRows"
    case PushAll => "pushAll"
    case Flush => "flush"
    case Push => "push"
    case Pop => "pop"
    case Reg => "reg"
    case ListReg => "listReg"
    case SendToFile => "sendToFile"
    case Rollback => "rollback"
    case PrintDecode => "printDecode"
    case Print => "print"
    case PrintOne => "printOne"
    case Desc => "desc"
    case MailAll => "mailAll"
    case Rem => "REM"
  }

  /** getattr(self, 'do_' + cmd): the handler a command name selects. */
  function LookupVerb(cmd: string): Option<Verb> {
    match cmd
    case "hist" => Some(Hist)
    case "exit" => Some(Exit)
    case "EOF" => Some(Eof)
    case "shell" => Some(Shell)
    case "help" => Some(Help)
    case "python" => Some(Python)
    case "set" => Some(Set)
    case "build" => Some(Build)
    case "get" => Some(Get)
    case "getAll" => Some(GetAll)
    case "parseList" => Some(ParseList)
    case "repeat" => Some(Repeat)
    case "pushAllRows" => Some(PushAllRows)
    case "pushAll" => Some(PushAll)
    case "flush" => Some(Flush)
    case "push" => Some(Push)
    case "pop" => Some(Pop)
    case "reg" => Some(Reg)
    case "listReg" => Some(ListReg)
    case "sendToFile" => Some(SendToFile)
    case "rollback" => Some(Rollback)
    case "printDecode" => Some(PrintDecode)
    case "print" => Some(Print)
    case "printOne" => Some(PrintOne)
    case "desc" => Some(Desc)
    case "mailAll" => Some(MailAll)
    case "REM" => Some(Rem)
    case _ => None
  }

  // ---------------------------------------------------------------------
  // The built-ins (sqlCmd.py:235-342, 440-442)

  /** config.set that leaves the state as it was when it fails. */
  function Assign(st: State, section: string, option: string, value: string): (n: Next<()>)
    ensures n.result.Ok? <==> section in st.config
    ensures n.result.Ok? ==> n.state == st.(config := CS.Set(st.config, section, option, value).value)
    ensures n.result.Err? ==> n == Next(st, Err(NoSection(section)))
  {
    match CS.Set(st.config, section, option, value)
    case Ok(c) => Next(st.(config := c), Ok(()))
    case Err(e) => Next(st, Err(e))
  }

  /** do_set without its select branch: 'set S = T S2 K2' copies a value,
      'set S pop K' stores the popped top, 'set S K V' stores V. The result
      is the failure do_set prints, if any; the pop of the pop branch stays
      made even when the store then refuses the value. */
  function DoSet(st: State, args: string): (n: Next<()>)
    ensures n.state == st.(config := n.state.config, stack := n.state.stack)
    ensures n.state.stack == st.stack || (st.stack != [] && n.state.stack == Popped(st.stack))
  {
    match Shlex.Split(args)
    case Err(e) => Next(st, Err(e))
    case Ok(w) =>
      if |w| < 2 then Next(st, Err(IndexOutOfRange))
      else if w[1] == "select" then Next(st, Ok(()))
      else if w[1] == "=" then
        if |w| < 5 then Next(st, Err(IndexOutOfRange))
        else match CS.Get(st.config, w[3], w[4])
          case Err(e) => Next(st, Err(e))
          case Ok(v) => Assign(st, w[0], w[2], v)
      else if w[1] == "pop" then
        if |w| < 3 then Next(st, Err(IndexOutOfRange))
        else if st.stack == [] then Next(st, Err(EmptyPop))
        else Assign(st.(stack := Popped(st.stack)), w[0], w[2], Top(st.stack))
      else if |w| < 3 then Next(st, Err(IndexOutOfRange))
      else Assign(st, w[0], w[1], w[2])
  }

  /** do_build: config.add_section(args); its failures propagate. */
  function DoBuild(st: State, args: string): (n: Next<()>)
    ensures n.result.Ok? <==> CS.AddSection(st.config, args).Ok?
    ensures n.result.Ok? ==> n.state == st.(config := st.config[args := []])
    ensures n.result.Err? ==> n.state == st
  {
    match CS.AddSection(st.config, args)
    case Ok(c) => Next(st.(config := c), Ok(()))
    case Err(e) => Next(st, Err(e))
  }

  /** do_get: what it prints, the value or the caught failure. */
  function DoGet(config: CS.Store, args: string): (r: Result<string>)
    ensures r.Ok? <==> exists w :: Shlex.Split(args) == Ok(w) && |w| >= 2 && CS.Get(config, w[0], w[1]).Ok?
    ensures r.Ok? ==> CS.Get(config, Shlex.Split(args).value[0], Shlex.Split(args).value[1]) == r
  {
    match Shlex.Split(args)
    case Err(e) => Err(e)
    case Ok(w) => if |w| < 2 then Err(IndexOutOfRange) else CS.Get(config, w[0], w[1])
  }

  /** Every cell of every row, rows top to bottom, cells left to right. */
  function Flatten(rows: seq<seq<string>>): seq<string> {
    if rows == [] then [] else rows[0] + Flatten(rows[1..])
  }

  function CellCount(rows: seq<seq<string>>): nat {
    if rows == [] then 0 else |rows[0]| + CellCount(rows[1..])
  }

  /** Flattening keeps every cell: as many as the rows hold together. */
  lemma {:induction false} FlattenCount(rows: seq<seq<string>>)
    ensures |Flatten(rows)| == CellCount(rows)
  {
    if rows != [] {
      FlattenCount(rows[1..]);
    }
  }

  /** Flattening distributes over joining row lists: the loop of
      do_pushAllRows may flatten one row at a time. */
  lemma {:induction false} FlattenAppend(a: seq<seq<string>>, b: seq<seq<string>>)
    ensures Flatten(a + b) == Flatten(a) + Flatten(b)
  {
    if a == [] {
      assert a + b == b;
    } else {
      assert (a + b)[1..] == a[1..] + b;
      FlattenAppend(a[1..], b);
    }
  }

  /** do_pushAllRows */
  function DoPushAllRows(st: State): (r: State)
    ensures r == st.(stack := r.stack)
    ensures |r.stack| >= |st.stack| && r.stack[..|st.stack|] == st.stack
  {
    st.(stack := st.stack + Flatten(st.rows))
  }

  /** do_pushAll: the values of the named section in items() order; on any
      failure the whole stack is emptied. The result is the failure
      do_pushAll prints, if any. */
  function DoPushAll(st: State, args: string): (n: Next<()>)
    ensures n.state == st.(stack := n.state.stack)
  {
    match Shlex.Split(args)
    case Err(e) => Next(st.(stack := []), Err(e))
    case Ok(w) =>
      if |w| == 0 then Next(st.(stack := []), Err(IndexOutOfRange))
      else match CS.Items(st.config, w[0])
        case Err(e) => Next(st.(stack := []), Err(e))
        case Ok(items) => Next(st.(stack := st.stack + CS.Values(items)), Ok(()))
  }

  /** do_pop: the value it prints, or the empty stack it reports. */
  function DoPop(st: State): (n: Next<string>)
    ensures st.stack == [] <==> n == Next(st, Err(EmptyPop))
    ensures st.stack != [] ==> n.result.Ok? && n.state.stack + [n.result.value] == st.stack
    ensures n.state == st.(stack := n.state.stack)
  {
    if st.stack == [] then Next(st, Err(EmptyPop))
    else Next(st.(stack := Popped(st.stack)), Ok(Top(st.stack)))
  }

  /** do_reg: ids '1' to '4' set that register to the second word; any
      other id only prints a message. Missing words and shlex errors
      propagate. */
  function DoReg(st: State, args: string): (n: Next<()>)
    ensures n.state == st.(reg1 := n.state.reg1, reg2 := n.state.reg2, reg3 := n.state.reg3, reg4 := n.state.reg4)
  {
    match Shlex.Split(args)
    case Err(e) => Next(st, Err(e))
    case Ok(w) =>
      if |w| < 2 then Next(st, Err(IndexOutOfRange))
      else if w[0] == "1" then Next(st.(reg1 := w[1]), Ok(()))
      else if w[0] == "2" then Next(st.(reg2 := w[1]), Ok(()))
      else if w[0] == "3" then Next(st.(reg3 := w[1]), Ok(()))
      else if w[0] == "4" then Next(st.(reg4 := w[1]), Ok(()))
      else Next(st, Ok(()))
  }

  /** default: the line goes to the backend; a result set replaces rows,
      a statement without one empties them, and a failure is reported on
      the console or raised when reading a script. */
  function Default(env: Env, st: State, line: string): (n: Next<bool>)
    ensures n.state.executed == st.executed + [line]
    ensures n.state == st.(rows := n.state.rows, executed := n.state.executed)
    ensures n.result.Err? <==> !env.fromStdin && env.backend(st.executed, line).Failure?
    ensures n.result.Ok? ==> n.result.value == false
    ensures env.backend(st.executed, line).Table? ==> n.state.rows == env.backend(st.executed, line).rows
    ensures env.backend(st.executed, line).NoTable? ==> n.state.rows == []
    ensures env.backend(st.executed, line).Failure? ==> n.state.rows == st.rows
  {
    var st1 := st.(executed := st.executed + [line]);
    match env.backend(st.executed, line)
    case Table(rs) => Next(st1.(rows := rs), Ok(false))
    case NoTable => Next(st1.(rows := []), Ok(false))
    case Failure => Next(st1, if env.fromStdin then Ok(false) else Err(BackendFailed(line)))
  }

  /** returnValue: int of workOrder's OrderID, or 0 when there is none. */
  function ReturnValue(config: CS.Store): (r: Result<int>)
    ensures !CS.HasOption(config, CS.WorkOrder, "OrderID") ==> r == Ok(0)
    ensures CS.HasOption(config, CS.WorkOrder, "OrderID") ==>
              r == ParseInt(CS.Get(config, CS.WorkOrder, "OrderID").value)
  {
    match CS.Get(config, CS.WorkOrder, "OrderID")
    case Ok(v) => ParseInt(v)
    case Err(_) => Ok(0)
  }

  // ---------------------------------------------------------------------
  // onecmd with the walk and the repeat loop it can re-enter

  /** Turns a handler's answer into onecmd's: handlers return None, which
      does not stop the loop. */
  function Continue(n: Next<()>): Next<bool> {
    Next(n.state, match n.result case Ok(_) => Ok(false) case Err(e) => Err(e))
  }

  /** The exception handler of onecmd: a failure is reported and swallowed
      on the console and raised again from a script. The step bound of the
      model is never swallowed. */
  function Catch(env: Env, n: Next<bool>): (r: Next<bool>)
    ensures r.state == n.state
    ensures env.fromStdin ==> r.result.Ok? || r.result == Err(OutOfFuel)
    ensures !env.fromStdin ==> r == n
  {
    if n.result.Err? && n.result.error != OutOfFuel && env.fromStdin then Next(n.state, Ok(false)) else n
  }

  /** onecmd(precmd(line)): one input line substituted and run, as the
      command loop, do_repeat and do_parseList do it. */
  function RunLine(env: Env, st: State, line: string, fuel: nat): (n: Next<bool>)
    ensures st.hist + [Strip(line)] <= n.state.hist
    ensures env.fromStdin ==> n.result.Ok? || n.result == Err(OutOfFuel)
    decreases fuel, 5
  {
    RunPrecmd(env, st, line, fuel)
  }

  function RunPrecmd(env: Env, st: State, line: string, fuel: nat): (n: Next<bool>)
    ensures st.hist + [Strip(line)] <= n.state.hist
    ensures env.fromStdin ==> n.result.Ok? || n.result == Err(OutOfFuel)
    decreases fuel, 4
  {
    var p := Precmd(env, st, line);
    match p.result
    case Err(e) => Next(p.state, Err(e))
    case Ok(l) => OneCmd(env, p.state, l, fuel)
  }

  /** onecmd: parse, look the command up, run its handler or send the line
      to the backend. The result says whether the loop should stop. */
  function OneCmd(env: Env, st: State, line: string, fuel: nat): (n: Next<bool>)
    ensures st.hist <= n.state.hist
    ensures env.fromStdin ==> n.result.Ok? || n.result == Err(OutOfFuel)
    decreases fuel, 3
  {
    match ParseLine(line)
    case EmptyLine => Next(st, Ok(false))
    case Command(cmd, arg, l) =>
      Catch(env, if LookupVerb(cmd).Some? then Dispatch(env, st, LookupVerb(cmd).value, arg, fuel)
                 else Default(env, st, l))
  }

  /** The handler of each verb. Those whose work is printing, host code or
      backend calls this model leaves out change nothing it records. */
  function Dispatch(env: Env, st: State, v: Verb, arg: string, fuel: nat): (n: Next<bool>)
    ensures st.hist <= n.state.hist
    decreases fuel, 2
  {
    if v.Exit? || v.Eof? then Next(st, Ok(true))
    else if v.ParseList? then Continue(DoParseList(env, st, arg, fuel))
    else if v.Repeat? then Continue(DoRepeat(env, st, arg, fuel))
    else Builtin(st, v, arg)
  }

  /** The handlers that neither end the loop nor run further lines. */
  function Builtin(st: State, v: Verb, arg: string): (n: Next<bool>)
    requires !v.Exit? && !v.Eof? && !v.ParseList? && !v.Repeat?
    ensures n.state.hist == st.hist && n.state.executed == st.executed
    ensures n.result.Ok? ==> !n.result.value
  {
    match v
    case Set => Next(DoSet(st, arg).state, Ok(false))
    case Build => Continue(DoBuild(st, arg))
    case PushAllRows => Next(DoPushAllRows(st), Ok(false))
    case PushAll => Next(DoPushAll(st, arg).state, Ok(false))
    case Flush => Next(st.(stack := []), Ok(false))
    case Pop => Next(DoPop(st).state, Ok(false))
    case Reg => Continue(DoReg(st, arg))
    case PrintOne => if st.rows == [] then Next(st, Err(IndexOutOfRange)) else Next(st, Ok(false))
    case _ => Next(st, Ok(false))
  }

  /** do_repeat: while the stack is not empty, substitute the template and
      run it; the value onecmd returns is ignored. */
  function DoRepeat(env: Env, st: State, template: string, fuel: nat): (n: Next<()>)
    ensures st.hist <= n.state.hist
    ensures n.result.Ok? ==> n.state.stack == []
    decreases fuel, 0
  {
    if st.stack == [] then Next(st, Ok(()))
    else if fuel == 0 then Next(st, Err(OutOfFuel))
    else
      var c := RunLine(env, st, template, fuel - 1);
      match c.result
      case Err(e) => Next(c.state, Err(e))
      case Ok(_) => DoRepeat(env, c.state, template, fuel - 1)
  }

  /** The for loop of do_parseList: every (option, value) of a section set
      into workOrder. */
  function CopyItems(config: CS.Store, items: CS.Section): (r: Result<CS.Store>)
    ensures r.Err? <==> items != [] && CS.WorkOrder !in config
    ensures r.Err? ==> r.error == NoSection(CS.WorkOrder)
    ensures r.Ok? ==> r.value.Keys == config.Keys
    ensures r.Ok? ==> forall s :: s in config && s != CS.WorkOrder ==> r.value[s] == config[s]
    decreases |items|
  {
    if items == [] then Ok(config)
    else match CS.Set(config, CS.WorkOrder, items[0].0, items[0].1)
      case Err(e) => Err(e)
      case Ok(c) => CopyItems(c, items[1..])
  }

  /** The section a walk argument names and the template after it: the
      text before the first whitespace and the text after it. */
  function WalkSection(args: string): string {
    Split(args, false)[0]
  }

  function WalkTemplate(args: string): string {
    var parts := Split(args, false);
    if |parts| < 3 then "" else Concat(parts[2..])
  }

  /** do_parseList: copy the section into workOrder, run the template once,
      then walk on to the section named by its next option, if it has one. */
  function DoParseList(env: Env, st: State, args: string, fuel: nat): (n: Next<()>)
    ensures st.hist <= n.state.hist
    decreases fuel, 1
  {
    WalkNode(env, st, WalkSection(args), WalkTemplate(args), fuel)
  }

  /** One section of the walk: its items copied into workOrder, then the
      template run. */
  function WalkNode(env: Env, st: State, section: string, template: string, fuel: nat): (n: Next<()>)
    ensures st.hist <= n.state.hist
    decreases fuel, 0
  {
    if fuel == 0 then Next(st, Err(OutOfFuel))
    else match CS.Items(st.config, section)
      case Err(e) => Next(st, Err(e))
      case Ok(items) =>
        match CopyItems(st.config, items)
        case Err(e) => Next(st, Err(e))
        case Ok(copied) => WalkRun(env, st.(config := copied), section, template, fuel - 1)
  }

  /** The template run once; then the walk goes on with the section that
      the option next names, if the section has one. */
  function WalkRun(env: Env, st: State, section: string, template: string, fuel: nat): (n: Next<()>)
    ensures st.hist <= n.state.hist
    decreases fuel, 6
  {
    var c := RunLine(env, st, template, fuel);
    match c.result
    case Err(e) => Next(c.state, Err(e))
    case Ok(_) =>
      if CS.HasOption(c.state.config, section, "next") then
        DoParseList(env, c.state, CS.GetOr(c.state.config, section, "next", "") + " " + template, fuel)
      else Next(c.state, Ok(()))
  }
}
