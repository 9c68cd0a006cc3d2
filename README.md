# sqlCmd — a verified model of the line interpreter

`sqlCmd.py` is a console built on Python's `cmd` module. It reads lines
from stdin or from an infile named on the command line. Before a line runs, `precmd` rewrites it
by substituting values from the working store (`@$name`), the stack
(`STACK`), the four registers (`REG1`–`REG4`) and an expression evaluator
(`ALG`, which as written always fails: see below). `onecmd` then either runs one of the `do_*` built-ins or sends the
line to the database. The built-ins handle the store (`set`, `build`,
`get`) and the stack (`pushAllRows`, `pushAll`, `flush`, `pop`), set
registers (`reg`), and run further lines: `repeat` runs a template until
the stack is empty, and `parseList` walks a chain of store sections linked
by their `next` option.

The model has seven modules:

- `Errors`: the exceptions that matter, as values.
- `Text`: `str.strip`, `startswith`, `string.find`, `re.split(r'(\'|\s)')`,
  lower-casing and `int`/`str` on integers.
- `Shlex`: POSIX `shlex.split`.
- `ConfigStore`: the part of `SafeConfigParser` the interpreter uses.
- `Semantics`: the interpreter as functions on one explicit `State`.
- `Console`: class `SqlCmd`, whose fields the methods update in place.
  Every method is proved to leave exactly the state that the matching
  `Semantics` function describes, and to return its result.
- `Properties`: the interpreter's promises, proved about `Semantics`.

Failures are values. `precmd` and `onecmd` test `self.stdin != sys.stdin`
(sqlCmd.py:181, 199). When the commands come from stdin, typed or piped in,
they report a failure and carry on with the empty line or `0`. When they
come from the infile named on the command line, they raise it again. That
choice is `Env.fromStdin`. Below, "the console" means commands read from
stdin and "a script" means commands read from a named infile. The database is `Env.backend`, a
function from the statements sent so far and the new statement to a reply.
`precmd` cuts the line with `re.split(r'(\'|\s)', line)`, so no piece
holds a blank. `shlex.split` of an `ALG` piece then gives at most one word,
the expression `''.join(alg[1:])` is empty, and `eval('')` raises a
SyntaxError. The model therefore makes every `ALG` piece fail, and
`Properties.AlgPieceHasOneWord` proves the reason.

`do_repeat` can loop forever: its `while self.stack` runs until a template
empties the stack. `do_parseList` recurses once per section of the `next`
chain, and a cyclic chain recurses until Python's recursion limit. Every
line run inside either of them costs one step of a `fuel` bound. Running
out of fuel is the error `OutOfFuel`. No handler swallows it.

Three facts about `sqlCmd.py` shape how failures are modelled:

- A failed substitution on the console keeps the pops made before the
  failure, because `str(self.stack.pop())` runs before the later
  `config.get` fails.
- `do_set`, `do_get`, `do_pop` and `do_pushAll` catch and print their own
  failures. These never reach `onecmd`.
- `do_reg`, `do_build` and `printOne` let their failures through to
  `onecmd`.

## Model

| member | source | states |
|---|---|---|
| Semantics.Initial | sqlCmd.py:22-67 | the interpreter starts with an empty stack, rows, history and registers; it uses the given store when there is one, and otherwise a single empty workOrder section |
| Console.SqlCmd.constructor | sqlCmd.py:22-67 | the new object's fields are the start-up state |
| Semantics.Classify | sqlCmd.py:161-178 | the tests are tried in precmd's order: a piece goes to the store exactly when it contains `@$`; to the stack exactly when it contains `STACK` and no `@$`; to register k exactly when it contains `REGk`, none of `REG1`..`REG(k-1)` and neither earlier marker; to the evaluator exactly when it contains `ALG` and none of the earlier markers; it is a literal exactly when it contains no marker |
| Semantics.ResolvePiece | sqlCmd.py:161-178 | a store piece answers `config.get("workOrder", piece[2:])`, value or failure; a stack piece pops the top and answers it, or fails on an empty stack; a register piece answers that register; an `ALG` piece always fails, with shlex's error when shlex fails and with the SyntaxError of `eval('')` otherwise; a literal answers itself; only a stack piece changes the state |
| Properties.AlgPieceHasOneWord | sqlCmd.py:141-175 | every `ALG` piece of a split line is at most one shlex word, so the expression after the first word is empty |
| Semantics.Resolve | sqlCmd.py:161-179 | the substitution loop changes only the stack; the stack shrinks to a prefix; on success it pops exactly once per STACK piece |
| Semantics.Substitute | sqlCmd.py:141-179 | the prefix rules and the loop change only the stack, and only to a prefix |
| Semantics.Precmd | sqlCmd.py:135-185 | the stripped line joins the history first, even on failure; on the console precmd never fails; from a script it is exactly the substitution |
| Console.SqlCmd.ResolvePiece | sqlCmd.py:161-178 | the fields and the answer are those of `Semantics.ResolvePiece` |
| Console.SqlCmd.Resolve | sqlCmd.py:161-179 | the loop leaves the fields and answer of `Semantics.Resolve` |
| Console.SqlCmd.Precmd | sqlCmd.py:135-185 | the fields and answer are those of `Semantics.Precmd` |
| Properties.PrecmdRem | sqlCmd.py:146-147 | a line that starts with REM becomes `REM`; only the history changes |
| Properties.PrecmdRepeat | sqlCmd.py:150-151 | a repeat line passes unchanged, STACK pieces included; only the history changes |
| Properties.PrecmdParseList | sqlCmd.py:152-158 | the looked-up value replaces the third piece; an empty value gives `REM` |
| Properties.PrecmdParseListMissing | sqlCmd.py:153-185 | a missing option gives the empty line on the console and the NoOptionError from a script |
| Properties.PrecmdParseListWords | sqlCmd.py:152-185 | for the line `parseList REF rest`, the workOrder value named by REF less its first two characters takes REF's place and every word of rest passes through unchanged; an empty value gives `REM`; a missing option gives the empty line on the console and the failure from a script; only the history changes |
| Properties.ResolveAppend | sqlCmd.py:161-179 | the pieces are resolved left to right and joined in order; a failure stops the loop before later pieces |
| Properties.ResolvePlain | sqlCmd.py:177-178 | pieces without markers come out as themselves, concatenated in order, and change no state |
| Properties.PrecmdPlain | sqlCmd.py:140-179 | a line without markers passes precmd unchanged, separators included |
| Properties.ResolvePopThenFail | sqlCmd.py:162-165 | a STACK piece followed by a missing store reference fails; the pop stays made |
| Properties.PrecmdFailure | sqlCmd.py:140-185 | after a failed substitution, the history entry and the earlier pops remain; the console gets the empty line; a script gets the failure |
| Properties.ResolveFrame | sqlCmd.py:161-179 | the loop leaves the store and all four registers unchanged; on success it removes exactly CountStackRefs values from the top |
| Semantics.IdentLen | sqlCmd.py:196 | the command name is the longest run of identifier characters at the start |
| Semantics.ParseLine | sqlCmd.py:193-207 | as `cmd.Cmd.parseline`: only a blank line is empty; a stripped line starting with `?` or `!` is rewritten to `help ` or `shell ` and the rest; the command name is the longest run of identifier characters at the start of the rewritten line; the argument is the stripped remainder |
| Properties.LookupVerbRoundTrip | sqlCmd.py:93-442 | every handler is found under its own `do_` name |
| Properties.LookupVerbNames | sqlCmd.py:93-442 | a name that is found is that handler's name |
| Semantics.Catch | sqlCmd.py:193-203 | onecmd swallows failures on the console and re-raises them from a script; the state is the same either way |
| Semantics.RunLine | sqlCmd.py:278-286 | a run line joins the history; on the console it fails only on the step bound |
| Semantics.RunPrecmd | sqlCmd.py:278-286 | as RunLine, for precmd followed by onecmd |
| Semantics.OneCmd | sqlCmd.py:193-203 | the history only grows; on the console only the step bound gets through |
| Properties.ExitStops | sqlCmd.py:97-104 | exit and EOF stop the loop and change nothing |
| Semantics.Dispatch | sqlCmd.py:271-286 | a handler never shortens the history |
| Semantics.Builtin | sqlCmd.py:235-342 | the built-ins leave the history and the statements sent unchanged, and never end the loop |
| Semantics.Default | sqlCmd.py:209-224 | the line goes to the backend; a result set replaces the rows, a statement without a description empties them, a failure leaves them as they were; a failure is an error only from a script |
| Properties.OneCmdDefault | sqlCmd.py:193-224 | an unknown command goes to the backend as the whole line |
| Properties.OneCmdEmpty | sqlCmd.py:205-207 | an all-whitespace line does nothing |
| Console.SqlCmd.RunLine | sqlCmd.py:278-286 | the fields and answer are those of `Semantics.RunLine` |
| Console.SqlCmd.OneCmd | sqlCmd.py:193-203 | the fields and answer are those of `Semantics.OneCmd` |
| Console.SqlCmd.Default | sqlCmd.py:209-224 | the fields and answer are those of `Semantics.Default` |
| Console.SqlCmd.Dispatch | sqlCmd.py:271-286 | the fields and answer are those of `Semantics.Dispatch` |
| Console.SqlCmd.Builtin | sqlCmd.py:235-342 | the fields and answer are those of `Semantics.Builtin` |
| Semantics.Assign | sqlCmd.py:243-247 | config.set succeeds exactly when the store has the section (the model has no defaults section); a failed set changes nothing |
| Semantics.DoSet | sqlCmd.py:235-249 | set changes only the store and the stack; the stack is either unchanged or popped exactly once |
| Properties.DoSetStores | sqlCmd.py:246-247 | `set S K V` succeeds, its new state is the old one with `config.set(S, K, V)` applied and nothing else changed, and get reads V back |
| Properties.DoSetCopies | sqlCmd.py:242-243 | `set S = T S2 K2` succeeds, its new state is the old one with the value of K2 in S2 set as T of S and nothing else changed, and get reads it back |
| Properties.DoSetPops | sqlCmd.py:244-249 | `set S pop K` pops the top into K of S and changes nothing else; when the store lacks S the pop stays made and NoSectionError is the result |
| Console.SqlCmd.DoSet | sqlCmd.py:235-249 | the fields and answer are those of `Semantics.DoSet` |
| Semantics.DoBuild | sqlCmd.py:251-253 | build succeeds exactly when add_section does and then adds an empty section; a failure changes nothing |
| Console.SqlCmd.DoBuild | sqlCmd.py:251-253 | the fields and answer are those of `Semantics.DoBuild` |
| Semantics.DoGet | sqlCmd.py:255-261 | get succeeds exactly when the argument splits into a section and an option that the store has, and answers that value |
| Console.SqlCmd.DoGet | sqlCmd.py:255-261 | the answer is that of `Semantics.DoGet` |
| Semantics.DoPushAllRows | sqlCmd.py:288-295 | pushAllRows changes only the stack, and keeps the old stack underneath what it pushes |
| Semantics.FlattenCount | sqlCmd.py:291-293 | flattening the rows keeps every cell |
| Semantics.FlattenAppend | sqlCmd.py:291-293 | flattening distributes over joined row lists |
| Properties.PushAllRowsCount | sqlCmd.py:288-295 | pushAllRows adds one value per cell above the old stack |
| Properties.PushAllRowsOrder | sqlCmd.py:288-295 | rows go on top to bottom and each row left to right, so the last cell of the last row is popped first |
| Console.SqlCmd.DoPushAllRows | sqlCmd.py:288-295 | the two loops leave the stack of `Semantics.DoPushAllRows` and change no other field |
| Console.SqlCmd.PushRow | sqlCmd.py:292-293 | the inner loop appends one row's cells in order |
| Semantics.DoPushAll | sqlCmd.py:297-307 | pushAll changes only the stack |
| Properties.PushAllSpec | sqlCmd.py:297-307 | pushAll fails exactly when the argument names no section of the store, and then empties the stack; otherwise it pushes the section's values in items() order |
| Console.SqlCmd.DoPushAll | sqlCmd.py:297-307 | the fields and answer are those of `Semantics.DoPushAll` |
| Console.SqlCmd.DoFlush | sqlCmd.py:309-313 | flush empties the stack and changes nothing else |
| Semantics.DoPop | sqlCmd.py:323-328 | pop fails exactly on an empty stack, leaving it unchanged; otherwise it answers the top and removes it |
| Properties.PopTop | sqlCmd.py:323-328 | pop answers the last value pushed and restores the stack as it was before the push |
| Console.SqlCmd.DoPop | sqlCmd.py:323-328 | the fields and answer are those of `Semantics.DoPop` |
| Semantics.DoReg | sqlCmd.py:330-342 | reg changes only the registers |
| Properties.RegSetsOne | sqlCmd.py:330-342 | ids 1 to 4 set exactly that register to the second word; any other id sets none; nothing else changes |
| Console.SqlCmd.DoReg | sqlCmd.py:330-342 | the fields and answer are those of `Semantics.DoReg` |
| Semantics.DoRepeat | sqlCmd.py:283-286 | repeat only ever adds to the history; on success the stack is empty |
| Properties.RepeatRunsPerValue | sqlCmd.py:283-286 | a template that pops once per run runs exactly once per stack value and ends with an empty stack; with fewer steps than values the step bound is hit |
| Properties.PopPopsOnce | sqlCmd.py:323-328 | the template `pop` meets that condition |
| Properties.RunPop | sqlCmd.py:323-328 | the line `pop` runs do_pop with an empty argument: it removes the top and does not stop the loop |
| Properties.RunRem | sqlCmd.py:440-442 | a REM template runs do_REM; only the history changes |
| Properties.RepeatRemNeverEnds | sqlCmd.py:283-286 | with a REM template and a non-empty stack the loop never ends; the model reaches its step bound |
| Console.SqlCmd.RepeatRound | sqlCmd.py:285-286 | a failed round is where `Semantics.DoRepeat` stops; after a good round, what is left is `Semantics.DoRepeat` with one step less |
| Console.SqlCmd.DoRepeat | sqlCmd.py:283-286 | the loop leaves the fields and answer of `Semantics.DoRepeat` |
| Semantics.CopyItems | sqlCmd.py:274-275 | copying fails exactly when there is something to copy and no workOrder; it changes no other section |
| Properties.CopyItemsSets | sqlCmd.py:274-275 | after the copy every item of the section reads back from workOrder; every other option reads as before |
| Semantics.DoParseList | sqlCmd.py:271-281 | parseList only ever adds to the history |
| Semantics.WalkNode | sqlCmd.py:274-278 | one section of the walk only ever adds to the history |
| Semantics.WalkRun | sqlCmd.py:278-281 | one run of the template, plus the rest of the walk; it only adds to the history |
| Properties.WalkArgs | sqlCmd.py:273-281 | the argument built for the recursion splits back into the next section and the template |
| Properties.ChainFrame | sqlCmd.py:274-281 | the chain of next options does not depend on workOrder |
| Properties.WalkPopsPerSection | sqlCmd.py:271-281 | with a template that pops once and keeps the store, the walk runs once per section of the chain and pops that many values |
| Properties.ParseListPopsPerSection | sqlCmd.py:271-281 | the same for the whole command `parseList section template` |
| Properties.PopKeepsStore | sqlCmd.py:323-328 | the template `pop` keeps the store |
| Console.SqlCmd.CopyItems | sqlCmd.py:274-275 | the loop fails exactly when `Semantics.CopyItems` does, and then changes nothing; otherwise it leaves that function's store |
| Console.SqlCmd.DoParseList | sqlCmd.py:271-281 | the fields and answer are those of `Semantics.DoParseList` |
| Console.SqlCmd.WalkNode | sqlCmd.py:274-278 | the fields and answer are those of `Semantics.WalkNode` |
| Console.SqlCmd.WalkRun | sqlCmd.py:278-281 | the fields and answer are those of `Semantics.WalkRun` |
| Semantics.ReturnValue | sqlCmd.py:84-90 | returnValue is 0 without an OrderID; otherwise it is int() of that value |
| Properties.ReturnValueOfOrderId | sqlCmd.py:84-90 | an OrderID stored as a number is given back as that number |
| Console.SqlCmd.ReturnValue | sqlCmd.py:84-90 | the answer is that of `Semantics.ReturnValue` |
| Text.StripSpec | sqlCmd.py:140 | the stripped line is the slice between the leading and the trailing whitespace: it is empty exactly when the line is all whitespace |
| Text.ContainsSpec | sqlCmd.py:162-174 | `string.find(s, t) != -1` holds exactly when t occurs in s at some index |
| Text.SplitSpec | sqlCmd.py:141 | `re.split` with a captured separator alternates pieces and separators, and joining them gives the line back |
| Text.ParseInt | sqlCmd.py:88 | int() succeeds only on a string with something besides whitespace |
| Text.ParseIntOfIntToString | sqlCmd.py:88 | int() reads back str() of every integer |
| Text.ParseIntSpaceAfterSign | sqlCmd.py:88 | int() skips whitespace between the sign and the digits, as Python 2 does |
| Shlex.Split | sqlCmd.py:238 | shlex.split fails only with an unclosed quotation or a trailing backslash |
| Shlex.SplitEmpty | sqlCmd.py:238 | shlex.split finds no word exactly when the input is all blanks |
| Shlex.SplitJoinWords | sqlCmd.py:238 | words that need no quoting come back from shlex.split unchanged |
| Shlex.SplitSingleQuoted | sqlCmd.py:238 | text without a single quote, wrapped in single quotes, is one word |
| Shlex.UnclosedQuoteFails | sqlCmd.py:238 | an unclosed quote is a failure |
| ConfigStore.FindSpec | sqlCmd.py:153 | lookup fails exactly when no pair has the option; what it finds is such a pair's value |
| ConfigStore.Get | sqlCmd.py:153 | get fails on a missing section or option; otherwise it answers the stored value of the lower-cased option |
| ConfigStore.HasOption | sqlCmd.py:280 | has_option holds exactly when get succeeds |
| ConfigStore.Set | sqlCmd.py:243-247 | set fails exactly on a section the store lacks; otherwise it updates only that section |
| ConfigStore.AddSection | sqlCmd.py:253 | add_section refuses `default` in any letter case and an existing name; otherwise it adds an empty section |
| ConfigStore.Items | sqlCmd.py:274 | items fails exactly on a section the store lacks; otherwise it answers the section's own pairs in order |
| ConfigStore.SetThenGet | sqlCmd.py:243-247 | get after set answers the value set |
| ConfigStore.SetLeavesOthers | sqlCmd.py:243-247 | set changes no other option of any section |
| ConfigStore.GetUnsetFails | sqlCmd.py:163 | get of an option never set is a NoOptionError |
| ConfigStore.OptionsIgnoreCase | sqlCmd.py:87 | option names are case-insensitive |
| ConfigStore.SetItemsOrder | sqlCmd.py:301-302 | set puts a new option last in items() and keeps an existing option in its place |
| ConfigStore.Upsert | sqlCmd.py:243-247 | after assigning an option, looking it up finds the value assigned |
| ConfigStore.UpsertOther | sqlCmd.py:243-247 | assigning one option leaves every other option's lookup unchanged |
| ConfigStore.UpsertDistinct | sqlCmd.py:243-247 | assigning keeps options distinct |
| ConfigStore.SetWellFormed | sqlCmd.py:243-247 | set keeps every section's options distinct and lower-case |
| ConfigStore.AddSectionWellFormed | sqlCmd.py:253 | add_section keeps every section's options distinct and lower-case |

## Left out

- The database connection, commit and rollback (`__init__`, `postloop`, `rollbackAndCloseDb`, `commitAndCloseDb`, `do_rollback`): these call pyodbc. The backend is the function `Env.backend`, and the model records what is sent to it in `executed`.
- Failures of `do_rollback`, `do_desc` and `do_sendToFile`: `self.db.rollback()` (sqlCmd.py:369) can raise, and `do_desc` (sqlCmd.py:407) and `do_sendToFile` (sqlCmd.py:354) raise a TypeError when `cur.description` is None, which from a script reaches the re-raise in `onecmd`. The model has no cursor description, so it answers these three with success and an unchanged state.
- `do_push` and the `select` branch of `do_set`: both query the database for a value. They are dispatched, but the model changes nothing for them.
- `ALG` pieces: the model keeps only the kind of the failure, shlex's error or the SyntaxError of `eval('')`, not its message.
- `do_python`, `do_shell`, `do_help`, `do_hist`, `do_getAll`, `do_listReg`, `do_print`, `do_printDecode`, `do_desc`, `do_sendToFile` and `do_mailAll` only print, write files, run host code or send mail. They are dispatched, but leave the modelled state unchanged. `do_printOne` keeps its one failure, on empty rows.
- What is printed, and the debug log: output is not modelled.
- The command loop itself (`cmd.Cmd.cmdloop`, `main`, argument parsing and reading the store file): the model starts from `Initial` and runs one line at a time. A script's final history dump and abort are not modelled.
- ConfigParser's DEFAULT section and `%` interpolation: the store is just a map of sections, with no defaults, and `get` answers the raw value. The lines below say what that leaves out at run time.
- ConfigStore.Set: does not model writes to the parser's defaults. `RawConfigParser.set` sends the section names `DEFAULT` and `""` to `_defaults` and raises nothing; the model has no such section and answers NoSectionError.
- Semantics.Assign: inherits that gap. In the program `set DEFAULT k v` (or `set '' k v`) succeeds, and because `get` and `has_option` fall back on the defaults for every section, a later `@$k` reads `v`. In the model the set fails, so the later substitution fails too and a script stops.
- Properties.DoSetPops: `set DEFAULT pop K` and `set '' pop K` pop the top into the defaults and succeed in the program; the model answers NoSectionError for them, after the pop.
- ConfigStore.Items: `items("DEFAULT")` answers the defaults in the program and raises no NoSectionError, and `items` of any section lists the defaults first, then the section's own options. The model answers only a section's own pairs and fails on `DEFAULT`.
- Properties.PushAllSpec: `pushAll DEFAULT` pushes the defaults (nothing, unless some were set) and keeps the stack in the program; the model fails and empties the stack. Once defaults exist, `pushAll S` also pushes them before S's own values.
- Semantics.WalkNode: `parseList DEFAULT ...` copies the defaults into workOrder in the program; in the model `items` fails with NoSectionError and the walk stops there. Once defaults exist, every section of a walk also copies them.
- ConfigStore.Get: `get("DEFAULT", k)` reads the defaults in the program, and `get(S, k)` falls back on them; the model reads only the section's own options.
- ConfigStore.HasOption: `has_option` on `DEFAULT` or `""` tests the defaults in the program, and on any other section it also counts the defaults; the model tests only the section's own options.
- ConfigStore.Set: does not model the ValueError that `SafeConfigParser.set` raises for a value with a `%` that is not part of `%%` or `%(name)s`. In the program `set S K 50%` fails, and so does the copy into workOrder made by parseList (sqlCmd.py:274-275) of a value holding such a `%`; the model stores the value in both cases.
- `str()` of database values: rows are given as strings.
- Semantics.DoRepeat: each round costs one step of `fuel`. A repeat that would loop forever in the program ends with `OutOfFuel` in the model.
- Semantics.DoParseList, Semantics.WalkNode, Semantics.WalkRun: each line run inside parseList costs one step of `fuel`, not one level of Python's recursion limit. In the program a cyclic `next` chain ends after about `sys.getrecursionlimit()` (1000 by default) nested calls with a RuntimeError. On the console the outer `onecmd` catches it, prints it and the interpreter carries on (sqlCmd.py:198-203); from a script it is raised again. In the model the walk ends with `OutOfFuel`, which no handler swallows, on the console as well.
- `Console.SqlCmd` methods: what they promise is equality with the `Semantics` functions. The properties are proved about those functions. Aliasing between interpreter objects does not arise, because there is one object.
