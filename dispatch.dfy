/**
 * The builtin dispatch of `execute_command` (spenryan_assignment4.c:87-105)
 * and the choice of directory in `cd_command` (spenryan_assignment4.c:36-51),
 * as a decision on `argv`.  The effects of each action (leaving the process,
 * `chdir`, forking and `execv`) are outside the model; `RunLine` joins the
 * parser and the dispatch as one turn of the `main` loop
 * (spenryan_assignment4.c:145-149).
 */
module Dispatcher {
  import opened Tokenizer
  import opened CommandParser

  /**
   * The status `exit_command` leaves with.  Its test divides the size of
   * `pid_array` by the size of one element, the constant MAX_ARGS, so the
   * branch calling `exit(1)` is always taken (spenryan_assignment4.c:26-28).
   */
  const EXIT_STATUS: int := 1

  /** Where `cd` goes: to `$HOME` (when it is set), or to the directory named by its first argument. */
  datatype CdTarget = Home | Dir(path: string)

  datatype Action =
    | Exit(status: int)
    | ChangeDir(target: CdTarget)
    | ReportStatus
    | Spawn(path: string, argv: seq<string>)  // execv(argv[0], argv): no search of PATH

  predicate IsBuiltin(name: string) {
    name == "exit" || name == "cd" || name == "status"
  }

  /** The branch on `argc` in `cd_command`. */
  function CdTargetOf(argv: seq<string>): CdTarget
    requires |argv| >= 1
  {
    if |argv| > 1 then Dir(argv[1]) else Home
  }

  /**
   * `argv[0]` is compared with "exit", then "cd", then "status"; anything
   * else is run as a program.  The source reads `argv[0]` unconditionally,
   * so an empty `argv` is outside what it defines.
   */
  function Dispatch(argv: seq<string>): (a: Action)
    requires |argv| >= 1
    ensures a.Exit? <==> argv[0] == "exit"
    ensures a.ChangeDir? <==> argv[0] == "cd"
    ensures a.ReportStatus? <==> argv[0] == "status"
    ensures a.Spawn? <==> !IsBuiltin(argv[0])
    ensures a.Exit? ==> a.status == EXIT_STATUS
    ensures a.ChangeDir? ==> (a.target == Home <==> |argv| == 1) && (|argv| > 1 ==> a.target == Dir(argv[1]))
    ensures a.Spawn? ==> a.path == argv[0] && a.argv == argv
  {
    if argv[0] == "exit" then Exit(EXIT_STATUS)
    else if argv[0] == "cd" then ChangeDir(CdTargetOf(argv))
    else if argv[0] == "status" then ReportStatus
    else Spawn(argv[0], argv)
  }

  /**
   * Builtins look no further than they need: `exit` and `status` ignore
   * their arguments, and `cd` reads only its first one.
   */
  lemma DispatchIgnoresExtraArgs(argv: seq<string>, argv': seq<string>)
    requires |argv| >= 1 && |argv'| >= 1 && argv[0] == argv'[0] && IsBuiltin(argv[0])
    requires argv[0] == "cd" ==> (|argv| > 1 <==> |argv'| > 1) && (|argv| > 1 ==> argv[1] == argv'[1])
    ensures Dispatch(argv) == Dispatch(argv')
  {
  }

  /** What one turn of the `main` loop does with a line. */
  datatype LineOutcome =
    | ParseUndefined(fault: Fault)  // parse_input itself has undefined behaviour
    | NullProgram(cmd: Command)     // argv[0] is NULL and reaches strcmp (spenryan_assignment4.c:89)
    | ExecUnterminated(cmd: Command)  // every argv slot is taken, so execv finds no NULL terminator (spenryan_assignment4.c:75)
    | Run(cmd: Command, action: Action)

  function RunLine(line: seq<char>): LineOutcome {
    match Parse(line)
    case Undefined(f) => ParseUndefined(f)
    case Parsed(c) =>
      if c.argv == [] then NullProgram(c)
      else if !IsBuiltin(c.argv[0]) && |c.argv| > MAX_ARGS then ExecUnterminated(c)
      else Run(c, Dispatch(c.argv))
  }

  /**
   * A parsed line reaches a NULL `argv[0]` exactly when it has no argument
   * token.  A program given all ARGV_SLOTS slots of `argv` is handed to
   * `execv` without a terminator; the builtins never look for one.  Otherwise
   * the action is chosen by the first argument token, and redirection
   * targets and `&` never take part in the choice.
   */
  lemma RunLineChoice(line: seq<char>)
    ensures var toks := Tokens(CString(line));
      && (RunLine(line).NullProgram? <==> Parse(line).Parsed? && Words(toks) == [])
      && (RunLine(line).ExecUnterminated? <==>
            Parse(line).Parsed? && |Words(toks)| > MAX_ARGS && !IsBuiltin(Words(toks)[0]))
      && (RunLine(line).Run? <==>
            Parse(line).Parsed? && Words(toks) != [] && (|Words(toks)| > MAX_ARGS ==> IsBuiltin(Words(toks)[0])))
      && (RunLine(line).Run? ==> RunLine(line).action == Dispatch(Words(toks)))
  {
    ParseLine(line);
  }

  /** A line of spaces and newlines parses, yields no argument, and dispatch then reads a NULL `argv[0]`. */
  lemma BlankLineReachesNull(line: seq<char>)
    requires forall k :: 0 <= k < |line| ==> IsDelim(line[k])
    ensures RunLine(line) == NullProgram(Blank)
  {
    CStringWhole(line);
    TokensEmptyIffBlank(line);
  }
}
