/**
 * Particular lines and what the shell makes of them, including the lines on
 * which the source's behaviour is undefined.
 */
module ShellCases {
  import opened Wrappers
  import opened Tokenizer
  import opened CommandParser
  import opened Dispatcher

  /** Tokens as a user types them: non-empty, without delimiters or NUL. */
  predicate Written(ts: seq<string>) {
    && (forall k :: 0 <= k < |ts| ==> IsToken(ts[k]))
    && (forall k :: 0 <= k < |ts| ==> forall m :: 0 <= m < |ts[k]| ==> ts[k][m] != '\0')
  }

  /** A line that spells out `ts` with single spaces and a final newline parses as `ts` does. */
  lemma LineOf(ts: seq<string>, line: seq<char>)
    requires Written(ts)
    requires line == Join(ts) + "\n"
    ensures Parse(line) == ParseFrom(ts, Blank)
  {
    TokensOfLine(ts);
    JoinHasNoNul(ts);
    CStringWhole(line);
  }

  /** Both redirections, each operator consuming its file name. */
  lemma RedirectBoth(line: seq<char>)
    requires line == "cmd < in.txt > out.txt\n"
    ensures Parse(line) == Parsed(Command(["cmd"], Some("in.txt"), Some("out.txt"), false))
  {
    RedirectBothWritten();
    RedirectBothJoined();
    RedirectBothParsed();
    LineOf(["cmd", "<", "in.txt", ">", "out.txt"], line);
  }

  lemma RedirectBothJoined()
    ensures Join(["cmd", "<", "in.txt", ">", "out.txt"]) + "\n" == "cmd < in.txt > out.txt\n"
  {
  }

  lemma RedirectBothWritten()
    ensures Written(["cmd", "<", "in.txt", ">", "out.txt"])
  {
    var ts := ["cmd", "<", "in.txt", ">", "out.txt"];
    assert IsToken(ts[0]) && IsToken(ts[1]) && IsToken(ts[2]) && IsToken(ts[3]) && IsToken(ts[4]);
  }

  lemma RedirectBothParsed()
    ensures ParseFrom(["cmd", "<", "in.txt", ">", "out.txt"], Blank) == Parsed(Command(["cmd"], Some("in.txt"), Some("out.txt"), false))
  {
  }

  /** With two input redirections the later one wins. */
  lemma LastInputWins(line: seq<char>)
    requires line == "sort < a < b\n"
    ensures Parse(line) == Parsed(Command(["sort"], Some("b"), None, false))
  {
    LastInputWinsSpelled();
    assert ParseFrom(["sort", "<", "a", "<", "b"], Blank) == Parsed(Command(["sort"], Some("b"), None, false));
    LineOf(["sort", "<", "a", "<", "b"], line);
  }

  lemma LastInputWinsSpelled()
    ensures Written(["sort", "<", "a", "<", "b"]) && Join(["sort", "<", "a", "<", "b"]) + "\n" == "sort < a < b\n"
  {
    var ts := ["sort", "<", "a", "<", "b"];
    assert IsToken(ts[0]) && IsToken(ts[1]) && IsToken(ts[2]) && IsToken(ts[3]) && IsToken(ts[4]);
  }

  /** `&` counts wherever it stands, not only at the end of the line. */
  lemma BackgroundAnywhere(line: seq<char>)
    requires line == "& sleep 5\n"
    ensures Parse(line) == Parsed(Command(["sleep", "5"], None, None, true))
  {
    BackgroundAnywhereSpelled();
    assert ParseFrom(["&", "sleep", "5"], Blank) == Parsed(Command(["sleep", "5"], None, None, true));
    LineOf(["&", "sleep", "5"], line);
  }

  lemma BackgroundAnywhereSpelled()
    ensures Written(["&", "sleep", "5"]) && Join(["&", "sleep", "5"]) + "\n" == "& sleep 5\n"
  {
    var ts := ["&", "sleep", "5"];
    assert IsToken(ts[0]) && IsToken(ts[1]) && IsToken(ts[2]);
  }

  /** `#` starts no comment: it is an argument like any other. */
  lemma HashIsAnArgument(line: seq<char>)
    requires line == "# ls\n"
    ensures Parse(line) == Parsed(Command(["#", "ls"], None, None, false))
  {
    HashIsAnArgumentSpelled();
    assert ParseFrom(["#", "ls"], Blank) == Parsed(Command(["#", "ls"], None, None, false));
    LineOf(["#", "ls"], line);
  }

  lemma HashIsAnArgumentSpelled()
    ensures Written(["#", "ls"]) && Join(["#", "ls"]) + "\n" == "# ls\n"
  {
    var ts := ["#", "ls"];
    assert IsToken(ts[0]) && IsToken(ts[1]);
  }

  /**
   * The token after `<` is taken as a file name even when it is `&`, so
   * this line runs in the foreground although it contains an `&` token.
   */
  lemma AmpersandAsFileName(line: seq<char>)
    requires line == "cat < &\n"
    ensures Parse(line) == Parsed(Command(["cat"], Some("&"), None, false))
  {
    AmpersandAsFileNameSpelled();
    assert ParseFrom(["cat", "<", "&"], Blank) == Parsed(Command(["cat"], Some("&"), None, false));
    LineOf(["cat", "<", "&"], line);
  }

  lemma AmpersandAsFileNameSpelled()
    ensures Written(["cat", "<", "&"]) && Join(["cat", "<", "&"]) + "\n" == "cat < &\n"
  {
    var ts := ["cat", "<", "&"];
    assert IsToken(ts[0]) && IsToken(ts[1]) && IsToken(ts[2]);
  }

  /** A `<` closing the line leaves strtok with nothing to return: NULL reaches strdup. */
  lemma DanglingInput(line: seq<char>)
    requires line == "cat <\n"
    ensures Parse(line) == Undefined(MissingRedirectTarget)
  {
    DanglingInputSpelled();
    assert ParseFrom(["cat", "<"], Blank) == Undefined(MissingRedirectTarget);
    LineOf(["cat", "<"], line);
  }

  lemma DanglingInputSpelled()
    ensures Written(["cat", "<"]) && Join(["cat", "<"]) + "\n" == "cat <\n"
  {
    var ts := ["cat", "<"];
    assert IsToken(ts[0]) && IsToken(ts[1]);
  }

  /** Redirection targets are not arguments, so `cd < dir` goes home. */
  lemma CdWithRedirectGoesHome(line: seq<char>)
    requires line == "cd < dir\n"
    ensures RunLine(line) == Run(Command(["cd"], Some("dir"), None, false), ChangeDir(Home))
  {
    CdWithRedirectGoesHomeSpelled();
    assert ParseFrom(["cd", "<", "dir"], Blank) == Parsed(Command(["cd"], Some("dir"), None, false));
    LineOf(["cd", "<", "dir"], line);
  }

  lemma CdWithRedirectGoesHomeSpelled()
    ensures Written(["cd", "<", "dir"]) && Join(["cd", "<", "dir"]) + "\n" == "cd < dir\n"
  {
    var ts := ["cd", "<", "dir"];
    assert IsToken(ts[0]) && IsToken(ts[1]) && IsToken(ts[2]);
  }

  /** `cd` takes its first argument and ignores the rest. */
  lemma CdTakesFirstArgument(line: seq<char>)
    requires line == "cd a b\n"
    ensures RunLine(line) == Run(Command(["cd", "a", "b"], None, None, false), ChangeDir(Dir("a")))
  {
    CdTakesFirstArgumentSpelled();
    assert ParseFrom(["cd", "a", "b"], Blank) == Parsed(Command(["cd", "a", "b"], None, None, false));
    LineOf(["cd", "a", "b"], line);
  }

  lemma CdTakesFirstArgumentSpelled()
    ensures Written(["cd", "a", "b"]) && Join(["cd", "a", "b"]) + "\n" == "cd a b\n"
  {
    var ts := ["cd", "a", "b"];
    assert IsToken(ts[0]) && IsToken(ts[1]) && IsToken(ts[2]);
  }

  /** `exit` with arguments and `&` still leaves with status 1. */
  lemma ExitIgnoresArguments(line: seq<char>)
    requires line == "exit 0 &\n"
    ensures RunLine(line) == Run(Command(["exit", "0"], None, None, true), Exit(1))
  {
    ExitIgnoresArgumentsSpelled();
    assert ParseFrom(["exit", "0", "&"], Blank) == Parsed(Command(["exit", "0"], None, None, true));
    LineOf(["exit", "0", "&"], line);
  }

  lemma ExitIgnoresArgumentsSpelled()
    ensures Written(["exit", "0", "&"]) && Join(["exit", "0", "&"]) + "\n" == "exit 0 &\n"
  {
    var ts := ["exit", "0", "&"];
    assert IsToken(ts[0]) && IsToken(ts[1]) && IsToken(ts[2]);
  }

  /** Any other first word is run with execv, the whole argv passed along. */
  lemma ProgramGetsWholeArgv(line: seq<char>)
    requires line == "/bin/ls -l > out\n"
    ensures RunLine(line) == Run(Command(["/bin/ls", "-l"], None, Some("out"), false), Spawn("/bin/ls", ["/bin/ls", "-l"]))
  {
    ProgramGetsWholeArgvSpelled();
    assert ParseFrom(["/bin/ls", "-l", ">", "out"], Blank) == Parsed(Command(["/bin/ls", "-l"], None, Some("out"), false));
    LineOf(["/bin/ls", "-l", ">", "out"], line);
  }

  lemma ProgramGetsWholeArgvSpelled()
    ensures Written(["/bin/ls", "-l", ">", "out"]) && Join(["/bin/ls", "-l", ">", "out"]) + "\n" == "/bin/ls -l > out\n"
  {
    var ts := ["/bin/ls", "-l", ">", "out"];
    assert IsToken(ts[0]) && IsToken(ts[1]) && IsToken(ts[2]) && IsToken(ts[3]);
  }

  /** A line of control tokens only parses, but leaves `argv[0]` NULL for dispatch. */
  lemma OnlyAmpersand(line: seq<char>)
    requires line == "&\n"
    ensures RunLine(line) == NullProgram(Blank.(isBg := true))
  {
    OnlyAmpersandSpelled();
    assert ParseFrom(["&"], Blank) == Parsed(Blank.(isBg := true));
    LineOf(["&"], line);
  }

  lemma OnlyAmpersandSpelled()
    ensures Written(["&"]) && Join(["&"]) + "\n" == "&\n"
  {
    var ts := ["&"];
    assert IsToken(ts[0]);
  }

  /** strtok stops at a NUL in the buffer; whatever follows it is never seen. */
  lemma StopsAtNul(line: seq<char>)
    requires line == "ls\0 -l\n"
    ensures Parse(line) == Parsed(Command(["ls"], None, None, false))
  {
    assert ParseFrom(["ls"], Blank) == Parsed(Command(["ls"], None, None, false));
    CStringUnique(line, 2);
    assert line[..2] == "ls";
    assert IsToken("ls");
    TokensOfToken("ls");
  }

  /** `n` one-letter words, each followed by a space. */
  function Spaced(n: nat): seq<char> {
    if n == 0 then [] else "a " + Spaced(n - 1)
  }

  function Letters(n: nat): seq<string> {
    if n == 0 then [] else ["a"] + Letters(n - 1)
  }

  lemma {:induction false} SpacedShape(n: nat)
    ensures |Spaced(n)| == 2 * n
    ensures forall k :: 0 <= k < |Spaced(n)| ==> Spaced(n)[k] != '\0'
    ensures |Letters(n)| == n && forall k :: 0 <= k < n ==> Letters(n)[k] == "a"
  {
    if n > 0 {
      SpacedShape(n - 1);
    }
  }

  lemma {:induction false} SpacedTokens(n: nat)
    ensures Tokens(Spaced(n)) == Letters(n)
  {
    if n > 0 {
      SpacedTokens(n - 1);
      assert Spaced(n) == "a" + [' '] + Spaced(n - 1);
      TokensSplit("a", ' ', Spaced(n - 1));
      assert IsToken("a");
      TokensOfToken("a");
    }
  }

  /**
   * `argv` overflows on lines well within the 2047 characters fgets
   * delivers: any line of more than ARGV_SLOTS one-letter words does.
   */
  lemma OverflowWithinBuffer(n: nat)
    requires ARGV_SLOTS < n < INPUT_LENGTH / 2
    ensures |Spaced(n)| < INPUT_LENGTH
    ensures Parse(Spaced(n)) == Undefined(ArgvOverflow)
  {
    SpacedShape(n);
    SpacedTokens(n);
    CStringWhole(Spaced(n));
    var toks := Letters(n);
    assert Tokens(CString(Spaced(n))) == toks;
    PlainWords(toks);
    assert Dangling !in Roles(toks);
    ParseLine(Spaced(n));
    assert |Words(toks)| > ARGV_SLOTS;
    var r := Parse(Spaced(n));
    assert r.Undefined? && r.fault != MissingRedirectTarget;
  }

  /** A line without `<`, `>` or `&` that fits `argv` parses to its tokens, no files, foreground. */
  lemma PlainParse(line: seq<char>, toks: seq<string>)
    requires Tokens(CString(line)) == toks
    requires forall k :: 0 <= k < |toks| ==> !IsControl(toks[k])
    requires |toks| <= ARGV_SLOTS
    ensures Parse(line) == Parsed(Command(toks, None, None, false))
  {
    PlainWords(toks);
    ParseLine(line);
    assert Dangling !in Roles(toks);
    assert Background !in Roles(toks);
    assert forall k :: 0 <= k < |toks| ==> !RedirectsAt(toks, k, "<") && !RedirectsAt(toks, k, ">");
  }

  /**
   * All ARGV_SLOTS slots of `argv` filled is still defined for a builtin:
   * `cd` followed by up to MAX_ARGS words goes to the first of them.
   */
  lemma FullArgvCd(n: nat)
    requires 1 <= n <= MAX_ARGS
    ensures RunLine("cd " + Spaced(n)) == Run(Command(["cd"] + Letters(n), None, None, false), ChangeDir(Dir("a")))
  {
    SpacedShape(n);
    var toks := ["cd"] + Letters(n);
    CdLineTokens(n);
    assert forall k :: 1 <= k < |toks| ==> toks[k] == Letters(n)[k - 1];
    PlainParse("cd " + Spaced(n), toks);
  }

  lemma CdLineTokens(n: nat)
    ensures Tokens(CString("cd " + Spaced(n))) == ["cd"] + Letters(n)
  {
    SpacedShape(n);
    SpacedTokens(n);
    var line := "cd " + Spaced(n);
    assert line == "cd" + [' '] + Spaced(n);
    TokensSplit("cd", ' ', Spaced(n));
    assert IsToken("cd");
    TokensOfToken("cd");
    CdLineWhole(n);
  }

  lemma CdLineWhole(n: nat)
    ensures CString("cd " + Spaced(n)) == "cd " + Spaced(n)
  {
    SpacedShape(n);
    var line := "cd " + Spaced(n);
    assert forall k :: 3 <= k < |line| ==> line[k] == Spaced(n)[k - 3];
    CStringWhole(line);
  }

  /**
   * A program given ARGV_SLOTS words parses, but its `argv` has no NULL
   * terminator left when it reaches `execv`.
   */
  lemma FullArgvExec(n: nat)
    requires n == ARGV_SLOTS
    ensures |Spaced(n)| < INPUT_LENGTH
    ensures RunLine(Spaced(n)) == ExecUnterminated(Command(Letters(n), None, None, false))
  {
    SpacedShape(n);
    SpacedTokens(n);
    CStringWhole(Spaced(n));
    PlainParse(Spaced(n), Letters(n));
  }

  /** A newline alone parses to the record calloc left: no arguments, no files, foreground. */
  lemma EmptyLine(line: seq<char>)
    requires line == "\n"
    ensures Parse(line) == Parsed(Blank)
    ensures RunLine(line) == NullProgram(Blank)
  {
    BlankLineReachesNull(line);
  }
}
