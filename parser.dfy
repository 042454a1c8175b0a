/**
 * The line parser `parse_input` (spenryan_assignment4.c:107-140) without its
 * prompt and `fgets`: the line already read is an input.
 *
 * `ParseFrom` is the specification of the tokenizing loop, one token (or one
 * operator and its target) per step, exactly as the loop consumes them.
 * `Roles` is an independent, per-position account of what each token is, and
 * the lemmas below relate the two: `argv` holds exactly the ordinary tokens,
 * `is_bg` records whether some `&` was an operator, and each file is the
 * target of the last matching redirection operator.  `ParseInput` is the loop
 * itself, proved to compute `Parse`.
 */
module CommandParser {
  import opened Wrappers
  import opened Tokenizer

  /** Size of the buffer `fgets` fills (spenryan_assignment4.c:9, 109). */
  const INPUT_LENGTH: nat := 2048

  /** `argv` has MAX_ARGS slots for arguments plus one for the NULL terminator (spenryan_assignment4.c:10, 16). */
  const MAX_ARGS: nat := 512

  /**
   * The slots of `argv` (spenryan_assignment4.c:16).  The loop stores the
   * k-th ordinary token in `argv[k-1]` without a bound check
   * (spenryan_assignment4.c:135), so ARGV_SLOTS tokens still fit; the last of
   * them takes the place of the NULL terminator.
   */
  const ARGV_SLOTS: nat := MAX_ARGS + 1

  /**
   * `struct command_line` (spenryan_assignment4.c:14-21).  The C field `argc`
   * is always the number of strings stored in `argv`, so it is `|argv|` here;
   * a NULL file pointer is `None`.
   */
  datatype Command = Command(argv: seq<string>, inputFile: Option<string>, outputFile: Option<string>, isBg: bool)

  /** The record `calloc` returns: no arguments, both files NULL, `is_bg` false (spenryan_assignment4.c:110). */
  const Blank := Command([], None, None, false)

  /**
   * Inputs on which the C loop has undefined behaviour:
   * a `<` or `>` with no token after it hands NULL to `strdup`, and an
   * ordinary token beyond the ARGV_SLOTS-th is written past the end of `argv`.
   */
  datatype Fault = MissingRedirectTarget | ArgvOverflow

  datatype ParseResult = Parsed(cmd: Command) | Undefined(fault: Fault)

  predicate IsRedirectOp(t: string) {
    t == "<" || t == ">"
  }

  /** The tokens the loop treats specially; every other token is an argument. */
  predicate IsControl(t: string) {
    t == "<" || t == ">" || t == "&"
  }

  /** The file a redirection operator sets. */
  function FileFor(cmd: Command, op: string): Option<string> {
    if op == "<" then cmd.inputFile else cmd.outputFile
  }

  /** The tokenizing loop from the point where `toks` remain and `cmd` has been filled so far. */
  function ParseFrom(toks: seq<string>, cmd: Command): ParseResult
    decreases |toks|
  {
    if toks == [] then Parsed(cmd)
    else if toks[0] == "<" then
      if |toks| == 1 then Undefined(MissingRedirectTarget)
      else ParseFrom(toks[2..], cmd.(inputFile := Some(toks[1])))
    else if toks[0] == ">" then
      if |toks| == 1 then Undefined(MissingRedirectTarget)
      else ParseFrom(toks[2..], cmd.(outputFile := Some(toks[1])))
    else if toks[0] == "&" then
      ParseFrom(toks[1..], cmd.(isBg := true))
    else if |cmd.argv| >= ARGV_SLOTS then
      Undefined(ArgvOverflow)
    else
      ParseFrom(toks[1..], cmd.(argv := cmd.argv + [toks[0]]))
  }

  /** What `parse_input` builds from the contents of its input buffer. */
  function Parse(line: seq<char>): ParseResult {
    ParseFrom(Tokens(CString(line)), Blank)
  }

  /** What a token is, by position. */
  datatype Role =
    | Word        // an argument, stored in argv
    | Operator    // a `<` or `>` that takes the next token
    | Target      // the token right after an Operator: a file name
    | Background  // an `&` standing on its own
    | Dangling    // a `<` or `>` with nothing after it

  function Roles(toks: seq<string>): (rs: seq<Role>)
    ensures |rs| == |toks|
  {
    if toks == [] then []
    else if IsRedirectOp(toks[0]) then
      if |toks| == 1 then [Dangling] else [Operator, Target] + Roles(toks[2..])
    else if toks[0] == "&" then [Background] + Roles(toks[1..])
    else [Word] + Roles(toks[1..])
  }

  /** The tokens whose role is Word, in order. */
  function Pick(toks: seq<string>, rs: seq<Role>): seq<string>
    requires |toks| == |rs|
  {
    if toks == [] then []
    else (if rs[0] == Word then [toks[0]] else []) + Pick(toks[1..], rs[1..])
  }

  function Words(toks: seq<string>): seq<string> {
    Pick(toks, Roles(toks))
  }

  /** Position `k` holds the redirection operator `op` and a target follows it. */
  ghost predicate RedirectsAt(toks: seq<string>, k: int, op: string) {
    0 <= k && k + 1 < |toks| && Roles(toks)[k] == Operator && toks[k] == op
  }

  /** Position `k` holds the last `op` operator of the line. */
  ghost predicate IsLastRedirect(toks: seq<string>, k: int, op: string) {
    RedirectsAt(toks, k, op) && forall j :: k < j < |toks| ==> !RedirectsAt(toks, j, op)
  }

  /**
   * Every role fits its token: an argument is never a control token, an `&`
   * role sits on an `&`, an operator on `<` or `>`, and apart from targets a
   * token is an argument exactly when it is not a control token.
   */
  lemma {:induction false} RolesFitTokens(toks: seq<string>)
    ensures forall k :: 0 <= k < |toks| && Roles(toks)[k] == Background ==> toks[k] == "&"
    ensures forall k :: 0 <= k < |toks| && Roles(toks)[k] == Operator ==> IsRedirectOp(toks[k])
    ensures forall k :: 0 <= k < |toks| && Roles(toks)[k] == Dangling ==> IsRedirectOp(toks[k]) && k == |toks| - 1
    ensures forall k :: 0 <= k < |toks| && Roles(toks)[k] != Target ==> (Roles(toks)[k] == Word <==> !IsControl(toks[k]))
    decreases |toks|
  {
    if toks != [] {
      var d := if IsRedirectOp(toks[0]) && |toks| > 1 then 2 else 1;
      if d <= |toks| {
        RolesFitTokens(toks[d..]);
        RolesShift(toks);
      }
    }
  }

  /** Every operator is followed by its target, and every target follows an operator. */
  lemma {:induction false} RolesPairUp(toks: seq<string>)
    ensures forall k :: 0 <= k < |toks| && Roles(toks)[k] == Operator ==> k + 1 < |toks| && Roles(toks)[k + 1] == Target
    ensures forall k :: 0 <= k < |toks| && Roles(toks)[k] == Target ==> 0 < k && Roles(toks)[k - 1] == Operator
    decreases |toks|
  {
    if toks != [] {
      var d := if IsRedirectOp(toks[0]) && |toks| > 1 then 2 else 1;
      if d <= |toks| {
        RolesPairUp(toks[d..]);
        RolesShift(toks);
      }
    }
  }

  /** Past the first step, the roles of a line are the roles of the rest of it. */
  lemma RolesShift(toks: seq<string>)
    requires toks != []
    ensures IsRedirectOp(toks[0]) && |toks| > 1 ==>
      Roles(toks)[0] == Operator && Roles(toks)[1] == Target && Roles(toks)[2..] == Roles(toks[2..])
    ensures IsRedirectOp(toks[0]) && |toks| == 1 ==> Roles(toks) == [Dangling]
    ensures !IsRedirectOp(toks[0]) ==> Roles(toks)[1..] == Roles(toks[1..])
    ensures toks[0] == "&" ==> Roles(toks)[0] == Background
    ensures !IsControl(toks[0]) ==> Roles(toks)[0] == Word
  {
  }

  /** One step of Words, matching one step of the loop. */
  lemma WordsStep(toks: seq<string>)
    requires toks != []
    ensures IsRedirectOp(toks[0]) && |toks| > 1 ==> Words(toks) == Words(toks[2..])
    ensures IsRedirectOp(toks[0]) && |toks| == 1 ==> Words(toks) == []
    ensures toks[0] == "&" ==> Words(toks) == Words(toks[1..])
    ensures !IsControl(toks[0]) ==> Words(toks) == [toks[0]] + Words(toks[1..])
  {
    var rs := Roles(toks);
    RolesShift(toks);
    if IsRedirectOp(toks[0]) && |toks| > 1 {
      assert Pick(toks, rs) == Pick(toks[1..], rs[1..]);
      assert toks[1..][1..] == toks[2..];
      assert rs[1..][1..] == Roles(toks[2..]);
      assert Pick(toks[1..], rs[1..]) == Pick(toks[1..][1..], rs[1..][1..]);
    } else if IsRedirectOp(toks[0]) {
      assert Pick(toks, rs) == Pick(toks[1..], rs[1..]);
    }
  }

  /** Shifting RedirectsAt past the first step of the loop. */
  lemma RedirectsAtShift(toks: seq<string>, d: nat, op: string)
    requires 0 < d <= |toks| && d <= 2
    requires d == 2 <==> IsRedirectOp(toks[0]) && |toks| > 1
    ensures forall k :: d <= k < |toks| ==> (RedirectsAt(toks, k, op) <==> RedirectsAt(toks[d..], k - d, op))
    ensures forall k :: 0 < k < d ==> !RedirectsAt(toks, k, op)
    ensures d == 1 ==> !RedirectsAt(toks, 0, op)
    ensures d == 2 ==> (RedirectsAt(toks, 0, op) <==> toks[0] == op)
  {
    RolesShift(toks);
    var rs, rest := Roles(toks), toks[d..];
    if d < |toks| {
      assert rs[d..] == Roles(rest);
      forall k | d <= k < |toks|
        ensures RedirectsAt(toks, k, op) <==> RedirectsAt(rest, k - d, op)
      {
        assert rs[k] == rs[d..][k - d];
        assert toks[k] == rest[k - d];
      }
    }
  }

  /**
   * Whether the line has defined behaviour, and if not, why: the loop is
   * defined exactly when no operator dangles and the arguments fit.
   */
  lemma {:induction false} ParseDefined(toks: seq<string>, acc: Command)
    requires |acc.argv| <= ARGV_SLOTS
    ensures ParseFrom(toks, acc).Parsed? <==>
      Dangling !in Roles(toks) && |acc.argv| + |Words(toks)| <= ARGV_SLOTS
    ensures ParseFrom(toks, acc) == Undefined(MissingRedirectTarget) ==> Dangling in Roles(toks)
    ensures ParseFrom(toks, acc) == Undefined(ArgvOverflow) ==> |acc.argv| + |Words(toks)| > ARGV_SLOTS
    decreases |toks|
  {
    if toks != [] {
      RolesShift(toks);
      WordsStep(toks);
      if IsRedirectOp(toks[0]) && |toks| > 1 {
        var acc' := if toks[0] == "<" then acc.(inputFile := Some(toks[1])) else acc.(outputFile := Some(toks[1]));
        ParseDefined(toks[2..], acc');
        assert Roles(toks) == [Operator, Target] + Roles(toks[2..]);
      } else if toks[0] == "&" {
        ParseDefined(toks[1..], acc.(isBg := true));
        assert Roles(toks) == [Background] + Roles(toks[1..]);
      } else if !IsControl(toks[0]) {
        assert Roles(toks) == [Word] + Roles(toks[1..]);
        if |acc.argv| < ARGV_SLOTS {
          ParseDefined(toks[1..], acc.(argv := acc.argv + [toks[0]]));
        } else {
          WordsCountsCase(toks);
        }
      }
    }
  }

  lemma WordsCountsCase(toks: seq<string>)
    requires toks != [] && !IsControl(toks[0])
    ensures |Words(toks)| >= 1
  {
    WordsStep(toks);
  }

  /** `argv` receives exactly the tokens whose role is Word, in their order on the line. */
  lemma {:induction false} ParseArgv(toks: seq<string>, acc: Command, c: Command)
    requires ParseFrom(toks, acc) == Parsed(c)
    ensures c.argv == acc.argv + Words(toks)
    decreases |toks|
  {
    if toks != [] {
      WordsStep(toks);
      if IsRedirectOp(toks[0]) {
        var acc' := if toks[0] == "<" then acc.(inputFile := Some(toks[1])) else acc.(outputFile := Some(toks[1]));
        ParseArgv(toks[2..], acc', c);
      } else if toks[0] == "&" {
        ParseArgv(toks[1..], acc.(isBg := true), c);
      } else {
        ParseArgv(toks[1..], acc.(argv := acc.argv + [toks[0]]), c);
      }
    }
  }

  /** `is_bg` ends up set exactly when it started set or some `&` stood on its own. */
  lemma {:induction false} ParseBackground(toks: seq<string>, acc: Command, c: Command)
    requires ParseFrom(toks, acc) == Parsed(c)
    ensures c.isBg <==> acc.isBg || Background in Roles(toks)
    decreases |toks|
  {
    if toks != [] {
      RolesShift(toks);
      if IsRedirectOp(toks[0]) {
        var acc' := if toks[0] == "<" then acc.(inputFile := Some(toks[1])) else acc.(outputFile := Some(toks[1]));
        ParseBackground(toks[2..], acc', c);
        assert Roles(toks) == [Operator, Target] + Roles(toks[2..]);
      } else if toks[0] == "&" {
        ParseBackground(toks[1..], acc.(isBg := true), c);
      } else {
        ParseBackground(toks[1..], acc.(argv := acc.argv + [toks[0]]), c);
        assert Roles(toks) == [Word] + Roles(toks[1..]);
      }
    }
  }

  /**
   * Each redirection file is the target of the last operator of its kind;
   * with no such operator the file keeps the value it had.
   */
  lemma {:induction false} ParseRedirect(toks: seq<string>, acc: Command, c: Command, op: string)
    requires ParseFrom(toks, acc) == Parsed(c)
    requires IsRedirectOp(op)
    ensures (forall k :: 0 <= k < |toks| ==> !RedirectsAt(toks, k, op)) ==> FileFor(c, op) == FileFor(acc, op)
    ensures (exists k :: RedirectsAt(toks, k, op)) ==>
      exists k :: IsLastRedirect(toks, k, op) && FileFor(c, op) == Some(toks[k + 1])
    decreases |toks|
  {
    if toks != [] {
      var d := if IsRedirectOp(toks[0]) then 2 else 1;
      RedirectsAtShift(toks, d, op);
      var rest := toks[d..];
      var acc' :=
        if toks[0] == "<" then acc.(inputFile := Some(toks[1]))
        else if toks[0] == ">" then acc.(outputFile := Some(toks[1]))
        else if toks[0] == "&" then acc.(isBg := true)
        else acc.(argv := acc.argv + [toks[0]]);
      ParseRedirect(rest, acc', c, op);
      if exists k :: RedirectsAt(rest, k, op) {
        var k :| IsLastRedirect(rest, k, op) && FileFor(c, op) == Some(rest[k + 1]);
        assert RedirectsAt(toks, k + d, op);
        assert IsLastRedirect(toks, k + d, op);
      } else if d == 2 && toks[0] == op {
        assert IsLastRedirect(toks, 0, op);
      } else {
        assert forall k :: 0 <= k < |toks| ==> !RedirectsAt(toks, k, op);
      }
    }
  }

  /**
   * What `parse_input` leaves in the record, stated over the roles of the
   * line's tokens: defined exactly when no operator dangles and at most
   * ARGV_SLOTS arguments occur; then `argv` holds the arguments, `is_bg` says
   * whether an `&` stood on its own, and each file is the target of the last
   * operator of its kind, or NULL when there is none.
   */
  lemma ParseLine(line: seq<char>)
    ensures var toks := Tokens(CString(line));
      && (Parse(line).Parsed? <==> Dangling !in Roles(toks) && |Words(toks)| <= ARGV_SLOTS)
      && (Parse(line) == Undefined(MissingRedirectTarget) ==> Dangling in Roles(toks))
      && (Parse(line) == Undefined(ArgvOverflow) ==> |Words(toks)| > ARGV_SLOTS)
    ensures Parse(line).Parsed? ==> var toks, c := Tokens(CString(line)), Parse(line).cmd;
      && c.argv == Words(toks)
      && (c.isBg <==> Background in Roles(toks))
      && (c.inputFile == None <==> forall k :: 0 <= k < |toks| ==> !RedirectsAt(toks, k, "<"))
      && (c.inputFile != None ==> exists k :: IsLastRedirect(toks, k, "<") && c.inputFile == Some(toks[k + 1]))
      && (c.outputFile == None <==> forall k :: 0 <= k < |toks| ==> !RedirectsAt(toks, k, ">"))
      && (c.outputFile != None ==> exists k :: IsLastRedirect(toks, k, ">") && c.outputFile == Some(toks[k + 1]))
  {
    var toks := Tokens(CString(line));
    ParseDefined(toks, Blank);
    if Parse(line).Parsed? {
      var c := Parse(line).cmd;
      ParseArgv(toks, Blank, c);
      ParseBackground(toks, Blank, c);
      ParseRedirect(toks, Blank, c, "<");
      ParseRedirect(toks, Blank, c, ">");
    }
  }

  /** A line with no control token passes through unchanged: every token is an argument. */
  lemma {:induction false} PlainWords(toks: seq<string>)
    requires forall k :: 0 <= k < |toks| ==> !IsControl(toks[k])
    ensures Words(toks) == toks
    ensures forall k :: 0 <= k < |toks| ==> Roles(toks)[k] == Word
  {
    if toks != [] {
      RolesShift(toks);
      WordsStep(toks);
      PlainWords(toks[1..]);
      forall k | 1 <= k < |toks|
        ensures Roles(toks)[k] == Word
      {
        assert Roles(toks)[1..][k - 1] == Roles(toks)[k];
      }
    }
  }

  /**
   * Where neither `<` nor `>` occurs, nothing can shield an `&`: the
   * Background role appears exactly when some token is `&`.
   */
  lemma {:induction false} BackgroundWithoutRedirects(toks: seq<string>)
    requires forall k :: 0 <= k < |toks| ==> !IsRedirectOp(toks[k])
    ensures Background in Roles(toks) <==> "&" in toks
  {
    if toks != [] {
      RolesShift(toks);
      BackgroundWithoutRedirects(toks[1..]);
      assert Roles(toks) == [Roles(toks)[0]] + Roles(toks[1..]);
      assert toks == [toks[0]] + toks[1..];
    }
  }

  /** A redirection operator with a token after it: the token becomes the file. */
  lemma ParseRedirectStep(op: string, target: string, rest: seq<string>, cmd: Command)
    requires IsRedirectOp(op)
    ensures ParseFrom([op] + ([target] + rest), cmd) ==
      ParseFrom(rest, if op == "<" then cmd.(inputFile := Some(target)) else cmd.(outputFile := Some(target)))
  {
    assert ([op] + ([target] + rest))[2..] == rest;
  }

  /** Any other token: `&` sets the flag, an argument is appended while there is room. */
  lemma ParseOtherStep(t: string, rest: seq<string>, cmd: Command)
    requires !IsRedirectOp(t)
    ensures ParseFrom([t] + rest, cmd) ==
      if t == "&" then ParseFrom(rest, cmd.(isBg := true))
      else if |cmd.argv| >= ARGV_SLOTS then Undefined(ArgvOverflow)
      else ParseFrom(rest, cmd.(argv := cmd.argv + [t]))
  {
    assert ([t] + rest)[1..] == rest;
  }

  /** Where `strtok` stops reading: the first NUL of the buffer, or its end. */
  method CLength(line: seq<char>) returns (n: nat)
    ensures n <= |line| && line[..n] == CString(line)
  {
    n := 0;
    while n < |line| && line[n] != '\0'
      invariant n <= |line|
      invariant forall k :: 0 <= k < n ==> line[k] != '\0'
    {
      n := n + 1;
    }
    CStringUnique(line, n);
  }

  /**
   * The `parse_input` loop over an already-read line: `strtok` across the C
   * string in the buffer, each token compared with `<`, `>` and `&`, a
   * redirection consuming the following token, every other token appended
   * to `argv`.
   */
  method ParseInput(line: seq<char>) returns (r: ParseResult)
    ensures r == Parse(line)
  {
    // strtok sees the buffer only up to its NUL terminator
    var n := CLength(line);
    var s := line[..n];
    assert s[0..] == s;

    var cmd := Blank;
    var token, i := NextToken(s, 0);
    while token.Some?
      invariant i <= |s|
      invariant token.None? ==> i == |s|
      invariant ParseFrom((if token.Some? then [token.value] else []) + Tokens(s[i..]), cmd) == Parse(line)
      decreases |s| - i + (if token.Some? then 1 else 0)
    {
      var t := token.value;
      if t == "<" {
        var target, j := NextToken(s, i);
        if target.None? {
          return Undefined(MissingRedirectTarget);
        }
        ParseRedirectStep(t, target.value, Tokens(s[j..]), cmd);
        cmd := cmd.(inputFile := Some(target.value));
        i := j;
      } else if t == ">" {
        var target, j := NextToken(s, i);
        if target.None? {
          return Undefined(MissingRedirectTarget);
        }
        ParseRedirectStep(t, target.value, Tokens(s[j..]), cmd);
        cmd := cmd.(outputFile := Some(target.value));
        i := j;
      } else if t == "&" {
        ParseOtherStep(t, Tokens(s[i..]), cmd);
        cmd := cmd.(isBg := true);
      } else {
        ParseOtherStep(t, Tokens(s[i..]), cmd);
        if |cmd.argv| >= ARGV_SLOTS {
          return Undefined(ArgvOverflow);
        }
        cmd := cmd.(argv := cmd.argv + [t]);
      }
      token, i := NextToken(s, i);
    }
    assert s[i..] == [];
    return Parsed(cmd);
  }
}
