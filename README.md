# SMALLSH command-line parser and builtin dispatch, in Dafny

This project models the two pieces of the small shell `spenryan_assignment4.c` that decide
what a command line means:

- the tokenizing loop of `parse_input`, and
- the builtin dispatch of `execute_command`, together with the choice of directory in
  `cd_command`.

`parse_input` takes the line that `fgets` left in the input buffer and splits it with `strtok`
on spaces and newlines. It fills a `struct command_line` in four ways:

- an ordinary token is appended to `argv`;
- `<` and `>` take the following token as the input or output file;
- `&`, wherever it stands, marks the command as a background command;
- the buffer is read only up to its first NUL, as `strtok` reads it.

`execute_command` looks at `argv[0]` and tries `exit`, then `cd`, then `status`. Any other word
is run through `execv`. `cd` goes to its first argument, or to `$HOME` when it has none.

Files:

- `wrappers.dfy` — `Option`, for C pointers that may be NULL.
- `tokenizer.dfy` — `Tokens`, the pure specification of repeated `strtok` calls, and its
  properties. Also `NextToken`, a single `strtok` call (`strspn` followed by `strcspn`) over a
  cursor into the line, proved against `Tokens`.
- `parser.dfy` — the `Command` record and the recursive specification `ParseFrom`, which
  takes one step per loop iteration. `Roles` is an independent classification of each token as
  argument, operator, target, `&` or dangling operator. The lemmas prove that the loop computes
  what the roles say. `ParseInput` is the loop itself, a method proved equal to `Parse`.
- `dispatch.dfy` — `Dispatch`, the choice of action, and `RunLine`, one turn of `main`: parse
  a line, then dispatch it.
- `cases.dfy` — particular lines worked through the model. These include the lines on which
  the C code has undefined behaviour.

The C code has undefined behaviour on some lines. These lines are results of the model, not
preconditions:

- `Parse` returns `Undefined(MissingRedirectTarget)` when a `<` or `>` is the last token.
  `strtok` returns NULL there and the NULL goes to `strdup`.
- `Parse` returns `Undefined(ArgvOverflow)` when a line has more than ARGV_SLOTS (513)
  ordinary tokens. `argv` has MAX_ARGS + 1 = 513 slots and the loop does not check the bound,
  so the 514th argument is written past the array.
- A line with exactly 513 arguments parses normally, but the 513th argument takes the slot of
  the NULL terminator. The builtins never look for the terminator and still behave as defined.
  A program, however, is handed to `execv` with no terminator in its `argv`. `RunLine` reports
  that case as `ExecUnterminated`.
- `RunLine` reports `NullProgram` when a line parses but has no argument. A blank line, or a
  line of `&` only, are examples. `strcmp` then reads a NULL `argv[0]`.

## Model

| member | source | states |
|---|---|---|
| Tokenizer.CString | spenryan_assignment4.c:115-118 | the string `strtok` works on is the longest NUL-free prefix of the buffer, and a NUL follows it whenever it stops before the end |
| Tokenizer.CStringUnique | spenryan_assignment4.c:115-118 | any prefix with no NUL that is followed by a NUL or by the end of the buffer is the C string |
| Tokenizer.RunLength | spenryan_assignment4.c:118-119 | a token extends exactly to the next space, newline or end of string |
| Tokenizer.RunLengthUnique | spenryan_assignment4.c:118-119 | that end of the run is unique |
| Tokenizer.TokensAreTokens | spenryan_assignment4.c:117-137 | every token is non-empty and contains no space or newline, so runs of delimiters yield no empty token |
| Tokenizer.TokensCoverLine | spenryan_assignment4.c:117-137 | the tokens laid end to end are exactly the non-delimiter characters of the line, in order |
| Tokenizer.TokensSplit | spenryan_assignment4.c:117-137 | a single delimiter splits the line: the tokens of `a + [c] + b` are those of `a` followed by those of `b` |
| Tokenizer.TokensOfToken | spenryan_assignment4.c:118-119 | a delimiter-free run is one token and is never split |
| Tokenizer.TokensEmptyIffBlank | spenryan_assignment4.c:118-119 | a line yields no token if and only if it consists only of spaces and newlines |
| Tokenizer.TokenCountBound | spenryan_assignment4.c:117-137 | a line of n characters yields at most (n+1)/2 tokens |
| Tokenizer.TokensOfJoin | spenryan_assignment4.c:117-137 | round trip: tokens written with single spaces tokenize back to themselves |
| Tokenizer.TokensOfLine | spenryan_assignment4.c:115-119 | the same round trip for a line that ends in the newline `fgets` keeps |
| Tokenizer.CStringWhole | spenryan_assignment4.c:115-118 | a buffer without NUL is read whole |
| Tokenizer.JoinHasNoNul | spenryan_assignment4.c:115-118 | joining NUL-free tokens introduces no NUL |
| Tokenizer.TokensSkipDelim | spenryan_assignment4.c:118 | a delimiter under the cursor contributes no token |
| Tokenizer.TokensTakeRun | spenryan_assignment4.c:118 | a maximal run from the cursor is the next token, and `strtok` resumes one past the delimiter that ends it |
| Tokenizer.SkipDelims | spenryan_assignment4.c:118 | skipping leading delimiters leaves the remaining tokens unchanged and stops on a non-delimiter or at the end |
| Tokenizer.TokenEnd | spenryan_assignment4.c:118 | the scan stops at the first delimiter or at the end, with no delimiter before it |
| Tokenizer.NextToken | spenryan_assignment4.c:118-119 | one `strtok` call returns NULL exactly when no token remains; otherwise it returns the next token of `Tokens`, and the cursor moves to where the rest of the tokens begin |
| CommandParser.Roles | spenryan_assignment4.c:121-136 | one role for each token |
| CommandParser.RolesFitTokens | spenryan_assignment4.c:121-136 | an `&` role sits on `&`, an operator on `<` or `>`, a dangling operator only at the end of the line, and apart from targets a token is an argument exactly when it is not `<`, `>` or `&` |
| CommandParser.RolesPairUp | spenryan_assignment4.c:121-128 | every operator is followed by its target, and every target follows an operator |
| CommandParser.RolesShift | spenryan_assignment4.c:121-137 | after one loop step, the roles of the rest of the line are the roles of its remaining tokens |
| CommandParser.WordsStep | spenryan_assignment4.c:121-137 | one loop step adds to `argv` exactly the argument the roles pick |
| CommandParser.RedirectsAtShift | spenryan_assignment4.c:121-128 | after one loop step, a redirection at position k is the same redirection at position k-d of the rest |
| CommandParser.ParseDefined | spenryan_assignment4.c:121-136 | the loop is defined if and only if no `<`/`>` dangles and there are at most ARGV_SLOTS (513) arguments, the slots `argv` has; each fault names its cause |
| CommandParser.ParseArgv | spenryan_assignment4.c:121-136 | `argv` receives exactly the argument tokens, in line order; operators, their targets and `&` never enter it, and `argc` is their number |
| CommandParser.ParseBackground | spenryan_assignment4.c:129-132 | `is_bg` ends true if and only if it started true or some `&` stood on its own, not as a redirection target |
| CommandParser.ParseRedirect | spenryan_assignment4.c:121-128 | each file is the target of the last operator of its kind; with no such operator it keeps the NULL from `calloc` |
| CommandParser.ParseLine | spenryan_assignment4.c:107-139 | the whole record `parse_input` returns for a buffer: when it is defined, and its `argv`, `is_bg`, `input_file` and `output_file` in terms of the roles |
| CommandParser.PlainWords | spenryan_assignment4.c:133-136 | on a line without `<`, `>` or `&`, every token is an argument and `argv` is the token list |
| CommandParser.BackgroundWithoutRedirects | spenryan_assignment4.c:129-132 | on a line without `<` or `>`, an `&` acts as background if and only if some token is `&` |
| CommandParser.ParseRedirectStep | spenryan_assignment4.c:121-128 | one redirection step sets the file and resumes after the target |
| CommandParser.ParseOtherStep | spenryan_assignment4.c:129-136 | one `&` step sets the flag; one argument step appends while one of the 513 slots is free and is undefined when all are taken |
| CommandParser.CLength | spenryan_assignment4.c:115-118 | the scan for the NUL terminator finds the C string in the buffer |
| CommandParser.ParseInput | spenryan_assignment4.c:107-140 | the `strtok` loop over the buffer returns exactly `Parse(line)`, including both undefined cases; the 513th argument is stored and the 514th is the overflow |
| Dispatcher.Dispatch | spenryan_assignment4.c:87-105 | exactly one action is chosen: exit if and only if `argv[0]` is "exit", cd if and only if it is "cd", status if and only if it is "status", otherwise `execv(argv[0], argv)`; exit always uses status 1; cd goes home if and only if there is no second word, otherwise to `argv[1]` |
| Dispatcher.DispatchIgnoresExtraArgs | spenryan_assignment4.c:36-57 | builtins look only at the words they use: `exit` and `status` at none, `cd` at `argv[1]` only |
| Dispatcher.RunLineChoice | spenryan_assignment4.c:145-149 | a parsed line reaches a NULL `argv[0]` if and only if it has no argument token; a program reaches `execv` without a NULL terminator if and only if it has more than MAX_ARGS arguments; otherwise the first argument token chooses the action |
| Dispatcher.BlankLineReachesNull | spenryan_assignment4.c:117-119 | a line of spaces and newlines parses to the empty record and then reaches `strcmp` with a NULL `argv[0]` |
| ShellCases.LineOf | spenryan_assignment4.c:115-119 | a line written as single-spaced tokens plus a newline parses as its token list does |
| ShellCases.RedirectBoth | spenryan_assignment4.c:117-139 | `cmd < in.txt > out.txt` gives `argv = ["cmd"]`, both files set and foreground |
| ShellCases.LastInputWins | spenryan_assignment4.c:121-124 | with `sort < a < b` the later `<` wins |
| ShellCases.BackgroundAnywhere | spenryan_assignment4.c:129-132 | a leading `&` still makes the command a background command |
| ShellCases.HashIsAnArgument | spenryan_assignment4.c:133-136 | `#` starts no comment and is an argument |
| ShellCases.AmpersandAsFileName | spenryan_assignment4.c:121-132 | in `cat < &` the `&` is the input file and the command runs in the foreground |
| ShellCases.DanglingInput | spenryan_assignment4.c:121-124 | `cat <` hands NULL to `strdup` |
| ShellCases.CdWithRedirectGoesHome | spenryan_assignment4.c:121-124 | in `cd < dir` the redirection target is no argument, so `cd` goes home |
| ShellCases.CdTakesFirstArgument | spenryan_assignment4.c:36-42 | `cd a b` goes to `a` |
| ShellCases.ExitIgnoresArguments | spenryan_assignment4.c:89-92 | `exit 0 &` exits with status 1 |
| ShellCases.ProgramGetsWholeArgv | spenryan_assignment4.c:101-104 | `/bin/ls -l > out` runs `/bin/ls` with `argv = ["/bin/ls", "-l"]`; the redirection is not passed on |
| ShellCases.OnlyAmpersand | spenryan_assignment4.c:129-132 | a line holding only `&` parses and then reaches `strcmp` with a NULL `argv[0]` |
| ShellCases.StopsAtNul | spenryan_assignment4.c:115-118 | what follows a NUL in the buffer is never tokenized |
| ShellCases.SpacedTokens | spenryan_assignment4.c:117-137 | a line of n words `a` separated by spaces yields n tokens |
| ShellCases.OverflowWithinBuffer | spenryan_assignment4.c:135 | every line of n one-letter words with 513 < n < 1024 fits in the 2048-byte buffer and overflows `argv` |
| ShellCases.PlainParse | spenryan_assignment4.c:110-136 | a line without `<`, `>` or `&` of at most 513 tokens parses to those tokens, no files, foreground |
| ShellCases.FullArgvCd | spenryan_assignment4.c:36-42 | `cd` followed by n words, 1 <= n <= 512, fills up to all 513 slots and still goes to its first argument |
| ShellCases.FullArgvExec | spenryan_assignment4.c:75 | a program given 513 words fits in the buffer and parses, but reaches `execv` with no NULL terminator in `argv` |
| ShellCases.EmptyLine | spenryan_assignment4.c:117-119 | a newline alone parses to the `calloc`ed record and reaches a NULL `argv[0]` |

## Left out

- Prompt, `fflush` and `fgets` (spenryan_assignment4.c:112-115) are terminal I/O. The line in the buffer is a parameter of the model, and so is end of input. On end of input `fgets` leaves the buffer unspecified, and the model does not treat that case separately.
- `strdup` and `calloc` allocation, their failure, and the memory each iteration leaks are not modelled. Strings are values.
- Every side effect of an action is out of scope: `exit` itself, the `printf` calls, `chdir`, `getenv("HOME")`, `setenv("PWD")` and the error message of a failed `chdir`, and `fork`, `execv`, `perror` and `exit(2)` in `other_command`. `Home` stands for `$HOME`, and the source does nothing when `$HOME` is unset. Only the choice of action and its arguments is modelled.
- `pid_array` is never written, and the program installs no signal handler, so neither has any state to model. The only use of `pid_array` is the size test in `exit_command`, and `EXIT_STATUS` models that test.
- Dispatcher.CdTargetOf has no contract of its own. `Dispatch` states the choice it makes.
- The code differs from the shell's intended design, and the model follows the code:
  - `&` counts anywhere on the line, not only as the last word;
  - there is no foreground-only mode;
  - `#` is an ordinary word and starts no comment;
  - `execv` searches no `PATH`;
  - `exit` leaves with status 1.
- "`is_bg` is set exactly when some token is `&`" does not hold as stated. A `&` that follows `<` or `>` is a file name and does not set the flag. CommandParser.ParseBackground states the exact rule, and CommandParser.BackgroundWithoutRedirects proves the simple form for lines without redirections.
- The undefined cases end the model's parse. `Undefined` records that the source's behaviour is undefined from that point on, and the model says nothing about what the C program then does. In the same way, `ExecUnterminated` ends the turn at the `execv` that reads past `argv`.
