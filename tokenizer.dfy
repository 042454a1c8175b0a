/**
 * The tokenizer of the shell's line parser: `strtok(input, " \n")` followed by
 * repeated `strtok(NULL, " \n")` calls, which visit the maximal runs of
 * characters other than space and newline from left to right
 * (spenryan_assignment4.c:117-139).
 *
 * `Tokens` is the specification; `NextToken` is one `strtok` call over a
 * cursor into the line, proved against it.
 */
module Tokenizer {
  import opened Wrappers

  /** The delimiter set " \n" passed to every strtok call. */
  predicate IsDelim(c: char) {
    c == ' ' || c == '\n'
  }

  /** A token: a non-empty run of non-delimiter characters. */
  predicate IsToken(t: string) {
    |t| > 0 && forall k :: 0 <= k < |t| ==> !IsDelim(t[k])
  }

  /** The C string held in a character buffer: everything before the first NUL. */
  function CString(buf: seq<char>): (s: seq<char>)
    ensures |s| <= |buf| && s == buf[..|s|]
    ensures forall k :: 0 <= k < |s| ==> s[k] != '\0'
    ensures |s| < |buf| ==> buf[|s|] == '\0'
  {
    if buf == [] || buf[0] == '\0' then [] else [buf[0]] + CString(buf[1..])
  }

  /** The three properties in CString's contract single out one prefix. */
  lemma CStringUnique(buf: seq<char>, n: nat)
    requires n <= |buf|
    requires forall k :: 0 <= k < n ==> buf[k] != '\0'
    requires n < |buf| ==> buf[n] == '\0'
    ensures CString(buf) == buf[..n]
  {
  }

  /** Length of the leading run of non-delimiters. */
  function RunLength(s: seq<char>): (n: nat)
    ensures n <= |s|
    ensures forall k :: 0 <= k < n ==> !IsDelim(s[k])
    ensures n < |s| ==> IsDelim(s[n])
  {
    if s == [] || IsDelim(s[0]) then 0 else 1 + RunLength(s[1..])
  }

  /** The three properties in RunLength's contract single out one length. */
  lemma RunLengthUnique(s: seq<char>, m: nat)
    requires m <= |s|
    requires forall k :: 0 <= k < m ==> !IsDelim(s[k])
    requires m < |s| ==> IsDelim(s[m])
    ensures RunLength(s) == m
  {
  }

  /** The tokens strtok returns for `s`, in order. */
  function Tokens(s: seq<char>): seq<string>
    decreases |s|
  {
    if s == [] then []
    else if IsDelim(s[0]) then Tokens(s[1..])
    else
      var n := RunLength(s);
      [s[..n]] + Tokens(s[n..])
  }

  /** The characters of `s` that are not delimiters, in order. */
  function Strip(s: seq<char>): seq<char> {
    if s == [] then []
    else if IsDelim(s[0]) then Strip(s[1..])
    else [s[0]] + Strip(s[1..])
  }

  /** The tokens laid end to end. */
  function Concat(ts: seq<string>): seq<char> {
    if ts == [] then [] else ts[0] + Concat(ts[1..])
  }

  /** The tokens written back as a line, one space between neighbours. */
  function Join(ts: seq<string>): seq<char> {
    if ts == [] then []
    else if |ts| == 1 then ts[0]
    else ts[0] + " " + Join(ts[1..])
  }

  /** Every token strtok returns is non-empty and free of delimiters. */
  lemma {:induction false} TokensAreTokens(s: seq<char>)
    ensures forall k :: 0 <= k < |Tokens(s)| ==> IsToken(Tokens(s)[k])
    decreases |s|
  {
    if s == [] {
    } else if IsDelim(s[0]) {
      TokensAreTokens(s[1..]);
    } else {
      var n := RunLength(s);
      TokensAreTokens(s[n..]);
    }
  }

  /** No character is lost or invented: the tokens spell out the non-delimiters of the line. */
  lemma {:induction false} TokensCoverLine(s: seq<char>)
    ensures Concat(Tokens(s)) == Strip(s)
    decreases |s|
  {
    if s == [] {
    } else if IsDelim(s[0]) {
      TokensCoverLine(s[1..]);
    } else {
      var n := RunLength(s);
      TokensCoverLine(s[n..]);
      StripRun(s, n);
      assert Tokens(s) == [s[..n]] + Tokens(s[n..]);
    }
  }

  lemma {:induction false} StripRun(s: seq<char>, n: nat)
    requires n <= |s|
    requires forall k :: 0 <= k < n ==> !IsDelim(s[k])
    ensures Strip(s) == s[..n] + Strip(s[n..])
  {
    if n > 0 {
      StripRun(s[1..], n - 1);
      assert s[1..][n - 1..] == s[n..];
      assert s[..n] == [s[0]] + s[1..][..n - 1];
    }
  }

  /** A line yields no token exactly when it consists of delimiters only. */
  lemma {:induction false} TokensEmptyIffBlank(s: seq<char>)
    ensures Tokens(s) == [] <==> forall k :: 0 <= k < |s| ==> IsDelim(s[k])
    decreases |s|
  {
    if s != [] && IsDelim(s[0]) {
      TokensEmptyIffBlank(s[1..]);
      assert forall k :: 1 <= k < |s| ==> s[k] == s[1..][k - 1];
    }
  }

  /** A single delimiter separates: what lies left of it and right of it tokenize independently. */
  lemma {:induction false} TokensSplit(a: seq<char>, c: char, b: seq<char>)
    requires IsDelim(c)
    ensures Tokens(a + [c] + b) == Tokens(a) + Tokens(b)
    decreases |a|, 1
  {
    var s := a + [c] + b;
    if a == [] {
      assert s == [c] + b;
      assert s[1..] == b;
    } else if IsDelim(a[0]) {
      assert s[1..] == a[1..] + [c] + b;
      TokensSplit(a[1..], c, b);
    } else {
      TokensSplitRun(a, c, b);
    }
  }

  /** TokensSplit when `a` opens with a token: that token ends inside `a`, before the delimiter. */
  lemma {:induction false} TokensSplitRun(a: seq<char>, c: char, b: seq<char>)
    requires IsDelim(c) && a != [] && !IsDelim(a[0])
    ensures Tokens(a + [c] + b) == Tokens(a) + Tokens(b)
    decreases |a|, 0
  {
    var s := a + [c] + b;
    var n := RunLength(a);
    RunLengthUnique(s, n);
    assert s[..n] == a[..n];
    if n == |a| {
      assert a[..n] == a && a[n..] == [];
      assert Tokens(a) == [a];
      assert s[n..] == [c] + b;
      assert s[n..][1..] == b;
    } else {
      assert s[n..] == a[n..] + [c] + b;
      TokensSplit(a[n..], c, b);
    }
  }

  /**
   * Tokens need a character each and a delimiter between neighbours, so a
   * line of `|s|` characters yields at most `(|s| + 1) / 2` of them.
   */
  lemma {:induction false} TokenCountBound(s: seq<char>)
    ensures 2 * |Tokens(s)| <= |s| + 1
    decreases |s|
  {
    if s == [] {
    } else if IsDelim(s[0]) {
      TokenCountBound(s[1..]);
    } else {
      var n := RunLength(s);
      if n < |s| {
        TokensSkipDelim(s, n);
        TokenCountBound(s[n + 1..]);
      } else {
        assert s[n..] == [];
      }
    }
  }

  /** A token standing alone on a line tokenizes to itself. */
  lemma TokensOfToken(t: string)
    requires IsToken(t)
    ensures Tokens(t) == [t]
  {
    assert !IsDelim(t[0]);
    RunLengthUnique(t, |t|);
    assert t[..|t|] == t;
    assert t[|t|..] == [];
  }

  /** Round trip: writing tokens out with single spaces and tokenizing again gives them back. */
  lemma {:induction false} TokensOfJoin(ts: seq<string>)
    requires forall k :: 0 <= k < |ts| ==> IsToken(ts[k])
    ensures Tokens(Join(ts)) == ts
  {
    if |ts| == 1 {
      TokensOfToken(ts[0]);
    } else if |ts| > 1 {
      TokensOfToken(ts[0]);
      TokensOfJoin(ts[1..]);
      assert Join(ts) == ts[0] + [' '] + Join(ts[1..]);
      TokensSplit(ts[0], ' ', Join(ts[1..]));
    }
  }

  /** A buffer without NUL holds its whole contents as a C string. */
  lemma CStringWhole(buf: seq<char>)
    requires forall k :: 0 <= k < |buf| ==> buf[k] != '\0'
    ensures CString(buf) == buf
  {
    CStringUnique(buf, |buf|);
  }

  /** Tokens free of NUL stay free of it when joined. */
  lemma {:induction false} JoinHasNoNul(ts: seq<string>)
    requires forall k :: 0 <= k < |ts| ==> forall m :: 0 <= m < |ts[k]| ==> ts[k][m] != '\0'
    ensures forall m :: 0 <= m < |Join(ts)| ==> Join(ts)[m] != '\0'
  {
    if |ts| > 1 {
      JoinHasNoNul(ts[1..]);
    }
  }

  /** A line as `fgets` delivers it, newline included, tokenizes to the tokens written on it. */
  lemma TokensOfLine(ts: seq<string>)
    requires forall k :: 0 <= k < |ts| ==> IsToken(ts[k])
    ensures Tokens(Join(ts) + "\n") == ts
  {
    TokensOfJoin(ts);
    TokensSplit(Join(ts), '\n', []);
    assert Join(ts) + "\n" == Join(ts) + ['\n'] + [];
  }

  /** A delimiter under the cursor contributes no token. */
  lemma TokensSkipDelim(s: seq<char>, k: nat)
    requires k < |s| && IsDelim(s[k])
    ensures Tokens(s[k..]) == Tokens(s[k + 1..])
  {
    assert s[k..][1..] == s[k + 1..];
  }

  /** A maximal run of non-delimiters from `start` to `k` is the next token. */
  lemma TokensTakeRun(s: seq<char>, start: nat, k: nat, j: nat)
    requires start < k <= |s|
    requires forall m :: start <= m < k ==> !IsDelim(s[m])
    requires k < |s| ==> IsDelim(s[k])
    requires j == if k < |s| then k + 1 else k
    ensures Tokens(s[start..]) == [s[start..k]] + Tokens(s[j..])
  {
    var rest := s[start..];
    RunLengthUnique(rest, k - start);
    assert rest[..k - start] == s[start..k];
    assert rest[k - start..] == s[k..];
    if k < |s| {
      TokensSkipDelim(s, k);
    }
  }

  /** strtok's first phase (`strspn`): step over the delimiters under the cursor. */
  method SkipDelims(s: seq<char>, i: nat) returns (k: nat)
    requires i <= |s|
    ensures i <= k <= |s|
    ensures k < |s| ==> !IsDelim(s[k])
    ensures Tokens(s[i..]) == Tokens(s[k..])
  {
    k := i;
    while k < |s| && IsDelim(s[k])
      invariant i <= k <= |s|
      invariant Tokens(s[i..]) == Tokens(s[k..])
    {
      TokensSkipDelim(s, k);
      k := k + 1;
    }
  }

  /** strtok's second phase (`strcspn`): find where the token starting at `start` ends. */
  method TokenEnd(s: seq<char>, start: nat) returns (k: nat)
    requires start <= |s|
    ensures start <= k <= |s|
    ensures forall m :: start <= m < k ==> !IsDelim(s[m])
    ensures k < |s| ==> IsDelim(s[k])
  {
    k := start;
    while k < |s| && !IsDelim(s[k])
      invariant start <= k <= |s|
      invariant forall m :: start <= m < k ==> !IsDelim(s[m])
    {
      k := k + 1;
    }
  }

  /**
   * One strtok call: skip delimiters from the cursor `i`; at the end of the
   * string there is no token (NULL), otherwise the token runs to the next
   * delimiter, which strtok overwrites with NUL, leaving the cursor just past it.
   */
  method NextToken(s: seq<char>, i: nat) returns (tok: Option<string>, j: nat)
    requires i <= |s|
    ensures i <= j <= |s|
    ensures tok.None? ==> j == |s| && Tokens(s[i..]) == []
    ensures tok.Some? ==> i < j && Tokens(s[i..]) == [tok.value] + Tokens(s[j..])
  {
    var start := SkipDelims(s, i);
    if start == |s| {
      return None, start;
    }
    var k := TokenEnd(s, start);
    // strtok writes NUL over the delimiter that ends the token and resumes after it
    j := if k < |s| then k + 1 else k;
    TokensTakeRun(s, start, k, j);
    tok := Some(s[start..k]);
  }
}
