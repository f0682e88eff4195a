/**
 * Asking the archive host for a file's SHA-1 (`check_remote_shasum` in
 * data_handling/copy_data_remote.py): escaping the file name for the remote
 * shell, cleaning the captured reply of terminal colour codes, and
 * classifying the reply as a hash or as no hash.
 */
module Shasum {
  import opened Optional
  import opened Text

  // ---------------------------------------------------------------------
  // Escaping the file name

  /** The target-name template that some image names carry literally. */
  const Token: string := "$TGTNAME-$INTERVAL"

  /** Whether escaping puts a backslash in front of `c`. */
  predicate Escaped(c: char, dollars: bool, pluses: bool) {
    (c == '$' && dollars) || (c == '+' && pluses)
  }

  /** Character-by-character escaping: every escaped character gets a backslash in front. */
  function EscapeChars(s: string, dollars: bool, pluses: bool): string {
    if s == [] then []
    else (if Escaped(s[0], dollars, pluses) then ['\\', s[0]] else [s[0]]) + EscapeChars(s[1..], dollars, pluses)
  }

  /** The inverse of `EscapeChars`: a backslash before an escaped character is dropped. */
  function Unescape(s: string, dollars: bool, pluses: bool): string
    decreases |s|
  {
    if s == [] then []
    else if |s| >= 2 && s[0] == '\\' && Escaped(s[1], dollars, pluses) then [s[1]] + Unescape(s[2..], dollars, pluses)
    else [s[0]] + Unescape(s[1..], dollars, pluses)
  }

  /** The `$` step of the escaping: only names that contain the template have their `$` escaped. */
  function EscapeDollars(name: string): string {
    if Contains(name, Token) then ReplaceChar(name, '$', "\\$") else name
  }

  /** The name as it goes into the `shasum` command (and into the reply pattern). */
  function EscapeForQuery(name: string): string {
    var n := EscapeDollars(name);
    if '+' in n then ReplaceChar(n, '+', "\\+") else n
  }

  lemma {:induction false} EscapeCharsNoEffect(s: string, dollars: bool)
    requires '+' !in s
    ensures EscapeChars(s, dollars, true) == EscapeChars(s, dollars, false)
  {
    if s != [] {
      EscapeCharsNoEffect(s[1..], dollars);
    }
  }

  lemma {:induction false} ReplaceDollarIsEscape(s: string)
    ensures ReplaceChar(s, '$', "\\$") == EscapeChars(s, true, false)
  {
    if s != [] {
      ReplaceDollarIsEscape(s[1..]);
    }
  }

  lemma {:induction false} ReplacePlusIsEscape(s: string, dollars: bool)
    ensures ReplaceChar(EscapeChars(s, dollars, false), '+', "\\+") == EscapeChars(s, dollars, true)
  {
    if s != [] {
      var head := if Escaped(s[0], dollars, false) then ['\\', s[0]] else [s[0]];
      assert EscapeChars(s, dollars, false) == head + EscapeChars(s[1..], dollars, false);
      ReplaceCharAppend(head, EscapeChars(s[1..], dollars, false), '+', "\\+");
      ReplacePlusIsEscape(s[1..], dollars);
    }
  }

  lemma {:induction false} ReplaceCharAppend(a: string, b: string, c: char, rep: string)
    ensures ReplaceChar(a + b, c, rep) == ReplaceChar(a, c, rep) + ReplaceChar(b, c, rep)
  {
    if a == [] {
      assert a + b == b;
    } else {
      assert (a + b)[0] == a[0];
      assert (a + b)[1..] == a[1..] + b;
      ReplaceCharAppend(a[1..], b, c, rep);
      var img := if a[0] == c then rep else [a[0]];
      calc {
        ReplaceChar(a + b, c, rep);
        img + ReplaceChar(a[1..] + b, c, rep);
        img + (ReplaceChar(a[1..], c, rep) + ReplaceChar(b, c, rep));
        (img + ReplaceChar(a[1..], c, rep)) + ReplaceChar(b, c, rep);
        ReplaceChar(a, c, rep) + ReplaceChar(b, c, rep);
      }
    }
  }

  lemma {:induction false} EscapeCharsKeepsPlus(s: string, dollars: bool)
    ensures '+' in EscapeChars(s, dollars, false) <==> '+' in s
  {
    if s != [] {
      EscapeCharsKeepsPlus(s[1..], dollars);
      assert s == [s[0]] + s[1..];
    }
  }

  /** The two-step escaping of lines 20-25 is character-by-character escaping with two flags. */
  lemma EscapeForQueryIsEscapeChars(name: string)
    ensures EscapeForQuery(name) == EscapeChars(name, Contains(name, Token), '+' in name)
  {
    if Contains(name, Token) {
      ReplaceDollarIsEscape(name);
      EscapeCharsKeepsPlus(name, true);
      if '+' in name {
        ReplacePlusIsEscape(name, true);
      } else {
        EscapeCharsNoEffect(name, true);
      }
    } else {
      EscapeCharsIdentity(name);
      if '+' in name {
        ReplacePlusIsEscape(name, false);
      } else {
        EscapeCharsNoEffect(name, false);
      }
    }
  }

  /** With neither flag set, escaping changes nothing. */
  lemma {:induction false} EscapeCharsIdentity(s: string)
    ensures EscapeChars(s, false, false) == s
  {
    if s != [] {
      EscapeCharsIdentity(s[1..]);
    }
  }

  /** Unescaping recovers the original name, whatever it contains. */
  lemma {:induction false} UnescapeEscapeChars(s: string, dollars: bool, pluses: bool)
    ensures Unescape(EscapeChars(s, dollars, pluses), dollars, pluses) == s
  {
    if s != [] {
      var rest := EscapeChars(s[1..], dollars, pluses);
      UnescapeEscapeChars(s[1..], dollars, pluses);
      if Escaped(s[0], dollars, pluses) {
        assert EscapeChars(s, dollars, pluses)[2..] == rest;
      } else {
        assert EscapeChars(s, dollars, pluses)[1..] == rest;
        assert rest != [] ==> !Escaped(rest[0], dollars, pluses);
      }
    }
  }

  /** Every escaped character in `r` has a backslash right before it. */
  predicate AllPreceded(r: string, dollars: bool, pluses: bool) {
    forall i :: 0 <= i < |r| && Escaped(r[i], dollars, pluses) ==> i > 0 && r[i - 1] == '\\'
  }

  /** In the escaped text every escaped character has a backslash right before it. */
  lemma {:induction false} EscapedCharsArePreceded(s: string, dollars: bool, pluses: bool)
    ensures AllPreceded(EscapeChars(s, dollars, pluses), dollars, pluses)
  {
    if s != [] {
      EscapedCharsArePreceded(s[1..], dollars, pluses);
      var r := EscapeChars(s, dollars, pluses);
      var rest := EscapeChars(s[1..], dollars, pluses);
      var k := if Escaped(s[0], dollars, pluses) then 2 else 1;
      assert r[k..] == rest;
      assert k == 2 ==> r[0] == '\\' && r[1] == s[0];
      assert k == 1 ==> r[0] == s[0];
      forall i | 0 <= i < |r| && Escaped(r[i], dollars, pluses) ensures i > 0 && r[i - 1] == '\\' {
        if i >= k {
          assert r[i] == rest[i - k];
          assert Escaped(rest[i - k], dollars, pluses);
          assert i - k > 0 && rest[i - k - 1] == '\\';
          assert r[i - 1] == rest[i - k - 1];
        } else {
          assert k == 2 && i == 1;
        }
      }
    }
  }

  /**
   * The escaping rule: the name sent to the remote shell has every `+` escaped,
   * every `$` escaped when it carries the template, is unchanged when it has
   * neither, and unescapes back to the original name.
   */
  lemma EscapeForQueryMeaning(name: string)
    ensures var r := EscapeForQuery(name);
      && (forall i :: 0 <= i < |r| && r[i] == '+' ==> i > 0 && r[i - 1] == '\\')
      && (Contains(name, Token) ==> forall i :: 0 <= i < |r| && r[i] == '$' ==> i > 0 && r[i - 1] == '\\')
      && (!Contains(name, Token) && '+' !in name ==> r == name)
      && Unescape(r, Contains(name, Token), true) == name
  {
    var d := Contains(name, Token);
    EscapeForQueryIsEscapeChars(name);
    var r := EscapeForQuery(name);
    EscapedCharsArePreceded(name, d, '+' in name);
    EscapedCharsArePreceded(name, d, true);
    if '+' !in name {
      EscapeCharsNoEffect(name, d);
      assert r == EscapeChars(name, d, true);
    }
    UnescapeEscapeChars(name, d, true);
    if !d && '+' !in name {
      EscapeCharsIdentity(name);
    }
  }

  /**
   * `copy_file` escapes the `$` before calling `check_remote_shasum`, which
   * escapes again; the template no longer matches the escaped name, so the
   * command it sends is the same as for the raw name.
   */
  lemma EscapeDollarsThenQuery(name: string)
    ensures EscapeForQuery(EscapeDollars(name)) == EscapeForQuery(name)
  {
    if Contains(name, Token) {
      var n := EscapeDollars(name);
      ReplaceDollarIsEscape(name);
      EscapedCharsArePreceded(name, true, false);
      assert forall i :: 0 <= i < |n| && n[i] == '$' ==> i > 0 && n[i - 1] == '\\';
      forall i: nat | i <= |n| ensures !OccursAt(Token, n, i) {
        if i + |Token| <= |n| {
          assert n[i + 9] == '$' ==> n[i + 8] == '\\';
          assert n[i..i + |Token|][8] == n[i + 8];
          assert n[i..i + |Token|][9] == n[i + 9];
        }
      }
      ContainsIff(n, Token);
      assert EscapeDollars(n) == n;
      EscapeCharsKeepsPlus(name, true);
    }
  }

  // ---------------------------------------------------------------------
  // Cleaning the captured output

  const Esc: char := '\U{1B}'

  /** `re.sub(r'\x1b[^m]*m', '', s)`: each ESC that is followed somewhere by `m` starts a run, up to that first `m`, which is removed. */
  function StripAnsi(s: string): (r: string)
    ensures forall x :: x in r ==> x in s
    decreases |s|
  {
    if s == [] then []
    else if s[0] == Esc && 'm' in s[1..] then
      var k := IndexOf(s[1..], 'm');
      assert forall x :: x in s[k + 2..] ==> x in s;
      StripAnsi(s[k + 2..])
    else
      assert forall x :: x in s[1..] ==> x in s;
      [s[0]] + StripAnsi(s[1..])
  }

  /** No ESC in `s` is followed by an `m`: nothing left for the colour-code pattern to remove. */
  predicate NoAnsiRun(s: string) {
    forall i, j :: 0 <= i < j < |s| && s[i] == Esc ==> s[j] != 'm'
  }

  lemma {:induction false} StripAnsiLeavesNoRun(s: string)
    ensures NoAnsiRun(StripAnsi(s))
    decreases |s|
  {
    if s == [] {
    } else if s[0] == Esc && 'm' in s[1..] {
      var k := IndexOf(s[1..], 'm');
      StripAnsiLeavesNoRun(s[k + 2..]);
    } else {
      StripAnsiLeavesNoRun(s[1..]);
      var tail := StripAnsi(s[1..]);
      var r := [s[0]] + tail;
      forall i, j | 0 <= i < j < |r| && r[i] == Esc ensures r[j] != 'm' {
        assert r[j] == tail[j - 1];
        if i == 0 {
          assert tail[j - 1] in tail;
        } else {
          assert r[i] == tail[i - 1];
        }
      }
    }
  }

  lemma {:induction false} StripAnsiOfClean(s: string)
    requires NoAnsiRun(s)
    ensures StripAnsi(s) == s
  {
    if s != [] {
      if s[0] == Esc {
        assert forall k :: 0 <= k < |s[1..]| ==> s[1..][k] == s[k + 1] && s[k + 1] != 'm';
        assert 'm' !in s[1..];
      }
      assert NoAnsiRun(s[1..]) by {
        forall i, j | 0 <= i < j < |s[1..]| && s[1..][i] == Esc ensures s[1..][j] != 'm' {
          assert s[i + 1] == Esc;
        }
      }
      StripAnsiOfClean(s[1..]);
    }
  }

  /** Stripping colour codes twice is the same as once. */
  lemma StripAnsiIdempotent(s: string)
    ensures StripAnsi(StripAnsi(s)) == StripAnsi(s)
  {
    StripAnsiLeavesNoRun(s);
    StripAnsiOfClean(StripAnsi(s));
  }

  /** Text without ESC is kept, and an `ESC ... m` run after it is dropped. */
  lemma {:induction false} StripAnsiRun(plain: string, body: string, rest: string)
    requires Esc !in plain && 'm' !in body
    ensures StripAnsi(plain + [Esc] + body + "m" + rest) == plain + StripAnsi(rest)
  {
    var s := plain + [Esc] + body + "m" + rest;
    if plain == [] {
      assert s[1..] == body + "m" + rest;
      assert s[1..][|body|] == 'm';
      IndexOfFirst(body, 'm', rest);
      assert s[|body| + 2..] == rest;
    } else {
      assert s[1..] == plain[1..] + [Esc] + body + "m" + rest;
      StripAnsiRun(plain[1..], body, rest);
    }
  }

  /** `str.strip('\n')`: newlines removed from both ends. */
  function StripNewlines(s: string): (r: string)
    ensures r == [] || (r[0] != '\n' && r[|r| - 1] != '\n')
    decreases |s|
  {
    if s != [] && s[0] == '\n' then StripNewlines(s[1..])
    else if s != [] && s[|s| - 1] == '\n' then StripNewlines(s[..|s| - 1])
    else s
  }

  /** `r` is `s` with only newlines cut from either end. */
  predicate NewlineTrimmed(s: string, r: string) {
    exists i, j :: && 0 <= i <= j <= |s| && r == s[i..j]
                   && (forall k :: 0 <= k < i ==> s[k] == '\n')
                   && (forall k :: j <= k < |s| ==> s[k] == '\n')
  }

  lemma TrimmedFront(s: string, r: string)
    requires s != [] && s[0] == '\n' && NewlineTrimmed(s[1..], r)
    ensures NewlineTrimmed(s, r)
  {
    var t := s[1..];
    var i, j :| && 0 <= i <= j <= |t| && r == t[i..j]
                && (forall k :: 0 <= k < i ==> t[k] == '\n')
                && (forall k :: j <= k < |t| ==> t[k] == '\n');
    assert t[i..j] == s[i + 1..j + 1];
    forall k | 0 <= k < i + 1
      ensures s[k] == '\n'
    {
      if k > 0 {
        assert s[k] == t[k - 1];
      }
    }
    forall k | j + 1 <= k < |s|
      ensures s[k] == '\n'
    {
      assert s[k] == t[k - 1];
    }
  }

  lemma TrimmedBack(s: string, r: string)
    requires s != [] && s[|s| - 1] == '\n' && NewlineTrimmed(s[..|s| - 1], r)
    ensures NewlineTrimmed(s, r)
  {
    var t := s[..|s| - 1];
    var i, j :| && 0 <= i <= j <= |t| && r == t[i..j]
                && (forall k :: 0 <= k < i ==> t[k] == '\n')
                && (forall k :: j <= k < |t| ==> t[k] == '\n');
    assert t[i..j] == s[i..j];
    forall k | 0 <= k < i
      ensures s[k] == '\n'
    {
      assert s[k] == t[k];
    }
    forall k | j <= k < |s|
      ensures s[k] == '\n'
    {
      if k < |t| {
        assert s[k] == t[k];
      }
    }
  }

  /** What `strip('\n')` keeps: a slice of the text with only newlines cut from either end. */
  lemma {:induction false} StripNewlinesKeeps(s: string)
    ensures NewlineTrimmed(s, StripNewlines(s))
    decreases |s|
  {
    if s != [] && s[0] == '\n' {
      StripNewlinesKeeps(s[1..]);
      TrimmedFront(s, StripNewlines(s));
    } else if s != [] && s[|s| - 1] == '\n' {
      StripNewlinesKeeps(s[..|s| - 1]);
      TrimmedBack(s, StripNewlines(s));
    } else {
      assert s[0..|s|] == s;
    }
  }

  /** One captured line as the script keeps it. */
  function CleanLine(raw: string): string {
    StripNewlines(StripAnsi(raw))
  }

  /** A line with no ESC and no inner newline is kept as it is, less its newline. */
  lemma CleanLineOfPlain(body: string)
    requires Esc !in body && '\n' !in body
    ensures CleanLine(body + "\n") == body
  {
    var s := body + "\n";
    assert Esc !in s;
    assert forall i :: 0 <= i < |s| ==> s[i] != Esc;
    StripAnsiOfClean(s);
    if body != [] {
      assert body[0] in body && body[|body| - 1] in body;
      assert s[0] == body[0];
      assert s[..|s| - 1] == body;
      assert StripNewlines(body) == body;
    }
  }

  /** Every captured line cleaned, in order; a failed read gives no lines. */
  function CleanAll(raw: Option<seq<string>>): (lines: seq<string>)
    ensures raw.None? ==> lines == []
    ensures raw.Some? ==> |lines| == |raw.value|
  {
    match raw
    case None => []
    case Some(rs) => seq(|rs|, i requires 0 <= i < |rs| => CleanLine(rs[i]))
  }

  /**
   * The reading loop of lines 32-41 (and 43-52, 250-259): every captured
   * line cleaned, in order; a failed read gives no lines at all.
   */
  method CleanLines(raw: Option<seq<string>>) returns (lines: seq<string>)
    ensures raw.None? ==> lines == []
    ensures raw.Some? ==> |lines| == |raw.value|
    ensures raw.Some? ==> forall i :: 0 <= i < |lines| ==> lines[i] == CleanLine(raw.value[i])
    ensures lines == CleanAll(raw)
  {
    lines := [];
    if raw.Some? {
      var k := 0;
      while k < |raw.value|
        invariant 0 <= k <= |raw.value|
        invariant |lines| == k
        invariant forall i :: 0 <= i < k ==> lines[i] == CleanLine(raw.value[i])
      {
        lines := lines + [CleanLine(raw.value[k])];
        k := k + 1;
      }
    }
  }

  // ---------------------------------------------------------------------
  // The reply pattern `.*\s+<escaped name>`

  /** One element of the compiled name pattern. */
  datatype Atom = Lit(c: char) | AnyChar | EndOfLine

  predicate IsAlnum(c: char) {
    IsDigit(c) || ('a' <= c <= 'z') || ('A' <= c <= 'Z')
  }

  /** Regex syntax that this model does not interpret when it appears unescaped. */
  predicate IsUnmodelledMeta(c: char) {
    c in "*+?()[]{}^|"
  }

  /**
   * The escaped name read as a Python regular expression: `\x` for a
   * non-alphanumeric `x` is that character, `.` any character but newline,
   * `$` the end of the line; `None` for syntax outside this model.
   */
  function Compile(p: string): Option<seq<Atom>>
    decreases |p|
  {
    if p == [] then Some([])
    else if p[0] == '\\' then
      if |p| >= 2 && !IsAlnum(p[1]) then Prepend(Lit(p[1]), Compile(p[2..])) else None
    else if p[0] == '.' then Prepend(AnyChar, Compile(p[1..]))
    else if p[0] == '$' then Prepend(EndOfLine, Compile(p[1..]))
    else if IsUnmodelledMeta(p[0]) then None
    else Prepend(Lit(p[0]), Compile(p[1..]))
  }

  function Prepend(a: Atom, rest: Option<seq<Atom>>): Option<seq<Atom>> {
    match rest
    case None => None
    case Some(atoms) => Some([a] + atoms)
  }

  /** The name is one whose query pattern this model interprets. */
  predicate Queryable(name: string) {
    Compile(EscapeForQuery(name)).Some?
  }

  /** No backslash, and no regex syntax other than `.`, `$` and `+`. */
  predicate PlainChar(c: char) {
    c != '\\' && (IsUnmodelledMeta(c) ==> c == '+')
  }

  /** A file name built from plain characters only. */
  predicate PlainName(name: string) {
    forall c :: c in name ==> PlainChar(c)
  }

  /** The pattern a plain name compiles to: `.` matches any character, an unescaped `$` only the end. */
  function NameAtoms(s: string, dollars: bool): seq<Atom> {
    if s == [] then []
    else
      [if s[0] == '.' then AnyChar
       else if s[0] == '$' && !dollars then EndOfLine
       else Lit(s[0])] + NameAtoms(s[1..], dollars)
  }

  lemma {:induction false} CompileEscapeChars(s: string, dollars: bool, pluses: bool)
    requires PlainName(s) && (pluses || '+' !in s)
    ensures Compile(EscapeChars(s, dollars, pluses)) == Some(NameAtoms(s, dollars))
  {
    if s != [] {
      assert forall c :: c in s[1..] ==> c in s;
      assert s[0] in s;
      CompileEscapeChars(s[1..], dollars, pluses);
      var e := EscapeChars(s, dollars, pluses);
      if Escaped(s[0], dollars, pluses) {
        assert e[2..] == EscapeChars(s[1..], dollars, pluses);
      } else {
        assert e[1..] == EscapeChars(s[1..], dollars, pluses);
        assert s[0] in s;
      }
    }
  }

  /** Every plain name can be queried; its pattern is the name with `.` as a wildcard. */
  lemma PlainNameQueryable(name: string)
    requires PlainName(name)
    ensures Queryable(name)
    ensures Compile(EscapeForQuery(name)) == Some(NameAtoms(name, Contains(name, Token)))
  {
    EscapeForQueryIsEscapeChars(name);
    CompileEscapeChars(name, Contains(name, Token), '+' in name);
  }

  /** `pat` matches `s` from index `j` on (a prefix match). */
  predicate MatchesAt(pat: seq<Atom>, s: string, j: nat)
    decreases |pat|
  {
    if pat == [] then true
    else match pat[0]
      case Lit(c) => j < |s| && s[j] == c && MatchesAt(pat[1..], s, j + 1)
      case AnyChar => j < |s| && s[j] != '\n' && MatchesAt(pat[1..], s, j + 1)
      case EndOfLine => (j == |s| || (j + 1 == |s| && s[j] == '\n')) && MatchesAt(pat[1..], s, j)
  }

  predicate SpaceRun(line: string, i: nat, j: nat)
    requires i <= j <= |line|
  {
    i < j && AllSpace(line[i..j])
  }

  /** `re.match('.*\s+' + name, line)` for the compiled name `pat`. */
  predicate ReplyMatches(line: string, pat: seq<Atom>) {
    exists i: nat, j: nat :: i <= j <= |line| && '\n' !in line[..i] && SpaceRun(line, i, j) && MatchesAt(pat, line, j)
  }

  /** The remote answer: `Hash`, or one of the ways the script ends with `None`, or an `IndexError`. */
  datatype Query =
    | Hash(value: string)
    | NoMatch
    | NotFound
    | RemoteError(stderr: seq<string>)
    | IndexError

  /** The hash the script goes on with (`remote_shasum`): `None` for everything but `Hash`. */
  function HashOf(q: Query): Option<string> {
    if q.Hash? then Some(q.value) else None
  }

  /**
   * Lines 54-68: empty stderr and a first stdout line matching the pattern
   * give that line's first field; a stderr line naming a missing file, any
   * other stderr, or a non-matching line give no hash; no stdout line at all
   * (or an all-blank matching line) raises `IndexError`.
   */
  function Classify(name: string, stdout: seq<string>, stderr: seq<string>): (q: Query)
    requires Queryable(name)
  {
    if stderr == [] then
      if stdout == [] then IndexError
      else if ReplyMatches(stdout[0], Compile(EscapeForQuery(name)).value) then
        match FirstToken(stdout[0])
        case None => IndexError
        case Some(h) => Hash(h)
      else NoMatch
    else if Contains(stderr[0], "No such file or directory") then NotFound
    else RemoteError(stderr)
  }

  /** Querying the `$`-escaped name reads a reply exactly as querying the raw name does. */
  lemma ClassifyEscapedName(name: string, stdout: seq<string>, stderr: seq<string>)
    requires Queryable(name)
    ensures Queryable(EscapeDollars(name))
    ensures Classify(EscapeDollars(name), stdout, stderr) == Classify(name, stdout, stderr)
  {
    EscapeDollarsThenQuery(name);
  }

  /** What a classified reply means, stated against the cleaned lines. */
  lemma ClassifyMeaning(name: string, stdout: seq<string>, stderr: seq<string>)
    requires Queryable(name)
    ensures var q := Classify(name, stdout, stderr);
      && (stderr != [] ==> !q.Hash? && !q.IndexError?)
      && (q.Hash? <==> stderr == [] && stdout != [] && !AllSpace(stdout[0])
                       && ReplyMatches(stdout[0], Compile(EscapeForQuery(name)).value))
      && (q.Hash? ==> q.value != [] && NoSpace(q.value) && FirstToken(stdout[0]) == Some(q.value))
      && (q.IndexError? <==>
            (stderr == [] && (stdout == [] ||
              (AllSpace(stdout[0]) && ReplyMatches(stdout[0], Compile(EscapeForQuery(name)).value)))))
  {
  }

  lemma {:induction false} NameMatchesItself(s: string, dollars: bool, line: string, j: nat)
    requires '\n' !in s && (dollars || '$' !in s)
    requires j + |s| == |line| && line[j..] == s
    ensures MatchesAt(NameAtoms(s, dollars), line, j)
  {
    if s != [] {
      assert line[j] == s[0];
      assert line[j + 1..] == s[1..];
      assert s[0] in s;
      NameMatchesItself(s[1..], dollars, line, j + 1);
    }
  }

  /**
   * The reply `shasum` gives for an existing file, "<hash><spaces><name>",
   * is recognised and yields exactly that hash.
   */
  lemma ReplyMatchesAt(line: string, pat: seq<Atom>, i: nat, j: nat)
    requires i < j <= |line| && '\n' !in line[..i] && AllSpace(line[i..j]) && MatchesAt(pat, line, j)
    ensures ReplyMatches(line, pat)
  {
    assert SpaceRun(line, i, j);
  }

  /**
   * The reply `shasum` gives for an existing file, "<hash><spaces><name>",
   * is recognised and yields exactly that hash.
   */
  lemma ShasumReplyRecognised(hash: string, sep: string, name: string)
    requires hash != [] && NoSpace(hash) && sep != [] && AllSpace(sep)
    requires PlainName(name) && '\n' !in name && (Contains(name, Token) || '$' !in name)
    ensures Queryable(name)
    ensures Classify(name, [hash + sep + name], []) == Hash(hash)
  {
    PlainNameQueryable(name);
    var pat := NameAtoms(name, Contains(name, Token));
    var line := hash + sep + name;
    var i, j := |hash|, |hash| + |sep|;
    assert line[..i] == hash;
    assert '\n' !in hash by {
      assert forall k :: 0 <= k < |hash| ==> hash[k] != '\n';
    }
    assert line[i..j] == sep;
    assert line[j..] == name;
    NameMatchesItself(name, Contains(name, Token), line, j);
    ReplyMatchesAt(line, pat, i, j);
    FirstTokenOf(hash, sep, name);
  }
}
