/** The usual optional value. */
module Optional {
  datatype Option<+T> = None | Some(value: T)
}

/**
 * String and path helpers shared by the models: the parts of Python's
 * `str`, `re` and `os.path` that the scripts rely on, written out so that
 * their behaviour on edge cases is explicit.
 */
module Text {
  import opened Optional

  predicate IsPrefix(p: string, s: string) {
    |p| <= |s| && s[..|p|] == p
  }

  /** `pat` occurs in `s` starting at index `i`. */
  predicate OccursAt(pat: string, s: string, i: nat) {
    i + |pat| <= |s| && s[i..i + |pat|] == pat
  }

  /** Substring test, as `re.search` with a literal pattern. */
  predicate Contains(s: string, pat: string)
    decreases |s|
  {
    IsPrefix(pat, s) || (|s| > 0 && Contains(s[1..], pat))
  }

  lemma {:induction false} ContainsIff(s: string, pat: string)
    ensures Contains(s, pat) <==> exists i: nat :: i <= |s| && OccursAt(pat, s, i)
    decreases |s|
  {
    if IsPrefix(pat, s) {
      assert OccursAt(pat, s, 0);
    } else if |s| > 0 {
      ContainsIff(s[1..], pat);
      if Contains(s[1..], pat) {
        var i: nat :| i <= |s[1..]| && OccursAt(pat, s[1..], i);
        assert s[1..][i..i + |pat|] == s[i + 1..i + 1 + |pat|];
        assert OccursAt(pat, s, i + 1);
      }
      if exists i: nat :: i <= |s| && OccursAt(pat, s, i) {
        var i: nat :| i <= |s| && OccursAt(pat, s, i);
        assert i != 0;
        assert s[1..][i - 1..i - 1 + |pat|] == s[i..i + |pat|];
        assert OccursAt(pat, s[1..], i - 1);
      }
    } else {
      forall i: nat | i <= |s| ensures !OccursAt(pat, s, i) {
        assert OccursAt(pat, s, i) ==> IsPrefix(pat, s);
      }
    }
  }

  /** Every occurrence of the character `c` replaced by `rep`, as `str.replace(c, rep)`. */
  function ReplaceChar(s: string, c: char, rep: string): (r: string)
    ensures c !in s ==> r == s
    ensures c !in rep ==> c !in r
    ensures forall x :: x in r ==> x in s || x in rep
  {
    if s == [] then []
    else (if s[0] == c then rep else [s[0]]) + ReplaceChar(s[1..], c, rep)
  }

  /**
   * Python's `str.replace(from, to)`: every non-overlapping occurrence of
   * `from`, scanning left to right, becomes `to`.
   */
  function ReplaceAll(s: string, from: string, to: string): (r: string)
    requires |from| > 0
    ensures forall x :: x in r ==> x in s || x in to
    decreases |s|
  {
    if |s| < |from| then s
    else if s[..|from|] == from then to + ReplaceAll(s[|from|..], from, to)
    else [s[0]] + ReplaceAll(s[1..], from, to)
  }

  lemma {:induction false} ReplaceAllAbsent(s: string, from: string, to: string)
    requires |from| > 0 && !Contains(s, from)
    ensures ReplaceAll(s, from, to) == s
    decreases |s|
  {
    if |s| >= |from| {
      ReplaceAllAbsent(s[1..], from, to);
    }
  }

  /** A path that begins with `from` and never mentions it again has just that prefix substituted. */
  lemma PrefixSubstitution(from: string, rest: string, to: string)
    requires |from| > 0 && !Contains(rest, from)
    ensures ReplaceAll(from + rest, from, to) == to + rest
  {
    assert (from + rest)[..|from|] == from;
    assert (from + rest)[|from|..] == rest;
    ReplaceAllAbsent(rest, from, to);
  }

  // ---------------------------------------------------------------------
  // Whitespace and `str.split()`

  /** The characters Python's `\s` and `str.split()` treat as whitespace in ASCII text. */
  predicate IsSpace(c: char) {
    c == ' ' || c == '\t' || c == '\n' || c == '\r' || c == '\U{B}' || c == '\U{C}'
  }

  predicate AllSpace(s: string) {
    forall i :: 0 <= i < |s| ==> IsSpace(s[i])
  }

  predicate NoSpace(s: string) {
    forall i :: 0 <= i < |s| ==> !IsSpace(s[i])
  }

  function SkipSpaces(s: string): (r: string)
    ensures |r| <= |s| && r == s[|s| - |r|..]
    ensures AllSpace(s[..|s| - |r|])
    ensures r != [] ==> !IsSpace(r[0])
  {
    if s != [] && IsSpace(s[0]) then SkipSpaces(s[1..]) else s
  }

  function TakeToken(s: string): (r: string)
    ensures IsPrefix(r, s) && NoSpace(r)
    ensures |r| < |s| ==> IsSpace(s[|r|])
  {
    if s != [] && !IsSpace(s[0]) then [s[0]] + TakeToken(s[1..]) else []
  }

  /** `s.split()[0]`, or `None` where Python raises `IndexError` (an all-whitespace line). */
  function FirstToken(s: string): (r: Option<string>)
    ensures r.None? <==> AllSpace(s)
    ensures r.Some? ==> r.value != [] && NoSpace(r.value)
  {
    var t := SkipSpaces(s);
    if t == [] then None else Some(TakeToken(t))
  }

  /** A line "<token><spaces><anything>" yields <token> as its first field. */
  lemma FirstTokenOf(tok: string, sep: string, rest: string)
    requires tok != [] && NoSpace(tok) && sep != [] && AllSpace(sep)
    ensures FirstToken(tok + sep + rest) == Some(tok)
  {
    var s := tok + sep + rest;
    assert SkipSpaces(s) == s;
    TokenPrefix(tok, sep + rest);
    assert s == tok + (sep + rest);
  }

  lemma {:induction false} TokenPrefix(tok: string, rest: string)
    requires NoSpace(tok) && (rest == [] || IsSpace(rest[0]))
    ensures TakeToken(tok + rest) == tok
  {
    if tok != [] {
      assert (tok + rest)[1..] == tok[1..] + rest;
      TokenPrefix(tok[1..], rest);
    }
  }

  // ---------------------------------------------------------------------
  // Decimal numerals: `str(n)`, `'{:d}'.format(n)` and `int(s)`

  predicate IsDigit(c: char) {
    '0' <= c <= '9'
  }

  function DigitChar(d: nat): (c: char)
    requires d < 10
    ensures IsDigit(c) && c as int - '0' as int == d
  {
    ('0' as int + d) as char
  }

  predicate AllDigits(s: string) {
    forall i :: 0 <= i < |s| ==> IsDigit(s[i])
  }

  /** The decimal numeral of `n`, without leading zeros. */
  function NatToString(n: nat): (r: string)
    ensures r != [] && AllDigits(r)
  {
    if n < 10 then [DigitChar(n)] else NatToString(n / 10) + [DigitChar(n % 10)]
  }

  /** Python's `str(i)` for an integer. */
  function IntToString(i: int): string {
    if i < 0 then "-" + NatToString(-i) else NatToString(i)
  }

  /** The value of a string of decimal digits. */
  function DigitsValue(s: string): nat
    requires AllDigits(s)
  {
    if s == [] then 0 else DigitsValue(s[..|s| - 1]) * 10 + (s[|s| - 1] as int - '0' as int)
  }

  lemma {:induction false} DigitsValueOfNatToString(n: nat)
    ensures DigitsValue(NatToString(n)) == n
  {
    if n >= 10 {
      var s := NatToString(n);
      assert s[..|s| - 1] == NatToString(n / 10);
      DigitsValueOfNatToString(n / 10);
    }
  }

  /** Strip surrounding whitespace, as `int()` does before parsing. */
  function Trim(s: string): string
    decreases |s|
  {
    if s != [] && IsSpace(s[0]) then Trim(s[1..])
    else if s != [] && IsSpace(s[|s| - 1]) then Trim(s[..|s| - 1])
    else s
  }

  /** Python's `int(s)` on a decimal string: `None` where it raises `ValueError`. */
  function ParseInt(s: string): (r: Option<int>) {
    var t := Trim(s);
    if t != [] && (t[0] == '-' || t[0] == '+') then
      (if |t| > 1 && AllDigits(t[1..]) then
         Some(if t[0] == '-' then -(DigitsValue(t[1..]) as int) else DigitsValue(t[1..]))
       else None)
    else if t != [] && AllDigits(t) then Some(DigitsValue(t))
    else None
  }

  lemma ParseIntOfIntToString(i: int)
    ensures ParseInt(IntToString(i)) == Some(i)
  {
    var s := IntToString(i);
    assert Trim(s) == s;
    if i < 0 {
      assert s[1..] == NatToString(-i);
      DigitsValueOfNatToString(-i);
    } else {
      DigitsValueOfNatToString(i);
    }
  }

  // ---------------------------------------------------------------------
  // Text files: `f.write(...)` and `f.readlines()`

  /** The text of a file written piece by piece. */
  function Concat(pieces: seq<string>): string {
    if pieces == [] then "" else pieces[0] + Concat(pieces[1..])
  }

  lemma {:induction false} ConcatAppend(pieces: seq<string>, last: string)
    ensures Concat(pieces + [last]) == Concat(pieces) + last
  {
    if pieces != [] {
      assert (pieces + [last])[1..] == pieces[1..] + [last];
      ConcatAppend(pieces[1..], last);
    }
  }

  function IndexOf(s: string, c: char): (k: int)
    ensures -1 <= k < |s|
    ensures k == -1 <==> c !in s
    ensures k >= 0 ==> s[k] == c && c !in s[..k]
  {
    if s == [] then -1
    else if s[0] == c then 0
    else var k := IndexOf(s[1..], c); if k == -1 then -1 else k + 1
  }

  lemma {:induction false} IndexOfFirst(a: string, c: char, b: string)
    requires c !in a
    ensures IndexOf(a + [c] + b, c) == |a|
  {
    if a != [] {
      assert (a + [c] + b)[1..] == a[1..] + [c] + b;
      assert a[0] in a;
      IndexOfFirst(a[1..], c, b);
    }
  }

  /** `readlines()`: pieces that end just after each newline, then any unterminated tail. */
  function ReadLines(t: string): seq<string>
    decreases |t|
  {
    if t == "" then []
    else
      var k := IndexOf(t, '\n');
      if k == -1 then [t] else [t[..k + 1]] + ReadLines(t[k + 1..])
  }

  /** One newline-terminated line with no other newline in it. */
  predicate IsLine(l: string) {
    l != [] && l[|l| - 1] == '\n' && '\n' !in l[..|l| - 1]
  }

  /** A newline-free text ended by a newline is one line. */
  lemma LineOf(body: string)
    requires '\n' !in body
    ensures IsLine(body + "\n")
  {
    assert (body + "\n")[..|body|] == body;
  }

  /** Reading back a file written as whole lines gives exactly those lines. */
  lemma {:induction false} ReadLinesOfConcat(lines: seq<string>)
    requires forall i :: 0 <= i < |lines| ==> IsLine(lines[i])
    ensures ReadLines(Concat(lines)) == lines
  {
    if lines != [] {
      var l := lines[0];
      var t := Concat(lines);
      assert t == l + Concat(lines[1..]);
      assert t[..|l|] == l;
      assert IndexOf(t, '\n') == |l| - 1 by {
        IndexOfPrefix(l, Concat(lines[1..]));
      }
      assert t[|l|..] == Concat(lines[1..]);
      ReadLinesOfConcat(lines[1..]);
    }
  }

  lemma {:induction false} IndexOfPrefix(l: string, rest: string)
    requires IsLine(l)
    ensures IndexOf(l + rest, '\n') == |l| - 1
  {
    if |l| > 1 {
      assert l[0] == l[..|l| - 1][0];
      assert l[1..][..|l| - 2] == l[..|l| - 1][1..];
      assert (l + rest)[1..] == l[1..] + rest;
      IndexOfPrefix(l[1..], rest);
    }
  }

  // ---------------------------------------------------------------------
  // POSIX paths: `os.path.join` and `os.path.split`

  /** `os.path.join(a, b)`: an absolute `b` replaces `a`. */
  function PathJoin(a: string, b: string): string {
    if b != [] && b[0] == '/' then b
    else if a == [] || a[|a| - 1] == '/' then a + b
    else a + "/" + b
  }

  function LastIndexOf(s: string, c: char): (k: int)
    ensures -1 <= k < |s|
    ensures k >= 0 ==> s[k] == c
    ensures forall j :: k < j < |s| ==> s[j] != c
  {
    if s == [] then -1
    else if s[|s| - 1] == c then |s| - 1
    else LastIndexOf(s[..|s| - 1], c)
  }

  predicate AllSlashes(s: string) {
    forall i :: 0 <= i < |s| ==> s[i] == '/'
  }

  function StripTrailingSlashes(s: string): (r: string)
    ensures IsPrefix(r, s)
  {
    if s != [] && s[|s| - 1] == '/' then StripTrailingSlashes(s[..|s| - 1]) else s
  }

  /** `os.path.split(p)[0]`: the directory part. */
  function SplitHead(p: string): (r: string)
    ensures IsPrefix(r, p)
  {
    var head := p[..LastIndexOf(p, '/') + 1];
    if head != [] && !AllSlashes(head) then StripTrailingSlashes(head) else head
  }

  /** `os.path.split(p)[1]`: the last component. */
  function SplitTail(p: string): (r: string)
    ensures forall j :: 0 <= j < |r| ==> r[j] != '/'
  {
    p[LastIndexOf(p, '/') + 1..]
  }

  /** `split` undoes `join` of a directory and a plain name. */
  lemma SplitOfJoin(dir: string, name: string)
    requires dir != [] && dir[|dir| - 1] != '/' && '/' !in name
    ensures PathJoin(dir, name) == dir + "/" + name
    ensures SplitHead(PathJoin(dir, name)) == dir
    ensures SplitTail(PathJoin(dir, name)) == name
  {
    var p := dir + "/" + name;
    assert name == [] || name[0] != '/';
    var k := LastIndexOf(p, '/');
    assert p[|dir|] == '/';
    assert p[|dir| + 1..] == name;
    assert k >= |dir|;
    assert k == |dir|;
    var head := p[..k + 1];
    assert head == dir + "/";
    assert !AllSlashes(head) by {
      assert head[|dir| - 1] == dir[|dir| - 1];
    }
    assert head[..|head| - 1] == dir;
    assert StripTrailingSlashes(head) == StripTrailingSlashes(dir) == dir;
  }

  // ---------------------------------------------------------------------
  // Splitting on a separator

  /** Python's `s.split(c)` for a one-character separator. */
  function Split(s: string, c: char): (r: seq<string>)
    ensures |r| >= 1
    decreases |s|
  {
    var i := IndexOf(s, c);
    if i == -1 then [s] else [s[..i]] + Split(s[i + 1..], c)
  }

  /** Python's `c.join(parts)`. */
  function Join(parts: seq<string>, c: char): string
    requires |parts| >= 1
  {
    if |parts| == 1 then parts[0] else parts[0] + ([c] + Join(parts[1..], c))
  }

  lemma {:induction false} SplitJoin(s: string, c: char)
    ensures Join(Split(s, c), c) == s
    decreases |s|
  {
    var i := IndexOf(s, c);
    if i != -1 {
      var head, rest := s[..i], s[i + 1..];
      SplitJoin(rest, c);
      JoinCons(head, Split(rest, c), c);
      CutAt(s, i);
    }
  }

  lemma JoinCons(head: string, tail: seq<string>, c: char)
    requires |tail| >= 1
    ensures Join([head] + tail, c) == head + ([c] + Join(tail, c))
  {
    assert ([head] + tail)[1..] == tail;
  }

  /** The two halves of a concatenation. */
  lemma AppendParts<T>(a: seq<T>, b: seq<T>)
    ensures (a + b)[..|a|] == a && (a + b)[|a|..] == b
  {
  }

  /** One whitespace character before a non-space is skipped. */
  lemma SkipOneSpace(c: char, rest: string)
    requires IsSpace(c) && (rest != [] ==> !IsSpace(rest[0]))
    ensures SkipSpaces([c] + rest) == rest
  {
    assert ([c] + rest)[1..] == rest;
  }

  /** A sequence is its part before `i`, its `i`-th element, and the rest. */
  lemma CutAt<T>(s: seq<T>, i: int)
    requires 0 <= i < |s|
    ensures s == s[..i] + ([s[i]] + s[i + 1..])
  {
    assert s[i..] == [s[i]] + s[i + 1..];
    assert s == s[..i] + s[i..];
  }

  lemma AppendAssoc<T>(a: seq<T>, b: seq<T>, c: seq<T>)
    ensures a + (b + c) == (a + b) + c
  {
  }

  /** Splitting a separator-free field followed by the separator. */
  lemma SplitCons(a: string, c: char, rest: string)
    requires c !in a
    ensures Split(a + ([c] + rest), c) == [a] + Split(rest, c)
  {
    var s := a + ([c] + rest);
    AppendAssoc(a, [c], rest);
    IndexOfFirst(a, c, rest);
    assert s[..|a|] == a;
    assert s[|a| + 1..] == rest;
  }

  lemma {:induction false} JoinSplit(parts: seq<string>, c: char)
    requires |parts| >= 1
    requires forall k :: 0 <= k < |parts| ==> c !in parts[k]
    ensures Split(Join(parts, c), c) == parts
    decreases |parts|
  {
    if |parts| > 1 {
      JoinSplit(parts[1..], c);
      SplitCons(parts[0], c, Join(parts[1..], c));
      assert parts == [parts[0]] + parts[1..];
    } else {
      assert IndexOf(parts[0], c) == -1;
    }
  }
}
