/**
 * String helpers shared by the blocklist parser and the tag editor.
 * Strings are sequences of characters; case folding and whitespace are
 * approximated over ASCII.
 */
module Text {

  /** ASCII lower-casing of one character. */
  function LowerChar(c: char): char {
    if 'A' <= c <= 'Z' then (c as int + 32) as char else c
  }

  /** ASCII lower-casing of a string (Rust `to_lowercase`, ASCII only). */
  function Lower(s: string): (r: string)
    ensures |r| == |s|
  {
    if s == [] then [] else [LowerChar(s[0])] + Lower(s[1..])
  }

  lemma {:induction false} LowerAt(s: string, i: nat)
    requires i < |s|
    ensures Lower(s)[i] == LowerChar(s[i])
  {
    if i > 0 { LowerAt(s[1..], i - 1); }
  }

  /** Lower-casing a string twice is the same as doing it once. */
  lemma {:induction false} LowerIdempotent(s: string)
    ensures Lower(Lower(s)) == Lower(s)
  {
    if s != [] {
      LowerIdempotent(s[1..]);
      assert Lower(s)[1..] == Lower(s[1..]);
    }
  }

  lemma {:induction false} LowerAppend(a: string, b: string)
    ensures Lower(a + b) == Lower(a) + Lower(b)
  {
    if a != [] {
      LowerAppend(a[1..], b);
      assert (a + b)[1..] == a[1..] + b;
      assert Lower(a + b) == [LowerChar(a[0])] + Lower(a[1..] + b);
      assert Lower(a) == [LowerChar(a[0])] + Lower(a[1..]);
    } else {
      assert a + b == b;
    }
  }

  /** Rust's `char::is_whitespace` restricted to ASCII: space, \t, \n, \x0B, \x0C, \r. */
  predicate IsSpace(c: char) {
    c == ' ' || ('\t' <= c <= '\r')
  }

  function TrimStart(s: string): string {
    if |s| > 0 && IsSpace(s[0]) then TrimStart(s[1..]) else s
  }

  function TrimEnd(s: string): string {
    if |s| > 0 && IsSpace(s[|s| - 1]) then TrimEnd(s[..|s| - 1]) else s
  }

  /** Rust `str::trim`: strips leading and trailing whitespace. */
  function Trim(s: string): string {
    TrimStart(TrimEnd(s))
  }

  /** A trimmed line is a run of the line that, when not empty, starts and ends with a non-space. */
  lemma TrimShape(s: string)
    ensures |Trim(s)| <= |s|
    ensures Trim(s) == [] || (!IsSpace(Trim(s)[0]) && !IsSpace(Trim(s)[|Trim(s)| - 1]))
  {
    var e := TrimEnd(s);
    TrimEndDrops(s);
    TrimStartDrops(e);
    var r := Trim(s);
    if r != [] {
      assert r[|r| - 1] == e[|e| - 1];
    }
  }

  /** `trim` gives the empty string exactly for a line of white space only. */
  lemma {:induction false} TrimBlank(s: string)
    ensures Trim(s) == [] <==> forall i :: 0 <= i < |s| ==> IsSpace(s[i])
  {
    TrimEndDrops(s);
    TrimStartDrops(TrimEnd(s));
  }

  /** `TrimEnd` keeps a prefix ending in a non-space and drops only white space. */
  lemma {:induction false} TrimEndDrops(s: string)
    ensures |TrimEnd(s)| <= |s| && TrimEnd(s) == s[..|TrimEnd(s)|]
    ensures TrimEnd(s) == [] || !IsSpace(TrimEnd(s)[|TrimEnd(s)| - 1])
    ensures forall i :: |TrimEnd(s)| <= i < |s| ==> IsSpace(s[i])
    decreases |s|
  {
    if |s| > 0 && IsSpace(s[|s| - 1]) {
      TrimEndDrops(s[..|s| - 1]);
    }
  }

  /** `TrimStart` keeps a suffix starting with a non-space and drops only white space. */
  lemma {:induction false} TrimStartDrops(s: string)
    ensures |TrimStart(s)| <= |s| && TrimStart(s) == s[|s| - |TrimStart(s)|..]
    ensures TrimStart(s) == [] || !IsSpace(TrimStart(s)[0])
    ensures forall i :: 0 <= i < |s| - |TrimStart(s)| ==> IsSpace(s[i])
    decreases |s|
  {
    if |s| > 0 && IsSpace(s[0]) {
      TrimStartDrops(s[1..]);
    }
  }

  predicate StartsWith(s: string, prefix: string) {
    |prefix| <= |s| && s[..|prefix|] == prefix
  }

  /** Index of the first occurrence of `c` in `s` at or after `i`, or `|s|` when there is none. */
  function FindFrom(s: string, c: char, i: nat): (k: nat)
    requires i <= |s|
    ensures i <= k <= |s|
    ensures k < |s| ==> s[k] == c
    decreases |s| - i
  {
    if i == |s| then i else if s[i] == c then i else FindFrom(s, c, i + 1)
  }

  /** Index of the first occurrence of `c` in `s`, or `|s|` when there is none. */
  function Find(s: string, c: char): (k: nat)
    ensures k <= |s|
    ensures k < |s| ==> s[k] == c
  {
    FindFrom(s, c, 0)
  }

  lemma {:induction false} FindFromIsFirst(s: string, c: char, i: nat)
    requires i <= |s|
    ensures forall j :: i <= j < FindFrom(s, c, i) ==> s[j] != c
    decreases |s| - i
  {
    if i < |s| && s[i] != c {
      FindFromIsFirst(s, c, i + 1);
    }
  }

  /** `c` does not occur before the index `Find` returns. */
  lemma FindIsFirst(s: string, c: char)
    ensures forall j :: 0 <= j < Find(s, c) ==> s[j] != c
  {
    FindFromIsFirst(s, c, 0);
  }

  lemma {:induction false} FindFromLeast(s: string, c: char, i: nat, k: nat)
    requires i <= k < |s| && s[k] == c
    ensures FindFrom(s, c, i) <= k
    decreases k - i
  {
    if s[i] != c {
      FindFromLeast(s, c, i + 1, k);
    }
  }

  /** An occurrence of `c` at `k` bounds the index `Find` returns. */
  lemma FindLeast(s: string, c: char, k: nat)
    requires k < |s| && s[k] == c
    ensures Find(s, c) <= k
  {
    FindFromLeast(s, c, 0, k);
  }

  lemma {:induction false} FindFromSkips(s: string, c: char, i: nat, n: nat)
    requires i <= n <= |s| && forall j :: i <= j < n ==> s[j] != c
    ensures n <= FindFrom(s, c, i)
    decreases n - i
  {
    if i < n {
      FindFromSkips(s, c, i + 1, n);
    }
  }

  /** When `c` is not among the first `n` characters, `Find` looks past them. */
  lemma FindSkips(s: string, c: char, n: nat)
    requires n <= |s| && forall j :: 0 <= j < n ==> s[j] != c
    ensures n <= Find(s, c)
  {
    FindFromSkips(s, c, 0, n);
  }

  /** Drops one '\r' at the end of a line, as `str::lines` does before a '\n'. */
  function StripCr(line: string): string {
    if |line| > 0 && line[|line| - 1] == '\r' then line[..|line| - 1] else line
  }

  /**
   * Rust `str::lines`: split at '\n'; a line ended by '\n' also loses one
   * '\r' before it; a final '\n' does not start an extra empty line, and the
   * empty string has no lines.
   */
  function Lines(s: string): (lines: seq<string>)
    decreases |s|
  {
    if |s| == 0 then []
    else if Find(s, '\n') < |s| then [StripCr(s[..Find(s, '\n')])] + Lines(s[Find(s, '\n') + 1..])
    else [s]
  }

  /** `lines.join("\n")` for a non-empty list of lines. */
  function JoinLines(lines: seq<string>): string
    requires |lines| > 0
  {
    if |lines| == 1 then lines[0] else lines[0] + "\n" + JoinLines(lines[1..])
  }

  /** No line produced by `Lines` contains a line feed. */
  lemma {:induction false} LinesHaveNoNewline(s: string)
    ensures forall i :: 0 <= i < |Lines(s)| ==> '\n' !in Lines(s)[i]
  {
    FindIsFirst(s, '\n');
    if |s| > 0 && Find(s, '\n') < |s| {
      var k := Find(s, '\n');
      LinesHaveNoNewline(s[k + 1..]);
      assert Lines(s) == [StripCr(s[..k])] + Lines(s[k + 1..]);
      forall i | 0 <= i < |Lines(s)| ensures '\n' !in Lines(s)[i] {
        if i == 0 {
          assert StripCr(s[..k]) <= s[..k];
        } else {
          assert Lines(s)[i] == Lines(s[k + 1..])[i - 1];
        }
      }
    }
  }

  /** A line that survives a round trip through `JoinLines` and `Lines`: no line feed, no final carriage return. */
  predicate PlainLine(line: string) {
    '\n' !in line && (line == [] || line[|line| - 1] != '\r')
  }

  /**
   * Joining lines with "\n" and adding a final "\n" is undone by `Lines`,
   * provided no line contains a line feed or ends with a carriage return.
   */
  lemma {:induction false} LinesOfJoined(lines: seq<string>)
    requires |lines| > 0
    requires forall i :: 0 <= i < |lines| ==> PlainLine(lines[i])
    ensures Lines(JoinLines(lines) + "\n") == lines
  {
    if |lines| == 1 {
      LinesStep(lines[0], "");
      assert lines[0] + "\n" + "" == JoinLines(lines) + "\n";
    } else {
      LinesOfJoined(lines[1..]);
      JoinedStep(lines);
    }
  }

  /** The inductive step of `LinesOfJoined`: the first line comes off, and the rest splits as before. */
  lemma JoinedStep(lines: seq<string>)
    requires |lines| > 1 && PlainLine(lines[0])
    requires Lines(JoinLines(lines[1..]) + "\n") == lines[1..]
    ensures Lines(JoinLines(lines) + "\n") == lines
  {
    var rest := JoinLines(lines[1..]) + "\n";
    calc {
      Lines(JoinLines(lines) + "\n");
      { assert JoinLines(lines) + "\n" == lines[0] + "\n" + rest; }
      Lines(lines[0] + "\n" + rest);
      { LinesStep(lines[0], rest); }
      [lines[0]] + lines[1..];
      lines;
    }
  }

  /** `Lines` takes a plain line ended by a line feed off the front. */
  lemma LinesStep(head: string, rest: string)
    requires PlainLine(head)
    ensures Lines(head + "\n" + rest) == [head] + Lines(rest)
  {
    var s := head + "\n" + rest;
    FindAfterPrefix(head, rest, '\n');
    assert s[..|head|] == head;
    assert s[|head| + 1..] == rest;
  }

  lemma FindAfterPrefix(head: string, rest: string, c: char)
    requires c !in head
    ensures Find(head + [c] + rest, c) == |head|
  {
    var s := head + [c] + rest;
    assert s[|head|] == c;
    FindLeast(s, c, |head|);
    assert forall j :: 0 <= j < |head| ==> s[j] == head[j];
    FindSkips(s, c, |head|);
  }

  predicate IsDigit(c: char) {
    '0' <= c <= '9'
  }

  /** The value of a string of decimal digits. */
  function DigitsValue(d: string): nat
    requires forall i :: 0 <= i < |d| ==> IsDigit(d[i])
  {
    if d == [] then 0
    else
      assert IsDigit(d[|d| - 1]);
      DigitsValue(d[..|d| - 1]) * 10 + (d[|d| - 1] as int - '0' as int)
  }

  /**
   * Decimal rendering of a natural number, as Rust's and JavaScript's
   * `{}`/`String()` print it: the digits of `n` with no leading zero.
   */
  function NatToString(n: nat): (r: string)
    ensures |r| > 0
    ensures forall i :: 0 <= i < |r| ==> IsDigit(r[i])
    ensures DigitsValue(r) == n
    ensures n == 0 || r[0] != '0'
    ensures n < 10 <==> |r| == 1
  {
    if n < 10 then [('0' as int + n) as char]
    else
      var p := NatToString(n / 10);
      var r := p + [('0' as int + n % 10) as char];
      assert r[..|p|] == p;
      r
  }

  /** Decimal rendering of an integer: a leading '-' when negative, then the digits of its magnitude. */
  function IntToString(n: int): (r: string)
    ensures n < 0 <==> (|r| > 0 && r[0] == '-')
    ensures n >= 0 ==> (forall i :: 0 <= i < |r| ==> IsDigit(r[i])) && DigitsValue(r) == n
    ensures n < 0 ==> (forall i :: 1 <= i < |r| ==> IsDigit(r[i])) && DigitsValue(r[1..]) == -n
    ensures |r| > 0
  {
    if n < 0 then
      var d := NatToString(-n);
      assert ("-" + d)[1..] == d;
      "-" + d
    else NatToString(n)
  }
}
