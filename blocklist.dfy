/**
 * The domain blocklist: a set of lower-cased domain names parsed from a
 * line-oriented text source, and the check that blocks a name when the name
 * itself or any of its parent domains is listed.
 */
module Blocklist {
  import opened Wrappers
  import opened Text

  /** Why a refresh failed: the source could not be loaded, or its bytes are not UTF-8. */
  datatype RefreshError = LoadFailed | NotUtf8

  /** A line contributes an entry when, trimmed, it is non-empty and not a `#` comment. */
  predicate IsEntryLine(line: string) {
    var t := Trim(line);
    t != [] && t[0] != '#'
  }

  /** The entry a line contributes: the trimmed line, lower-cased. */
  function Entry(line: string): string {
    Lower(Trim(line))
  }

  /** The set of entries contributed by a list of lines. */
  function ParseLines(lines: seq<string>): (domains: set<string>)
    ensures forall x :: x in domains <==>
      exists i :: 0 <= i < |lines| && IsEntryLine(lines[i]) && x == Entry(lines[i])
  {
    if lines == [] then {}
    else
      var rest := ParseLines(lines[1..]);
      assert forall i :: 1 <= i < |lines| ==> lines[i] == lines[1..][i - 1];
      (if IsEntryLine(lines[0]) then {Entry(lines[0])} else {}) + rest
  }

  /** The blocklist snapshot built from the whole text of a source. */
  function ParseBlocklist(content: string): (domains: set<string>)
    ensures forall d :: d in domains ==> d != [] && Lower(d) == d
  {
    var lines := Lines(content);
    var domains := ParseLines(lines);
    assert forall d :: d in domains ==> d != [] && Lower(d) == d by {
      forall d | d in domains
        ensures d != [] && Lower(d) == d
      {
        var i :| 0 <= i < |lines| && IsEntryLine(lines[i]) && d == Entry(lines[i]);
        LowerIdempotent(Trim(lines[i]));
      }
    }
    domains
  }

  /** Domain normalization: every trailing '.' removed, then lower-cased. */
  function TrimEndDots(s: string): (r: string)
    ensures r <= s
    ensures r == [] || r[|r| - 1] != '.'
    ensures forall i :: |r| <= i < |s| ==> s[i] == '.'
  {
    if |s| > 0 && s[|s| - 1] == '.' then TrimEndDots(s[..|s| - 1]) else s
  }

  function Normalize(domain: string): string {
    Lower(TrimEndDots(domain))
  }

  /**
   * Reference definition of a block: the name is listed, or the text after
   * one of its dots (a parent domain) is listed.
   */
  predicate BlockedBy(domains: set<string>, name: string) {
    name in domains || exists k :: 0 <= k < |name| && name[k] == '.' && name[k + 1..] in domains
  }

  /** `str::split('.')`: the labels between dots, with empty labels kept. */
  function Split(s: string): (parts: seq<string>)
    ensures |parts| > 0
    decreases |s|
  {
    if Find(s, '.') < |s| then [s[..Find(s, '.')]] + Split(s[Find(s, '.') + 1..]) else [s]
  }

  /** `parts.join(".")` */
  function Join(parts: seq<string>): string
    requires |parts| > 0
  {
    if |parts| == 1 then parts[0] else parts[0] + "." + Join(parts[1..])
  }

  /** A name without a dot is one label. */
  lemma SplitNoDot(s: string)
    requires Find(s, '.') >= |s|
    ensures Split(s) == [s]
  {
  }

  /** A name with a dot: its first label ends at the first dot, the rest are the labels after it. */
  lemma SplitAtDot(s: string)
    requires Find(s, '.') < |s|
    ensures Split(s) == [s[..Find(s, '.')]] + Split(s[Find(s, '.') + 1..])
  {
  }

  /** A name with more than one label has a dot. */
  lemma SplitManyHasDot(s: string)
    ensures |Split(s)| > 1 ==> Find(s, '.') < |s|
  {
  }

  /** A name with a dot has one label more than the text after its first dot. */
  lemma SplitHeadLength(s: string)
    requires Find(s, '.') < |s|
    ensures |Split(s)| > 1 && |Split(s[Find(s, '.') + 1..])| == |Split(s)| - 1
  {
    SplitAtDot(s);
  }

  /** A name with a dot splits into the text before its first dot and the labels of the text after it. */
  lemma SplitHead(s: string)
    requires Find(s, '.') < |s|
    ensures |Split(s)| > 1 && Split(s)[1..] == Split(s[Find(s, '.') + 1..])
  {
    SplitAtDot(s);
    DropAfterHead(Split(s), Split(s[Find(s, '.') + 1..]), 1, 0);
  }

  /** A name with more than one label has a dot, and its labels after the first are those of the text after that dot. */
  lemma SplitTail(s: string)
    requires |Split(s)| > 1
    ensures Find(s, '.') < |s|
    ensures Split(s)[1..] == Split(s[Find(s, '.') + 1..])
  {
    SplitManyHasDot(s);
    SplitHead(s);
  }

  /** A name with more than one label has one label fewer after its first dot. */
  lemma SplitTailLength(s: string)
    requires |Split(s)| > 1
    ensures Find(s, '.') < |s| && |Split(s[Find(s, '.') + 1..])| == |Split(s)| - 1
  {
    SplitTail(s);
  }

  /** Joining the labels of a name with '.' gives the name back. */
  lemma {:induction false} JoinSplit(s: string)
    ensures Join(Split(s)) == s
    decreases |s|
  {
    var k := Find(s, '.');
    if k < |s| {
      SplitAtDot(s);
      JoinSplit(s[k + 1..]);
      JoinCons(s[..k], Split(s[k + 1..]));
      DotSplice(s, k);
    } else {
      SplitNoDot(s);
    }
  }

  lemma JoinCons(head: string, rest: seq<string>)
    requires |rest| > 0
    ensures Join([head] + rest) == head + "." + Join(rest)
  {
    assert ([head] + rest)[1..] == rest;
  }

  lemma DotSplice(s: string, k: nat)
    requires k < |s| && s[k] == '.'
    ensures s[..k] + "." + s[k + 1..] == s
  {
  }

  lemma DropAfterHead<T>(a: seq<T>, b: seq<T>, i: nat, j: nat)
    requires |a| > 0 && a[1..] == b && j <= |b| && i == j + 1
    ensures a[i..] == b[j..]
  {
  }

  /** The `i`-th parent the loop in `IsBlocked` tries is the text after the dot at `k`. */
  predicate ParentAt(s: string, i: nat, k: nat) {
    1 <= i < |Split(s)| && k < |s| && s[k] == '.' && Join(Split(s)[i..]) == s[k + 1..]
  }

  /** The first parent the loop tries is the text after the first dot. */
  lemma FirstParent(s: string) returns (k: nat)
    requires |Split(s)| > 1
    ensures k == Find(s, '.') && ParentAt(s, 1, k)
  {
    SplitTail(s);
    k := Find(s, '.');
    JoinSplit(s[Find(s, '.') + 1..]);
  }

  /** A parent of the text after the first dot, at one label fewer, is a parent of the whole name. */
  lemma ParentStep(s: string, i: nat, k: nat, j: nat, k': nat)
    requires Find(s, '.') < |s| && i == j + 1 && k == Find(s, '.') + 1 + k'
    requires ParentAt(s[Find(s, '.') + 1..], j, k')
    ensures ParentAt(s, i, k)
  {
    var t := s[Find(s, '.') + 1..];
    SplitHeadLength(s);
    SplitTail(s);
    ShiftParent(Split(s), Split(t), s, t, Find(s, '.') + 1, i, j, k, k');
  }

  /** The sequence-level fact behind `ParentStep`, with the labels as plain sequences. */
  lemma ShiftParent(a: seq<string>, b: seq<string>, s: string, t: string, m: nat, i: nat, j: nat, k: nat, k': nat)
    requires |a| > 0 && a[1..] == b && i == j + 1 && 1 <= j < |b|
    requires m <= |s| && t == s[m..] && k == m + k' && k' < |t| && t[k'] == '.'
    requires Join(b[j..]) == t[k' + 1..]
    ensures 1 <= i < |a| && k < |s| && s[k] == '.' && Join(a[i..]) == s[k + 1..]
  {
    assert a[i..] == b[j..];
    assert t[k' + 1..] == s[k + 1..];
  }

  /** Each parent tried by the loop in `IsBlocked` is the text after one of the name's dots. */
  lemma {:induction false} ParentIsAfterDot(s: string, i: nat) returns (k: nat)
    requires 1 <= i < |Split(s)|
    ensures ParentAt(s, i, k)
    decreases |s|
  {
    SplitTailLength(s);
    if i == 1 {
      k := FirstParent(s);
    } else {
      var k' := ParentIsAfterDot(s[Find(s, '.') + 1..], i - 1);
      k := Find(s, '.') + 1 + k';
      ParentStep(s, i, k, i - 1, k');
    }
  }

  /** The text after each dot of a name is one of the parents the loop in `IsBlocked` tries. */
  lemma {:induction false} AfterDotIsParent(s: string, k: nat) returns (i: nat)
    requires k < |s| && s[k] == '.'
    ensures ParentAt(s, i, k)
    decreases |s|
  {
    FindLeast(s, '.', k);
    var k0 := Find(s, '.');
    if k == k0 {
      SplitHeadLength(s);
      var first := FirstParent(s);
      i := 1;
    } else {
      var k' := k - k0 - 1;
      assert s[k0 + 1..][k'] == s[k];
      var i' := AfterDotIsParent(s[k0 + 1..], k');
      i := i' + 1;
      ParentStep(s, i, k, i', k');
    }
  }

  /** The blocklist manager: holds the current snapshot of blocked domains. */
  class BlocklistManager {
    var domains: set<string>

    /** A new manager starts with an empty blocklist. */
    constructor ()
      ensures domains == {}
    {
      domains := {};
    }

    /**
     * Replaces the snapshot with the entries parsed from the fetched source;
     * on a load or decode error the previous snapshot stays in place and the
     * error is returned.
     */
    method Refresh(fetched: Result<string, RefreshError>) returns (r: Result<(), RefreshError>)
      modifies this
      ensures fetched.Ok? ==> r == Ok(()) && domains == ParseBlocklist(fetched.value)
      ensures fetched.Err? ==> r == Err(fetched.error) && domains == old(domains)
    {
      match fetched {
        case Err(e) =>
          return Err(e);
        case Ok(content) =>
          var parsed := ParseBlocklist(content);
          domains := parsed;
          return Ok(());
      }
    }

    /** Whether a domain, once normalized, is listed itself or through a parent domain. */
    method IsBlocked(domain: string) returns (b: bool)
      ensures b == BlockedBy(domains, Normalize(domain))
    {
      var normalized := Normalize(domain);
      if normalized in domains {
        return true;
      }
      var parts := Split(normalized);
      for i := 1 to |parts|
        invariant forall j :: 1 <= j < i ==> Join(parts[j..]) !in domains
      {
        var parent := Join(parts[i..]);
        if parent in domains {
          var k := ParentIsAfterDot(normalized, i);
          return true;
        }
      }
      forall k | 0 <= k < |normalized| && normalized[k] == '.'
        ensures normalized[k + 1..] !in domains
      {
        var i := AfterDotIsParent(normalized, k);
      }
      return false;
    }
  }

  /** Listing a domain blocks all of its subdomains. */
  lemma SubdomainBlocked(domains: set<string>, name: string, sub: string)
    requires BlockedBy(domains, name)
    ensures BlockedBy(domains, sub + "." + name)
  {
    var full := sub + "." + name;
    assert full[|sub|] == '.' && full[|sub| + 1..] == name;
    if name !in domains {
      var k :| 0 <= k < |name| && name[k] == '.' && name[k + 1..] in domains;
      assert full[|sub| + 1 + k] == '.' && full[|sub| + 1 + k + 1..] == name[k + 1..];
    }
  }

  /** With a single entry `d`, a name is blocked exactly when it is `d` or ends in "." + `d`. */
  lemma SingleEntry(d: string, name: string)
    ensures BlockedBy({d}, name) <==>
      name == d || (|name| > |d| && name[|name| - |d| - 1] == '.' && name[|name| - |d|..] == d)
  {
    if name != d && BlockedBy({d}, name) {
      var k :| 0 <= k < |name| && name[k] == '.' && name[k + 1..] in {d};
      assert k == |name| - |d| - 1;
    }
    if name != d && |name| > |d| && name[|name| - |d| - 1] == '.' && name[|name| - |d|..] == d {
      var k := |name| - |d| - 1;
      assert name[k + 1..] == d;
    }
  }

  /** A name with one more trailing dot normalises to the same name. */
  lemma {:induction false} NormalizeTrailingDot(domain: string)
    ensures Normalize(domain + ".") == Normalize(domain)
  {
    assert (domain + ".")[..|domain|] == domain;
  }

  /** An entry blocks its own name; a parsed source blocks every listed domain and its subdomains. */
  lemma ParsedEntryBlocks(content: string, i: nat, sub: string)
    requires i < |Lines(content)| && IsEntryLine(Lines(content)[i])
    ensures BlockedBy(ParseBlocklist(content), Entry(Lines(content)[i]))
    ensures BlockedBy(ParseBlocklist(content), sub + "." + Entry(Lines(content)[i]))
  {
    SubdomainBlocked(ParseBlocklist(content), Entry(Lines(content)[i]), sub);
  }

  /** Blank lines and comments contribute nothing: the parse of one comment line is empty. */
  lemma CommentLineIgnored(comment: string)
    requires '\n' !in comment && |comment| > 0 && comment[0] == '#'
    ensures ParseBlocklist(comment) == {}
  {
    assert Lines(comment) == [comment];
    assert !IsSpace(comment[0]);
    TrimEndKeepsHead(comment);
    assert !IsEntryLine(comment);
  }

  lemma {:induction false} TrimEndKeepsHead(s: string)
    requires |s| > 0 && !IsSpace(s[0])
    ensures |TrimEnd(s)| > 0 && TrimEnd(s)[0] == s[0]
    ensures TrimStart(TrimEnd(s)) == TrimEnd(s)
    decreases |s|
  {
    if IsSpace(s[|s| - 1]) {
      TrimEndKeepsHead(s[..|s| - 1]);
    }
  }
}
