/**
 * The tag editor: a line-based rewrite of a compose-style YAML file that
 * sets the image tag of one service. It finds the `services:` line, then the
 * service's header line at or after it, then the first `    tag:` line at or
 * after that header, and replaces that one line.
 */
module TagEditor {
  import opened Wrappers
  import opened Text

  datatype RawTagEditError = ServicesBlockNotFound | ServiceNotFound(service: string) | TagKeyNotFound(service: string)

  const ServicesBlockMessage := "'services:' block not found in the file"
  const ServiceOpen := "Service '"
  const ServiceClose := "' not found in the file"
  const TagKeyOpen := "'tag:' key not found for service '"
  const TagKeyClose := "'"

  /**
   * The message each error displays. The three kinds start differently and
   * the service name sits between a fixed opening and a fixed closing, so the
   * message tells the error back.
   */
  function Describe(e: RawTagEditError): (msg: string)
    ensures DescribedError(msg) == Some(e)
  {
    match e
    case ServicesBlockNotFound => ServicesBlockMessage
    case ServiceNotFound(service) =>
      Enclosed(ServiceOpen, service, ServiceClose);
      ServiceOpen + service + ServiceClose
    case TagKeyNotFound(service) =>
      Enclosed(TagKeyOpen, service, TagKeyClose);
      assert (TagKeyOpen + service + TagKeyClose)[0] == '\'' && (TagKeyOpen + service + TagKeyClose)[1] == 't';
      TagKeyOpen + service + TagKeyClose
  }

  /** The text between `open` and `close` when `msg` starts with the one and ends with the other. */
  function Between(msg: string, open: string, close: string): (r: Option<string>)
    ensures r.Some? ==> msg == open + r.value + close
  {
    if |open| + |close| <= |msg| && msg[..|open|] == open && msg[|msg| - |close|..] == close
    then assert msg == msg[..|open|] + msg[|open|..|msg| - |close|] + msg[|msg| - |close|..];
      Some(msg[|open|..|msg| - |close|])
    else None
  }

  /** Which error a message describes, if any. */
  function DescribedError(msg: string): Option<RawTagEditError> {
    if msg == ServicesBlockMessage then Some(ServicesBlockNotFound)
    else match Between(msg, ServiceOpen, ServiceClose)
      case Some(service) => Some(ServiceNotFound(service))
      case None =>
        match Between(msg, TagKeyOpen, TagKeyClose)
        case Some(service) => Some(TagKeyNotFound(service))
        case None => None
  }

  /** A text enclosed by `open` and `close` is read back by `Between`. */
  lemma Enclosed(open: string, text: string, close: string)
    ensures Between(open + text + close, open, close) == Some(text)
  {
    var msg := open + text + close;
    assert msg[..|open|] == open;
    assert msg[|msg| - |close|..] == close;
    assert msg[|open|..|msg| - |close|] == text;
  }

  /** Different errors never display the same message. */
  lemma DescribeInjective(e1: RawTagEditError, e2: RawTagEditError)
    requires Describe(e1) == Describe(e2)
    ensures e1 == e2
  {
  }

  const ServicesLine := "services:"
  const TagPrefix := "    tag:"

  /** The header line of a service inside the services block. */
  function ServiceHeader(service: string): string {
    "  " + service + ":"
  }

  /** The replacement tag line. */
  function TagLine(tag: string): string {
    TagPrefix + " " + tag
  }

  /** The first index at or after `from` whose line equals `target`. */
  function FindLine(lines: seq<string>, from: nat, target: string): (r: Option<nat>)
    requires from <= |lines|
    ensures r.Some? ==> from <= r.value < |lines| && lines[r.value] == target &&
                        (forall j :: from <= j < r.value ==> lines[j] != target)
    ensures r.None? ==> forall j :: from <= j < |lines| ==> lines[j] != target
    decreases |lines| - from
  {
    if from == |lines| then None
    else if lines[from] == target then Some(from)
    else FindLine(lines, from + 1, target)
  }

  /** The first index at or after `from` whose line starts with `prefix`. */
  function FindPrefixLine(lines: seq<string>, from: nat, prefix: string): (r: Option<nat>)
    requires from <= |lines|
    ensures r.Some? ==> from <= r.value < |lines| && StartsWith(lines[r.value], prefix) &&
                        (forall j :: from <= j < r.value ==> !StartsWith(lines[j], prefix))
    ensures r.None? ==> forall j :: from <= j < |lines| ==> !StartsWith(lines[j], prefix)
    decreases |lines| - from
  {
    if from == |lines| then None
    else if StartsWith(lines[from], prefix) then Some(from)
    else FindPrefixLine(lines, from + 1, prefix)
  }

  /** The index of the line the edit replaces, or the error that stops it. */
  function TagLineIndex(lines: seq<string>, service: string): (r: Result<nat, RawTagEditError>)
    ensures r.Ok? ==> r.value < |lines| && StartsWith(lines[r.value], TagPrefix)
    ensures r.Err? ==> r.error in {ServicesBlockNotFound, ServiceNotFound(service), TagKeyNotFound(service)}
  {
    match FindLine(lines, 0, ServicesLine)
    case None => Err(ServicesBlockNotFound)
    case Some(services) =>
      match FindLine(lines, services, ServiceHeader(service))
      case None => Err(ServiceNotFound(service))
      case Some(header) =>
        match FindPrefixLine(lines, header, TagPrefix)
        case None => Err(TagKeyNotFound(service))
        case Some(t) => Ok(t)
  }

  /** Sets `service`'s tag in the text of a compose file; the result ends with one line feed. */
  function MakeTagEditInString(raw: string, service: string, tag: string): (r: Result<string, RawTagEditError>)
    ensures r.Ok? ==> |r.value| > 0 && r.value[|r.value| - 1] == '\n'
    ensures r.Ok? <==> TagLineIndex(Lines(raw), service).Ok?
    ensures r.Err? ==> r.error in {ServicesBlockNotFound, ServiceNotFound(service), TagKeyNotFound(service)}
  {
    var lines := Lines(raw);
    match TagLineIndex(lines, service)
    case Err(e) => Err(e)
    case Ok(t) => Ok(JoinLines(lines[t := TagLine(tag)]) + "\n")
  }

  /** The first line equal to `target` is at `at`. */
  predicate FirstAt(lines: seq<string>, from: nat, target: string, at: nat) {
    from <= at < |lines| && lines[at] == target && forall j :: from <= j < at ==> lines[j] != target
  }

  /** No `services:` line: the first error. */
  lemma ServicesBlockMissing(lines: seq<string>, service: string)
    ensures TagLineIndex(lines, service) == Err(ServicesBlockNotFound) <==> ServicesLine !in lines
  {
    if ServicesLine in lines {
      var i :| 0 <= i < |lines| && lines[i] == ServicesLine;
    }
  }

  /** A `services:` line but no header for the service at or after the first one: the second error. */
  lemma ServiceMissing(lines: seq<string>, service: string)
    ensures TagLineIndex(lines, service) == Err(ServiceNotFound(service)) <==>
      exists s: nat :: FirstAt(lines, 0, ServicesLine, s) &&
                       (forall j :: s <= j < |lines| ==> lines[j] != ServiceHeader(service))
  {
    var fs := FindLine(lines, 0, ServicesLine);
    if fs.Some? {
      assert FirstAt(lines, 0, ServicesLine, fs.value);
      forall s | FirstAt(lines, 0, ServicesLine, s) ensures s == fs.value { }
    }
  }

  /** A header for the service but no `    tag:` line at or after the first one: the third error. */
  lemma TagKeyMissing(lines: seq<string>, service: string)
    ensures TagLineIndex(lines, service) == Err(TagKeyNotFound(service)) <==>
      exists s: nat, h: nat :: FirstAt(lines, 0, ServicesLine, s) && FirstAt(lines, s, ServiceHeader(service), h) &&
                               (forall j :: h <= j < |lines| ==> !StartsWith(lines[j], TagPrefix))
  {
    var fs := FindLine(lines, 0, ServicesLine);
    if fs.Some? {
      var s := fs.value;
      assert FirstAt(lines, 0, ServicesLine, s);
      forall s' | FirstAt(lines, 0, ServicesLine, s') ensures s' == s { }
      var fh := FindLine(lines, s, ServiceHeader(service));
      if fh.Some? {
        assert FirstAt(lines, s, ServiceHeader(service), fh.value);
        forall h' | FirstAt(lines, s, ServiceHeader(service), h') ensures h' == fh.value { }
      }
    }
  }

  /** On success, the replaced line is the first `    tag:` line at or after the first header at or after the first `services:` line. */
  lemma ReplacedLine(lines: seq<string>, service: string)
    requires TagLineIndex(lines, service).Ok?
    ensures var t := TagLineIndex(lines, service).value;
      exists s: nat, h: nat :: FirstAt(lines, 0, ServicesLine, s) && FirstAt(lines, s, ServiceHeader(service), h) &&
                               h <= t < |lines| && StartsWith(lines[t], TagPrefix) &&
                               (forall j :: h <= j < t ==> !StartsWith(lines[j], TagPrefix))
  {
    var s := FindLine(lines, 0, ServicesLine).value;
    var h := FindLine(lines, s, ServiceHeader(service)).value;
    assert FirstAt(lines, 0, ServicesLine, s) && FirstAt(lines, s, ServiceHeader(service), h);
  }

  /** Replacing one plain line by a plain tag line, joining and reading back gives the edited list. */
  lemma EditReadsBack(lines: seq<string>, t: nat, tag: string)
    requires t < |lines| && PlainLine(tag)
    requires forall i :: 0 <= i < |lines| && i != t ==> PlainLine(lines[i])
    ensures Lines(JoinLines(lines[t := TagLine(tag)]) + "\n") == lines[t := TagLine(tag)]
  {
    var edited := lines[t := TagLine(tag)];
    var line := TagLine(tag);
    assert line == "    tag: " + tag;
    assert line[|line| - 1] != '\r' by {
      if tag != [] { assert line[|line| - 1] == tag[|tag| - 1]; }
    }
    assert '\n' !in line by {
      assert forall c :: c in line ==> c in "    tag: " || c in tag;
    }
    assert forall i :: 0 <= i < |edited| ==> PlainLine(edited[i]);
    LinesOfJoined(edited);
  }

  /**
   * On success the output ends with a line feed, and read back with `Lines`
   * it is the input's lines with exactly one changed: the first `    tag:`
   * line at or after the service's header now reads "    tag: " + tag. This
   * needs a tag without line breaks and input lines that do not end in '\r'
   * (such a '\r' would be lost on reading back).
   */
  lemma SuccessChangesOneLine(raw: string, service: string, tag: string)
    requires PlainLine(tag)
    requires forall i :: 0 <= i < |Lines(raw)| ==> PlainLine(Lines(raw)[i])
    requires MakeTagEditInString(raw, service, tag).Ok?
    ensures TagLineIndex(Lines(raw), service).Ok?
    ensures var out := MakeTagEditInString(raw, service, tag).value;
      var t := TagLineIndex(Lines(raw), service).value;
      |out| > 0 && out[|out| - 1] == '\n' &&
      Lines(out) == Lines(raw)[t := TagLine(tag)] &&
      StartsWith(Lines(raw)[t], TagPrefix)
  {
    var lines := Lines(raw);
    var t := TagLineIndex(lines, service).value;
    EditReadsBack(lines, t, tag);
  }

  /**
   * Applying the same edit to its own output gives that output back, under
   * the same conditions as `SuccessChangesOneLine` and provided the service's
   * header does not itself look like a tag line.
   */
  lemma {:induction false} EditIsIdempotent(raw: string, service: string, tag: string)
    requires PlainLine(tag)
    requires forall i :: 0 <= i < |Lines(raw)| ==> PlainLine(Lines(raw)[i])
    requires !StartsWith(ServiceHeader(service), TagPrefix)
    requires MakeTagEditInString(raw, service, tag).Ok?
    ensures MakeTagEditInString(MakeTagEditInString(raw, service, tag).value, service, tag) ==
      MakeTagEditInString(raw, service, tag)
  {
    var out := MakeTagEditInString(raw, service, tag).value;
    var lines := Lines(raw);
    var t := TagLineIndex(lines, service).value;
    SuccessChangesOneLine(raw, service, tag);
    var edited := Lines(out);
    assert edited == lines[t := TagLine(tag)];
    EditKeepsTagLineIndex(lines, service, tag, t);
    assert edited[t := TagLine(tag)] == edited;
  }

  /** The searches find the same tag line in the edited lines: the edit changes no line they stop at before it. */
  lemma EditKeepsTagLineIndex(lines: seq<string>, service: string, tag: string, t: nat)
    requires !StartsWith(ServiceHeader(service), TagPrefix)
    requires TagLineIndex(lines, service) == Ok(t)
    ensures TagLineIndex(lines[t := TagLine(tag)], service) == Ok(t)
  {
    var edited := lines[t := TagLine(tag)];
    var s := FindLine(lines, 0, ServicesLine).value;
    var h := FindLine(lines, s, ServiceHeader(service)).value;
    assert t != s by {
      assert ServicesLine[..|TagPrefix|][0] != TagPrefix[0];
      assert lines[s] == ServicesLine && !StartsWith(ServicesLine, TagPrefix);
    }
    assert t != h;
    assert StartsWith(TagLine(tag), TagPrefix) by {
      assert TagLine(tag)[..|TagPrefix|] == TagPrefix;
    }
    FindLineUnchanged(lines, edited, 0, ServicesLine, s, t);
    FindLineUnchanged(lines, edited, s, ServiceHeader(service), h, t);
    FindPrefixLineAt(lines, edited, h, TagPrefix, t);
  }

  /** A search that stops before the changed index finds the same line in the edited list. */
  lemma {:induction false} FindLineUnchanged(lines: seq<string>, edited: seq<string>, from: nat, target: string,
                                             found: nat, changed: nat)
    requires from <= found < changed < |lines| == |edited|
    requires forall j :: 0 <= j < |lines| && j != changed ==> edited[j] == lines[j]
    requires FindLine(lines, from, target) == Some(found)
    ensures FindLine(edited, from, target) == Some(found)
    decreases found - from
  {
    if from < found {
      FindLineUnchanged(lines, edited, from + 1, target, found, changed);
    }
  }

  /** When the lines before `at` are kept and the line at `at` starts with the prefix, the prefix search finds `at`. */
  lemma {:induction false} FindPrefixLineAt(lines: seq<string>, edited: seq<string>, from: nat, prefix: string, at: nat)
    requires from <= at < |lines| == |edited|
    requires forall j :: from <= j < at ==> edited[j] == lines[j]
    requires FindPrefixLine(lines, from, prefix) == Some(at)
    requires StartsWith(edited[at], prefix)
    ensures FindPrefixLine(edited, from, prefix) == Some(at)
    decreases at - from
  {
    if from < at {
      FindPrefixLineAt(lines, edited, from + 1, prefix, at);
    }
  }

  /**
   * The tag search is not confined to the service's own block: when service
   * `a` has no tag line, the edit succeeds and rewrites line 4, the tag of
   * the following service `b`.
   */
  lemma EditsNextServiceTag(raw: string, service: string, tag: string)
    requires raw == "services:" + "\n" + "  a:" + "\n" + "    image: x" + "\n" + "  b:" + "\n" + "    tag: 1" + "\n"
    requires service == "a" && tag == "2"
    ensures MakeTagEditInString(raw, service, tag).Ok?
    ensures TagLineIndex(Lines(raw), service) == Ok(4)
    ensures Lines(raw)[3] == "  b:"
  {
    LinesExample(raw);
    ExampleSearches(Lines(raw));
  }

  /** A service that is not in the file is reported by name. */
  lemma MissingServiceReported(raw: string)
    requires raw == "services:" + "\n" + "  a:" + "\n" + "    image: x" + "\n" + "  b:" + "\n" + "    tag: 1" + "\n"
    ensures MakeTagEditInString(raw, "does-not-exist", "20230614-1830") == Err(ServiceNotFound("does-not-exist"))
  {
    LinesExample(raw);
    ExampleSearches(Lines(raw));
  }

  lemma ExampleSearches(lines: seq<string>)
    requires lines == ["services:", "  a:", "    image: x", "  b:", "    tag: 1"]
    ensures TagLineIndex(lines, "a") == Ok(4)
    ensures TagLineIndex(lines, "does-not-exist") == Err(ServiceNotFound("does-not-exist"))
  {
    assert FindLine(lines, 0, ServicesLine) == Some(0);
    assert FindLine(lines, 0, ServiceHeader("a")) == Some(1);
    assert FindLine(lines, 0, ServiceHeader("does-not-exist")) == None;
    assert lines[2][..|TagPrefix|][4] != TagPrefix[4];
    assert !StartsWith(lines[1], TagPrefix) && !StartsWith(lines[2], TagPrefix) && !StartsWith(lines[3], TagPrefix);
    assert StartsWith(lines[4], TagPrefix);
    assert FindPrefixLine(lines, 1, TagPrefix) == Some(4);
  }

  lemma LinesExample(raw: string)
    requires raw == "services:" + "\n" + "  a:" + "\n" + "    image: x" + "\n" + "  b:" + "\n" + "    tag: 1" + "\n"
    ensures Lines(raw) == ["services:", "  a:", "    image: x", "  b:", "    tag: 1"]
  {
    var lines := ["services:", "  a:", "    image: x", "  b:", "    tag: 1"];
    ExampleJoined(lines, raw);
    ExamplePlain(lines);
    LinesOfJoined(lines);
  }

  /** The sample file is its five lines joined by line feeds, with a final one. */
  lemma ExampleJoined(lines: seq<string>, raw: string)
    requires lines == ["services:", "  a:", "    image: x", "  b:", "    tag: 1"]
    requires raw == "services:" + "\n" + "  a:" + "\n" + "    image: x" + "\n" + "  b:" + "\n" + "    tag: 1" + "\n"
    ensures JoinLines(lines) + "\n" == raw
  {
    assert JoinLines(lines[3..]) == lines[3] + "\n" + lines[4];
    assert JoinLines(lines[2..]) == lines[2] + "\n" + JoinLines(lines[3..]);
    assert JoinLines(lines[1..]) == lines[1] + "\n" + JoinLines(lines[2..]);
  }

  /** No line of the sample file holds a line feed or ends with a carriage return. */
  lemma ExamplePlain(lines: seq<string>)
    requires lines == ["services:", "  a:", "    image: x", "  b:", "    tag: 1"]
    ensures forall i :: 0 <= i < |lines| ==> PlainLine(lines[i])
  {
    forall i | 0 <= i < |lines| ensures PlainLine(lines[i]) {
      assert '\n' !in lines[i];
    }
  }
}
