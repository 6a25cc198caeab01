/** The write-ahead marker of the layout migration: a line-oriented text form of
    the planned moves (cmd/wad/migrate.go). */
module Marker {
  import opened Text

  /** One entry of the move plan. */
  datatype Step = Step(kind: string, from: string, to: string)

  const COPY := "copy"
  const SKIP := "skip"
  const SCHEMA_WRITE := "schema-write"

  const HEADER := "#" + (" wa migration" + " write-ahead marker" + " (schema v1 \U{2192} v2)")

  /** The steps a marker records. */
  function CopySteps(plan: seq<Step>): seq<Step> {
    if plan == [] then []
    else (if plan[0].kind == COPY then [plan[0]] else []) + CopySteps(plan[1..])
  }

  lemma CopyStepsAppend(plan: seq<Step>, s: Step)
    ensures CopySteps(plan + [s]) == CopySteps(plan) + (if s.kind == COPY then [s] else [])
  {
    if plan == [] {
      assert plan + [s] == [s];
    } else {
      assert (plan + [s])[1..] == plan[1..] + [s];
    }
  }

  lemma CopyStepsMembers(plan: seq<Step>)
    ensures forall s :: s in CopySteps(plan) <==> s in plan && s.kind == COPY
  {}

  function StepLine(s: Step): string {
    s.kind + "\t" + s.from + "\t" + s.to
  }

  /** Everything above the checksum line. */
  function Body(plan: seq<Step>, ts: string): string {
    HEADER + "\n" + ("ts=" + ts) + "\n" + JoinLines(StepLine, CopySteps(plan))
  }

  function Render(plan: seq<Step>, ts: string, digest: string -> string): string {
    Body(plan, ts) + ("sha256=" + digest(Body(plan, ts))) + "\n"
  }

  /** The marker's text, literally: header, time stamp, one line for each copy step in plan
      order, and the digest of all that. */
  lemma RenderIs(plan: seq<Step>, ts: string, digest: string -> string)
    ensures var body := "# wa migration" + " write-ahead marker (schema v1 \U{2192} v2)" + "\n" + ("ts=" + ts) + "\n" + StepLines(plan);
      Render(plan, ts, digest) == body + ("sha256=" + digest(body)) + "\n"
  {
    StepLinesIs(plan);
    HeaderIs();
  }

  lemma HeaderIs()
    ensures HEADER == "# wa migration" + " write-ahead marker (schema v1 \U{2192} v2)"
  {
    var wa, marker, schema := " wa migration", " write-ahead marker", " (schema v1 \U{2192} v2)";
    Associative(wa, marker, schema);
    Associative("#", wa, marker + schema);
    assert "#" + wa == "# wa migration";
    assert marker + schema == " write-ahead marker (schema v1 \U{2192} v2)";
  }

  function StepLines(plan: seq<Step>): string {
    if plan == [] then ""
    else (if plan[0].kind == "copy" then "copy\t" + plan[0].from + "\t" + plan[0].to + "\n" else "") + StepLines(plan[1..])
  }

  lemma {:induction false} StepLinesIs(plan: seq<Step>)
    ensures JoinLines(StepLine, CopySteps(plan)) == StepLines(plan)
  {
    if plan != [] {
      StepLinesIs(plan[1..]);
      if plan[0].kind == COPY {
        var steps := CopySteps(plan);
        assert steps[0] == plan[0] && steps[1..] == CopySteps(plan[1..]);
        assert plan[0].kind + "\t" == "copy\t";
        assert StepLine(plan[0]) == "copy\t" + plan[0].from + "\t" + plan[0].to;
        assert JoinLines(StepLine, steps) == StepLine(steps[0]) + "\n" + JoinLines(StepLine, steps[1..]);
      } else {
        assert CopySteps(plan) == CopySteps(plan[1..]) && "" + StepLines(plan[1..]) == StepLines(plan[1..]);
      }
    }
  }

  /** The copy-step loop of writeMarker. */
  method WriteSteps(head: string, plan: seq<Step>) returns (text: string)
    ensures text == head + JoinLines(StepLine, CopySteps(plan))
  {
    text := head;
    for i := 0 to |plan|
      invariant text == head + JoinLines(StepLine, CopySteps(plan[..i]))
    {
      assert plan[..i + 1] == plan[..i] + [plan[i]];
      CopyStepsAppend(plan[..i], plan[i]);
      var s := plan[i];
      if s.kind == COPY {
        ghost var done := CopySteps(plan[..i]);
        JoinLinesAppend(StepLine, done, s);
        Associative(JoinLines(StepLine, done), StepLine(s), "\n");
        Associative(head, JoinLines(StepLine, done), StepLine(s) + "\n");
        Associative(text, StepLine(s), "\n");
        text := text + StepLine(s);
        text := text + "\n";
      } else {
        assert CopySteps(plan[..i]) + [] == CopySteps(plan[..i]);
      }
    }
    assert plan[..|plan|] == plan;
  }

  /** writeMarker's text; `digest` stands for hex(SHA-256). */
  method WriteMarker(plan: seq<Step>, ts: string, digest: string -> string) returns (text: string)
    ensures text == Render(plan, ts, digest)
  {
    text := HEADER + "\n";
    text := text + ("ts=" + ts) + "\n";
    text := WriteSteps(text, plan);
    text := text + ("sha256=" + digest(text)) + "\n";
  }

  predicate Ignored(line: string) {
    line == "" || "#" <= line || "ts=" <= line || "sha256=" <= line
  }

  /** strings.SplitN(line, "\t", 3), when it has three parts. */
  function SplitStep(line: string): Option<Step> {
    var i := IndexOf(line, '\t');
    if i == |line| then None
    else
      var rest := line[i + 1..];
      var j := IndexOf(rest, '\t');
      if j == |rest| then None
      else Some(Step(line[..i], rest[..j], rest[j + 1..]))
  }

  /** One line of a marker: at most one step. */
  function ParseLine(raw: string): seq<Step> {
    var line := TrimSpace(raw);
    if Ignored(line) then []
    else match SplitStep(line)
      case None => []
      case Some(s) => [s]
  }

  function Parse(text: string): seq<Step> {
    FlatMap(ParseLine, Lines(text))
  }

  /** readMarker: unrecognised lines are dropped. */
  method ReadMarker(text: string) returns (plan: seq<Step>)
    ensures plan == Parse(text)
  {
    plan := [];
    var lines := Lines(text);
    for i := 0 to |lines|
      invariant plan == FlatMap(ParseLine, lines[..i])
    {
      assert lines[..i + 1] == lines[..i] + [lines[i]];
      FlatMapAppend(ParseLine, lines[..i], lines[i]);
      plan := plan + ParseLine(lines[i]);
    }
    assert lines[..|lines|] == lines;
  }

  /** The paths the format can carry. */
  predicate Clean(s: Step) {
    && '\t' !in s.from && '\n' !in s.from
    && '\n' !in s.to && s.to != "" && !IsSpace(s.to[|s.to| - 1])
  }

  lemma SplitStepIsClean(line: string)
    requires '\n' !in line && (line != "" ==> !IsSpace(line[|line| - 1]))
    ensures match SplitStep(line) case Some(s) => Clean(s) case None => true
  {
    var i := IndexOf(line, '\t');
    if i < |line| {
      var rest := line[i + 1..];
      var j := IndexOf(rest, '\t');
      assert IsSpace('\t');
      assert rest != "" ==> rest[|rest| - 1] == line[|line| - 1];
    }
  }

  /** Whatever the line, a parsed step has clean paths. */
  lemma ParsedLineIsClean(raw: string)
    requires '\n' !in raw
    ensures forall s <- ParseLine(raw) :: Clean(s)
  {
    TrimKeepsAbsence(raw, '\n');
    SplitStepIsClean(TrimSpace(raw));
  }

  lemma {:induction false} ParsedStepsAreClean(lines: seq<string>)
    requires forall l <- lines :: '\n' !in l
    ensures forall s <- FlatMap(ParseLine, lines) :: Clean(s)
  {
    if lines != [] {
      ParsedLineIsClean(lines[0]);
      ParsedStepsAreClean(lines[1..]);
    }
  }

  lemma SplitStepLine(kind: string, from: string, to: string)
    requires '\t' !in kind && '\t' !in from
    ensures SplitStep(kind + "\t" + from + "\t" + to) == Some(Step(kind, from, to))
  {
    var tail := from + "\t" + to;
    var line := kind + "\t" + tail;
    assert line == kind + "\t" + from + "\t" + to;
    IndexOfSeparator(kind, '\t', tail);
    assert line[..|kind|] == kind && line[|kind| + 1..] == tail;
    IndexOfSeparator(from, '\t', to);
    assert tail[..|from|] == from && tail[|from| + 1..] == to;
  }

  lemma LetterNotIgnored(line: string)
    requires line != "" && line[0] == 'c'
    ensures !Ignored(line)
  {}

  lemma TrimSpaceIdle(line: string)
    requires line != "" && !IsSpace(line[0]) && !IsSpace(line[|line| - 1])
    ensures TrimSpace(line) == line
  {}

  lemma StepLineEnds(s: Step)
    requires s.kind == COPY && Clean(s)
    ensures var line := StepLine(s);
      line != "" && line[0] == 'c' && !IsSpace(line[|line| - 1]) && '\n' !in line
  {
    var line := StepLine(s);
    assert line[0] == s.kind[0] == 'c';
    assert line[|line| - 1] == s.to[|s.to| - 1];
  }

  lemma CleanLineParses(s: Step)
    requires s.kind == COPY && Clean(s)
    ensures '\n' !in StepLine(s)
    ensures ParseLine(StepLine(s)) == [s]
  {
    var line := StepLine(s);
    StepLineEnds(s);
    assert '\t' !in s.kind;
    SplitStepLine(s.kind, s.from, s.to);
    TrimSpaceIdle(line);
    LetterNotIgnored(line);
  }

  lemma TaggedLineIgnored(tag: string, x: string)
    requires tag in {"#", "ts=", "sha256="}
    ensures ParseLine(tag + x) == []
  {
    var s := tag + x;
    assert !IsSpace(s[0]) && TrimLeft(s) == s;
    TrimRightKeeps(tag, x);
  }

  lemma {:induction false} TrimRightKeeps(a: string, b: string)
    requires a != [] ==> !IsSpace(a[|a| - 1])
    ensures a <= TrimRight(a + b)
  {
    if b != [] {
      assert (a + b)[..|a + b| - 1] == a + b[..|b| - 1];
      TrimRightKeeps(a, b[..|b| - 1]);
    } else {
      assert a + b == a;
    }
  }

  /** A line with fewer than two tabs yields no step. */
  lemma MalformedIgnored(raw: string)
    requires var line := TrimSpace(raw); forall i, j | 0 <= i < j < |line| :: !(line[i] == '\t' && line[j] == '\t')
    ensures ParseLine(raw) == []
  {
    var line := TrimSpace(raw);
    var i := IndexOf(line, '\t');
    if i < |line| {
      var rest := line[i + 1..];
      var j := IndexOf(rest, '\t');
      assert forall k | 0 <= k < |rest| :: rest[k] == line[i + 1 + k];
    }
  }

  /** A marker's shape, whatever reads its lines. */
  lemma FramedLines(f: string -> seq<Step>, show: Step -> string,
                    header: string, stamp: string, steps: seq<Step>, sum: string)
    requires '\n' !in header && '\n' !in stamp && '\n' !in sum
    requires f(header) == f(stamp) == f(sum) == f("") == []
    requires forall s <- steps :: '\n' !in show(s) && f(show(s)) == [s]
    ensures FlatMap(f, Lines(header + "\n" + stamp + "\n" + JoinLines(show, steps) + sum + "\n")) == steps
  {
    var lines := JoinLines(show, steps);
    TextShape(header, stamp, lines, sum);
    FlatMapLine(f, header, stamp + "\n" + (lines + (sum + "\n")));
    FlatMapLine(f, stamp, lines + (sum + "\n"));
    FlatMapJoinLines(f, show, steps, sum + "\n");
    LastLine(f, sum);
  }

  lemma LastLine(f: string -> seq<Step>, sum: string)
    requires '\n' !in sum
    ensures FlatMap(f, Lines(sum + "\n")) == f(sum) + f("")
  {
    assert sum + "\n" == sum + "\n" + "";
    FlatMapLine(f, sum, "");
    assert Lines("") == [""];
  }

  lemma TextShape(header: string, stamp: string, lines: string, sum: string)
    ensures header + "\n" + stamp + "\n" + lines + sum + "\n" == header + "\n" + (stamp + "\n" + (lines + (sum + "\n")))
  {
    var top := header + "\n";
    Associative(top + stamp + "\n" + lines, sum, "\n");
    Associative(top + stamp + "\n", lines, sum + "\n");
    Associative(top, stamp, "\n");
    Associative(top, stamp + "\n", lines + (sum + "\n"));
  }

  lemma CleanPlanParses(header: string, stamp: string, steps: seq<Step>, sum: string)
    requires '\n' !in header && '\n' !in stamp && '\n' !in sum
    requires ParseLine(header) == ParseLine(stamp) == ParseLine(sum) == []
    requires forall s <- steps :: s.kind == COPY && Clean(s)
    ensures Parse(header + "\n" + stamp + "\n" + JoinLines(StepLine, steps) + sum + "\n") == steps
  {
    forall s <- steps
      ensures '\n' !in StepLine(s) && ParseLine(StepLine(s)) == [s]
    {
      CleanLineParses(s);
    }
    FramedLines(ParseLine, StepLine, header, stamp, steps, sum);
  }

  lemma HeaderIgnored()
    ensures '\n' !in HEADER && ParseLine(HEADER) == []
  {
    TaggedLineIgnored("#", " wa migration" + " write-ahead marker" + " (schema v1 \U{2192} v2)");
  }

  /** The marker round trip: reading what was written gives back exactly the
      plan's copy steps, in order, if and only if every one of them has paths the
      format can carry. */
  lemma RoundTrip(plan: seq<Step>, ts: string, digest: string -> string)
    requires '\n' !in ts && '\n' !in digest(Body(plan, ts))
    ensures Parse(Render(plan, ts, digest)) == CopySteps(plan)
       <==> forall s <- CopySteps(plan) :: Clean(s)
  {
    var text := Render(plan, ts, digest);
    CopyStepsMembers(plan);
    LinesNoNewline(text);
    ParsedStepsAreClean(Lines(text));
    if forall s <- CopySteps(plan) :: Clean(s) {
      var sum := digest(Body(plan, ts));
      HeaderIgnored();
      TaggedLineIgnored("ts=", ts);
      TaggedLineIgnored("sha256=", sum);
      CleanPlanParses(HEADER, "ts=" + ts, CopySteps(plan), "sha256=" + sum);
    }
  }
}
