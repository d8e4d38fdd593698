/**
 Lines of plain BuildKit output: the two patterns of internal/builder/steps.go, matched as Go's regexp
 package does, leftmost and trying an optional part first.
 */
module BuildLines {
  import opened Wrappers
  import opened Numerals
  import opened Text

  datatype Line =
    | StepLine(vertex: string, instruction: string, stage: string, index: Numeral, total: Numeral)
    | StatusLine(vertex: string)
    | OtherLine

  datatype Numbers = Numbers(index: Numeral, total: Numeral)

  datatype Step = Step(stage: string, numbers: Numbers)

  predicate IsDigit(c: char) {
    '0' <= c <= '9'
  }

  /** \S: any character but the five that \s stands for. */
  predicate Solid(c: char) {
    c != '\t' && c != '\n' && c != '\U{000C}' && c != '\r' && c != ' '
  }

  /** \w */
  predicate WordChar(c: char) {
    'a' <= c <= 'z' || 'A' <= c <= 'Z' || IsDigit(c) || c == '_'
  }

  /** How many characters in front are of a kind: what a greedy repetition takes. */
  function Span(s: string, kind: char -> bool): (n: nat)
    ensures n <= |s| && (forall i :: 0 <= i < n ==> kind(s[i])) && (n < |s| ==> !kind(s[n]))
  {
    if s == "" || !kind(s[0]) then 0 else 1 + Span(s[1..], kind)
  }

  // ---- Reading ----

  /** (\d+)\].*$ */
  function ReadTotal(s: string): Option<Numeral> {
    var n := Span(s, IsDigit);
    if n == 0 || n == |s| || s[n] != ']' || '\n' in s[n + 1..] then None else Some(s[..n])
  }

  /** (\d+)/ and the total */
  function ReadNumbers(s: string): Option<Numbers> {
    var n := Span(s, IsDigit);
    if n == 0 || n == |s| || s[n] != '/' || ReadTotal(s[n + 1..]).None? then None
    else Some(Numbers(s[..n], ReadTotal(s[n + 1..]).value))
  }

  /** Behind the bracket, (?:(\S+) )? and the numbers: a stage is tried first. */
  function ReadStep(s: string): Option<Step> {
    var n := Span(s, Solid);
    if n > 0 && n < |s| && s[n] == ' ' && ReadNumbers(s[n + 1..]).Some?
    then Some(Step(s[..n], ReadNumbers(s[n + 1..]).value))
    else
      match ReadNumbers(s)
      case Some(numbers) => Some(Step("", numbers))
      case None => None
  }

  predicate WordEnds(s: string) {
    s == "" || !WordChar(s[0])
  }

  /** (DONE|CACHED)\b */
  predicate Finished(s: string) {
    ("DONE" <= s && WordEnds(s[4..])) || ("CACHED" <= s && WordEnds(s[6..]))
  }

  function ReadLine(value: string): Line {
    if value == "" || value[0] != '#' then OtherLine else
    var n := 1 + Span(value[1..], IsDigit);
    if n == 1 || n == |value| || value[n] != ' ' then OtherLine else
    ReadRest(value[..n], value[n + 1..])
  }

  function ReadRest(vertex: string, rest: string): Line {
    if rest != "" && rest[0] == '[' && ReadStep(rest[1..]).Some? then
      var step := ReadStep(rest[1..]).value;
      StepLine(vertex, rest, step.stage, step.numbers.index, step.numbers.total)
    else if Finished(rest) then StatusLine(vertex)
    else OtherLine
  }

  /** strings.TrimRight(line, "\r") */
  function TrimReturns(s: string): string {
    if s != "" && s[|s| - 1] == '\r' then TrimReturns(s[..|s| - 1]) else s
  }

  /** A line as it comes. */
  function Read(line: string): Line {
    ReadLine(TrimSpace(TrimReturns(line)))
  }

  // ---- What the patterns match ----

  predicate IsVertex(vertex: string) {
    vertex != "" && vertex[0] == '#' && Digits(vertex[1..])
  }

  predicate IsStage(stage: string) {
    stage != "" && forall i :: 0 <= i < |stage| ==> Solid(stage[i])
  }

  function NumbersText(numbers: Numbers, tail: string): string {
    numbers.index + "/" + numbers.total + "]" + tail
  }

  function StepText(stage: Option<string>, numbers: Numbers, tail: string): string {
    "[" + (if stage.Some? then stage.value + " " else "") + NumbersText(numbers, tail)
  }

  function StageName(stage: Option<string>): string {
    if stage.Some? then stage.value else ""
  }

  /** The first pattern matches the line with these parts. */
  predicate IsStep(value: string, vertex: string, stage: Option<string>, numbers: Numbers, tail: string) {
    && IsVertex(vertex) && (stage.Some? ==> IsStage(stage.value)) && '\n' !in tail
    && value == vertex + " " + StepText(stage, numbers, tail)
  }

  /** What follows the bracket goes on like a second pair of numbers, behind a word. */
  predicate StartsOver(tail: string) {
    var n := Span(tail, Solid);
    n < |tail| && tail[n] == ' ' && ReadNumbers(tail[n + 1..]).Some?
  }

  lemma SpanIs(s: string, kind: char -> bool, front: string, rest: string)
    requires s == front + rest && forall i :: 0 <= i < |front| ==> kind(front[i])
    requires rest == "" || !kind(rest[0])
    ensures Span(s, kind) == |front|
  {
    assert forall i :: 0 <= i < |front| ==> s[i] == front[i];
    assert rest != "" ==> s[|front|] == rest[0];
  }

  lemma SpanOfBoth(front: string, rest: string, kind: char -> bool)
    requires forall i :: 0 <= i < |front| ==> kind(front[i])
    ensures Span(front + rest, kind) == |front| + Span(rest, kind)
  {
    var n := Span(rest, kind);
    assert front + rest == (front + rest[..n]) + rest[n..];
    SpanIs(front + rest, kind, front + rest[..n], rest[n..]);
  }

  lemma TotalIsRead(total: Numeral, tail: string)
    requires '\n' !in tail
    ensures ReadTotal(total + "]" + tail) == Some(total)
  {
    var s := total + "]" + tail;
    assert s == total + ("]" + tail);
    SpanIs(s, IsDigit, total, "]" + tail);
    assert s[|total| + 1..] == tail;
  }

  lemma NumbersAreRead(numbers: Numbers, tail: string)
    requires '\n' !in tail
    ensures ReadNumbers(NumbersText(numbers, tail)) == Some(numbers)
  {
    TotalIsRead(numbers.total, tail);
    hide ReadTotal, Span;
    var t := numbers.total + "]" + tail;
    var s := NumbersText(numbers, tail);
    assert s == numbers.index + ("/" + t);
    SpanIs(s, IsDigit, numbers.index, "/" + t);
    assert s[|numbers.index| + 1..] == t;
  }

  lemma ReadTotalIs(s: string) returns (tail: string)
    requires ReadTotal(s).Some?
    ensures '\n' !in tail && s == ReadTotal(s).value + "]" + tail
  {
    hide Span;
    tail := s[Span(s, IsDigit) + 1..];
  }

  lemma ReadNumbersAre(s: string) returns (tail: string)
    requires ReadNumbers(s).Some?
    ensures '\n' !in tail && s == NumbersText(ReadNumbers(s).value, tail)
  {
    hide ReadTotal, Span;
    var n := Span(s, IsDigit);
    tail := ReadTotalIs(s[n + 1..]);
    assert s == s[..n] + "/" + s[n + 1..];
  }

  lemma StagedIsRead(stage: string, s: string)
    requires IsStage(stage) && ReadNumbers(s).Some?
    ensures ReadStep(stage + " " + s) == Some(Step(stage, ReadNumbers(s).value))
  {
    hide ReadNumbers;
    assert stage + " " + s == stage + (" " + s);
    SpanIs(stage + " " + s, Solid, stage, " " + s);
    assert (stage + " " + s)[|stage| + 1..] == s;
    assert (stage + " " + s)[..|stage|] == stage;
  }

  /** A word read on to its end: whether numbers behind it make it a stage depends on what follows alone. */
  lemma WordIsRead(front: string, tail: string)
    requires IsStage(front) && ReadNumbers(front + tail).Some?
    ensures StartsOver(tail) ==> ReadStep(front + tail).Some? && ReadStep(front + tail).value.stage != ""
    ensures !StartsOver(tail) ==> ReadStep(front + tail) == Some(Step("", ReadNumbers(front + tail).value))
  {
    hide ReadNumbers, Span;
    var n := Span(tail, Solid);
    SpanOfBoth(front, tail, Solid);
    if n < |tail| {
      assert (front + tail)[|front| + n] == tail[n];
      assert (front + tail)[|front| + n + 1..] == tail[n + 1..];
    }
  }

  /** Without a stage the numbers are read, unless what follows can pass for numbers behind a stage. */
  lemma UnstagedIsRead(numbers: Numbers, tail: string)
    requires '\n' !in tail
    ensures StartsOver(tail) ==>
              ReadStep(NumbersText(numbers, tail)).Some? && ReadStep(NumbersText(numbers, tail)).value.stage != ""
    ensures !StartsOver(tail) ==> ReadStep(NumbersText(numbers, tail)) == Some(Step("", numbers))
  {
    NumbersAreRead(numbers, tail);
    NumbersAreSolid(numbers);
    hide ReadNumbers, ReadStep, StartsOver, IsStage;
    var front := numbers.index + "/" + numbers.total + "]";
    assert NumbersText(numbers, tail) == front + tail;
    WordIsRead(front, tail);
  }

  lemma NumbersAreSolid(numbers: Numbers)
    ensures IsStage(numbers.index + "/" + numbers.total + "]")
  {
    assert forall i :: 0 <= i < |numbers.index| ==> Solid(numbers.index[i]);
    assert forall i :: 0 <= i < |numbers.total| ==> Solid(numbers.total[i]);
  }

  lemma VertexIsRead(vertex: string, rest: string)
    requires IsVertex(vertex)
    ensures ReadLine(vertex + " " + rest) == ReadRest(vertex, rest)
  {
    hide ReadRest;
    var value := vertex + " " + rest;
    assert value[1..] == vertex[1..] + (" " + rest);
    SpanIs(value[1..], IsDigit, vertex[1..], " " + rest);
    assert value[..|vertex|] == vertex && value[|vertex| + 1..] == rest;
  }

  lemma RestIsStep(vertex: string, s: string)
    requires ReadStep(s).Some?
    ensures var step := ReadStep(s).value;
            ReadRest(vertex, "[" + s)
            == StepLine(vertex, "[" + s, step.stage, step.numbers.index, step.numbers.total)
  {
    hide ReadStep, Finished;
    assert ("[" + s)[1..] == s;
  }

  /**
   A step line is read back part for part, except for one without a stage whose instruction starts over
   with numbers: then the first numbers are taken for the stage.
   */
  lemma StepIsRead(value: string, vertex: string, stage: Option<string>, numbers: Numbers, tail: string)
    requires IsStep(value, vertex, stage, numbers, tail)
    ensures ReadLine(value).StepLine? && ReadLine(value).vertex == vertex
    ensures ReadLine(value).instruction == StepText(stage, numbers, tail)
    ensures (ReadLine(value).stage, ReadLine(value).index, ReadLine(value).total)
            == (StageName(stage), numbers.index, numbers.total)
       <==> stage.Some? || !StartsOver(tail)
  {
    hide ReadNumbers, ReadLine, ReadRest, ReadStep, StartsOver, NumbersText, IsVertex, IsStage;
    VertexIsRead(vertex, StepText(stage, numbers, tail));
    NumbersAreRead(numbers, tail);
    var plain := NumbersText(numbers, tail);
    if stage.Some? {
      StagedIsRead(stage.value, plain);
      RestIsStep(vertex, stage.value + " " + plain);
      assert StepText(stage, numbers, tail) == "[" + (stage.value + " " + plain);
    } else {
      UnstagedIsRead(numbers, tail);
      RestIsStep(vertex, plain);
      assert StepText(stage, numbers, tail) == "[" + plain;
    }
  }

  /** The first pattern is what makes a line a step line. */
  lemma StepLinesAre(value: string)
    ensures ReadLine(value).StepLine?
       <==> exists vertex, stage, numbers, tail :: IsStep(value, vertex, stage, numbers, tail)
  {
    hide ReadLine, IsStep;
    if ReadLine(value).StepLine? {
      var vertex, stage, numbers, tail := StepParts(value);
    }
    if vertex, stage, numbers, tail :| IsStep(value, vertex, stage, numbers, tail) {
      StepIsRead(value, vertex, stage, numbers, tail);
    }
  }

  /** Two pairs of numbers in a row: the first is taken for the stage, whatever step was meant. */
  lemma SecondNumbersWin(vertex: string, first: Numbers, second: Numbers, tail: string)
    requires IsVertex(vertex) && '\n' !in tail
    ensures var text := StepText(None, first, " " + NumbersText(second, tail));
            ReadLine(vertex + " " + text)
            == StepLine(vertex, text, first.index + "/" + first.total + "]", second.index, second.total)
  {
    hide ReadLine, IsVertex, IsStage, StartsOver;
    var stage := first.index + "/" + first.total + "]";
    NumbersAreSolid(first);
    var text := StepText(None, first, " " + NumbersText(second, tail));
    assert text == StepText(Some(stage), second, tail);
    StepIsRead(vertex + " " + text, vertex, Some(stage), second, tail);
  }

  lemma StepParts(value: string)
    returns (vertex: string, stage: Option<string>, numbers: Numbers, tail: string)
    requires ReadLine(value).StepLine?
    ensures IsStep(value, vertex, stage, numbers, tail)
  {
    hide ReadLine, ReadRest, ReadStep, IsVertex, IsStage, StepText;
    var rest;
    vertex, rest := VertexOf(value);
    RestOfStep(vertex, rest);
    stage, numbers, tail := StepOf(rest[1..]);
  }

  lemma RestOfStep(vertex: string, rest: string)
    requires ReadRest(vertex, rest).StepLine?
    ensures rest != "" && rest == "[" + rest[1..] && ReadStep(rest[1..]).Some?
  {
    hide ReadStep, Finished;
  }

  lemma VertexOf(value: string) returns (vertex: string, rest: string)
    requires !ReadLine(value).OtherLine?
    ensures IsVertex(vertex) && value == vertex + " " + rest && ReadLine(value) == ReadRest(vertex, rest)
  {
    hide ReadRest;
    var n := 1 + Span(value[1..], IsDigit);
    vertex, rest := value[..n], value[n + 1..];
    assert forall i :: 0 <= i < n - 1 ==> vertex[1..][i] == value[1..][i];
  }

  lemma StepOf(s: string) returns (stage: Option<string>, numbers: Numbers, tail: string)
    requires ReadStep(s).Some?
    ensures (stage.Some? ==> IsStage(stage.value)) && '\n' !in tail
    ensures "[" + s == StepText(stage, numbers, tail)
  {
    hide ReadNumbers;
    var n := Span(s, Solid);
    if n > 0 && n < |s| && s[n] == ' ' && ReadNumbers(s[n + 1..]).Some? {
      stage, numbers := Some(s[..n]), ReadNumbers(s[n + 1..]).value;
      tail := ReadNumbersAre(s[n + 1..]);
      assert s == s[..n] + " " + s[n + 1..];
    } else {
      stage, numbers := None, ReadNumbers(s).value;
      tail := ReadNumbersAre(s);
    }
  }

  lemma FinishedIsNoStep(s: string)
    requires Finished(s)
    ensures s != "" && s[0] != '['
  {}

  /** The second pattern is what makes a line a status line. */
  lemma StatusLinesAre(value: string, vertex: string)
    ensures ReadLine(value) == StatusLine(vertex)
       <==> exists rest :: IsVertex(vertex) && value == vertex + " " + rest && Finished(rest)
  {
    if ReadLine(value) == StatusLine(vertex) {
      var name, rest := VertexOf(value);
      hide Finished, ReadLine, ReadStep, IsVertex;
      assert IsVertex(vertex) && value == vertex + " " + rest && Finished(rest);
    }
    if rest :| IsVertex(vertex) && value == vertex + " " + rest && Finished(rest) {
      StatusIsRead(vertex, rest);
    }
  }

  /** The characters of the patterns' classes, by their codes. */
  lemma ClassesAre(c: char)
    ensures IsDigit(c) <==> 48 <= c as int <= 57
    ensures Solid(c) <==> c as int !in {9, 10, 12, 13, 32}
    ensures WordChar(c) <==> 48 <= c as int <= 57 || 65 <= c as int <= 90 || c as int == 95 || 97 <= c as int <= 122
  {}

  /** DONE or CACHED, as a word of its own. */
  lemma FinishedIs(s: string)
    ensures Finished(s) <==> exists word, rest ::
              s == word + rest && (word == "DONE" || word == "CACHED") && (rest == "" || !WordChar(rest[0]))
  {
    if "DONE" <= s {
      assert s == "DONE" + s[4..];
    }
    if "CACHED" <= s {
      assert s == "CACHED" + s[6..];
    }
    if word, rest :| s == word + rest && (word == "DONE" || word == "CACHED") && (rest == "" || !WordChar(rest[0])) {
      assert s[|word|..] == rest;
    }
  }

  lemma StatusIsRead(vertex: string, rest: string)
    requires IsVertex(vertex) && Finished(rest)
    ensures ReadLine(vertex + " " + rest) == StatusLine(vertex)
  {
    VertexIsRead(vertex, rest);
    FinishedIsNoStep(rest);
    hide Finished, ReadLine, ReadStep, IsVertex;
  }

  // ---- Printing ----

  /** A line that output can contain: its instruction is the step in brackets. */
  predicate Printable(line: Line) {
    match line
    case StepLine(vertex, instruction, stage, index, total) =>
      IsVertex(vertex) && IsStage(stage) && instruction == StepText(Some(stage), Numbers(index, total), "")
    case StatusLine(vertex) => IsVertex(vertex)
    case OtherLine => true
  }

  function Print(line: Line): string {
    match line
    case StepLine(vertex, instruction, _, _, _) => vertex + " " + instruction
    case StatusLine(vertex) => vertex + " " + "DONE"
    case OtherLine => ""
  }

  lemma PrintedIsRead(line: Line)
    requires Printable(line)
    ensures Read(Print(line)) == line
  {
    var text := Print(line);
    match line
    case StepLine(vertex, instruction, stage, index, total) =>
      assert text[|text| - 1] == ']';
      NothingToTrim(text);
      StepIsRead(text, vertex, Some(stage), Numbers(index, total), "");
    case StatusLine(vertex) =>
      assert text[|text| - 1] == 'E';
      NothingToTrim(text);
      StatusIsRead(vertex, "DONE");
    case OtherLine =>
  }

  lemma NothingToTrim(text: string)
    requires text != "" && text[0] == '#' && !IsSpace(text[|text| - 1])
    ensures TrimSpace(TrimReturns(text)) == text
  {
    TrimSpaceFixed(text);
  }

  /** A log as it is read. */
  function Lines(log: seq<string>): seq<Line> {
    seq(|log|, i requires 0 <= i < |log| => Read(log[i]))
  }

  function PrintAll(lines: seq<Line>): seq<string> {
    seq(|lines|, i requires 0 <= i < |lines| => Print(lines[i]))
  }

  lemma LogIsRead(lines: seq<Line>)
    requires forall line :: line in lines ==> Printable(line)
    ensures Lines(PrintAll(lines)) == lines
  {
    hide Read, Print, Printable;
    forall i | 0 <= i < |lines|
      ensures Read(Print(lines[i])) == lines[i]
    {
      PrintedIsRead(lines[i]);
    }
  }
}
