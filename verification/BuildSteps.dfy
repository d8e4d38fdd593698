/** Counting BuildKit steps from plain build output: internal/builder/steps.go. */
module BuildSteps {
  import opened Wrappers
  import opened Numerals
  import opened Sums
  import opened Text
  import opened BuildLines

  type Count = n: nat | n <= MAX_INT64

  // ---- Numerals ----

  /** strconv.Atoi with its error ignored: out-of-range numerals read as the largest int. */
  function Atoi(s: Numeral): Count {
    if Value(s) > MAX_INT64 then MAX_INT64 else Value(s)
  }

  /** The usual way to write a number that fits an int: no leading zero. */
  predicate Canonical(s: Numeral) {
    s == Decimal(Atoi(s))
  }

  /** Canonical numerals are those a caller recognises by their first digit and their size. */
  lemma CanonicalIff(s: Numeral)
    ensures Canonical(s) <==> (s == "0" || s[0] != '0') && Value(s) <= MAX_INT64
  {
    if (s == "0" || s[0] != '0') && Value(s) <= MAX_INT64 {
      NoLeadingZeroIsDecimal(s);
    }
  }

  // ---- The counter ----

  /** stage + " " + index; a stage name has no space, so the two parts can be told apart. */
  datatype Key = Key(stage: string, index: Numeral)

  datatype Started = Started(key: Key, instruction: string)

  datatype Steps = Steps(totals: map<string, Count>, vertices: map<string, Key>, completed: set<Key>,
                         started: seq<Started>)

  const NONE := Steps(map[], map[], {}, [])

  predicate Accepted(line: Line) {
    line.StepLine? && 0 < Atoi(line.index) <= Atoi(line.total)
  }

  function TotalAt(totals: map<string, Count>, stage: string): Count {
    if stage in totals then totals[stage] else 0
  }

  function Observed(s: Steps, line: Line): Steps {
    match line
    case StepLine(vertex, instruction, stage, index, total) =>
      if !Accepted(line) then s else
      var key := Key(stage, index);
      Steps(if Atoi(total) > TotalAt(s.totals, stage) then s.totals[stage := Atoi(total)] else s.totals,
            s.vertices[vertex := key], s.completed,
            if vertex in s.vertices then s.started else s.started + [Started(key, instruction)])
    case StatusLine(vertex) =>
      if vertex in s.vertices then s.(completed := s.completed + {s.vertices[vertex]}) else s
    case OtherLine => s
  }

  function ObservedAll(s: Steps, log: seq<Line>): Steps
    decreases |log|
  {
    if log == [] then s else Observed(ObservedAll(s, log[..|log| - 1]), log[|log| - 1])
  }

  function CountOf(totals: map<string, Count>): string -> nat {
    stage => TotalAt(totals, stage)
  }

  ghost function Sum(totals: map<string, Count>): nat {
    SumOver(totals.Keys, CountOf(totals))
  }

  lemma StageSplit(totals: map<string, Count>, stage: string)
    requires stage in totals
    ensures Sum(totals) == totals[stage] + Sum(totals - {stage})
  {
    SumSplit(totals.Keys, stage, CountOf(totals));
    SumAgrees((totals - {stage}).Keys, CountOf(totals), CountOf(totals - {stage}));
    assert (totals - {stage}).Keys == totals.Keys - {stage};
  }

  /** What an int holds after reaching a count: past the largest value it wraps to the smallest. */
  function Wrap(n: nat): int {
    if n <= MAX_INT64 then n
    else if n <= 2 * MAX_INT64 + 1 then n - 2 * MAX_INT64 - 2
    else Wrap(n - 2 * MAX_INT64 - 2)
  }

  /** int addition of a non-negative term. */
  function Add(a: int, b: Count): int {
    if a + b > MAX_INT64 then a + b - 2 * MAX_INT64 - 2 else a + b
  }

  lemma EmptySum()
    ensures Sum(map[]) == 0 && Wrap(0) == 0
  {}

  lemma {:induction false} WrapAdd(a: nat, b: Count)
    ensures Add(Wrap(a), b) == Wrap(a + b)
  {
    if a > 2 * MAX_INT64 + 1 {
      WrapAdd(a - 2 * MAX_INT64 - 2, b);
    }
  }

  /** The instruction of the latest started step that is not completed, or of the latest one. */
  function LastOpen(started: seq<Started>, completed: set<Key>): (r: Option<string>)
    ensures r.Some? ==> exists i :: 0 <= i < |started| && started[i].key !in completed
                                    && r.value == started[i].instruction
                                    && forall j :: i < j < |started| ==> started[j].key in completed
    ensures r.None? ==> forall i :: 0 <= i < |started| ==> started[i].key in completed
  {
    if started == [] then None else
    var n := |started| - 1;
    if started[n].key !in completed then Some(started[n].instruction) else LastOpen(started[..n], completed)
  }

  function Current(s: Steps): string {
    match LastOpen(s.started, s.completed)
    case Some(instruction) => instruction
    case None => if s.started == [] then "" else s.started[|s.started| - 1].instruction
  }

  class StepCounter {
    var stageTotals: map<string, Count>
    var vertexSteps: map<string, Key>
    var completed: set<Key>
    var started: seq<Started>

    constructor ()
      ensures View() == NONE
    {
      stageTotals, vertexSteps, completed, started := map[], map[], {}, [];
    }

    function View(): Steps
      reads this
    {
      Steps(stageTotals, vertexSteps, completed, started)
    }

    method Counts() returns (done: nat, total: int)
      ensures done == |completed| && total == Wrap(Sum(stageTotals))
    {
      hide Wrap, Add, Sum;
      EmptySum();
      done := |completed|;
      total := 0;
      var left := stageTotals;
      ghost var exact: nat := 0;
      while left != map[]
        invariant total == Wrap(exact) && exact + Sum(left) == Sum(stageTotals)
        decreases |left|
      {
        var stage :| stage in left;
        StageSplit(left, stage);
        WrapAdd(exact, left[stage]);
        total := Add(total, left[stage]);
        exact := exact + left[stage];
        left := left - {stage};
      }
    }

    method CurrentInstruction() returns (instruction: string)
      ensures instruction == Current(View())
    {
      var i := |started| - 1;
      while i >= 0
        invariant -1 <= i < |started|
        invariant LastOpen(started, completed) == LastOpen(started[..i + 1], completed)
      {
        assert started[..i + 1][..i] == started[..i];
        if started[i].key !in completed {
          return started[i].instruction;
        }
        i := i - 1;
      }
      if started == [] {
        return "";
      }
      return started[|started| - 1].instruction;
    }

    method Observe(line: string) returns (changed: bool)
      modifies this
      ensures View() == Observed(old(View()), Read(line))
      ensures changed <==> |completed| != |old(completed)| || Wrap(Sum(stageTotals)) != Wrap(Sum(old(stageTotals)))
                           || Current(View()) != Current(old(View()))
    {
      hide ReadLine, TrimSpace, TrimReturns;
      var beforeDone, beforeTotal := Counts();
      var beforeCurrent := CurrentInstruction();
      match ReadLine(TrimSpace(TrimReturns(line))) {
        case StepLine(vertex, instruction, stage, indexText, totalText) =>
          var index := Atoi(indexText);
          var total := Atoi(totalText);
          if index > 0 && total >= index {
            if total > TotalAt(stageTotals, stage) {
              stageTotals := stageTotals[stage := total];
            }
            var key := Key(stage, indexText);
            if vertex !in vertexSteps {
              started := started + [Started(key, instruction)];
            }
            vertexSteps := vertexSteps[vertex := key];
          }
        case StatusLine(vertex) =>
          if vertex in vertexSteps {
            completed := completed + {vertexSteps[vertex]};
          }
        case OtherLine =>
      }
      var afterDone, afterTotal := Counts();
      var afterCurrent := CurrentInstruction();
      return afterDone != beforeDone || afterTotal != beforeTotal || afterCurrent != beforeCurrent;
    }
  }
}
