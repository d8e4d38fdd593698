/** Progress never passes the total and never goes back: what BuildKit step counting guarantees. */
module BuildProgress {
  import opened Wrappers
  import opened Numerals
  import opened BuildLines
  import opened BuildSteps

  /** A step line whose index is the only usual way of writing that step, or that is ignored. */
  predicate Plain(line: Line) {
    line.StepLine? ==> Canonical(line.index) || Atoi(line.index) == 0
  }

  /** The step lies under its stage's total. */
  predicate Counted(totals: map<string, Count>, key: Key) {
    key.stage in totals && Canonical(key.index) && 1 <= Atoi(key.index) <= totals[key.stage]
  }

  ghost predicate ProgressInv(s: Steps) {
    && (forall v :: v in s.vertices ==> Counted(s.totals, s.vertices[v]))
    && (forall k :: k in s.completed ==> Counted(s.totals, k))
  }

  lemma ObserveKeeps(s: Steps, line: Line)
    requires ProgressInv(s) && Plain(line)
    ensures ProgressInv(Observed(s, line))
  {
    hide Canonical, Atoi;
  }

  lemma {:induction false} LogKeeps(log: seq<Line>)
    requires forall line :: line in log ==> Plain(line)
    ensures ProgressInv(ObservedAll(NONE, log))
    decreases |log|
  {
    if log != [] {
      var n := |log| - 1;
      LogKeeps(log[..n]);
      ObserveKeeps(ObservedAll(NONE, log[..n]), log[n]);
    }
  }

  // ---- Counting completed steps ----

  ghost predicate StageKeys(keys: set<Key>, stage: string, n: nat) {
    forall k :: k in keys ==> k.stage == stage && Canonical(k.index) && 1 <= Atoi(k.index) <= n
  }

  /** A stage has at most as many canonical keys as numbers up to its total. */
  lemma {:induction false} StageBound(keys: set<Key>, stage: string, n: nat)
    requires StageKeys(keys, stage, n)
    ensures |keys| <= n
    decreases n
  {
    hide Atoi, Canonical;
    if n == 0 {
      assert keys == {};
    } else {
      var last := set k | k in keys && Atoi(k.index) == n;
      forall a, b | a in last && b in last ensures a == b {
        SameNumeral(a.index, b.index);
      }
      AtMostOne(last);
      StageBound(keys - last, stage, n - 1);
      assert |keys| == |keys - last| + |last|;
    }
  }

  lemma SameNumeral(a: Numeral, b: Numeral)
    requires Canonical(a) && Canonical(b) && Atoi(a) == Atoi(b)
    ensures a == b
  {}

  lemma AtMostOne<T>(s: set<T>)
    requires forall a, b :: a in s && b in s ==> a == b
    ensures |s| <= 1
  {
    if s != {} {
      var a :| a in s;
      assert s == {a};
    }
  }

  lemma {:induction false} CompletedBound(keys: set<Key>, totals: map<string, Count>)
    requires forall k :: k in keys ==> Counted(totals, k)
    ensures |keys| <= Sum(totals)
    decreases |totals|
  {
    hide Atoi, Canonical, Sum;
    if totals == map[] {
      assert keys == {};
    } else {
      var stage :| stage in totals;
      var own := set k | k in keys && k.stage == stage;
      StageBound(own, stage, totals[stage]);
      CompletedBound(keys - own, totals - {stage});
      StageSplit(totals, stage);
      assert |keys| == |keys - own| + |own|;
    }
  }

  /** With canonical indexes, completed steps never outnumber the known total. */
  lemma CompletedWithinTotal(log: seq<Line>)
    requires forall line :: line in log ==> Plain(line)
    ensures |ObservedAll(NONE, log).completed| <= Sum(ObservedAll(NONE, log).totals)
  {
    LogKeeps(log);
    CompletedBound(ObservedAll(NONE, log).completed, ObservedAll(NONE, log).totals);
  }

  // ---- Neither number goes back ----

  lemma {:induction false} SumGrows(a: map<string, Count>, b: map<string, Count>)
    requires forall stage :: stage in a ==> stage in b && a[stage] <= b[stage]
    ensures Sum(a) <= Sum(b)
    decreases |a|
  {
    hide Sum;
    EmptySum();
    if a != map[] {
      var stage :| stage in a;
      StageSplit(a, stage);
      StageSplit(b, stage);
      SumGrows(a - {stage}, b - {stage});
    }
  }

  /** On any line, completed steps and the exact total only grow. */
  lemma NeverGoesBack(s: Steps, line: Line)
    ensures s.completed <= Observed(s, line).completed && |s.completed| <= |Observed(s, line).completed|
    ensures Sum(s.totals) <= Sum(Observed(s, line).totals)
  {
    var s' := Observed(s, line);
    assert s'.completed == s.completed + (s'.completed - s.completed);
    assert |s'.completed| == |s.completed| + |s'.completed - s.completed|;
    SumGrows(s.totals, s'.totals);
  }

  /** The reported total is the exact one precisely while that fits an int. */
  lemma ReportedTotalIsExact(n: nat)
    ensures Wrap(n) == n <==> n <= MAX_INT64
  {
    WrapBelow(n);
  }

  lemma {:induction false} WrapBelow(n: nat)
    ensures Wrap(n) <= MAX_INT64 && (n > MAX_INT64 ==> Wrap(n) < n)
  {
    if n > 2 * MAX_INT64 + 1 {
      WrapBelow(n - 2 * MAX_INT64 - 2);
    }
  }

  // ---- Exactly which indexes are safe ----

  /** A step line as it is printed. */
  function StepOfStage(vertex: string, stage: string, index: Numeral, total: Numeral): Line {
    StepLine(vertex, StepText(Some(stage), Numbers(index, total), ""), stage, index, total)
  }

  function OneStep(index: Numeral, total: Numeral): seq<Line> {
    [StepOfStage("#1", "s", index, total), StatusLine("#1")]
  }

  /** Steps 1 to n of a stage with v steps, each completed. */
  function Filled(v: Count, n: nat): seq<Line> {
    if n == 0 then [] else Filled(v, n - 1) + OneStep(Decimal(n), Decimal(v))
  }

  /** The keys those lines complete. */
  function FilledKeys(n: nat): set<Key> {
    if n == 0 then {} else FilledKeys(n - 1) + {Key("s", Decimal(n))}
  }

  lemma {:induction false} FilledKeysAre(n: Count)
    ensures forall k :: k in FilledKeys(n) ==> Canonical(k.index) && Value(k.index) <= n
    ensures |FilledKeys(n)| == n
  {
    if n > 0 {
      hide Decimal, Value;
      FilledKeysAre(n - 1);
      assert Value(Decimal(n)) == n && Canonical(Decimal(n));
      assert Key("s", Decimal(n)) !in FilledKeys(n - 1);
    }
  }

  lemma OneStepObserved(log: seq<Line>, index: Numeral, total: Numeral)
    requires 0 < Atoi(index) <= Atoi(total)
    requires ObservedAll(NONE, log).totals == map[] || ObservedAll(NONE, log).totals == map["s" := Atoi(total)]
    ensures var s, s' := ObservedAll(NONE, log), ObservedAll(NONE, log + OneStep(index, total));
            s'.totals == map["s" := Atoi(total)] && s'.completed == s.completed + {Key("s", index)}
  {
    hide Atoi;
    var step, done := OneStep(index, total)[0], OneStep(index, total)[1];
    var s := ObservedAll(NONE, log);
    assert (log + [step])[..|log|] == log;
    assert log + OneStep(index, total) == (log + [step]) + [done];
    assert (log + [step] + [done])[..|log| + 1] == log + [step];
    assert ObservedAll(NONE, log + [step]) == Observed(s, step);
    assert ObservedAll(NONE, log + OneStep(index, total)) == Observed(Observed(s, step), done);
  }

  lemma {:induction false} FilledObserved(v: Count, n: nat)
    requires n <= v
    ensures var s := ObservedAll(NONE, Filled(v, n));
            && s.totals == (if n == 0 then map[] else map["s" := v])
            && s.completed == FilledKeys(n)
    decreases n
  {
    if n > 0 {
      hide Decimal, ObservedAll;
      FilledObserved(v, n - 1);
      assert Atoi(Decimal(v)) == v && Atoi(Decimal(n)) == n;
      OneStepObserved(Filled(v, n - 1), Decimal(n), Decimal(v));
    }
  }

  lemma OneIsPrintable(index: Numeral, total: Numeral)
    ensures forall line :: line in OneStep(index, total) ==> Printable(line)
  {
    assert Digits("1");
    assert "#1"[1..] == "1";
  }

  lemma FilledIsPlain(v: Count, n: nat)
    requires n <= v
    ensures forall line :: line in Filled(v, n) ==> Plain(line) && Printable(line)
    decreases n
  {
    if n > 0 {
      hide Printable, Decimal, Canonical;
      FilledIsPlain(v, n - 1);
      DecimalIsCanonical(n);
      OneIsPrintable(Decimal(n), Decimal(v));
    }
  }

  lemma DecimalIsCanonical(n: Count)
    ensures Canonical(Decimal(n))
  {}

  /** Lines that are plain except that they may use one given index. */
  predicate PlainBut(line: Line, index: Numeral) {
    Plain(line) || (line.StepLine? && line.index == index)
  }

  ghost predicate Overcounts(log: seq<string>) {
    var s := ObservedAll(NONE, Lines(log));
    |s.completed| > Sum(s.totals)
  }

  /** A padded or oversized index lets the count pass the total. */
  lemma PaddedIndexOvercounts(index: Numeral) returns (log: seq<string>)
    requires !Canonical(index) && Atoi(index) > 0
    ensures forall line :: line in Lines(log) ==> PlainBut(line, index)
    ensures Overcounts(log)
  {
    hide Canonical, ObservedAll, Sum, Filled, FilledKeys, Value, Decimal, Printable;
    var v := Atoi(index);
    var lines := Filled(v, v) + OneStep(index, Decimal(v));
    FilledObserved(v, v);
    FilledKeysAre(v);
    FilledIsPlain(v, v);
    assert Atoi(Decimal(v)) == v;
    OneStepObserved(Filled(v, v), index, Decimal(v));
    assert Key("s", index) !in FilledKeys(v);
    OneStage(v);
    OneIsPrintable(index, Decimal(v));
    log := PrintAll(lines);
    LogIsRead(lines);
  }

  lemma OneStage(v: Count)
    ensures Sum(map["s" := v]) == v
  {
    StageSplit(map["s" := v], "s");
    assert map["s" := v] - {"s"} == map[];
    EmptySum();
  }

  /**
   Whether an index text may appear in logs without letting completed pass total in any of them: exactly
   when it is written canonically, or is zero and so ignored.
   */
  lemma SafeExactlyWhenCanonical(index: Numeral)
    ensures (forall log: seq<string> :: (forall line :: line in Lines(log) ==> PlainBut(line, index)) ==>
               !Overcounts(log))
            <==> Canonical(index) || Atoi(index) == 0
  {
    hide Canonical, Atoi, ObservedAll, Sum, Lines;
    if Canonical(index) || Atoi(index) == 0 {
      forall log: seq<string> | forall line :: line in Lines(log) ==> PlainBut(line, index)
        ensures !Overcounts(log)
      {
        CompletedWithinTotal(Lines(log));
      }
    } else {
      var log := PaddedIndexOvercounts(index);
    }
  }

  // ---- Reported totals and key texts ----

  /** Two stages that each claim the same number of steps. */
  function TwoStages(total: Numeral): seq<Line> {
    [StepOfStage("#1", "a", "1", total), StepOfStage("#2", "b", "1", total)]
  }

  lemma TwoArePrintable(total: Numeral)
    ensures forall line :: line in TwoStages(total) ==> Printable(line)
  {
    assert Digits("1") && Digits("2");
    assert "#1"[1..] == "1" && "#2"[1..] == "2";
  }

  lemma TwoStagesObserved(total: Numeral)
    requires Atoi(total) > 0
    ensures var s := ObservedAll(NONE, TwoStages(total));
            s.completed == {} && s.totals == map["a" := Atoi(total), "b" := Atoi(total)]
  {
    var lines := TwoStages(total);
    assert Value("1") == 1 by {
      assert "1"[..0] == "" && Value("") == 0;
    }
    hide Value, StepText;
    assert lines[..1] == [lines[0]] && [lines[0]][..0] == [];
    assert ObservedAll(NONE, []) == NONE;
    assert ObservedAll(NONE, [lines[0]]).totals == map["a" := Atoi(total)];
  }

  lemma SumOfTwo(v: Count)
    ensures Sum(map["a" := v, "b" := v]) == 2 * v
  {
    hide Sum;
    var both: map<string, Count> := map["a" := v, "b" := v];
    StageSplit(both, "a");
    assert both - {"a"} == map["b" := v];
    StageSplit(map["b" := v], "b");
    assert map["b" := v] - {"b"} == map[];
    EmptySum();
  }

  /** Two stages that each claim the largest int: the reported total drops to -2, below zero completed steps. */
  lemma ReportedTotalCanWrap() returns (log: seq<string>)
    ensures var s := ObservedAll(NONE, Lines(log));
            |log| == 2 && s.completed == {} && Sum(s.totals) == 2 * MAX_INT64 && Wrap(Sum(s.totals)) == -2
  {
    hide Decimal, Printable, TwoStages, ObservedAll, Sum, Lines;
    var total := Decimal(MAX_INT64);
    assert Atoi(total) == MAX_INT64;
    TwoArePrintable(total);
    LogIsRead(TwoStages(total));
    TwoStagesObserved(total);
    SumOfTwo(MAX_INT64);
    log := PrintAll(TwoStages(total));
    assert |TwoStages(total)| == 2 by {
      TwoLines(total);
    }
  }

  lemma TwoLines(total: Numeral)
    ensures |TwoStages(total)| == 2
  {}

  function KeyText(key: Key): string {
    key.stage + " " + key.index
  }

  /** Stage names match a run of non-space characters, so the text of a key determines it. */
  lemma KeyTextInjective(a: Key, b: Key)
    requires ' ' !in a.stage && ' ' !in b.stage && KeyText(a) == KeyText(b)
    ensures a == b
  {
    var n := |a.stage|;
    assert KeyText(a)[n] == ' ' && KeyText(b)[|b.stage|] == ' ';
    assert a.stage == KeyText(a)[..n] && b.stage == KeyText(b)[..n];
    assert a.index == KeyText(a)[n + 1..] && b.index == KeyText(b)[n + 1..];
  }
}
