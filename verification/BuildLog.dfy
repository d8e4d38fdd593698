/** What a step counter knows after a log, told from the log itself. */
module BuildLog {
  import opened Wrappers
  import opened Numerals
  import opened BuildLines
  import opened BuildSteps

  /** Line i announces step 1 to total of a stage, where numbers past the largest int count as that. */
  predicate Announces(log: seq<Line>, i: int) {
    && 0 <= i < |log| && log[i].StepLine?
    && Value(log[i].index) >= 1
    && (Value(log[i].index) <= Value(log[i].total) || Value(log[i].total) >= 0x7FFF_FFFF_FFFF_FFFF)
  }

  /** And no earlier line did so for its vertex. */
  ghost predicate Starts(log: seq<Line>, i: int) {
    && Announces(log, i)
    && forall j :: 0 <= j < i && Announces(log, j) ==> log[j].vertex != log[i].vertex
  }

  /** Line i is the latest before line n that announces a step for the vertex. */
  ghost predicate LastFor(log: seq<Line>, n: int, vertex: string, i: int) {
    && 0 <= i < n && Announces(log, i) && log[i].vertex == vertex
    && forall j :: i < j < n && Announces(log, j) ==> log[j].vertex != vertex
  }

  /** A status line of a vertex whose step was then this one. */
  ghost predicate Done(log: seq<Line>, stage: string, index: Numeral) {
    exists i, n :: 0 <= n < |log| && log[n].StatusLine? && LastFor(log, n, log[n].vertex, i)
                   && log[i].stage == stage && log[i].index == index
  }

  /** Line i starts a step that no status line completes. */
  ghost predicate Open(log: seq<Line>, i: int) {
    Starts(log, i) && !Done(log, log[i].stage, log[i].index)
  }

  lemma AcceptedExactly(log: seq<Line>, i: nat)
    requires i < |log|
    ensures Accepted(log[i]) <==> Announces(log, i)
  {}

  lemma AnnouncesBefore(log: seq<Line>, n: nat)
    requires n <= |log|
    ensures forall i :: 0 <= i < n ==> (Announces(log[..n], i) <==> Announces(log, i))
    ensures forall i :: 0 <= i < n ==> (Starts(log[..n], i) <==> Starts(log, i))
    ensures forall m, vertex, i :: m <= n ==> (LastFor(log[..n], m, vertex, i) <==> LastFor(log, m, vertex, i))
  {
    assert forall i :: 0 <= i < n ==> log[..n][i] == log[i];
    assert forall i :: 0 <= i < n ==> (Announces(log[..n], i) <==> Announces(log, i));
    hide Announces;
    forall i | 0 <= i < n
      ensures Starts(log[..n], i) <==> Starts(log, i)
    {
      assert forall j :: 0 <= j < i ==> (Announces(log[..n], j) <==> Announces(log, j));
    }
    forall m, vertex, i | m <= n
      ensures LastFor(log[..n], m, vertex, i) <==> LastFor(log, m, vertex, i)
    {}
  }

  /** The step a vertex is on is that of its latest step line. */
  lemma {:induction false} VerticesAre(log: seq<Line>, vertex: string) returns (i: int)
    ensures var vertices := ObservedAll(NONE, log).vertices;
            if i < 0 then vertex !in vertices && (forall j :: Announces(log, j) ==> log[j].vertex != vertex)
            else LastFor(log, |log|, vertex, i) && vertex in vertices
                 && vertices[vertex] == Key(log[i].stage, log[i].index)
    decreases |log|
  {
    hide Atoi;
    i := -1;
    if log != [] {
      var n := |log| - 1;
      i := VerticesAre(log[..n], vertex);
      AnnouncesBefore(log, n);
      AcceptedExactly(log, n);
      hide Announces;
      if Accepted(log[n]) && log[n].vertex == vertex {
        i := n;
      }
    }
  }

  /** One more line completes a step exactly when it is a status line of the vertex on that step. */
  lemma DoneGrows(log: seq<Line>, n: nat, stage: string, index: Numeral)
    requires |log| == n + 1
    ensures Done(log, stage, index)
       <==> Done(log[..n], stage, index)
            || exists i :: log[n].StatusLine? && LastFor(log, n, log[n].vertex, i)
                           && log[i].stage == stage && log[i].index == index
  {
    hide LastFor;
    LastForBelow(log);
    AnnouncesBefore(log, n);
    assert forall i :: 0 <= i < n ==> log[..n][i] == log[i];
    if Done(log[..n], stage, index) {
      var i, m :| 0 <= m < n && log[..n][m].StatusLine? && LastFor(log[..n], m, log[..n][m].vertex, i)
                  && log[..n][i].stage == stage && log[..n][i].index == index;
      assert LastFor(log, m, log[m].vertex, i);
    }
    if Done(log, stage, index) {
      var i, m :| 0 <= m <= n && log[m].StatusLine? && LastFor(log, m, log[m].vertex, i)
                  && log[i].stage == stage && log[i].index == index;
      if m < n {
        assert LastFor(log[..n], m, log[..n][m].vertex, i);
      }
    }
  }

  lemma LastForBelow(log: seq<Line>)
    ensures forall n, vertex, i :: n <= |log| && LastFor(log, n, vertex, i) ==> 0 <= i < n && log[i].StepLine?
  {}

  lemma LastForOnce(log: seq<Line>, n: int, vertex: string, i: int, j: int)
    requires LastFor(log, n, vertex, i) && LastFor(log, n, vertex, j)
    ensures i == j
  {
    hide Announces;
  }

  /** The completed steps are exactly those a status line completes. */
  lemma {:induction false} CompletedAre(log: seq<Line>, stage: string, index: Numeral)
    ensures Key(stage, index) in ObservedAll(NONE, log).completed <==> Done(log, stage, index)
    decreases |log|
  {
    if log != [] {
      var n := |log| - 1;
      CompletedAre(log[..n], stage, index);
      DoneGrows(log, n, stage, index);
      hide Done;
      if log[n].StatusLine? {
        var i := VerticesAre(log[..n], log[n].vertex);
        AnnouncesBefore(log, n);
        forall j | LastFor(log, n, log[n].vertex, j)
          ensures j == i
        {
          if i >= 0 {
            LastForOnce(log, n, log[n].vertex, i, j);
          } else {
            assert Announces(log[..n], j);
          }
        }
      }
    }
  }

  /** A line's total, where a number past the largest int counts as that. */
  ghost predicate HasTotal(log: seq<Line>, i: int, stage: string, n: nat) {
    && Announces(log, i) && log[i].stage == stage
    && n == if Value(log[i].total) > 0x7FFF_FFFF_FFFF_FFFF then 0x7FFF_FFFF_FFFF_FFFF else Value(log[i].total)
  }

  /** A stage's total is the largest that was announced for it. */
  lemma {:induction false} TotalsAre(log: seq<Line>, stage: string)
    ensures var totals := ObservedAll(NONE, log).totals;
            && (forall i, n :: HasTotal(log, i, stage, n) ==> stage in totals && n <= totals[stage])
            && (stage in totals ==> exists i :: HasTotal(log, i, stage, totals[stage]))
    decreases |log|
  {
    if log != [] {
      var n := |log| - 1;
      TotalsAre(log[..n], stage);
      AnnouncesBefore(log, n);
      AcceptedExactly(log, n);
      hide Announces;
      assert forall i, m :: 0 <= i < n ==> (HasTotal(log[..n], i, stage, m) <==> HasTotal(log, i, stage, m));
      var totals := ObservedAll(NONE, log).totals;
      if Accepted(log[n]) && log[n].stage == stage && totals[stage] == Atoi(log[n].total) {
        assert HasTotal(log, n, stage, totals[stage]);
      }
    }
  }

  /** The started steps are exactly the first announced step of each vertex, in the order of the log. */
  lemma {:induction false} StartedAre(log: seq<Line>) returns (at: seq<nat>)
    ensures var started := ObservedAll(NONE, log).started;
            && |started| == |at|
            && (forall k :: 0 <= k < |at| ==> Starts(log, at[k]))
            && (forall k :: 0 <= k < |at| ==>
                  started[k] == Started(Key(log[at[k]].stage, log[at[k]].index), log[at[k]].instruction))
            && (forall k, l :: 0 <= k < l < |at| ==> at[k] < at[l])
            && (forall i :: Starts(log, i) ==> i in at)
    decreases |log|
  {
    at := [];
    if log != [] {
      var n := |log| - 1;
      at := StartedAre(log[..n]);
      AnnouncesBefore(log, n);
      AcceptedExactly(log, n);
      hide Announces;
      if Accepted(log[n]) {
        var i := VerticesAre(log[..n], log[n].vertex);
        if i < 0 {
          at := at + [n];
        }
      }
    }
  }

  lemma StartsInside(log: seq<Line>)
    ensures forall i :: Starts(log, i) ==> 0 <= i < |log| && log[i].StepLine?
  {}

  /** The started steps that are not completed are the open ones. */
  lemma OpenAre(log: seq<Line>) returns (at: seq<nat>)
    ensures var s := ObservedAll(NONE, log);
            && |s.started| == |at|
            && (forall k, l :: 0 <= k < l < |at| ==> at[k] < at[l])
            && (forall k :: 0 <= k < |at| ==> at[k] < |log| && log[at[k]].StepLine?)
            && (forall k :: 0 <= k < |at| ==> s.started[k].instruction == log[at[k]].instruction)
            && (forall k :: 0 <= k < |at| ==> (s.started[k].key !in s.completed <==> Open(log, at[k])))
            && (forall i :: Starts(log, i) ==> i in at)
            && (forall k :: 0 <= k < |at| ==> Starts(log, at[k]))
  {
    hide Announces, Done, ObservedAll;
    at := StartedAre(log);
    StartsInside(log);
    var s := ObservedAll(NONE, log);
    forall k | 0 <= k < |at|
      ensures s.started[k].key in s.completed <==> !Open(log, at[k])
    {
      CompletedAre(log, log[at[k]].stage, log[at[k]].index);
    }
  }

  lemma CurrentIsOpen(log: seq<Line>, i: nat)
    requires Open(log, i) && forall j :: i < j < |log| ==> !Open(log, j)
    ensures log[i].StepLine? && Current(ObservedAll(NONE, log)) == log[i].instruction
  {
    hide Starts, Done, ObservedAll;
    var at := OpenAre(log);
    var k :| 0 <= k < |at| && at[k] == i;
    assert Open(log, at[k]);
    hide Open;
  }

  lemma CurrentIsLatest(log: seq<Line>, i: nat)
    requires Starts(log, i) && (forall j :: i < j < |log| ==> !Starts(log, j)) && forall j :: !Open(log, j)
    ensures log[i].StepLine? && Current(ObservedAll(NONE, log)) == log[i].instruction
  {
    hide Starts, Open, ObservedAll;
    var at := OpenAre(log);
    var k :| 0 <= k < |at| && at[k] == i;
    assert Starts(log, at[|at| - 1]);
  }

  /** The instruction reported after a log: of the latest open step, else of the latest one, if there is any. */
  lemma CurrentIs(log: seq<Line>)
    ensures forall i :: Open(log, i) && (forall j :: i < j < |log| ==> !Open(log, j))
              ==> Current(ObservedAll(NONE, log)) == log[i].instruction
    ensures forall i :: Starts(log, i) && (forall j :: i < j < |log| ==> !Starts(log, j)) && (forall j :: !Open(log, j))
              ==> Current(ObservedAll(NONE, log)) == log[i].instruction
    ensures (forall j :: !Starts(log, j)) ==> Current(ObservedAll(NONE, log)) == ""
  {
    StartsInside(log);
    hide Announces, Done, ObservedAll, Current;
    forall i | Open(log, i) && (forall j :: i < j < |log| ==> !Open(log, j))
      ensures Current(ObservedAll(NONE, log)) == log[i].instruction
    {
      CurrentIsOpen(log, i);
    }
    hide Open;
    forall i | Starts(log, i) && (forall j :: i < j < |log| ==> !Starts(log, j)) && (forall j :: !Open(log, j))
      ensures Current(ObservedAll(NONE, log)) == log[i].instruction
    {
      CurrentIsLatest(log, i);
    }
    if forall j :: !Starts(log, j) {
      NothingStarted(log);
    }
  }

  lemma NothingStarted(log: seq<Line>)
    requires forall j :: !Starts(log, j)
    ensures Current(ObservedAll(NONE, log)) == ""
  {
    hide Starts, ObservedAll, Open;
    var at := OpenAre(log);
    assert forall k :: 0 <= k < |at| ==> Starts(log, at[k]);
  }
}
