/** A capture and a purge, each left alone: internal/api/project_revisions_handlers.go,
    captureRevision, and internal/api/retention.go, runRetention. */
module RevisionFlows {
  import opened Revisions
  import opened RevisionRaces

  lemma {:induction false} RunConcat(s: State, ops: seq<Op>, more: seq<Op>)
    requires Positive(s.rows)
    ensures Run(s, ops + more) == Run(Run(s, ops), more)
  {
    hide Step;
    if more == [] {
      assert ops + more == ops;
    } else {
      var n := |more| - 1;
      RunConcat(s, ops, more[..n]);
      assert (ops + more)[..|ops + more| - 1] == ops + more[..n];
    }
  }

  lemma RunOne(s: State, op: Op)
    requires Positive(s.rows)
    ensures Run(s, [op]) == Step(s, op)
  {
    hide Step;
    assert [op][..0] == [];
  }

  lemma RunFirst(s: State, op: Op, more: seq<Op>)
    requires Positive(s.rows)
    ensures Positive(Step(s, op).rows)
    ensures Run(s, [op] + more) == Run(Step(s, op), more)
  {
    hide Step;
    StepIsPositive(s, op);
    RunOne(s, op);
    RunConcat(s, [op], more);
  }

  /** A capture left alone takes the next number, publishes its file and marks its row. */
  lemma CaptureRuns(s: State, c: int)
    requires Positive(s.rows) && c !in s.caps
    ensures var n := Top(s.rows.Keys) + 1;
            Run(s, [Create(c)] + ([Publish(c)] + [MarkValid(c)]))
            == s.(rows := s.rows[n := true], files := s.files + {n})
  {
    hide Run, Top;
    RunFirst(s, Create(c), [Publish(c)] + [MarkValid(c)]);
    var s1 := Step(s, Create(c));
    RunFirst(s1, Publish(c), [MarkValid(c)]);
    RunOne(Step(s1, Publish(c)), MarkValid(c));
    assert Step(s1, Publish(c)).caps - {c} == s.caps;
  }

  // ----- a purge -----

  lemma {:induction false} DeletesRun(s: State, todo: set<int>) returns (ops: seq<Op>)
    requires Positive(s.rows) && s.phase.Trimming? && todo <= s.phase.ids
    ensures Run(s, ops) == s.(rows := s.rows - todo, phase := Trimming(s.phase.ids, s.phase.gone + todo))
    decreases |todo|
  {
    hide Run;
    if todo == {} {
      ops := [];
      RunNothing(s);
      assert s.rows - todo == s.rows;
    } else {
      var n := HasMin(todo);
      var s1 := Step(s, DeleteRow(n));
      StepIsPositive(s, DeleteRow(n));
      assert |todo - {n}| < |todo|;
      var more := DeletesRun(s1, todo - {n});
      RunFirst(s, DeleteRow(n), more);
      ops := [DeleteRow(n)] + more;
      assert (s.rows - {n}) - (todo - {n}) == s.rows - todo;
      assert (s.phase.gone + {n}) + (todo - {n}) == s.phase.gone + todo;
    }
  }

  lemma RunNothing(s: State)
    requires Positive(s.rows)
    ensures Run(s, []) == s
  {
  }

  lemma {:induction false} RemovalsRun(s: State, todo: set<int>) returns (ops: seq<Op>)
    requires Positive(s.rows) && s.phase.Removing? && todo <= s.phase.todo
    ensures Run(s, ops) == s.(files := s.files - todo)
    decreases |todo|
  {
    hide Run;
    if todo == {} {
      ops := [];
      RunNothing(s);
      assert s.files - todo == s.files;
    } else {
      var n := HasMin(todo);
      var s1 := Step(s, RemoveFile(n));
      assert |todo - {n}| < |todo|;
      var more := RemovalsRun(s1, todo - {n});
      RunFirst(s, RemoveFile(n), more);
      ops := [RemoveFile(n)] + more;
      assert (s.files - {n}) - (todo - {n}) == s.files - todo;
    }
  }

  lemma {:induction false} SweepsRun(s: State, todo: set<int>) returns (ops: seq<Op>)
    requires Positive(s.rows) && s.phase.Sweeping? && todo <= s.phase.doomed
    ensures Run(s, ops) == s.(files := s.files - todo)
    decreases |todo|
  {
    hide Run;
    if todo == {} {
      ops := [];
      RunNothing(s);
      assert s.files - todo == s.files;
    } else {
      var n := HasMin(todo);
      var s1 := Step(s, SweepFile(n));
      assert |todo - {n}| < |todo|;
      var more := SweepsRun(s1, todo - {n});
      RunFirst(s, SweepFile(n), more);
      ops := [SweepFile(n)] + more;
      assert (s.files - {n}) - (todo - {n}) == s.files - todo;
    }
  }

  /** The trim and the removal of the files of the rows it deleted. */
  lemma TrimRuns(s: State, keep: int) returns (ops: seq<Op>)
    requires Positive(s.rows) && s.phase.Idle? && keep > 0
    ensures var old' := Old(s.rows.Keys, keep);
            Run(s, ops) == s.(rows := s.rows - old', files := s.files - old', phase := Removing(old'))
  {
    hide Run, Old;
    var old' := Old(s.rows.Keys, keep);
    var s1 := Step(s, Select(keep));
    var deletes := DeletesRun(s1, old');
    var s2 := Run(s1, deletes);
    assert {} + old' == old';
    var s3 := Step(s2, EndTrim);
    var removals := RemovalsRun(s3, old');
    RunFirst(s2, EndTrim, removals);
    RunConcat(s1, deletes, [EndTrim] + removals);
    RunFirst(s, Select(keep), deletes + ([EndTrim] + removals));
    ops := [Select(keep)] + (deletes + ([EndTrim] + removals));
  }

  /** A purge left alone, every removal working, leaves the newest rows and, of the files,
      exactly those that have one. */
  lemma PurgeRuns(s: State, keep: int) returns (ops: seq<Op>)
    requires Positive(s.rows) && s.phase.Idle? && keep > 0
    ensures var rows := s.rows - Old(s.rows.Keys, keep);
            Run(s, ops) == s.(rows := rows, files := set n | n in s.files && n in rows)
  {
    hide Run, Old;
    var trim := TrimRuns(s, keep);
    var s1 := Run(s, trim);
    var s2 := Step(s1, ReadRows);
    var s3 := Step(s2, ListFiles);
    var sweeps := SweepsRun(s3, s3.phase.doomed);
    var s4 := Run(s3, sweeps);
    RunOne(s4, Stop);
    RunConcat(s3, sweeps, [Stop]);
    RunFirst(s2, ListFiles, sweeps + [Stop]);
    RunFirst(s1, ReadRows, [ListFiles] + (sweeps + [Stop]));
    RunConcat(s, trim, [ReadRows] + ([ListFiles] + (sweeps + [Stop])));
    ops := trim + ([ReadRows] + ([ListFiles] + (sweeps + [Stop])));
    assert s4.files == set n | n in s.files && n in s1.rows;
  }
}
