/** Captures and the purge step by step, interleaved. A capture writes its row, publishes
    its file and marks the row valid; the purge selects and deletes old rows, removes their
    files, then reads the rows and lists the files to find those without a row.
    internal/api/project_revisions_handlers.go and internal/api/retention.go. */
module RevisionRaces {
  import opened Revisions

  /** A capture between its steps: the row of its number is written, or the file too. */
  datatype Cap = Created(n: int) | Published(n: int)

  /** Where the purge is. The code reads the rows first (HaveRows); HaveFiles is the other
      order. */
  datatype Phase =
    | Idle
    | Trimming(ids: set<int>, gone: set<int>)
    | Removing(todo: set<int>)
    | HaveRows(live: set<int>)
    | HaveFiles(listed: set<int>)
    | Sweeping(doomed: set<int>)

  datatype State = State(rows: Rows, files: set<int>, caps: map<int, Cap>, phase: Phase)

  datatype Op =
    | Create(c: int) | Publish(c: int) | Fail(c: int) | MarkValid(c: int)
    | Select(keep: int) | DeleteRow(n: int) | EndTrim | RemoveFile(n: int)
    | ReadRows | ListFiles | SweepFile(n: int) | Stop

  function CaptureStep(s: State, op: Op): State
    requires Positive(s.rows)
  {
    match op
    case Create(c) =>
      if c in s.caps then s
      else
        var n := Top(s.rows.Keys) + 1;
        s.(rows := s.rows[n := false], caps := s.caps[c := Created(n)])
    case Publish(c) =>
      if c !in s.caps || !s.caps[c].Created? then s
      else s.(files := s.files + {s.caps[c].n}, caps := s.caps[c := Published(s.caps[c].n)])
    case Fail(c) => s.(caps := s.caps - {c})
    case MarkValid(c) =>
      if c !in s.caps || !s.caps[c].Published? then s
      else
        var n := s.caps[c].n;
        s.(rows := if n in s.rows then s.rows[n := true] else s.rows, caps := s.caps - {c})
    case _ => s
  }

  function PurgeStep(s: State, op: Op): State {
    match op
    case Select(keep) =>
      if !s.phase.Idle? then s
      else s.(phase := Trimming(if keep <= 0 then {} else Old(s.rows.Keys, keep), {}))
    case DeleteRow(n) =>
      if !s.phase.Trimming? || n !in s.phase.ids then s
      else s.(rows := s.rows - {n}, phase := Trimming(s.phase.ids, s.phase.gone + {n}))
    case EndTrim => if !s.phase.Trimming? then s else s.(phase := Removing(s.phase.gone))
    case RemoveFile(n) => if !s.phase.Removing? || n !in s.phase.todo then s else s.(files := s.files - {n})
    case ReadRows =>
      if s.phase.Removing? || s.phase.HaveRows? then s.(phase := HaveRows(s.rows.Keys))
      else if s.phase.HaveFiles? then s.(phase := Sweeping(s.phase.listed - s.rows.Keys))
      else s
    case ListFiles =>
      if s.phase.HaveRows? then s.(phase := Sweeping(s.files - s.phase.live))
      else if s.phase.Removing? then s.(phase := HaveFiles(s.files))
      else s
    case SweepFile(n) => if !s.phase.Sweeping? || n !in s.phase.doomed then s else s.(files := s.files - {n})
    case Stop => s.(phase := Idle)
    case _ => s
  }

  predicate Captures(op: Op) {
    op.Create? || op.Publish? || op.Fail? || op.MarkValid?
  }

  function Step(s: State, op: Op): State
    requires Positive(s.rows)
  {
    if Captures(op) then CaptureStep(s, op) else PurgeStep(s, op)
  }

  lemma StepIsPositive(s: State, op: Op)
    requires Positive(s.rows)
    ensures Positive(Step(s, op).rows)
  {
  }

  function Run(s: State, ops: seq<Op>): (r: State)
    requires Positive(s.rows)
    ensures Positive(r.rows)
  {
    if ops == [] then s
    else
      var before := Run(s, ops[..|ops| - 1]);
      StepIsPositive(before, ops[|ops| - 1]);
      Step(before, ops[|ops| - 1])
  }

  // ----- what every run keeps, in either order -----

  /** A number that will never have a row again: it has none, and numbering is past it. */
  ghost predicate Dead(rows: Rows, n: int)
    requires Positive(rows)
  {
    n !in rows && n <= Top(rows.Keys)
  }

  ghost predicate Numbering(s: State)
    requires Positive(s.rows)
  {
    && (forall n :: n in s.files ==> 0 < n <= Top(s.rows.Keys))
    && (forall c :: c in s.caps ==> 0 < s.caps[c].n <= Top(s.rows.Keys))
    && (s.phase.Trimming? ==> forall n :: n in s.phase.ids ==> n < Top(s.rows.Keys))
    && (s.phase.HaveRows? ==>
          && (forall n :: n in s.phase.live ==> n > 0)
          && Top(s.phase.live) <= Top(s.rows.Keys)
          && (forall n :: n <= Top(s.phase.live) ==> (n in s.rows <==> n in s.phase.live))
          && (forall n :: Top(s.phase.live) < n <= Top(s.rows.Keys) ==> n in s.rows))
    && (s.phase.HaveFiles? ==> forall n :: n in s.phase.listed ==> n <= Top(s.rows.Keys))
  }

  /** A row that is marked, or about to be, has its file; what the purge will remove has no
      row and never gets one. */
  ghost predicate Safe(s: State)
    requires Positive(s.rows)
  {
    && ValidHasFile(s.rows, s.files)
    && (forall c :: c in s.caps && s.caps[c].Published? && s.caps[c].n in s.rows ==> s.caps[c].n in s.files)
    && (s.phase.Trimming? ==> forall n :: n in s.phase.gone ==> Dead(s.rows, n))
    && (s.phase.Removing? ==> forall n :: n in s.phase.todo ==> Dead(s.rows, n))
    && (s.phase.Sweeping? ==> forall n :: n in s.phase.doomed ==> Dead(s.rows, n))
  }

  ghost predicate Init(s: State) {
    && Positive(s.rows) && ValidHasFile(s.rows, s.files)
    && (forall n :: n in s.files ==> 0 < n <= Top(s.rows.Keys))
    && s.caps == map[] && s.phase == Idle
  }

  lemma TopAfterCreate(rows: Rows)
    requires Positive(rows)
    ensures Positive(rows[Top(rows.Keys) + 1 := false])
    ensures Top(rows[Top(rows.Keys) + 1 := false].Keys) == Top(rows.Keys) + 1
  {
    TopIs(rows[Top(rows.Keys) + 1 := false].Keys, Top(rows.Keys) + 1);
  }

  lemma TopAfterDelete(rows: Rows, n: int)
    requires Positive(rows) && n < Top(rows.Keys)
    ensures Positive(rows - {n}) && Top((rows - {n}).Keys) == Top(rows.Keys)
  {
    TopIs((rows - {n}).Keys, Top(rows.Keys));
  }

  lemma CaptureKeeps(s: State, op: Op)
    requires Positive(s.rows) && Numbering(s) && Captures(op)
    ensures var s' := CaptureStep(s, op); Positive(s'.rows) && Numbering(s') && (Safe(s) ==> Safe(s'))
  {
    hide Top;
    TopAfterCreate(s.rows);
    if op.MarkValid? && op.c in s.caps {
      var n := s.caps[op.c].n;
      if n in s.rows { assert s.rows[n := true].Keys == s.rows.Keys; }
    }
  }

  lemma TrimKeeps(s: State, op: Op)
    requires Positive(s.rows) && Numbering(s) && (op.Select? || op.DeleteRow? || op.EndTrim?)
    ensures var s' := PurgeStep(s, op); Positive(s'.rows) && Numbering(s') && (Safe(s) ==> Safe(s'))
  {
    hide Top, Old;
    if op.Select? && op.keep > 0 {
      OldIsBelowTop(s.rows.Keys, op.keep);
    } else if op.DeleteRow? && s.phase.Trimming? && op.n in s.phase.ids {
      TopAfterDelete(s.rows, op.n);
    }
  }

  lemma OldIsBelowTop(rows: set<int>, keep: int)
    requires keep > 0 && forall n :: n in rows ==> n > 0
    ensures forall n :: n in Old(rows, keep) ==> n < Top(rows)
  {
    if rows != {} { TopIsKept(rows, keep); }
  }

  /** Reading the rows, listing the files and removing them. A list made from rows read
      earlier is the one step that needs the rows not to have changed. */
  lemma SweepKeeps(s: State, op: Op)
    requires Positive(s.rows) && Numbering(s)
    requires op.RemoveFile? || op.ReadRows? || op.ListFiles? || op.SweepFile? || op.Stop?
    ensures var s' := PurgeStep(s, op);
            && s'.rows == s.rows && Numbering(s')
            && (Safe(s) && (op.ListFiles? && s.phase.HaveRows? ==> s.phase.live == s.rows.Keys) ==> Safe(s'))
  {
    hide Top;
    if op.ReadRows? { TopIs(s.rows.Keys, Top(s.rows.Keys)); }
  }

  lemma StepKeeps(s: State, op: Op)
    requires Positive(s.rows) && Numbering(s)
    ensures var s' := Step(s, op);
            && Positive(s'.rows) && Numbering(s')
            && (Safe(s) && (op.ListFiles? && s.phase.HaveRows? ==> s.phase.live == s.rows.Keys) ==> Safe(s'))
  {
    hide Numbering, Safe;
    if Captures(op) {
      CaptureKeeps(s, op);
    } else if op.Select? || op.DeleteRow? || op.EndTrim? {
      TrimKeeps(s, op);
    } else {
      SweepKeeps(s, op);
    }
  }

  lemma InitKeeps(s: State)
    requires Init(s)
    ensures Numbering(s) && Safe(s)
  {
  }

  lemma {:induction false} RunNumbering(s: State, ops: seq<Op>)
    requires Init(s)
    ensures Numbering(Run(s, ops))
  {
    hide Numbering, Safe, Step, Init;
    InitIsPositive(s);
    if ops == [] {
      InitKeeps(s);
    } else {
      RunNumbering(s, ops[..|ops| - 1]);
      StepKeeps(Run(s, ops[..|ops| - 1]), ops[|ops| - 1]);
    }
  }

  lemma InitIsPositive(s: State)
    requires Init(s)
    ensures Positive(s.rows)
  {
  }

  // ----- the main results -----

  /** Whenever files are listed after the rows were read, nothing ran in between. Runs that
      list first satisfy this as they stand. */
  ghost predicate Adjacent(s: State, ops: seq<Op>)
    requires Positive(s.rows)
  {
    forall i :: 0 <= i < |ops| && ops[i].ListFiles? && Run(s, ops[..i]).phase.HaveRows? ==>
      i > 0 && ops[i - 1].ReadRows?
  }

  lemma AdjacentPrefix(s: State, ops: seq<Op>, n: nat)
    requires Positive(s.rows) && Adjacent(s, ops) && n <= |ops|
    ensures Adjacent(s, ops[..n])
  {
    hide Run;
    forall i | 0 <= i < n && ops[..n][i].ListFiles? && Run(s, ops[..n][..i]).phase.HaveRows?
      ensures i > 0 && ops[..n][i - 1].ReadRows?
    {
      assert ops[..n][..i] == ops[..i];
    }
  }

  lemma {:induction false} RunSafe(s: State, ops: seq<Op>)
    requires Init(s) && Positive(s.rows) && Adjacent(s, ops)
    ensures Safe(Run(s, ops))
    ensures ops != [] && ops[|ops| - 1].ReadRows? && Run(s, ops).phase.HaveRows? ==>
              Run(s, ops).phase.live == Run(s, ops).rows.Keys
  {
    hide Numbering, Safe, Init, CaptureStep, Adjacent;
    if ops == [] {
      InitKeeps(s);
    } else {
      var n := |ops| - 1;
      var before := Run(s, ops[..n]);
      AdjacentPrefix(s, ops, n);
      RunSafe(s, ops[..n]);
      RunNumbering(s, ops[..n]);
      if ops[n].ListFiles? && before.phase.HaveRows? { AdjacentAt(s, ops, n); }
      StepKeeps(before, ops[n]);
    }
  }

  lemma AdjacentAt(s: State, ops: seq<Op>, n: nat)
    requires Positive(s.rows) && Adjacent(s, ops) && n < |ops| && ops[n].ListFiles? && Run(s, ops[..n]).phase.HaveRows?
    ensures n > 0 && ops[..n][n - 1].ReadRows?
  {
  }

  /** What the purge step removes. */
  predicate Removes(s: State, op: Op, n: int) {
    || (op.RemoveFile? && op.n == n && s.phase.Removing? && n in s.phase.todo)
    || (op.SweepFile? && op.n == n && s.phase.Sweeping? && n in s.phase.doomed)
  }

  /** In every run whose listings follow their reads directly, a valid row always has its
      file, and the purge only ever removes files no row points to. */
  lemma ValidRowsHaveFiles(s: State, ops: seq<Op>, op: Op)
    requires Init(s) && Positive(s.rows) && Adjacent(s, ops)
    ensures var s' := Run(s, ops);
            && ValidHasFile(s'.rows, s'.files)
            && forall n :: Removes(s', op, n) ==> n !in s'.rows
  {
    hide Adjacent, Run, Init;
    RunSafe(s, ops);
  }

  /** Listing the files before reading the rows needs no such care. */
  lemma ListingFirstIsSafe(s: State, ops: seq<Op>, op: Op)
    requires Init(s) && Positive(s.rows)
    requires forall i :: 0 <= i < |ops| && ops[i].ListFiles? ==> !Run(s, ops[..i]).phase.HaveRows?
    ensures var s' := Run(s, ops);
            && ValidHasFile(s'.rows, s'.files)
            && forall n :: Removes(s', op, n) ==> n !in s'.rows
  {
    hide Run, Init;
    ValidRowsHaveFiles(s, ops, op);
  }

  /** With rows read first and anything running in between, the listing dooms the file of a
      row exactly when it shows a number above every row that was read: a revision created
      and published between the two. */
  lemma StaleReadDoomsIffNumberAbove(s: State, ops: seq<Op>)
    requires Init(s) && Positive(s.rows) && Run(s, ops).phase.HaveRows?
    ensures var s' := Run(s, ops);
            && (forall n :: n in s'.phase.live ==> n > 0)
            && ((exists n :: n in PurgeStep(s', ListFiles).phase.doomed && n in s'.rows)
                <==> exists n :: n in s'.files && n > Top(s'.phase.live))
  {
    hide Run, Init, Top;
    RunNumbering(s, ops);
    var s' := Run(s, ops);
    var t := PurgeStep(s', ListFiles);
    if n :| n in t.phase.doomed && n in s'.rows {
      assert n in s'.files && n > Top(s'.phase.live);
    }
    if n :| n in s'.files && n > Top(s'.phase.live) {
      LiveIsBelow(s'.phase.live, n);
      assert n in t.phase.doomed && n in s'.rows;
    }
  }

  lemma LiveIsBelow(live: set<int>, n: int)
    requires (forall m :: m in live ==> m > 0) && n > Top(live)
    ensures n !in live
  {
  }

  lemma RunMore(s: State, ops: seq<Op>, op: Op)
    requires Positive(s.rows)
    ensures Run(s, ops + [op]) == Step(Run(s, ops), op)
  {
    assert (ops + [op])[..|ops|] == ops;
  }

  lemma PurgeReadsRows(s: State)
    requires s.rows == map[] && s.phase == Idle
    ensures PurgeStep(PurgeStep(PurgeStep(s, Select(1)), EndTrim), ReadRows) == s.(phase := HaveRows({}))
  {
    assert s.rows.Keys == {};
    assert Old({}, 1) == {};
  }

  lemma FirstCapture(s: State, live: set<int>)
    requires s == State(map[], {}, map[], HaveRows(live))
    ensures Step(s, Create(7)) == State(map[1 := false], {}, map[7 := Created(1)], HaveRows(live))
    ensures Step(Step(s, Create(7)), Publish(7)) == State(map[1 := false], {1}, map[7 := Published(1)], HaveRows(live))
  {
    TopIs(s.rows.Keys, 0);
  }

  lemma FirstIsDoomed(s: State)
    requires s == State(map[1 := false], {1}, map[7 := Published(1)], HaveRows({}))
    ensures PurgeStep(PurgeStep(s, ListFiles), SweepFile(1)) == s.(files := {}, phase := Sweeping({1}))
    ensures CaptureStep(s.(files := {}, phase := Sweeping({1})), MarkValid(7))
            == State(map[1 := true], {}, map[], Sweeping({1}))
  {
  }

  /** And it does lose a file: the first revision of a project, captured between the two
      reads, ends up valid with nothing behind it. */
  lemma RowsFirstCanLoseASnapshot() returns (s: State, ops: seq<Op>)
    ensures Init(s) && Positive(s.rows)
    ensures 1 in Run(s, ops).rows && Run(s, ops).rows[1] && 1 !in Run(s, ops).files
  {
    s := State(map[], {}, map[], Idle);
    TopIs({}, 0);
    PurgeReadsRows(s);
    FirstCapture(State(map[], {}, map[], HaveRows({})), {});
    FirstIsDoomed(State(map[1 := false], {1}, map[7 := Published(1)], HaveRows({})));
    hide PurgeStep, CaptureStep, Run;
    ops := [Select(1)];
    RunMore(s, [], Select(1));
    assert Run(s, []) == s by { RunOfNothing(s); }
    RunMore(s, ops, EndTrim);
    RunMore(s, ops + [EndTrim], ReadRows);
    ops := ops + [EndTrim] + [ReadRows];
    RunMore(s, ops, Create(7));
    RunMore(s, ops + [Create(7)], Publish(7));
    ops := ops + [Create(7)] + [Publish(7)];
    RunMore(s, ops, ListFiles);
    RunMore(s, ops + [ListFiles], SweepFile(1));
    ops := ops + [ListFiles] + [SweepFile(1)];
    RunMore(s, ops, MarkValid(7));
    ops := ops + [MarkValid(7)];
  }

  lemma RunOfNothing(s: State)
    requires Positive(s.rows)
    ensures Run(s, []) == s
  {
  }
}
