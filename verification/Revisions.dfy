/** Revision rows and their snapshot files, for one project: captureRevision of
    internal/api/project_revisions_handlers.go, runRetention and sweepOrphanRevisionFiles
    of internal/api/retention.go, CreateRevision and TrimRevisions of internal/store. */
module Revisions {
  import opened Sets

  /** Revision number to whether the row is marked valid. */
  type Rows = map<int, bool>

  ghost predicate IsTop(rows: set<int>, top: int) {
    top >= 0 && (forall n :: n in rows ==> n <= top) && (top == 0 || top in rows)
  }

  /** The highest number in use, as the numbering query answers it: 0 for none. */
  function Top(rows: set<int>): (top: int)
    requires forall n :: n in rows ==> n > 0
    ensures IsTop(rows, top)
  {
    if rows == {} then 0
    else
      HasMax(rows);
      var m :| m in rows && forall n :: n in rows ==> n <= m;
      m
  }

  lemma {:induction false} HasMax(s: set<int>)
    requires s != {}
    ensures exists m :: m in s && forall n :: n in s ==> n <= m
  {
    Inhabited(s);
    var x :| x in s;
    var rest := s - {x};
    if rest != {} {
      HasMax(rest);
      var m :| m in rest && forall n :: n in rest ==> n <= m;
      var top := if m < x then x else m;
      forall n | n in s ensures n <= top { assert n == x || n in rest; }
      assert top in s;
    } else {
      forall n | n in s ensures n <= x { assert n == x || n in rest; }
    }
  }

  lemma TopIs(rows: set<int>, top: int)
    requires (forall n :: n in rows ==> n > 0) && IsTop(rows, top)
    ensures Top(rows) == top
  {
  }

  function Newer(rows: set<int>, n: int): set<int> {
    set m | m in rows && m > n
  }

  /** The rows the trim query selects: at least `keep` newer ones exist. */
  function Old(rows: set<int>, keep: int): set<int> {
    set n | n in rows && |Newer(rows, n)| >= keep
  }

  predicate Positive(rows: Rows) {
    forall n :: n in rows ==> n > 0
  }

  /** What the rows promise: a valid one has its file. */
  ghost predicate ValidHasFile(rows: Rows, files: set<int>) {
    forall n :: n in rows && rows[n] ==> n in files
  }

  lemma TopIsKept(rows: set<int>, keep: int)
    requires keep > 0 && (forall n :: n in rows ==> n > 0) && rows != {}
    ensures Top(rows) in rows && Top(rows) !in Old(rows, keep)
  {
    var top := Top(rows);
    assert Newer(rows, top) == {};
  }

  lemma {:induction false} HasMin(s: set<int>) returns (m: int)
    requires s != {}
    ensures m in s && forall n :: n in s ==> m <= n
  {
    Inhabited(s);
    var x :| x in s;
    var rest := s - {x};
    if rest == {} {
      m := x;
      forall n | n in s ensures m <= n { assert n == x || n in rest; }
    } else {
      var least := HasMin(rest);
      m := if x < least then x else least;
      forall n | n in s ensures m <= n { assert n == x || n in rest; }
    }
  }

  /** The oldest row of all is old when `keep` others are there, and makes no other one old. */
  lemma OldWithLeast(rows: set<int>, m: int, keep: int)
    requires m in rows && forall n :: n in rows ==> m <= n
    ensures Old(rows, keep) == Old(rows - {m}, keep) + if |rows| > keep then {m} else {}
    ensures |rows| == |rows - {m}| + 1
  {
    var rest := rows - {m};
    assert rows == rest + {m};
    assert Newer(rows, m) == rest;
    forall n | n in rest ensures Newer(rows, n) == Newer(rest, n) {
    }
  }

  /** What the trim leaves are `keep` rows, or all there are. */
  lemma {:induction false} TrimLeaves(rows: set<int>, keep: int)
    requires keep > 0
    ensures |rows - Old(rows, keep)| == if |rows| < keep then |rows| else keep
  {
    hide Old, Newer;
    if rows == {} {
      assert rows - Old(rows, keep) == {};
    } else {
      var m := HasMin(rows);
      var rest := rows - {m};
      TrimLeaves(rest, keep);
      OldWithLeast(rows, m, keep);
      OldAreRows(rest, keep);
      var kept := rest - Old(rest, keep);
      assert rows - Old(rows, keep) == if |rows| > keep then kept else kept + {m};
    }
  }

  /** And they are the newest: each is newer than any row that goes. */
  lemma TrimKeepsTheNewest(rows: set<int>, keep: int)
    requires keep > 0
    ensures |rows - Old(rows, keep)| == if |rows| < keep then |rows| else keep
    ensures forall a, b :: a in rows && a !in Old(rows, keep) && b in Old(rows, keep) ==> b < a
  {
    TrimLeaves(rows, keep);
    forall a, b | a in rows && a !in Old(rows, keep) && b in Old(rows, keep) ensures b < a {
      if a <= b { NewerShrinks(rows, a, b); }
    }
  }

  lemma NewerShrinks(rows: set<int>, a: int, b: int)
    requires a <= b
    ensures |Newer(rows, b)| <= |Newer(rows, a)|
  {
    assert Newer(rows, a) == Newer(rows, b) + (Newer(rows, a) - Newer(rows, b));
  }

  lemma OldAreRows(rows: set<int>, keep: int)
    ensures Old(rows, keep) <= rows
    ensures |rows| < keep ==> Old(rows, keep) == {}
  {
    forall n | n in rows ensures |Newer(rows, n)| <= |rows| {
      assert rows == Newer(rows, n) + (rows - Newer(rows, n));
    }
  }

  // ----- as it runs alone -----

  /** How a capture ends: before the file is published, after it, or with its row marked. */
  datatype Capture = Failed | NotMarked | Complete

  class RevisionStore {
    var rows: Rows
    var files: set<int>

    ghost predicate Valid()
      reads this
    {
      && Positive(rows) && ValidHasFile(rows, files)
      && forall n :: n in files ==> 0 < n <= Top(rows.Keys)
    }

    constructor ()
      ensures Valid() && rows == map[] && files == {}
    {
      rows, files := map[], {};
    }

    /** The row first, then the file, then the mark. */
    method CaptureRevision(how: Capture) returns (n: int)
      requires Valid()
      modifies this
      ensures Valid()
      ensures n == Top(old(rows).Keys) + 1 && n !in old(rows) && n !in old(files)
      ensures rows == old(rows)[n := how.Complete?]
      ensures files == if how.Failed? then old(files) else old(files) + {n}
    {
      n := Top(rows.Keys) + 1;
      rows := rows[n := false];
      TopIs(rows.Keys, n);
      if how.Failed? { return; }
      files := files + {n};
      if how.NotMarked? { return; }
      rows := rows[n := true];
      assert rows.Keys == old(rows).Keys + {n};
    }

    /** Deletes old rows one at a time; `stop` says before which deletion it is cut off. */
    method TrimRevisions(keep: int, stop: nat) returns (refs: set<int>)
      requires Valid()
      modifies this`rows
      ensures refs <= Old(old(rows).Keys, keep) && (keep <= 0 ==> refs == {})
      ensures keep > 0 && |Old(old(rows).Keys, keep)| <= stop ==> refs == Old(old(rows).Keys, keep)
      ensures rows == old(rows) - refs && Valid()
    {
      if keep <= 0 {
        assert rows - {} == rows;
        return {};
      }
      var ids := Old(rows.Keys, keep);
      hide Old;
      refs := DeleteRows(ids, stop);
      TrimmedTop(old(rows), refs, keep);
    }

    method DeleteRows(ids: set<int>, stop: nat) returns (refs: set<int>)
      modifies this`rows
      ensures refs <= ids && (|ids| <= stop ==> refs == ids)
      ensures rows == old(rows) - refs
    {
      refs := {};
      var i := 0;
      while |ids - refs| > 0 && i < stop
        invariant refs <= ids && rows == old(rows) - refs && i == |refs|
        decreases |ids - refs|
      {
        Inhabited(ids - refs);
        var id :| id in ids - refs;
        rows := rows - {id};
        refs := refs + {id};
        i := i + 1;
      }
      if ids - refs != {} { Smaller(refs, ids); }
    }

    /** Removes every file without a row, but for those the file system will not let go;
        nothing at all when the rows or the folder cannot be read. */
    method SweepOrphans(rowsOk: bool, listOk: bool, stuck: set<int>) returns (removed: nat)
      requires Valid()
      modifies this`files
      ensures Valid()
      ensures files == if rowsOk && listOk then set n | n in old(files) && (n in rows || n in stuck) else old(files)
      ensures removed == |old(files)| - |files|
    {
      if !rowsOk || !listOk { return 0; }
      var live := rows.Keys;
      var todo := files;
      removed := 0;
      while |todo| > 0
        invariant todo <= old(files) && todo <= files
        invariant files == set n | n in old(files) && (n in todo || n in rows || n in stuck)
        invariant removed == |old(files)| - |files|
        decreases |todo|
      {
        Inhabited(todo);
        var n :| n in todo;
        todo := todo - {n};
        if n !in live && n !in stuck {
          ghost var before := files;
          files := files - {n};
          assert |before| == |files| + 1 by { assert before == files + {n}; }
          removed := removed + 1;
        }
      }
    }

    /** Removes the files of rows that are gone. */
    method RemoveFiles(refs: set<int>, stuck: set<int>) returns (removed: nat)
      modifies this`files
      ensures files == old(files) - (refs - stuck)
      ensures removed == |old(files)| - |files|
    {
      var todo := refs;
      removed := 0;
      while |todo| > 0
        invariant todo <= refs
        invariant forall m :: m in files <==> m in old(files) && (m in todo || m !in refs || m in stuck)
        invariant removed == |old(files)| - |files|
        decreases |todo|
      {
        Inhabited(todo);
        var n :| n in todo;
        todo := todo - {n};
        if n in files && n !in stuck {
          ghost var before := files;
          files := files - {n};
          assert |before| == |files| + 1 by { assert before == files + {n}; }
          removed := removed + 1;
        }
      }
      assert forall m :: m in files <==> m in old(files) - (refs - stuck);
    }

    /** The purge: old rows, then their files, then whatever has no row. Every valid row
        keeps its file, and each file that went is counted once. When the sweep cannot read,
        only the files of the rows just deleted go. */
    method RunRetention(keep: int, stop: nat, rowsOk: bool, listOk: bool, stuck: set<int>)
      returns (removed: nat, ghost refs: set<int>)
      requires Valid()
      modifies this
      ensures Valid()
      ensures rows == old(rows) - refs && refs <= Old(old(rows).Keys, keep) && (keep <= 0 ==> refs == {})
      ensures keep > 0 && |Old(old(rows).Keys, keep)| <= stop ==> refs == Old(old(rows).Keys, keep)
      ensures files == if rowsOk && listOk then set n | n in old(files) && (n in rows || n in stuck)
                       else old(files) - (refs - stuck)
      ensures removed == |old(files)| - |files|
    {
      hide Old, Top;
      var trimmed := TrimRevisions(keep, stop);
      refs := trimmed;
      var first := RemoveFiles(trimmed, stuck);
      var swept := SweepOrphans(rowsOk, listOk, stuck);
      removed := first + swept;
    }
  }

  lemma Smaller(a: set<int>, b: set<int>)
    requires a <= b && b - a != {}
    ensures |a| < |b|
  {
    assert b == a + (b - a);
  }

  lemma TrimmedTop(rows: Rows, refs: set<int>, keep: int)
    requires Positive(rows) && keep > 0 && refs <= Old(rows.Keys, keep)
    ensures Positive(rows - refs) && Top((rows - refs).Keys) == Top(rows.Keys)
  {
    if rows != map[] {
      TopIsKept(rows.Keys, keep);
      hide Old;
      var top := Top(rows.Keys);
      assert top in (rows - refs).Keys;
      TopIs((rows - refs).Keys, top);
    }
  }
}
