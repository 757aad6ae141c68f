/** The lexical path jail: internal/api/project_handlers.go (safeJoin,
    assertWithinRoot) and internal/backup/backup.go (safeJoin).

    Paths are character sequences. Clean is the segment-stack algorithm of Go's
    path/filepath on a system whose separator is '/': walk the segments, drop empty ones
    and ".", let ".." undo the last ordinary segment. */
module PathJail {
  import opened Options

  // ----- segments -----

  function Split(s: string): (segs: seq<string>)
    ensures segs != []
  {
    if s == "" then [""]
    else
      var rest := Split(s[1..]);
      if s[0] == '/' then [""] + rest else [[s[0]] + rest[0]] + rest[1..]
  }

  function Join(segs: seq<string>): string {
    if segs == [] then ""
    else if |segs| == 1 then segs[0]
    else segs[0] + "/" + Join(segs[1..])
  }

  ghost predicate NoSlash(segs: seq<string>) {
    forall i :: 0 <= i < |segs| ==> '/' !in segs[i]
  }

  lemma {:induction false} SplitHasNoSlash(s: string)
    ensures NoSlash(Split(s))
  {
    if s != "" { SplitHasNoSlash(s[1..]); }
  }

  lemma {:induction false} JoinSplit(s: string)
    ensures Join(Split(s)) == s
  {
    if s != "" {
      var rest := Split(s[1..]);
      JoinSplit(s[1..]);
      assert rest[0..] == rest;
      if s[0] != '/' && |rest| > 1 {
        assert ([[s[0]] + rest[0]] + rest[1..])[1..] == rest[1..];
      }
    }
  }

  lemma SplitCons(c: char, rest: string)
    ensures Split([c] + rest)
            == if c == '/' then [""] + Split(rest) else [[c] + Split(rest)[0]] + Split(rest)[1..]
  {
    assert ([c] + rest)[1..] == rest;
  }

  lemma {:induction false} SplitConcat(a: string, b: string)
    ensures Split(a + "/" + b) == Split(a) + Split(b)
  {
    hide Split;
    if a == "" {
      SplitCons('/', b);
      assert a + "/" + b == ['/'] + b;
      SplitWhole("");
    } else {
      var rest := a[1..];
      SplitConcat(rest, b);
      SplitCons(a[0], rest + "/" + b);
      SplitCons(a[0], rest);
      assert a + "/" + b == [a[0]] + (rest + "/" + b);
      assert a == [a[0]] + rest;
      var mine := Split(rest);
      assert (mine + Split(b))[0] == mine[0] && (mine + Split(b))[1..] == mine[1..] + Split(b);
    }
  }

  lemma {:induction false} SplitWhole(s: string)
    requires '/' !in s
    ensures Split(s) == [s]
  {
    if s != "" {
      SplitWhole(s[1..]);
      assert [s[0]] + s[1..] == s;
    }
  }

  lemma {:induction false} SplitJoin(segs: seq<string>)
    requires segs != [] && NoSlash(segs)
    ensures Split(Join(segs)) == segs
  {
    SplitWhole(segs[0]);
    if |segs| > 1 {
      SplitConcat(segs[0], Join(segs[1..]));
      SplitJoin(segs[1..]);
    }
  }

  lemma {:induction false} JoinConcat(a: seq<string>, b: seq<string>)
    requires a != [] && b != []
    ensures Join(a + b) == Join(a) + "/" + Join(b)
  {
    if |a| == 1 {
      assert (a + b)[1..] == b;
    } else {
      assert (a + b)[1..] == a[1..] + b;
      JoinConcat(a[1..], b);
      assert Join(a + b) == a[0] + "/" + (Join(a[1..]) + "/" + Join(b));
    }
  }

  // ----- Clean -----

  predicate Normal(seg: string) {
    seg != "" && seg != "." && seg != ".."
  }

  function Push(rooted: bool, stack: seq<string>, seg: string): seq<string> {
    if seg == "" || seg == "." then stack
    else if seg != ".." then stack + [seg]
    else if stack != [] && stack[|stack| - 1] != ".." then stack[..|stack| - 1]
    else if rooted then stack
    else stack + [".."]
  }

  function Pushes(rooted: bool, stack: seq<string>, segs: seq<string>): seq<string> {
    if segs == [] then stack
    else Push(rooted, Pushes(rooted, stack, segs[..|segs| - 1]), segs[|segs| - 1])
  }

  function Rooted(path: string): bool {
    path != "" && path[0] == '/'
  }

  function Stack(path: string): seq<string> {
    Pushes(Rooted(path), [], Split(path))
  }

  function Printed(rooted: bool, stack: seq<string>): string {
    if rooted then "/" + Join(stack) else if stack == [] then "." else Join(stack)
  }

  /** filepath.Clean. */
  function Clean(path: string): string {
    Printed(Rooted(path), Stack(path))
  }

  /** filepath.Join of two elements: empty leading elements are dropped, the rest is
      joined and cleaned. */
  function FileJoin(a: string, b: string): string {
    if a == "" && b == "" then "" else if a == "" then Clean(b) else Clean(a + "/" + b)
  }

  /** What Clean leaves: leading ".." only on a relative path, ordinary names after. */
  ghost predicate Canonical(rooted: bool, segs: seq<string>) {
    && NoSlash(segs)
    && (forall i :: 0 <= i < |segs| ==> segs[i] != "" && segs[i] != ".")
    && (forall i :: 0 <= i < |segs| && segs[i] == ".." ==> !rooted && (i == 0 || segs[i - 1] == ".."))
  }

  ghost predicate AllNormal(segs: seq<string>) {
    NoSlash(segs) && forall i :: 0 <= i < |segs| ==> Normal(segs[i])
  }

  lemma PushIsCanonical(rooted: bool, stack: seq<string>, seg: string)
    requires Canonical(rooted, stack) && '/' !in seg
    ensures Canonical(rooted, Push(rooted, stack, seg))
  {
    if seg == ".." && stack != [] && stack[|stack| - 1] != ".." {
      CanonicalPrefix(rooted, stack, |stack| - 1);
    }
  }

  lemma {:induction false} PushesAreCanonical(rooted: bool, stack: seq<string>, segs: seq<string>)
    requires Canonical(rooted, stack) && NoSlash(segs)
    ensures Canonical(rooted, Pushes(rooted, stack, segs))
  {
    hide Push, Canonical;
    if segs != [] {
      var n := |segs| - 1;
      PushesAreCanonical(rooted, stack, segs[..n]);
      PushIsCanonical(rooted, Pushes(rooted, stack, segs[..n]), segs[n]);
    }
  }

  lemma StackIsCanonical(path: string)
    ensures Canonical(Rooted(path), Stack(path))
  {
    SplitHasNoSlash(path);
    PushesAreCanonical(Rooted(path), [], Split(path));
  }

  lemma {:induction false} PushesConcat(rooted: bool, stack: seq<string>, a: seq<string>, b: seq<string>)
    ensures Pushes(rooted, stack, a + b) == Pushes(rooted, Pushes(rooted, stack, a), b)
  {
    if b == [] {
      assert a + b == a;
    } else {
      assert (a + b)[..|a + b| - 1] == a + b[..|b| - 1];
      PushesConcat(rooted, stack, a, b[..|b| - 1]);
    }
  }

  /** Canonical segments are pushed as they are. */
  lemma {:induction false} PushesCanonical(rooted: bool, stack: seq<string>, segs: seq<string>)
    requires Canonical(rooted, stack + segs)
    ensures Pushes(rooted, stack, segs) == stack + segs
  {
    if segs == [] {
      assert stack + segs == stack;
    } else {
      var n := |segs| - 1;
      var whole := stack + segs;
      assert whole[..|whole| - 1] == stack + segs[..n];
      CanonicalPrefix(rooted, whole, |whole| - 1);
      PushesCanonical(rooted, stack, segs[..n]);
      assert whole[|whole| - 1] == segs[n];
      assert segs[n] == ".." && |stack + segs[..n]| > 0 ==> whole[|whole| - 2] == "..";
      assert stack + segs[..n] + [segs[n]] == whole;
    }
  }

  lemma CanonicalPrefix(rooted: bool, segs: seq<string>, k: nat)
    requires Canonical(rooted, segs) && k <= |segs|
    ensures Canonical(rooted, segs[..k])
  {
  }

  lemma SplitRooted(rest: string)
    ensures Split("/" + rest) == [""] + Split(rest)
  {
    assert ("/" + rest)[1..] == rest;
  }

  lemma DropLeadingEmpty(rooted: bool, segs: seq<string>)
    ensures Pushes(rooted, [], [""] + segs) == Pushes(rooted, [], segs)
  {
    PushesConcat(rooted, [], [""], segs);
    assert Pushes(rooted, [], [""]) == [];
  }

  /** A stack written out and split again gives itself: what Clean prints keeps it. */
  lemma StackOfPrinted(rooted: bool, stack: seq<string>)
    requires Canonical(rooted, stack) && stack != []
    ensures Rooted(Printed(rooted, stack)) == rooted && Stack(Printed(rooted, stack)) == stack
    ensures Split(Printed(rooted, stack)) == (if rooted then [""] else []) + stack
  {
    hide Canonical, Split, Join, Pushes;
    CanonicalStarts(rooted, stack);
    SplitJoin(stack);
    PushesCanonical(rooted, [], stack);
    assert [] + stack == stack;
    SplitRooted(Join(stack));
    DropLeadingEmpty(true, stack);
  }

  lemma CanonicalStarts(rooted: bool, stack: seq<string>)
    requires Canonical(rooted, stack) && stack != []
    ensures NoSlash(stack) && Canonical(rooted, [] + stack) && Join(stack) != "" && Join(stack)[0] != '/'
  {
    assert [] + stack == stack;
    assert Join(stack)[0] == stack[0][0];
  }

  /** Cleaning twice is cleaning once. */
  lemma CleanIsIdempotent(path: string)
    ensures Clean(Clean(path)) == Clean(path)
    ensures Stack(Clean(path)) == Stack(path) && Rooted(Clean(path)) == Rooted(path)
  {
    hide Canonical, Push;
    StackIsCanonical(path);
    if Stack(path) != [] {
      StackOfPrinted(Rooted(path), Stack(path));
    } else {
      Trivial();
    }
  }

  lemma Trivial()
    ensures Stack("/") == [] && Stack(".") == [] && Stack("") == []
    ensures Clean("/") == "/" && Clean(".") == "."
  {
    SplitWhole(".");
    assert Split("/") == ["", ""] && Split("") == [""];
    assert ["", ""][..1] == [""];
    assert Pushes(true, [], [""]) == [] && Pushes(false, [], [""]) == [] && Pushes(false, [], ["."]) == [];
  }

  // ----- what a path means -----

  /** Following segments from a place in a tree without links; ".." at the top stays. */
  function Walk(at: seq<string>, segs: seq<string>): seq<string> {
    if segs == [] then at
    else
      var here := Walk(at, segs[..|segs| - 1]);
      var seg := segs[|segs| - 1];
      if seg == "" || seg == "." then here
      else if seg != ".." then here + [seg]
      else if here == [] then here
      else here[..|here| - 1]
  }

  /** The place a path names for a process working at `cwd`. */
  function Place(cwd: seq<string>, path: string): seq<string> {
    Walk(if Rooted(path) then [] else cwd, Split(path))
  }

  lemma {:induction false} WalkConcat(at: seq<string>, a: seq<string>, b: seq<string>)
    ensures Walk(at, a + b) == Walk(Walk(at, a), b)
  {
    if b == [] {
      assert a + b == a;
    } else {
      assert (a + b)[..|a + b| - 1] == a + b[..|b| - 1];
      WalkConcat(at, a, b[..|b| - 1]);
    }
  }

  lemma WalkPush(at: seq<string>, rooted: bool, stack: seq<string>, seg: string)
    requires Canonical(rooted, stack) && (rooted ==> at == [])
    ensures Walk(at, Push(rooted, stack, seg)) == Walk(at, stack + [seg])
  {
    WalkConcat(at, stack, [seg]);
    if stack != [] {
      WalkConcat(at, stack[..|stack| - 1], [stack[|stack| - 1]]);
      assert stack[..|stack| - 1] + [stack[|stack| - 1]] == stack;
    }
  }

  lemma {:induction false} WalkPushes(at: seq<string>, rooted: bool, segs: seq<string>)
    requires NoSlash(segs) && (rooted ==> at == [])
    ensures Walk(at, Pushes(rooted, [], segs)) == Walk(at, segs)
  {
    hide Push, Canonical;
    if segs != [] {
      var n := |segs| - 1;
      var stack := Pushes(rooted, [], segs[..n]);
      WalkPushes(at, rooted, segs[..n]);
      assert Canonical(rooted, []) by { PushesAreCanonicalFromNothing(rooted); }
      PushesAreCanonical(rooted, [], segs[..n]);
      WalkPush(at, rooted, stack, segs[n]);
      WalkConcat(at, stack, [segs[n]]);
      WalkConcat(at, segs[..n], [segs[n]]);
      assert segs[..n] + [segs[n]] == segs;
    }
  }

  lemma PushesAreCanonicalFromNothing(rooted: bool)
    ensures Canonical(rooted, [])
  {
  }

  /** Clean never changes the place a path names, from any working directory. */
  lemma CleanKeepsThePlace(cwd: seq<string>, path: string)
    ensures Place(cwd, Clean(path)) == Place(cwd, path)
  {
    hide Push, Canonical;
    var at := if Rooted(path) then [] else cwd;
    SplitHasNoSlash(path);
    SplitHasNoSlash(Clean(path));
    WalkPushes(at, Rooted(path), Split(path));
    CleanIsIdempotent(path);
    WalkPushes(at, Rooted(path), Split(Clean(path)));
  }

  // ----- the two joins -----

  /** Unicode white space, as strings.TrimSpace sees it. */
  predicate IsSpace(c: char) {
    var n := c as int;
    || 9 <= n <= 13 || n == 32 || n == 0x85 || n == 0xA0 || n == 0x1680 || 0x2000 <= n <= 0x200A
    || n == 0x2028 || n == 0x2029 || n == 0x202F || n == 0x205F || n == 0x3000
  }

  function TrimLeft(s: string): string {
    if s != "" && IsSpace(s[0]) then TrimLeft(s[1..]) else s
  }

  function TrimSpace(s: string): string {
    TrimRight(TrimLeft(s))
  }

  function TrimRight(s: string): string {
    if s != "" && IsSpace(s[|s| - 1]) then TrimRight(s[..|s| - 1]) else s
  }

  ghost predicate AllSpace(s: string) {
    forall i :: 0 <= i < |s| ==> IsSpace(s[i])
  }

  lemma {:induction false} TrimLeftCuts(s: string) returns (before: string)
    ensures s == before + TrimLeft(s) && AllSpace(before)
    ensures TrimLeft(s) != "" ==> !IsSpace(TrimLeft(s)[0])
  {
    before := "";
    if s != "" && IsSpace(s[0]) {
      var rest := TrimLeftCuts(s[1..]);
      before := [s[0]] + rest;
    }
  }

  lemma {:induction false} TrimRightCuts(s: string) returns (after: string)
    ensures s == TrimRight(s) + after && AllSpace(after)
    ensures TrimRight(s) != "" ==> !IsSpace(TrimRight(s)[|TrimRight(s)| - 1]) && TrimRight(s)[0] == s[0]
  {
    after := "";
    if s != "" && IsSpace(s[|s| - 1]) {
      var rest := TrimRightCuts(s[..|s| - 1]);
      after := rest + [s[|s| - 1]];
    }
  }

  /** Trimming cuts white space off both ends and leaves none there. */
  lemma TrimSpaceCuts(s: string) returns (before: string, after: string)
    ensures s == before + TrimSpace(s) + after && AllSpace(before) && AllSpace(after)
    ensures var t := TrimSpace(s); t != "" ==> !IsSpace(t[0]) && !IsSpace(t[|t| - 1])
  {
    before := TrimLeftCuts(s);
    after := TrimRightCuts(TrimLeft(s));
  }

  predicate HasPrefix(s: string, prefix: string) {
    |prefix| <= |s| && s[..|prefix|] == prefix
  }

  /** safeJoin up to the join: the cleaned name, or nothing. */
  function Lexical(name: string): Option<string> {
    var trimmed := TrimSpace(name);
    if trimmed == "" || Rooted(trimmed) then None
    else
      var clean := Clean(trimmed);
      if clean == ".." || HasPrefix(clean, "../") then None else Some(clean)
  }

  predicate Inside(root: string, full: string) {
    full == root || HasPrefix(full, root + "/")
  }

  /** safeJoin of the project handlers, up to the look at the disk. */
  function SafeJoin(root: string, name: string): Option<string> {
    var clean := Lexical(name);
    if clean.None? then None
    else
      var full := FileJoin(root, clean.value);
      if !Inside(root, full) then None else Some(full)
  }

  /** safeJoin of the backup: join first, check afterwards. */
  function BackupJoin(root: string, name: string): Option<string> {
    var clean := Clean(FileJoin(root, name));
    if !Inside(root, clean) then None else Some(clean)
  }

  /** The last check of safeJoin refusing a name the earlier ones let through. */
  predicate LateRefusal(root: string, name: string) {
    Lexical(name).Some? && SafeJoin(root, name).None?
  }

  /** The path some levels below `root`. */
  function Under(root: string, segs: seq<string>): string {
    if segs == [] then root else root + "/" + Join(segs)
  }

  // ----- which names are accepted -----

  /** How deep below its start a relative walk has got. */
  function Depth(segs: seq<string>): int {
    if segs == [] then 0
    else
      var seg := segs[|segs| - 1];
      Depth(segs[..|segs| - 1]) + if seg == "" || seg == "." then 0 else if seg == ".." then -1 else 1
  }

  ghost predicate NeverClimbs(segs: seq<string>) {
    forall i :: 0 <= i <= |segs| ==> 0 <= Depth(segs[..i])
  }

  predicate Climbed(stack: seq<string>) {
    stack != [] && stack[0] == ".."
  }

  lemma CanonicalOrdinary(stack: seq<string>)
    requires Canonical(false, stack) && !Climbed(stack)
    ensures AllNormal(stack)
  {
    forall i | 0 <= i < |stack| ensures stack[i] != ".." {
      NoDotsAfter(stack, i);
    }
  }

  lemma {:induction false} NoDotsAfter(stack: seq<string>, i: nat)
    requires Canonical(false, stack) && !Climbed(stack) && i < |stack|
    ensures stack[i] != ".."
  {
    if i > 0 { NoDotsAfter(stack, i - 1); }
  }

  lemma ClimbStep(stack: seq<string>, seg: string)
    requires Canonical(false, stack)
    ensures !Climbed(stack) ==>
              (!Climbed(Push(false, stack, seg)) <==> 0 <= Depth([seg]) + |stack|)
    ensures !Climbed(Push(false, stack, seg)) ==> |Push(false, stack, seg)| == |stack| + Depth([seg]) && !Climbed(stack)
  {
    assert [seg][..0] == [];
    if !Climbed(stack) { CanonicalOrdinary(stack); }
  }

  lemma {:induction false} ClimbIsRemembered(segs: seq<string>)
    requires NoSlash(segs)
    ensures NeverClimbs(segs) <==> !Climbed(Pushes(false, [], segs))
    ensures NeverClimbs(segs) ==> Depth(segs) == |Pushes(false, [], segs)|
  {
    hide Push, Climbed, Canonical;
    if segs == [] {
      assert !Climbed([]) by { NothingClimbed(); }
    } else {
      var n := |segs| - 1;
      ClimbIsRemembered(segs[..n]);
      NothingClimbed();
      PushesAreCanonical(false, [], segs[..n]);
      ClimbStep(Pushes(false, [], segs[..n]), segs[n]);
      assert segs[..n + 1] == segs;
      assert forall i :: 0 <= i <= n ==> segs[..n][..i] == segs[..i];
      assert NeverClimbs(segs) <==> NeverClimbs(segs[..n]) && 0 <= Depth(segs);
      assert [segs[n]][..0] == [];
    }
  }

  lemma NothingClimbed()
    ensures !Climbed([]) && Canonical(false, [])
  {
  }

  lemma StartsWithDots(stack: seq<string>)
    requires Canonical(false, stack) && stack != []
    ensures Climbed(stack) <==> Join(stack) == ".." || HasPrefix(Join(stack), "../")
  {
    hide Split;
    var s := Join(stack);
    SplitJoin(stack);
    SplitWhole("..");
    if |stack| > 1 {
      assert s == stack[0] + ("/" + Join(stack[1..]));
    }
    if HasPrefix(s, "../") {
      SplitConcat("..", s[3..]);
      assert s == ".." + "/" + s[3..];
    }
  }

  /** A name is accepted exactly when it is not empty, not absolute, and following it
      never goes above where it started. */
  lemma AcceptedIffItNeverClimbs(name: string)
    ensures var t := TrimSpace(name);
            Lexical(name).Some? <==> t != "" && !Rooted(t) && NeverClimbs(Split(t))
  {
    var t := TrimSpace(name);
    if t != "" && !Rooted(t) {
      SplitHasNoSlash(t);
      ClimbIsRemembered(Split(t));
      StackIsCanonical(t);
      if Stack(t) != [] { StartsWithDots(Stack(t)); }
    }
  }

  // ----- what an accepted name becomes -----

  /** A root as filepath.Clean prints it, other than "/" and ".". */
  predicate CleanRoot(root: string) {
    root != "" && Clean(root) == root && root != "/" && root != "."
  }

  lemma CleanRootStack(root: string)
    requires CleanRoot(root)
    ensures var stack := Stack(root);
            stack != [] && Canonical(Rooted(root), stack) && root == Printed(Rooted(root), stack)
  {
    StackIsCanonical(root);
  }

  lemma StackUnder(root: string, rel: string)
    requires root != ""
    ensures Rooted(root + "/" + rel) == Rooted(root)
    ensures Stack(root + "/" + rel) == Pushes(Rooted(root), Stack(root), Split(rel))
  {
    SplitConcat(root, rel);
    PushesConcat(Rooted(root), [], Split(root), Split(rel));
    assert (root + "/" + rel)[0] == root[0];
  }

  lemma CanonicalUnder(rooted: bool, stack: seq<string>, segs: seq<string>)
    requires Canonical(rooted, stack) && AllNormal(segs)
    ensures Canonical(rooted, stack + segs)
  {
  }

  lemma PrintedUnder(root: string, segs: seq<string>)
    requires CleanRoot(root) && AllNormal(segs)
    ensures Printed(Rooted(root), Stack(root) + segs) == Under(root, segs)
  {
    hide Stack, Canonical, AllNormal, Join;
    CleanRootStack(root);
    if segs == [] {
      assert Stack(root) + segs == Stack(root);
    } else {
      JoinConcat(Stack(root), segs);
    }
  }

  /** The accepted name's segments, all of them ordinary. */
  lemma AcceptedSegments(name: string)
    requires Lexical(name).Some?
    ensures var segs := Stack(TrimSpace(name));
            AllNormal(segs) && Lexical(name).value == (if segs == [] then "." else Join(segs))
  {
    var t := TrimSpace(name);
    StackIsCanonical(t);
    if Stack(t) != [] { StartsWithDots(Stack(t)); }
    CanonicalOrdinary(Stack(t));
  }

  lemma JoinedSegments(root: string, segs: seq<string>)
    requires CleanRoot(root) && AllNormal(segs)
    ensures FileJoin(root, if segs == [] then "." else Join(segs)) == Under(root, segs)
  {
    var rel := if segs == [] then "." else Join(segs);
    CleanRootStack(root);
    var stack := Stack(root);
    CanonicalUnder(Rooted(root), stack, segs);
    if segs == [] {
      SplitWhole(".");
      assert Pushes(Rooted(root), stack, ["."]) == stack;
      assert stack + segs == stack;
    } else {
      SplitJoin(segs);
      PushesCanonical(Rooted(root), stack, segs);
    }
    StackUnder(root, rel);
    PrintedUnder(root, segs);
  }

  lemma UnderIsInside(root: string, segs: seq<string>)
    ensures Inside(root, Under(root, segs))
  {
    if segs != [] {
      assert Under(root, segs)[..|root + "/"|] == root + "/";
    }
  }

  /** Every accepted name becomes the root followed by ordinary segments, none of them
      "..", so the check after the join has nothing left to refuse. */
  lemma AcceptedStaysInside(root: string, name: string)
    requires CleanRoot(root)
    ensures !LateRefusal(root, name)
    ensures SafeJoin(root, name).Some? ==>
              var segs := Stack(TrimSpace(name));
              AllNormal(segs) && SafeJoin(root, name).value == Under(root, segs)
  {
    if Lexical(name).Some? {
      AcceptedSegments(name);
      var segs := Stack(TrimSpace(name));
      JoinedSegments(root, segs);
      UnderIsInside(root, segs);
    }
  }

  /** Under a root that is not clean the late check does refuse: the name "x" shows it. */
  lemma UncleanRootRefuses(root: string)
    requires !CleanRoot(root)
    ensures LateRefusal(root, "x")
  {
    PlainName();
    if root != "" {
      hide Lexical, Push, Canonical, Split, Join;
      var rooted, stack := Rooted(root), Stack(root);
      var full := FileJoin(root, "x");
      assert root + "/" + "x" == root + "/x";
      StackUnder(root, "x");
      StackIsCanonical(root);
      StackIsCanonical(root + "/x");
      PushPlain(rooted, stack);
      StackOfPrinted(rooted, stack + ["x"]);
      if full != root && HasPrefix(full, root + "/") {
        RootIsAPrefix(root, full, "x");
      }
    } else {
      assert FileJoin("", "x") == Clean("x");
    }
  }

  lemma PlainName()
    ensures Lexical("x") == Some("x") && Split("x") == ["x"] && Stack("x") == ["x"] && Clean("x") == "x"
  {
    SplitWhole("x");
    assert TrimSpace("x") == "x";
    assert ["x"][..0] == [];
  }

  lemma PushPlain(rooted: bool, stack: seq<string>)
    ensures Pushes(rooted, stack, ["x"]) == stack + ["x"]
  {
    assert ["x"][..0] == [];
  }

  /** A root that a printed path continues past was itself as Clean prints it. */
  lemma RootIsAPrefix(root: string, full: string, last: string)
    requires root != "" && HasPrefix(full, root + "/") && Canonical(Rooted(root), Stack(root))
    requires Split(full) == (if Rooted(root) then [""] else []) + (Stack(root) + [last])
    ensures CleanRoot(root)
  {
    hide Push, Canonical, Join, Clean;
    var rooted, stack := Rooted(root), Stack(root);
    var rest := full[|root| + 1..];
    assert full == root + "/" + rest;
    SplitConcat(root, rest);
    var mine := Split(root);
    assert mine == Split(full)[..|mine|];
    var k := if rooted then |mine| - 1 else |mine|;
    assert mine == (if rooted then [""] else []) + stack[..k];
    CanonicalPrefix(rooted, stack, k);
    assert [] + stack[..k] == stack[..k];
    DropLeadingEmpty(true, stack[..k]);
    PushesCanonical(rooted, [], stack[..k]);
    assert stack[..k] == stack;
    RootPrinted(root);
  }

  lemma RootPrinted(root: string)
    requires root != "" && Canonical(Rooted(root), Stack(root))
    requires Split(root) == (if Rooted(root) then [""] else []) + Stack(root)
             && |Split(root)| + (if Rooted(root) then 0 else 1) >= 2
    ensures CleanRoot(root)
  {
    hide Push, Pushes, Split, Canonical;
    JoinSplit(root);
    var stack := Stack(root);
    if Rooted(root) {
      assert ([""] + stack)[1..] == stack;
    } else {
      assert [] + stack == stack;
    }
    Trivial();
  }

  /** The late check never fires, whatever the name, exactly when the root is clean. */
  lemma LateCheckIsDeadIffRootIsClean(root: string)
    ensures (forall name :: !LateRefusal(root, name)) <==> CleanRoot(root)
  {
    if CleanRoot(root) {
      forall name ensures !LateRefusal(root, name) { AcceptedStaysInside(root, name); }
    } else {
      UncleanRootRefuses(root);
    }
  }

  /** A path below some root that the trimming leaves alone. */
  ghost predicate Plain(p: seq<string>) {
    p != [] && AllNormal(p) && TrimSpace(Join(p)) == Join(p)
  }

  /** Writing such a path out and reading it back gives the same path. */
  lemma PlainNameIsItself(p: seq<string>)
    requires Plain(p)
    ensures Lexical(Join(p)) == Some(Join(p)) && Stack(TrimSpace(Join(p))) == p
  {
    hide Push, Split, TrimSpace;
    assert Canonical(false, p);
    StackOfPrinted(false, p);
    StartsWithDots(p);
    SplitJoin(p);
    assert Join(p) != "" by { if Join(p) == "" { Trivial(); } }
  }

  // ----- join, then check -----

  /** What the backup's join accepts is the root followed by ordinary segments too. */
  lemma BackupJoinStaysInside(root: string, name: string)
    requires CleanRoot(root) && Rooted(root) && BackupJoin(root, name).Some?
    ensures exists segs :: AllNormal(segs) && BackupJoin(root, name).value == Under(root, segs)
  {
    var dest := BackupJoin(root, name).value;
    if dest == root {
      assert AllNormal([]) && dest == Under(root, []);
    } else {
      hide Push, Canonical, Split, Join, Pushes;
      var joined := FileJoin(root, name);
      StackIsCanonical(joined);
      StackUnder(root, name);
      CleanIsIdempotent(root + "/" + name);
      CleanIsIdempotent(joined);
      CleanRootStack(root);
      TailOfPrinted(root, dest, Stack(joined));
    }
  }

  /** A printed path that continues a printed root continues its segments. */
  lemma TailOfPrinted(root: string, dest: string, stack: seq<string>)
    requires CleanRoot(root) && Rooted(root) && HasPrefix(dest, root + "/")
    requires dest == Printed(true, stack) && Canonical(true, stack)
    ensures exists segs :: AllNormal(segs) && dest == Under(root, segs)
  {
    hide Push, Clean, Split, Canonical, Stack;
    CleanRootStack(root);
    var mine := Stack(root);
    var rest := dest[|root| + 1..];
    assert dest == root + "/" + rest;
    SplitConcat(root, rest);
    StackOfPrinted(true, mine);
    assert |dest| > 1;
    StackOfPrinted(true, stack);
    JoinSplit(rest);
    SplitHasNoSlash(rest);
    SegmentsAfter(mine, Split(rest), stack);
  }

  lemma SegmentsAfter(mine: seq<string>, segs: seq<string>, stack: seq<string>)
    requires [""] + mine + segs == [""] + stack && Canonical(true, stack)
    ensures stack == mine + segs && AllNormal(segs)
  {
    assert [""] + mine + segs == [""] + (mine + segs);
    assert ([""] + (mine + segs))[1..] == mine + segs && ([""] + stack)[1..] == stack;
    forall i | 0 <= i < |segs| ensures Normal(segs[i]) && '/' !in segs[i] {
      assert segs[i] == stack[|mine| + i];
    }
  }

  /** On every name the project handlers accept, both joins give the same path. */
  lemma JoinsAgree(root: string, name: string)
    requires CleanRoot(root) && Lexical(name).Some?
    ensures BackupJoin(root, TrimSpace(name)) == SafeJoin(root, name) != None
  {
    hide Push, Canonical, Split, Join, Pushes, Lexical;
    AcceptedStaysInside(root, name);
    NameBelowRoot(root, name);
    CleanIsIdempotent(root + "/" + TrimSpace(name));
    UnderIsInside(root, Stack(TrimSpace(name)));
  }

  lemma NameBelowRoot(root: string, name: string)
    requires CleanRoot(root) && Lexical(name).Some?
    ensures FileJoin(root, TrimSpace(name)) == Clean(root + "/" + TrimSpace(name))
            == Under(root, Stack(TrimSpace(name)))
  {
    hide Push, Canonical, Join, Pushes, Climbed;
    var t := TrimSpace(name);
    AcceptedSegments(name);
    AcceptedIffItNeverClimbs(name);
    SplitHasNoSlash(t);
    ClimbIsRemembered(Split(t));
    StackUnder(root, t);
    NormalWalk(Rooted(root), Stack(root), Split(t));
    PrintedUnder(root, Stack(t));
  }

  /** A path written below a clean root, with or without a closing slash, is joined to
      itself. */
  lemma BackupJoinOfWritten(root: string, segs: seq<string>)
    requires CleanRoot(root) && AllNormal(segs) && segs != []
    ensures BackupJoin(root, Join(segs)) == Some(Under(root, segs))
    ensures BackupJoin(root, Join(segs) + "/") == Some(Under(root, segs))
  {
    hide Push, Pushes, Split, Canonical, AllNormal, Clean, CleanRoot;
    var full := root + "/" + Join(segs);
    JoinedSegments(root, segs);
    UnderIsInside(root, segs);
    assert root != "" by { CleanRootStack(root); RootNotEmpty(root); }
    assert FileJoin(root, Join(segs)) == Clean(full);
    CleanIsIdempotent(full);
    assert root + "/" + (Join(segs) + "/") == full + "/";
    TrailingSlash(full);
  }

  lemma RootNotEmpty(root: string)
    requires CleanRoot(root)
    ensures root != ""
  {
  }

  lemma TrailingSlash(path: string)
    requires path != ""
    ensures Clean(path + "/") == Clean(path)
  {
    hide Pushes, Split;
    FolderStack(path);
    assert (path + "/")[0] == path[0];
  }

  /** Walking a name that never climbs pushes its segments onto whatever was there. */
  lemma {:induction false} NormalWalk(rooted: bool, stack: seq<string>, segs: seq<string>)
    requires NoSlash(segs) && !Climbed(Pushes(false, [], segs))
    ensures Pushes(rooted, stack, segs) == stack + Pushes(false, [], segs)
  {
    hide Canonical, Push, Climbed;
    if segs == [] {
      assert stack + [] == stack;
    } else {
      var n := |segs| - 1;
      NothingClimbed();
      PushesAreCanonical(false, [], segs[..n]);
      var mine := Pushes(false, [], segs[..n]);
      ClimbStep(mine, segs[n]);
      NormalWalk(rooted, stack, segs[..n]);
      NormalPush(rooted, stack, mine, segs[n]);
    }
  }

  lemma NormalPush(rooted: bool, stack: seq<string>, mine: seq<string>, seg: string)
    requires Canonical(false, mine) && !Climbed(mine) && !Climbed(Push(false, mine, seg))
    ensures Push(rooted, stack + mine, seg) == stack + Push(false, mine, seg)
  {
    CanonicalOrdinary(mine);
    if mine != [] {
      assert (stack + mine)[..|stack + mine| - 1] == stack + mine[..|mine| - 1];
    }
  }

  // ----- assertWithinRoot -----

  /** What the disk says of a path with its links followed. */
  datatype Look = Found(target: string) | Missing | Failed

  function LastSlash(path: string): (i: int)
    ensures -1 <= i < |path|
    ensures i >= 0 ==> path[i] == '/'
  {
    if path == "" then -1
    else if path[|path| - 1] == '/' then |path| - 1
    else LastSlash(path[..|path| - 1])
  }

  /** filepath.Dir. */
  function Dir(path: string): string {
    Clean(path[..LastSlash(path) + 1])
  }

  function Weight(segs: seq<string>): nat {
    if segs == [] then 0 else Weight(segs[..|segs| - 1]) + |segs[|segs| - 1]| + 1
  }

  lemma {:induction false} WeightConcat(a: seq<string>, b: seq<string>)
    ensures Weight(a + b) == Weight(a) + Weight(b)
  {
    if b == [] {
      assert a + b == a;
    } else {
      assert (a + b)[..|a + b| - 1] == a + b[..|b| - 1];
      WeightConcat(a, b[..|b| - 1]);
    }
  }

  lemma {:induction false} JoinWeight(segs: seq<string>)
    requires segs != []
    ensures |Join(segs)| + 1 == Weight(segs)
  {
    assert segs == [segs[0]] + segs[1..];
    WeightConcat([segs[0]], segs[1..]);
    assert [segs[0]][..0] == [];
    assert Weight([segs[0]]) == |segs[0]| + 1;
    if |segs| > 1 { JoinWeight(segs[1..]); }
  }

  lemma {:induction false} StackWeight(rooted: bool, segs: seq<string>)
    ensures Weight(Pushes(rooted, [], segs)) <= Weight(segs)
  {
    if segs != [] {
      var n := |segs| - 1;
      StackWeight(rooted, segs[..n]);
      var stack := Pushes(rooted, [], segs[..n]);
      WeightConcat(stack, [segs[n]]);
      WeightConcat(stack, [".."]);
      assert [segs[n]][..0] == [] && Weight([segs[n]]) == |segs[n]| + 1;
    }
  }

  /** How far a path is from where Dir stops changing it. */
  function Remaining(path: string): nat {
    if path == "." then 0 else |path| + 1
  }

  lemma DirIsShort(path: string)
    ensures Dir(path) == "." || Dir(path) == "/" || |Dir(path)| < |path|
  {
    hide Clean, LastSlash;
    var head := path[..LastSlash(path) + 1];
    if head == "" {
      NoFolder();
    } else {
      var body := head[..|head| - 1];
      assert head == body + "/";
      FolderIsShorter(body);
    }
  }

  lemma NoFolder()
    ensures Clean("") == "."
  {
    Trivial();
  }

  lemma DirShrinks(path: string)
    ensures Dir(path) == path || Remaining(Dir(path)) < Remaining(path)
  {
    hide Clean;
    DirIsShort(path);
    if |path| <= 1 {
      NoFolder();
      Trivial();
      if path != "" && path[0] == '/' { assert path == "/" && path[..1] == "/"; }
    }
  }

  /** Cleaning a path with a trailing slash gives something shorter, or "/" or ".". */
  lemma FolderIsShorter(body: string)
    ensures var dir := Clean(body + "/"); dir == "." || dir == "/" || |dir| <= |body|
  {
    hide Pushes, Split, Join, Weight;
    var head := body + "/";
    var stack := Stack(head);
    FolderStack(body);
    if stack != [] {
      JoinWeight(stack);
      FolderWeight(head, body);
    } else {
      assert Join(stack) == "" by { NoJoin(); }
    }
  }

  lemma NoJoin()
    ensures Join([]) == ""
  {
  }

  lemma FolderStack(body: string)
    ensures Stack(body + "/") == Pushes(Rooted(body + "/"), [], Split(body))
  {
    hide Push;
    SplitConcat(body, "");
    assert body + "/" + "" == body + "/";
    var stack := Pushes(Rooted(body + "/"), [], Split(body));
    PushesConcat(Rooted(body + "/"), [], Split(body), [""]);
    PushNothing(Rooted(body + "/"), stack);
  }

  lemma PushNothing(rooted: bool, stack: seq<string>)
    ensures Pushes(rooted, stack, [""]) == stack
  {
    assert [""][..0] == [];
  }

  lemma FolderWeight(head: string, body: string)
    requires head == body + "/" && Stack(head) == Pushes(Rooted(head), [], Split(body))
    ensures Weight(Stack(head)) <= |body| + if Rooted(head) then 0 else 1
  {
    hide Pushes, Join, Weight;
    if !Rooted(head) {
      JoinSplit(body);
      JoinWeight(Split(body));
      StackWeight(false, Split(body));
    } else if body == "" {
      PushNothing(true, []);
      NoWeight();
    } else {
      var rest := body[1..];
      assert body == "/" + rest;
      SplitRooted(rest);
      DropLeadingEmpty(true, Split(rest));
      StackWeight(true, Split(rest));
      JoinSplit(rest);
      JoinWeight(Split(rest));
    }
  }

  lemma NoWeight()
    ensures Weight([]) == 0
  {
  }

  /** The k-th folder above a path. */
  function Above(path: string, k: nat): string {
    if k == 0 then path else Dir(Above(path, k - 1))
  }

  /** The deepest part of `path` that exists, links followed, lies in the real root. */
  ghost predicate DeepestIsInside(look: string -> Look, root: string, path: string) {
    exists k: nat ::
      && look(root).Found? && look(Above(path, k)).Found?
      && Inside(look(root).target, look(Above(path, k)).target)
      && forall j: nat :: j < k ==> look(Above(path, j)).Missing? && Above(path, j + 1) != Above(path, j)
  }

  lemma DecidedAt(look: string -> Look, root: string, path: string, k: nat)
    requires look(root).Found?
    requires forall j: nat :: j < k ==> look(Above(path, j)).Missing?
    requires !look(Above(path, k)).Missing? || Above(path, k + 1) == Above(path, k)
    ensures DeepestIsInside(look, root, path) ==>
              look(Above(path, k)).Found? && Inside(look(root).target, look(Above(path, k)).target)
  {
    if DeepestIsInside(look, root, path) {
      var n: nat :| look(Above(path, n)).Found? && Inside(look(root).target, look(Above(path, n)).target)
                    && forall j: nat :: j < n ==> look(Above(path, j)).Missing? && Above(path, j + 1) != Above(path, j);
      assert !(n < k) && !(k < n);
    }
  }

  /** The loop ends on every path, and lets through exactly the paths whose deepest
      existing part lies inside. */
  method AssertWithinRoot(look: string -> Look, root: string, path: string) returns (ok: bool)
    ensures ok <==> DeepestIsInside(look, root, path)
  {
    if !look(root).Found? {
      return false;
    }
    var cur := path;
    ghost var k: nat := 0;
    while true
      invariant cur == Above(path, k)
      invariant forall j: nat :: j < k ==> look(Above(path, j)).Missing? && Above(path, j + 1) != Above(path, j)
      decreases Remaining(cur)
    {
      var here := look(cur);
      DirShrinks(cur);
      if !here.Missing? || Dir(cur) == cur {
        assert Above(path, k + 1) == Dir(cur);
        DecidedAt(look, root, path, k);
      }
      if here.Found? {
        ok := Inside(look(root).target, here.target);
        return;
      }
      if here.Failed? {
        return false;
      }
      var parent := Dir(cur);
      if parent == cur {
        return false;
      }
      cur, k := parent, k + 1;
    }
  }

  // ----- names as stored and as read back -----

  /** Where a name unpacks to is never longer than the trimmed name. */
  lemma StackIsShorter(name: string)
    requires !Rooted(name) && Stack(name) != []
    ensures |Join(Stack(name))| <= |name|
  {
    hide Pushes, Split, Join, Weight;
    JoinWeight(Stack(name));
    StackWeight(false, Split(name));
    JoinSplit(name);
    JoinWeight(Split(name));
  }

  lemma {:induction false} TrimLeftLength(s: string)
    ensures |TrimLeft(s)| <= |s| && (|TrimLeft(s)| == |s| ==> TrimLeft(s) == s)
  {
    if s != "" && IsSpace(s[0]) { TrimLeftLength(s[1..]); }
  }

  lemma {:induction false} TrimRightLength(s: string)
    ensures |TrimRight(s)| <= |s| && (|TrimRight(s)| == |s| ==> TrimRight(s) == s)
  {
    if s != "" && IsSpace(s[|s| - 1]) { TrimRightLength(s[..|s| - 1]); }
  }

  /** Trimming a name it does not leave alone makes it shorter. */
  lemma TrimmingShortens(s: string)
    ensures |TrimSpace(s)| <= |s| && (|TrimSpace(s)| == |s| ==> TrimSpace(s) == s)
  {
    TrimLeftLength(s);
    TrimRightLength(TrimLeft(s));
  }
}
