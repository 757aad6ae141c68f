/** Extracting a backup: internal/backup/backup.go, extract. */
module BackupRoundTrip {
  import opened Options
  import opened PathJail
  import opened ProjectFolder
  import opened Backup

  // ----- extraction -----

  /** filepath.Rel for a path inside the root, by segments. */
  function RelPath(root: string, dest: string): Path {
    if |dest| <= |root| + 1 then [] else Split(dest[|root| + 1..])
  }

  /** What extraction has written, and whether it is still going. */
  datatype Tar = Tar(folder: Folder, ok: bool)

  function MakeDirs(f: Folder, p: Path): Folder {
    if p == [] then f else WithParents(f, p)[p := Dir]
  }

  /** One header of the archive. */
  function ExtractOne(root: string, e: TarEntry, st: Tar): Tar {
    var dest := BackupJoin(root, e.name);
    if !st.ok then st
    else if dest.None? then st.(ok := false)
    else
      var p := RelPath(root, dest.value);
      match e.kind
      case TypeDir =>
        if ThroughFile(st.folder, p) || FileAt(st.folder, p).Some? then st.(ok := false)
        else Tar(MakeDirs(st.folder, p), true)
      case TypeSymlink => st.(ok := false) // a link is a way out; backups carry none
      case TypeReg(data) =>
        if ThroughFile(st.folder, p) then st.(ok := false)
        else
          var (f, ok) := PutFile(WithParents(st.folder, p), p, data, Works);
          Tar(f, ok)
      case TypeOther => st
  }

  function Extracted(root: string, entries: seq<TarEntry>, st: Tar): Tar {
    if entries == [] then st
    else ExtractOne(root, entries[|entries| - 1], Extracted(root, entries[..|entries| - 1], st))
  }

  method Extract(root: string, entries: seq<TarEntry>, dir: Folder) returns (folder: Folder, ok: bool)
    ensures Tar(folder, ok) == Extracted(root, entries, Tar(dir, true))
  {
    hide BackupJoin, RelPath, MakeDirs, WithParents, PutFile, ThroughFile, FileAt;
    folder, ok := dir, true;
    for i := 0 to |entries|
      invariant ok && Tar(folder, true) == Extracted(root, entries[..i], Tar(dir, true))
    {
      assert entries[..i + 1][..i] == entries[..i];
      var dest := BackupJoin(root, entries[i].name);
      ok := false;
      if dest.Some? {
        var p := RelPath(root, dest.value);
        match entries[i].kind
        case TypeDir =>
          if !ThroughFile(folder, p) && FileAt(folder, p).None? { folder, ok := MakeDirs(folder, p), true; }
        case TypeSymlink =>
        case TypeReg(data) =>
          if !ThroughFile(folder, p) {
            var (written, wrote) := PutFile(WithParents(folder, p), p, data, Works);
            folder, ok := written, wrote;
          }
        case TypeOther => ok := true;
      }
      if !ok {
        ExtractionStopped(root, entries, i + 1, Tar(dir, true));
        return;
      }
    }
    assert entries[..|entries|] == entries;
  }

  lemma {:induction false} ExtractionStopped(root: string, entries: seq<TarEntry>, i: nat, st: Tar)
    requires i <= |entries| && !Extracted(root, entries[..i], st).ok
    ensures Extracted(root, entries, st) == Extracted(root, entries[..i], st)
  {
    hide BackupJoin, RelPath, MakeDirs, WithParents, PutFile, ThroughFile, FileAt;
    if i == |entries| {
      assert entries[..i] == entries;
    } else {
      assert entries[..|entries| - 1][..i] == entries[..i];
      ExtractionStopped(root, entries[..|entries| - 1], i, st);
    }
  }

  lemma {:induction false} ExtractConcat(root: string, a: seq<TarEntry>, b: seq<TarEntry>, st: Tar)
    ensures Extracted(root, a + b, st) == Extracted(root, b, Extracted(root, a, st))
  {
    hide ExtractOne;
    if b == [] {
      assert a + b == a;
    } else {
      assert (a + b)[..|a + b| - 1] == a + b[..|b| - 1];
      ExtractConcat(root, a, b[..|b| - 1], st);
    }
  }

  /** The entry can be extracted over this folder: its name stays inside, it is no link, and
      no file stands where it needs a folder, nor a folder where it is a file. */
  ghost predicate Extractable(root: string, e: TarEntry, f: Folder) {
    && BackupJoin(root, e.name).Some? && !e.kind.TypeSymlink?
    && var p := RelPath(root, BackupJoin(root, e.name).value);
       e.kind.TypeDir? || e.kind.TypeReg? ==>
         && (forall i :: 0 < i < |p| && p[..i] in f ==> f[p[..i]].Dir?)
         && if e.kind.TypeDir? then p in f ==> f[p].Dir? else p != [] && (p in f ==> f[p].File?)
  }

  lemma OneExtracts(root: string, e: TarEntry, f: Folder)
    ensures ExtractOne(root, e, Tar(f, true)).ok <==> Extractable(root, e, f)
  {
    hide BackupJoin, RelPath, MakeDirs;
    if BackupJoin(root, e.name).Some? { ParentsAreShorter(RelPath(root, BackupJoin(root, e.name).value)); }
  }

  /** An extraction succeeds exactly when every entry can be extracted over what the ones
      before it left. */
  lemma {:induction false} ExtractionSucceedsIff(root: string, entries: seq<TarEntry>, dir: Folder)
    ensures Extracted(root, entries, Tar(dir, true)).ok <==>
              forall i :: 0 <= i < |entries| ==>
                Extractable(root, entries[i], Extracted(root, entries[..i], Tar(dir, true)).folder)
  {
    hide ExtractOne, Extractable;
    if entries != [] {
      var n := |entries| - 1;
      var st := Extracted(root, entries[..n], Tar(dir, true));
      ExtractionSucceedsIff(root, entries[..n], dir);
      forall i | 0 <= i < n ensures entries[..n][i] == entries[i] && entries[..n][..i] == entries[..i] {
      }
      if st.ok { OneExtracts(root, entries[n], st.folder); } else { StaysFailed(root, entries[n], st); }
    }
  }

  lemma StaysFailed(root: string, e: TarEntry, st: Tar)
    requires !st.ok
    ensures ExtractOne(root, e, st) == st
  {
  }

  // ----- any archive stays inside -----

  ghost predicate AllInside(f: Folder) {
    forall p :: p in f ==> AllNormal(p)
  }

  lemma RelOfUnder(root: string, segs: seq<string>)
    requires AllNormal(segs)
    ensures RelPath(root, Under(root, segs)) == segs
  {
    if segs != [] {
      SplitJoin(segs);
      assert Under(root, segs)[|root| + 1..] == Join(segs);
      FirstIsNotEmpty(segs);
    }
  }

  lemma FirstIsNotEmpty(segs: seq<string>)
    requires AllNormal(segs) && segs != []
    ensures Join(segs) != ""
  {
    assert Normal(segs[0]);
  }

  /** Whatever names an archive carries, everything it writes has ordinary segments below
      the data dir, and a link in it stops the extraction. */
  lemma {:induction false} ExtractionStaysInside(root: string, entries: seq<TarEntry>, f: Folder)
    requires CleanRoot(root) && Rooted(root) && AllInside(f)
    ensures var st := Extracted(root, entries, Tar(f, true));
            && AllInside(st.folder)
            && (st.ok ==> forall i :: 0 <= i < |entries| ==>
                  entries[i].kind != TypeSymlink && BackupJoin(root, entries[i].name).Some?)
  {
    hide ExtractOne, BackupJoin, CleanRoot, AllInside, Rooted;
    if entries != [] {
      var n := |entries| - 1;
      ExtractionStaysInside(root, entries[..n], f);
      OneStaysInside(root, entries[n], Extracted(root, entries[..n], Tar(f, true)));
    }
  }

  lemma OneStaysInside(root: string, e: TarEntry, st: Tar)
    requires CleanRoot(root) && Rooted(root) && AllInside(st.folder)
    ensures var st' := ExtractOne(root, e, st);
            && AllInside(st'.folder)
            && (st'.ok ==> st.ok && e.kind != TypeSymlink && BackupJoin(root, e.name).Some?)
  {
    hide CleanRoot, BackupJoin, RelPath, AllNormal, ThroughFile, FileAt;
    var dest := BackupJoin(root, e.name);
    if dest.Some? {
      BackupJoinStaysInside(root, e.name);
      var segs :| AllNormal(segs) && dest.value == Under(root, segs);
      RelOfUnder(root, segs);
      PartsAreNormal(segs);
    }
  }

  lemma PartsAreNormal(p: Path)
    requires AllNormal(p)
    ensures forall q :: q in Parents(p) ==> AllNormal(q)
  {
  }

  // ----- what comes back -----

  function ParentDirs(p: Path): Folder {
    map q | q in Parents(p) :: Dir
  }

  /** The files and folders an item brings, with the folders above it. */
  function ItemTree(p: Path, item: Item): Folder
    decreases item
  {
    match item
    case Reg(data) => ParentDirs(p)[p := File(data)]
    case Sub(items) => ParentDirs(p)[p := Dir] + ItemsTree(p, items)
    case _ => map[]
  }

  function ItemsTree(prefix: Path, items: Items): Folder
    decreases items
  {
    match items
    case Nil => map[]
    case Cons(name, item, rest) => ItemTree(prefix + [name], item) + ItemsTree(prefix, rest)
  }

  predicate OnTheWay(q: Path, p: Path) {
    0 < |q| < |p| && q == p[..|q|]
  }

  lemma ParentsAreOnTheWay(p: Path)
    ensures forall q :: q in ParentDirs(p) <==> OnTheWay(q, p)
  {
    ParentsAreShorter(p);
  }

  /** Folders above and what starts at a name of the directory, nothing else. */
  ghost predicate Keyed(f: Folder, prefix: Path, names: set<string>) {
    forall q :: q in f ==>
      || (0 < |q| <= |prefix| && q == prefix[..|q|] && f[q].Dir?)
      || (|q| > |prefix| && q[..|prefix|] == prefix && q[|prefix|] in names)
  }

  lemma {:induction false} ItemsTreeKeyed(prefix: Path, items: Items)
    ensures Keyed(ItemsTree(prefix, items), prefix, Names(items))
    decreases items
  {
    if items.Cons? {
      var here := prefix + [items.name];
      ItemsTreeKeyed(prefix, items.rest);
      ItemTreeKeyed(here, items.item);
      var f := ItemTree(here, items.item);
      assert Keyed(f, prefix, {items.name}) by {
        forall q | q in f
          ensures || (0 < |q| <= |prefix| && q == prefix[..|q|] && f[q].Dir?)
                  || (|q| > |prefix| && q[..|prefix|] == prefix && q[|prefix|] == items.name)
        {
          if OnTheWay(q, here) {
            assert q == here[..|q|] == prefix[..|q|];
          } else {
            assert q[..|here|] == here;
            assert q[..|prefix|] == here[..|prefix|] && q[|prefix|] == here[|prefix|];
          }
        }
      }
    }
  }

  lemma {:induction false} ItemTreeKeyed(p: Path, item: Item)
    requires p != []
    ensures forall q :: q in ItemTree(p, item) ==> (OnTheWay(q, p) && ItemTree(p, item)[q].Dir?) || Starts(q, p)
    decreases item
  {
    ParentsAreOnTheWay(p);
    if item.Sub? { ItemsTreeKeyed(p, item.items); }
  }

  /** Nothing stands in the way of `p`, and nothing at or below it. */
  ghost predicate CanPut(f: Folder, p: Path) {
    && (forall q :: q in f && OnTheWay(q, p) ==> f[q].Dir?)
    && (forall q :: q in f ==> !Starts(q, p))
  }

  ghost predicate CanPutAll(f: Folder, prefix: Path, items: Items) {
    && (forall q :: q in f && 0 < |q| <= |prefix| && q == prefix[..|q|] ==> f[q].Dir?)
    && (forall q :: q in f && |q| > |prefix| && q[..|prefix|] == prefix ==> q[|prefix|] !in Names(items))
  }

  lemma EntryLands(root: string, e: TarEntry, f: Folder, p: Path)
    requires CleanRoot(root) && AllNormal(p) && p != [] && (e.name == Join(p) || e.name == Join(p) + "/")
             && CanPut(f, p)
    ensures e.kind.TypeDir? ==> ExtractOne(root, e, Tar(f, true)) == Tar(f + ParentDirs(p)[p := Dir], true)
    ensures e.kind.TypeReg? ==>
            ExtractOne(root, e, Tar(f, true)) == Tar(f + ParentDirs(p)[p := File(e.kind.data)], true)
  {
    hide CleanRoot, BackupJoin, RelPath, AllNormal, Join, Under;
    BackupJoinOfWritten(root, p);
    RelOfUnder(root, p);
    assert Starts(p, p);
    assert p !in f;
    assert !ThroughFile(f, p) by {
      forall i | 0 < i < |p| && p[..i] in f ensures !f[p[..i]].File? {
        assert OnTheWay(p[..i], p);
      }
    }
    assert p !in WithParents(f, p) by { ParentsAreShorter(p); }
    assert WithParents(f, p) == f + ParentDirs(p);
    assert WithParents(f, p)[p := Dir] == f + ParentDirs(p)[p := Dir];
    assert e.kind.TypeReg? ==> WithParents(f, p)[p := File(e.kind.data)] == f + ParentDirs(p)[p := File(e.kind.data)];
  }

  lemma ExtractSingle(root: string, e: TarEntry, st: Tar)
    ensures Extracted(root, [e], st) == ExtractOne(root, e, st)
  {
    assert [e][..0] == [];
  }

  lemma {:induction false} ItemExtracts(root: string, f: Folder, p: Path, item: Item)
    requires CleanRoot(root) && AllNormal(p) && p != [] && GoodItem(item) && CanPut(f, p)
    ensures Extracted(root, ItemEntries(p, item), Tar(f, true)) == Tar(f + ItemTree(p, item), true)
    decreases item
  {
    hide CleanRoot, AllNormal, Join, ExtractOne, ParentDirs, Extracted, CanPut, CanPutAll, ItemsTree, ItemsEntries;
    match item
    case Reg(data) =>
      ExtractSingle(root, TarEntry(Join(p), TypeReg(data)), Tar(f, true));
      EntryLands(root, TarEntry(Join(p), TypeReg(data)), f, p);
    case Sub(items) =>
      var e := TarEntry(Join(p) + "/", TypeDir);
      ExtractSingle(root, e, Tar(f, true));
      EntryLands(root, e, f, p);
      ExtractConcat(root, [e], ItemsEntries(p, items), Tar(f, true));
      var g := f + ParentDirs(p)[p := Dir];
      RoomBelow(f, p, items);
      ItemsExtract(root, g, p, items);
      assert g + ItemsTree(p, items) == f + (ParentDirs(p)[p := Dir] + ItemsTree(p, items));
    case _ =>
      assert f + map[] == f;
      ExtractNothing(root, Tar(f, true));
  }

  lemma ExtractNothing(root: string, st: Tar)
    ensures Extracted(root, [], st) == st
  {
  }

  lemma RoomBelow(f: Folder, p: Path, items: Items)
    requires CanPut(f, p) && p != []
    ensures CanPutAll(f + ParentDirs(p)[p := Dir], p, items)
  {
    ParentsAreOnTheWay(p);
    var g := f + ParentDirs(p)[p := Dir];
    forall q | q in g && 0 < |q| <= |p| && q == p[..|q|] ensures g[q].Dir? {
      if |q| < |p| { assert OnTheWay(q, p); } else { assert q == p; }
    }
  }

  lemma StartsHere(q: Path, prefix: Path, name: string)
    ensures Starts(q, prefix + [name]) <==> |q| > |prefix| && q[..|prefix|] == prefix && q[|prefix|] == name
  {
    if |q| > |prefix| { assert q[..|prefix| + 1] == q[..|prefix|] + [q[|prefix|]]; }
  }

  lemma RoomForFirst(f: Folder, prefix: Path, items: Items)
    requires CanPutAll(f, prefix, items) && items.Cons?
    ensures CanPut(f, prefix + [items.name])
  {
    var here := prefix + [items.name];
    forall q | q in f ensures !Starts(q, here) {
      StartsHere(q, prefix, items.name);
    }
    forall q | q in f && OnTheWay(q, here) ensures f[q].Dir? {
      assert q == here[..|q|] == prefix[..|q|];
    }
  }

  lemma RoomForRest(f: Folder, prefix: Path, items: Items)
    requires CanPutAll(f, prefix, items) && items.Cons? && GoodItems(items)
    ensures CanPutAll(f + ItemTree(prefix + [items.name], items.item), prefix, items.rest)
  {
    var here := prefix + [items.name];
    ItemTreeKeyed(here, items.item);
    var t := ItemTree(here, items.item);
    forall q | q in t && |q| > |prefix| && q[..|prefix|] == prefix ensures q[|prefix|] !in Names(items.rest) {
      assert !OnTheWay(q, here);
      assert q[|prefix|] == q[..|here|][|prefix|];
    }
    forall q | q in t && 0 < |q| <= |prefix| && q == prefix[..|q|] ensures t[q].Dir? {
      assert !Starts(q, here);
    }
  }

  lemma NormalBelow(prefix: Path, name: string)
    requires AllNormal(prefix) && Normal(name) && '/' !in name
    ensures AllNormal(prefix + [name])
  {
  }

  lemma {:induction false} ItemsExtract(root: string, f: Folder, prefix: Path, items: Items)
    requires CleanRoot(root) && AllNormal(prefix) && prefix != [] && GoodItems(items) && CanPutAll(f, prefix, items)
    ensures Extracted(root, ItemsEntries(prefix, items), Tar(f, true)) == Tar(f + ItemsTree(prefix, items), true)
    decreases items
  {
    hide CleanRoot, Extracted, CanPutAll, CanPut, ItemTree, AllNormal, ItemEntries;
    if items.Nil? {
      assert f + map[] == f;
      ExtractNothing(root, Tar(f, true));
    } else {
      var here := prefix + [items.name];
      NormalBelow(prefix, items.name);
      RoomForFirst(f, prefix, items);
      RoomForRest(f, prefix, items);
      ItemExtracts(root, f, here, items.item);
      var g := f + ItemTree(here, items.item);
      ItemsExtract(root, g, prefix, items.rest);
      ExtractConcat(root, ItemEntries(here, items.item), ItemsEntries(prefix, items.rest), Tar(f, true));
      assert g + ItemsTree(prefix, items.rest) == f + (ItemTree(here, items.item) + ItemsTree(prefix, items.rest));
    }
  }

  // ----- what came back is what stood there -----

  function Get(f: Folder, p: Path): Option<Node> {
    if p in f then Some(f[p]) else None
  }

  /** What a backup keeps of an item: files and folders, no links, nothing special. */
  function Keep(item: Option<Item>): Option<Node> {
    if item.None? then None
    else match item.value
      case Reg(data) => Some(File(data))
      case Sub(_) => Some(Dir)
      case _ => None
  }

  lemma {:induction false} TreeIsWhatStoodThere(prefix: Path, items: Items, q: Path)
    requires GoodItems(items) && q != []
    ensures Get(ItemsTree(prefix, items), prefix + q) == Keep(LookUp(items, q))
    decreases items
  {
    if items.Cons? {
      var here := prefix + [items.name];
      var p := prefix + q;
      TreeIsWhatStoodThere(prefix, items.rest, q);
      ItemTreeKeyed(here, items.item);
      assert !OnTheWay(p, here);
      StartsHere(p, prefix, items.name);
      if q[0] == items.name {
        NotAmong(items.rest, q);
        assert p == here + q[1..];
        ItemAt(here, items.item, q[1..]);
      }
    }
  }

  lemma {:induction false} ItemAt(here: Path, item: Item, q: Path)
    requires GoodItem(item) && here != []
    ensures Get(ItemTree(here, item), here + q)
            == Keep(if q == [] then Some(item) else if item.Sub? then LookUp(item.items, q) else None)
    decreases item
  {
    ParentsAreOnTheWay(here);
    assert !OnTheWay(here + q, here);
    assert here + q == here <==> q == [];
    if item.Sub? {
      ItemsTreeKeyed(here, item.items);
      if q != [] { TreeIsWhatStoodThere(here, item.items, q); }
    }
  }

  /** The folder above appears as soon as one of its items is kept. */
  lemma {:induction false} PrefixAppears(prefix: Path, items: Items)
    requires GoodItems(items) && prefix != []
    ensures prefix in ItemsTree(prefix, items) <==> exists name :: Keep(LookUp(items, [name])).Some?
    decreases items
  {
    if items.Cons? {
      var here := prefix + [items.name];
      PrefixAppears(prefix, items.rest);
      ParentsAreOnTheWay(here);
      assert OnTheWay(prefix, here) by { assert here[..|prefix|] == prefix; }
      NotAmong(items.rest, [items.name]);
      assert LookUp(items, [items.name]) == Some(items.item);
      assert forall name :: name != items.name ==> LookUp(items, [name]) == LookUp(items.rest, [name]);
    }
  }

  // ----- the whole backup -----

  function TopTree(dir: string, top: Option<Item>): Folder {
    if top.Some? && top.value.Sub? then ItemsTree([dir], top.value.items) else map[]
  }

  function DirsTree(data: Items, dirs: seq<string>): Folder {
    if dirs == [] then map[]
    else DirsTree(data, dirs[..|dirs| - 1]) + TopTree(dirs[|dirs| - 1], LookUp(data, [dirs[|dirs| - 1]]))
  }

  ghost predicate Below(f: Folder, tops: seq<string>) {
    forall p :: p in f ==> p != [] && p[0] in tops
  }

  ghost predicate GoodDirs(dirs: seq<string>) {
    && (forall i :: 0 <= i < |dirs| ==> Normal(dirs[i]) && '/' !in dirs[i])
    && forall i, j :: 0 <= i < j < |dirs| ==> dirs[i] != dirs[j]
  }

  lemma TopTreeBelow(data: Items, dir: string)
    ensures Below(TopTree(dir, LookUp(data, [dir])), [dir])
  {
    var top := LookUp(data, [dir]);
    if top.Some? && top.value.Sub? {
      ItemsTreeKeyed([dir], top.value.items);
      var f := ItemsTree([dir], top.value.items);
      forall p | p in f ensures p != [] && p[0] in [dir] {
        assert |p| > 1 ==> p[0] == p[..1][0];
      }
    }
  }

  lemma {:induction false} DirsTreeBelow(data: Items, dirs: seq<string>)
    ensures Below(DirsTree(data, dirs), dirs)
  {
    hide TopTree;
    if dirs != [] {
      var n := |dirs| - 1;
      DirsTreeBelow(data, dirs[..n]);
      TopTreeBelow(data, dirs[n]);
    }
  }

  lemma TopExtracts(root: string, data: Items, dir: string, f: Folder, tops: seq<string>)
    requires CleanRoot(root) && GoodItems(data) && Normal(dir) && '/' !in dir && dir !in tops && Below(f, tops)
    ensures var top := LookUp(data, [dir]);
            Extracted(root, TopEntries(dir, top), Tar(f, true)) == Tar(f + TopTree(dir, top), true)
  {
    hide CleanRoot, Extracted;
    var top := LookUp(data, [dir]);
    if top.Some? && top.value.Sub? {
      LookUpIsGood(data, [dir]);
      forall q | q in f ensures !(0 < |q| <= 1 && q == [dir][..|q|]) && !(|q| > 1 && q[..1] == [dir]) {
        assert q[0] in tops;
        assert |q| > 1 ==> q[..1][0] == q[0];
        assert |q| == 1 ==> [dir][..1] == [dir];
      }
      assert AllNormal([dir]);
      ItemsExtract(root, f, [dir], top.value.items);
    } else {
      assert f + map[] == f;
      ExtractNothing(root, Tar(f, true));
    }
  }

  lemma BelowBoth(f: Folder, tops: seq<string>, g: Folder, dirs: seq<string>)
    requires Below(f, tops) && Below(g, dirs)
    ensures Below(f + g, tops + dirs)
  {
  }

  lemma GoodDirsSplit(dirs: seq<string>, n: nat)
    requires GoodDirs(dirs) && n == |dirs| - 1
    ensures GoodDirs(dirs[..n]) && Normal(dirs[n]) && '/' !in dirs[n] && dirs[n] !in dirs[..n]
  {
  }

  lemma {:induction false} DirsExtract(root: string, data: Items, dirs: seq<string>, f: Folder, tops: seq<string>)
    requires CleanRoot(root) && GoodItems(data) && GoodDirs(dirs) && Below(f, tops)
    requires forall i :: 0 <= i < |dirs| ==> dirs[i] !in tops
    ensures Extracted(root, DirsEntries(data, dirs), Tar(f, true)) == Tar(f + DirsTree(data, dirs), true)
  {
    hide CleanRoot, Extracted, TopTree, TopEntries, Below, GoodDirs, GoodItems, LookUp, Normal;
    if dirs == [] {
      assert f + map[] == f;
      ExtractNothing(root, Tar(f, true));
    } else {
      var n := |dirs| - 1;
      var before, top := DirsTree(data, dirs[..n]), LookUp(data, [dirs[n]]);
      GoodDirsSplit(dirs, n);
      DirsExtract(root, data, dirs[..n], f, tops);
      DirsTreeBelow(data, dirs[..n]);
      BelowBoth(f, tops, before, dirs[..n]);
      TopExtracts(root, data, dirs[n], f + before, tops + dirs[..n]);
      ExtractConcat(root, DirsEntries(data, dirs[..n]), TopEntries(dirs[n], top), Tar(f, true));
      assert (f + before) + TopTree(dirs[n], top) == f + (before + TopTree(dirs[n], top));
    }
  }

  /** What a path in the restored data dir should hold: files and folders as they stood
      below the three folders; the folders themselves when anything is kept in them. */
  ghost function Expected(data: Items, p: Path): Option<Node> {
    if p == [] || p[0] !in DATA_DIRS then None
    else if |p| > 1 then Keep(LookUp(data, p))
    else if exists name :: Keep(LookUp(data, p + [name])).Some? then Some(Dir)
    else None
  }

  lemma {:induction false} DirsTreeAt(data: Items, dirs: seq<string>, p: Path)
    requires GoodDirs(dirs) && p != []
    ensures Get(DirsTree(data, dirs), p) == if p[0] in dirs then Get(TopTree(p[0], LookUp(data, [p[0]])), p) else None
  {
    hide TopTree;
    DirsTreeBelow(data, dirs);
    if dirs != [] {
      var n := |dirs| - 1;
      DirsTreeAt(data, dirs[..n], p);
      DirsTreeBelow(data, dirs[..n]);
      TopTreeBelow(data, dirs[n]);
      assert dirs == dirs[..n] + [dirs[n]];
      assert dirs[n] !in dirs[..n];
    }
  }

  lemma TopTreeAt(data: Items, p: Path)
    requires GoodItems(data) && p != [] && p[0] in DATA_DIRS
    ensures Get(TopTree(p[0], LookUp(data, [p[0]])), p) == Expected(data, p)
  {
    var top := LookUp(data, [p[0]]);
    LookUpBelow(data, p);
    if top.Some? { LookUpIsGood(data, [p[0]]); }
    if |p| == 1 {
      assert p == [p[0]];
      forall name
        ensures LookUp(data, p + [name])
                == if top.Some? && top.value.Sub? then LookUp(top.value.items, [name]) else None
      {
        LookUpBelow(data, p + [name]);
        assert (p + [name])[1..] == [name];
      }
      if top.Some? && top.value.Sub? {
        PrefixAppears(p, top.value.items);
        ItemsTreeKeyed(p, top.value.items);
      }
    } else if top.Some? && top.value.Sub? {
      TreeIsWhatStoodThere([p[0]], top.value.items, p[1..]);
      assert [p[0]] + p[1..] == p;
    }
  }

  /** Extracting a backup into an empty data dir succeeds and brings back the database,
      and at every path exactly the file or folder that stood there under one of the three
      folders: no link, nothing special, nothing from anywhere else. */
  lemma ExtractingBringsTheDataBack(root: string, db: Bytes, data: Items)
    requires CleanRoot(root) && GoodItems(data)
    ensures var st :=
            Extracted(root, [TarEntry(DB_FILE, TypeReg(db))] + DirsEntries(data, DATA_DIRS), Tar(map[], true));
            && st.ok && Get(st.folder, [DB_FILE]) == Some(File(db))
            && forall p :: p != [DB_FILE] ==> Get(st.folder, p) == Expected(data, p)
  {
    hide CleanRoot, Extracted, TopTree, TopEntries, Expected;
    var e := TarEntry(DB_FILE, TypeReg(db));
    var f: Folder := map[[DB_FILE] := File(db)];
    DatabaseLands(root, db);
    ExtractSingle(root, e, Tar(map[], true));
    ExtractConcat(root, [e], DirsEntries(data, DATA_DIRS), Tar(map[], true));
    DataDirsAreGood();
    DirsExtract(root, data, DATA_DIRS, f, [DB_FILE]);
    DirsTreeBelow(data, DATA_DIRS);
    forall p | p != [DB_FILE] ensures Get(f + DirsTree(data, DATA_DIRS), p) == Expected(data, p) {
      if p == [] {
        NothingAtTop(data);
      } else {
        NonDatabaseAt(data, p);
      }
    }
  }

  lemma NonDatabaseAt(data: Items, p: Path)
    requires GoodItems(data) && p != []
    ensures Get(DirsTree(data, DATA_DIRS), p) == Expected(data, p)
  {
    hide Expected, TopTree, Get;
    DataDirsAreGood();
    DirsTreeAt(data, DATA_DIRS, p);
    if p[0] in DATA_DIRS { TopTreeAt(data, p); } else { NothingElsewhere(data, p); }
  }

  lemma NothingAtTop(data: Items)
    ensures Expected(data, []) == None
  {
  }

  lemma NothingElsewhere(data: Items, p: Path)
    requires p != [] && p[0] !in DATA_DIRS
    ensures Expected(data, p) == None
  {
  }

  lemma DataDirsAreGood()
    ensures GoodDirs(DATA_DIRS) && forall i :: 0 <= i < |DATA_DIRS| ==> DATA_DIRS[i] !in [DB_FILE]
    ensures DB_FILE !in DATA_DIRS
  {
    assert |DATA_DIRS[0]| == 8 && |DATA_DIRS[1]| == 17 && |DATA_DIRS[2]| == 17 && |DB_FILE| == 19;
    assert DATA_DIRS[1][8] == 't' && DATA_DIRS[2][8] == 'r';
  }

  lemma DatabaseLands(root: string, db: Bytes)
    requires CleanRoot(root)
    ensures ExtractOne(root, TarEntry(DB_FILE, TypeReg(db)), Tar(map[], true)) == Tar(map[[DB_FILE] := File(db)], true)
  {
    hide CleanRoot, ExtractOne;
    assert AllNormal([DB_FILE]);
    assert Join([DB_FILE]) == DB_FILE;
    EntryLands(root, TarEntry(DB_FILE, TypeReg(db)), map[], [DB_FILE]);
    ParentsAreOnTheWay([DB_FILE]);
    assert ParentDirs([DB_FILE]) == map[];
    assert map[] + map[[DB_FILE] := File(db)] == map[[DB_FILE] := File(db)];
  }
}
