/** internal/backup/backup.go: what a backup packs, what it names as skipped, and what
    extracting it brings back. */
module Backup {
  import opened Options
  import opened PathJail
  import opened ProjectFolder

  // ----- the data dir -----

  /** What stands in the data dir. A link is kept with what it points at, so that "not
      followed" says something. */
  datatype Item = Reg(data: Bytes) | Sub(items: Items) | Link(target: Item) | Special

  /** A directory's entries in the order a walk lists them. */
  datatype Items = Nil | Cons(name: string, item: Item, rest: Items)

  function Names(items: Items): set<string> {
    if items.Nil? then {} else {items.name} + Names(items.rest)
  }

  ghost predicate GoodItem(item: Item) {
    item.Sub? ==> GoodItems(item.items)
  }

  /** The names of a directory are ordinary and differ. */
  ghost predicate GoodItems(items: Items) {
    items.Cons? ==>
      && Normal(items.name) && '/' !in items.name && items.name !in Names(items.rest)
      && GoodItem(items.item) && GoodItems(items.rest)
  }

  /** The item at a path, as reached without following any link. */
  function LookUp(items: Items, p: Path): Option<Item>
    decreases items
  {
    if items.Nil? || p == [] then None
    else if items.name != p[0] then LookUp(items.rest, p)
    else if |p| == 1 then Some(items.item)
    else if items.item.Sub? then LookUp(items.item.items, p[1..])
    else None
  }

  // ----- packing -----

  datatype Kind = TypeDir | TypeReg(data: Bytes) | TypeSymlink | TypeOther

  datatype TarEntry = TarEntry(name: string, kind: Kind)

  /** What walking one item writes; `p` is its path below the data dir. */
  function ItemEntries(p: Path, item: Item): seq<TarEntry>
    decreases item
  {
    match item
    case Reg(data) => [TarEntry(Join(p), TypeReg(data))]
    case Sub(items) => [TarEntry(Join(p) + "/", TypeDir)] + ItemsEntries(p, items)
    case _ => []
  }

  function ItemsEntries(prefix: Path, items: Items): seq<TarEntry>
    decreases items
  {
    match items
    case Nil => []
    case Cons(name, item, rest) => ItemEntries(prefix + [name], item) + ItemsEntries(prefix, rest)
  }

  function ItemLinks(p: Path, item: Item): seq<Path>
    decreases item
  {
    match item
    case Sub(items) => ItemsLinks(p, items)
    case Link(_) => [p]
    case _ => []
  }

  function ItemsLinks(prefix: Path, items: Items): seq<Path>
    decreases items
  {
    match items
    case Nil => []
    case Cons(name, item, rest) => ItemLinks(prefix + [name], item) + ItemsLinks(prefix, rest)
  }

  function ItemBytes(item: Item): nat {
    match item
    case Reg(data) => |data|
    case Sub(items) => ItemsBytes(items)
    case _ => 0
  }

  function ItemsBytes(items: Items): nat {
    match items
    case Nil => 0
    case Cons(_, item, rest) => ItemBytes(item) + ItemsBytes(rest)
  }

  const DB_FILE: string := "docker-commander.db"
  const DATA_DIRS: seq<string> := ["projects", "project-templates", "project-revisions"]

  /** What one of the data dir's folders contributes; a link in its place is only named. */
  function TopEntries(dir: string, top: Option<Item>): seq<TarEntry> {
    if top.Some? && top.value.Sub? then ItemsEntries([dir], top.value.items) else []
  }

  function TopLinks(dir: string, top: Option<Item>): seq<Path> {
    if top.None? then []
    else if top.value.Link? then [[dir]]
    else if top.value.Sub? then ItemsLinks([dir], top.value.items)
    else []
  }

  function TopBytes(top: Option<Item>): nat {
    if top.Some? && top.value.Sub? then ItemsBytes(top.value.items) else 0
  }

  /** A folder's place holds nothing, a link or a folder; anything else fails the backup. */
  predicate Walkable(top: Option<Item>) {
    top.Some? ==> top.value.Link? || top.value.Sub?
  }

  function DirsEntries(data: Items, dirs: seq<string>): seq<TarEntry> {
    if dirs == [] then []
    else DirsEntries(data, dirs[..|dirs| - 1]) + TopEntries(dirs[|dirs| - 1], LookUp(data, [dirs[|dirs| - 1]]))
  }

  function DirsLinks(data: Items, dirs: seq<string>): seq<Path> {
    if dirs == [] then []
    else DirsLinks(data, dirs[..|dirs| - 1]) + TopLinks(dirs[|dirs| - 1], LookUp(data, [dirs[|dirs| - 1]]))
  }

  function DirsBytes(data: Items, dirs: seq<string>): nat {
    if dirs == [] then 0
    else DirsBytes(data, dirs[..|dirs| - 1]) + TopBytes(LookUp(data, [dirs[|dirs| - 1]]))
  }

  /** The archive being written and the report that grows with it. */
  class Archiver {
    var entries: seq<TarEntry>
    var skippedLinks: seq<Path>
    var bytes: nat

    constructor ()
      ensures entries == [] && skippedLinks == [] && bytes == 0
    {
      entries, skippedLinks, bytes := [], [], 0;
    }

    /** addOne, for an item the walk has met, and the walk below it. */
    method AddItem(p: Path, item: Item)
      modifies this
      ensures entries == old(entries) + ItemEntries(p, item)
      ensures skippedLinks == old(skippedLinks) + ItemLinks(p, item)
      ensures bytes == old(bytes) + ItemBytes(item)
      decreases item
    {
      match item
      case Link(_) => skippedLinks := skippedLinks + [p];
      case Reg(data) =>
        bytes := bytes + |data|;
        entries := entries + [TarEntry(Join(p), TypeReg(data))];
      case Sub(items) =>
        entries := entries + [TarEntry(Join(p) + "/", TypeDir)];
        Walk(p, items);
      case Special => // nothing to restore
    }

    method Walk(prefix: Path, items: Items)
      modifies this
      ensures entries == old(entries) + ItemsEntries(prefix, items)
      ensures skippedLinks == old(skippedLinks) + ItemsLinks(prefix, items)
      ensures bytes == old(bytes) + ItemsBytes(items)
      decreases items
    {
      if items.Cons? {
        AddItem(prefix + [items.name], items.item);
        Walk(prefix, items.rest);
      }
    }

    method AddTree(dir: string, top: Option<Item>) returns (ok: bool)
      modifies this
      ensures ok == Walkable(top)
      ensures ok ==> entries == old(entries) + TopEntries(dir, top) && bytes == old(bytes) + TopBytes(top)
      ensures ok ==> skippedLinks == old(skippedLinks) + TopLinks(dir, top)
    {
      if top.None? { return true; }
      if top.value.Link? {
        skippedLinks := skippedLinks + [[dir]];
        return true;
      }
      if !top.value.Sub? { return false; }
      Walk([dir], top.value.items);
      return true;
    }

    /** writeArchive: the database first, then the three folders. */
    method WriteArchive(db: Bytes, data: Items) returns (ok: bool)
      requires entries == [] && skippedLinks == [] && bytes == 0
      modifies this
      ensures ok <==> forall i :: 0 <= i < |DATA_DIRS| ==> Walkable(LookUp(data, [DATA_DIRS[i]]))
      ensures ok <==> forall i :: 0 <= i < |DATA_DIRS| ==>
                        LookUp(data, [DATA_DIRS[i]]) == None || LookUp(data, [DATA_DIRS[i]]).value.Link?
                        || LookUp(data, [DATA_DIRS[i]]).value.Sub?
      ensures ok ==> entries == [TarEntry(DB_FILE, TypeReg(db))] + DirsEntries(data, DATA_DIRS)
      ensures ok ==> skippedLinks == DirsLinks(data, DATA_DIRS) && bytes == |db| + DirsBytes(data, DATA_DIRS)
    {
      hide TopEntries, TopLinks, TopBytes, Walkable;
      assert forall top :: Walkable(top) <==> top == None || top.value.Link? || top.value.Sub? by { WalkableIs(); }
      entries := [TarEntry(DB_FILE, TypeReg(db))];
      bytes := |db|;
      for i := 0 to |DATA_DIRS|
        invariant forall j :: 0 <= j < i ==> Walkable(LookUp(data, [DATA_DIRS[j]]))
        invariant entries == [TarEntry(DB_FILE, TypeReg(db))] + DirsEntries(data, DATA_DIRS[..i])
        invariant skippedLinks == DirsLinks(data, DATA_DIRS[..i]) && bytes == |db| + DirsBytes(data, DATA_DIRS[..i])
      {
        assert DATA_DIRS[..i + 1][..i] == DATA_DIRS[..i];
        var added := AddTree(DATA_DIRS[i], LookUp(data, [DATA_DIRS[i]]));
        if !added { return false; }
      }
      assert DATA_DIRS[..|DATA_DIRS|] == DATA_DIRS;
      return true;
    }
  }

  lemma WalkableIs()
    ensures forall top :: Walkable(top) <==> top == None || top.value.Link? || top.value.Sub?
  {
  }

  // ----- the report -----

  predicate Starts(p: Path, prefix: Path) {
    |prefix| <= |p| && p[..|prefix|] == prefix
  }

  lemma {:induction false} ItemsLinksAreReached(prefix: Path, items: Items, p: Path)
    requires GoodItems(items)
    ensures p in ItemsLinks(prefix, items) <==>
              Starts(p, prefix) && LookUp(items, p[|prefix|..]).Some? && LookUp(items, p[|prefix|..]).value.Link?
    decreases items
  {
    if items.Cons? {
      ItemsLinksAreReached(prefix, items.rest, p);
      var here := prefix + [items.name];
      if items.item.Sub? { ItemsLinksAreReached(here, items.item.items, p); }
      if Starts(p, prefix) && |p| > |prefix| {
        var q := p[|prefix|..];
        assert Starts(p, here) <==> q[0] == items.name by {
          assert p[..|here|] == p[..|prefix|] + [p[|prefix|]];
        }
        assert q[1..] == p[|here|..];
        if q[0] == items.name { NotAmong(items.rest, q); }
        if |q| == 1 { assert q[0] == items.name ==> p == here; }
      }
    }
  }

  lemma {:induction false} NotAmong(items: Items, q: Path)
    requires q != [] && q[0] !in Names(items)
    ensures LookUp(items, q) == None
    decreases items
  {
    if items.Cons? { NotAmong(items.rest, q); }
  }

  ghost predicate NoRepeats(ps: seq<Path>) {
    forall i, j :: 0 <= i < j < |ps| ==> ps[i] != ps[j]
  }

  lemma NoRepeatsConcat(a: seq<Path>, b: seq<Path>)
    requires NoRepeats(a) && NoRepeats(b) && forall p :: p in a ==> p !in b
    ensures NoRepeats(a + b)
  {
    forall i, j | 0 <= i < j < |a + b| ensures (a + b)[i] != (a + b)[j] {
      if i < |a| <= j { assert a[i] in a; }
    }
  }

  /** No link is named twice. */
  lemma {:induction false} LinksAreNamedOnce(prefix: Path, items: Items)
    requires GoodItems(items)
    ensures NoRepeats(ItemsLinks(prefix, items))
    decreases items
  {
    if items.Cons? {
      var here := prefix + [items.name];
      LinksAreNamedOnce(prefix, items.rest);
      if items.item.Sub? { LinksAreNamedOnce(here, items.item.items); }
      forall p | p in ItemLinks(here, items.item) ensures p !in ItemsLinks(prefix, items.rest) {
        if items.item.Sub? { ItemsLinksAreReached(here, items.item.items, p); }
        assert Starts(p, here);
        assert p[|prefix|..][0] == here[|prefix|];
        ItemsLinksAreReached(prefix, items.rest, p);
        NotAmong(items.rest, p[|prefix|..]);
      }
      NoRepeatsConcat(ItemLinks(here, items.item), ItemsLinks(prefix, items.rest));
    }
  }

  function Packed(entries: seq<TarEntry>): nat {
    if entries == [] then 0
    else Packed(entries[1..]) + if entries[0].kind.TypeReg? then |entries[0].kind.data| else 0
  }

  lemma {:induction false} PackedConcat(a: seq<TarEntry>, b: seq<TarEntry>)
    ensures Packed(a + b) == Packed(a) + Packed(b)
  {
    if a == [] {
      assert a + b == b;
    } else {
      assert (a + b)[1..] == a[1..] + b;
      PackedConcat(a[1..], b);
    }
  }

  /** The reported size of a folder is what its files take in the archive. */
  lemma {:induction false} BytesArePacked(prefix: Path, items: Items)
    ensures ItemsBytes(items) == Packed(ItemsEntries(prefix, items))
    decreases items
  {
    if items.Cons? {
      var here := prefix + [items.name];
      BytesArePacked(prefix, items.rest);
      if items.item.Sub? {
        BytesArePacked(here, items.item.items);
        PackedConcat([TarEntry(Join(here) + "/", TypeDir)], ItemsEntries(here, items.item.items));
      }
      PackedConcat(ItemEntries(here, items.item), ItemsEntries(prefix, items.rest));
    }
  }

  lemma {:induction false} DirsBytesArePacked(data: Items, dirs: seq<string>)
    ensures DirsBytes(data, dirs) == Packed(DirsEntries(data, dirs))
  {
    if dirs != [] {
      var n := |dirs| - 1;
      DirsBytesArePacked(data, dirs[..n]);
      var top := LookUp(data, [dirs[n]]);
      if top.Some? && top.value.Sub? { BytesArePacked([dirs[n]], top.value.items); }
      PackedConcat(DirsEntries(data, dirs[..n]), TopEntries(dirs[n], top));
    }
  }

  /** The report's byte count is the sum of the sizes of the packed files. */
  lemma ReportedBytesArePacked(db: Bytes, data: Items)
    ensures |db| + DirsBytes(data, DATA_DIRS) == Packed([TarEntry(DB_FILE, TypeReg(db))] + DirsEntries(data, DATA_DIRS))
  {
    DirsBytesArePacked(data, DATA_DIRS);
    PackedConcat([TarEntry(DB_FILE, TypeReg(db))], DirsEntries(data, DATA_DIRS));
  }

  lemma {:induction false} DirsLinksAre(data: Items, dirs: seq<string>, p: Path)
    requires GoodItems(data) && forall i :: 0 <= i < |dirs| ==> Walkable(LookUp(data, [dirs[i]]))
    ensures p in DirsLinks(data, dirs) <==>
              p != [] && p[0] in dirs && LookUp(data, p).Some? && LookUp(data, p).value.Link?
  {
    if dirs != [] {
      var n := |dirs| - 1;
      DirsLinksAre(data, dirs[..n], p);
      TopLinksAre(data, dirs[n], p);
      assert dirs == dirs[..n] + [dirs[n]];
    }
  }

  lemma TopLinksAre(data: Items, dir: string, p: Path)
    requires GoodItems(data) && Walkable(LookUp(data, [dir]))
    ensures p in TopLinks(dir, LookUp(data, [dir])) <==>
              p != [] && p[0] == dir && LookUp(data, p).Some? && LookUp(data, p).value.Link?
  {
    var top := LookUp(data, [dir]);
    if p != [] && p[0] == dir { LookUpBelow(data, p); }
    assert p == [dir] <==> |p| == 1 && p[0] == dir;
    if top.Some? && top.value.Sub? {
      LookUpIsGood(data, [dir]);
      ItemsLinksAreReached([dir], top.value.items, p);
      assert p != [] ==> (Starts(p, [dir]) <==> p[0] == dir);
    }
  }

  lemma {:induction false} LookUpBelow(items: Items, p: Path)
    requires p != []
    ensures var top := LookUp(items, [p[0]]);
            LookUp(items, p) == if |p| == 1 then top
                                else if top.Some? && top.value.Sub? then LookUp(top.value.items, p[1..]) else None
    decreases items
  {
    if items.Cons? && items.name != p[0] { LookUpBelow(items.rest, p); }
    assert |p| == 1 ==> p == [p[0]];
  }

  lemma {:induction false} LookUpIsGood(items: Items, p: Path)
    requires GoodItems(items) && LookUp(items, p).Some?
    ensures GoodItem(LookUp(items, p).value)
    decreases items
  {
    if items.name != p[0] {
      LookUpIsGood(items.rest, p);
    } else if |p| > 1 && items.item.Sub? {
      LookUpIsGood(items.item.items, p[1..]);
    }
  }

  /** SkippedLinks names exactly the links that stand at or below one of the three folders
      and are reached without following a link. */
  lemma SkippedLinksAreTheReachableLinks(data: Items, p: Path)
    requires GoodItems(data) && forall i :: 0 <= i < |DATA_DIRS| ==> Walkable(LookUp(data, [DATA_DIRS[i]]))
    ensures p in DirsLinks(data, DATA_DIRS) <==>
              p != [] && p[0] in DATA_DIRS && LookUp(data, p).Some? && LookUp(data, p).value.Link?
  {
    DirsLinksAre(data, DATA_DIRS, p);
  }
}
