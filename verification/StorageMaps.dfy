/** Maps from addresses to the storage a transaction depends on, and how a bundle merges them. */
module StorageMaps {
  import opened Basics

  type SlotMap = map<Word, string>

  /** For each address, either the root hash of its whole storage, or the value of some slots. */
  datatype StorageEntry = Root(hash: string) | Slots(slots: SlotMap)

  type StorageMap = map<Address, StorageEntry>

  // ---- The meaning of a merge ----

  function SlotsAt(m: StorageMap, a: Address): SlotMap {
    if a in m && m[a].Slots? then m[a].slots else map[]
  }

  function MergedEntry(merged: StorageMap, a: Address, e: StorageEntry): StorageEntry {
    match e
    case Root(_) => e
    case Slots(slots) =>
      if a in merged && merged[a].Root? then merged[a] else Slots(SlotsAt(merged, a) + slots)
  }

  function Merged(merged: StorageMap, other: StorageMap): StorageMap {
    map a | a in merged.Keys + other.Keys ::
      if a in other then MergedEntry(merged, a, other[a]) else merged[a]
  }

  function MergeAll(maps: seq<StorageMap>): StorageMap {
    if maps == [] then map[] else Merged(MergeAll(maps[..|maps| - 1]), maps[|maps| - 1])
  }

  // ---- The merge in place ----

  class SlotTable {
    var slots: SlotMap

    constructor ()
      ensures slots == map[]
    {
      slots := map[];
    }

    method Put(slot: Word, value: string)
      modifies this
      ensures slots == old(slots)[slot := value]
    {
      slots := slots[slot := value];
    }
  }

  datatype Node = RootNode(hash: string) | TableNode(table: SlotTable)

  /** A storage map as an object: the slot tables are objects of their own, reachable by reference. */
  class StorageTable {
    var nodes: map<Address, Node>
    ghost var Contents: StorageMap  // the map this object stands for
    ghost var Tables: set<SlotTable>  // the slot tables it owns

    /** The object represents its contents, and no slot table is shared between two addresses. */
    ghost predicate Valid()
      reads this, Tables
    {
      && nodes.Keys == Contents.Keys
      && (forall a <- nodes.Keys :: nodes[a].TableNode? ==> nodes[a].table in Tables)
      && (forall a <- nodes.Keys :: Contents[a] == EntryOf(nodes[a]))
      && (forall a, b | a in nodes && b in nodes && a != b && nodes[a].TableNode? && nodes[b].TableNode? ::
            nodes[a].table != nodes[b].table)
    }

    constructor ()
      ensures Valid() && nodes == map[] && Contents == map[] && Tables == {}
    {
      nodes, Contents, Tables := map[], map[], {};
    }

    /** A fresh object holding the given contents, sharing nothing. */
    constructor Holding(m: StorageMap)
      ensures Valid() && fresh(Tables) && Contents == m
    {
      nodes, Contents, Tables := map[], map[], {};
      new;
      var pending := m.Keys;
      while pending != {}
        invariant pending <= m.Keys && Contents.Keys == m.Keys - pending
        invariant Valid() && fresh(Tables)
        invariant forall a <- Contents.Keys :: Contents[a] == m[a]
        decreases pending
      {
        var a :| a in pending;
        Define(a, m[a]);
        pending := pending - {a};
      }
    }

    /** Gives an address a new entry, in a slot table of its own. */
    method Define(a: Address, e: StorageEntry)
      requires Valid()
      modifies this
      ensures Valid() && old(Tables) <= Tables && fresh(Tables - old(Tables)) && Contents == old(Contents)[a := e]
    {
      match e {
        case Root(h) =>
          nodes := nodes[a := RootNode(h)];
        case Slots(slots) =>
          var table := new SlotTable();
          table.slots := slots;
          nodes := nodes[a := TableNode(table)];
          Tables := Tables + {table};
      }
      Contents := Contents[a := e];
    }

    method SetRoot(a: Address, hash: string)
      requires Valid()
      modifies this
      ensures Valid() && Tables == old(Tables) && Contents == old(Contents)[a := Root(hash)]
    {
      nodes := nodes[a := RootNode(hash)];
      Contents := Contents[a := Root(hash)];
    }
  }

  function EntryOf(node: Node): StorageEntry
    reads if node.TableNode? then {node.table} else {}
  {
    match node
    case RootNode(h) => Root(h)
    case TableNode(t) => Slots(t.slots)
  }

  method CopySlots(from: SlotMap, to: SlotTable)
    modifies to
    ensures to.slots == old(to.slots) + from
  {
    var pending := from.Keys;
    while pending != {}
      invariant pending <= from.Keys
      invariant to.slots.Keys == old(to.slots).Keys + (from.Keys - pending)
      invariant forall s <- to.slots.Keys ::
        to.slots[s] == if s in from && s !in pending then from[s] else old(to.slots)[s]
      decreases pending
    {
      var slot :| slot in pending;
      to.Put(slot, from[slot]);
      pending := pending - {slot};
    }
  }

  /** Merges one entry of a validated map into the merged map. */
  method MergeEntry(merged: StorageTable, a: Address, node: Node)
    requires merged.Valid() && (node.TableNode? ==> node.table !in merged.Tables)
    modifies merged, merged.Tables
    ensures merged.Valid() && old(merged.Tables) <= merged.Tables && fresh(merged.Tables - old(merged.Tables))
    ensures merged.Contents == old(merged.Contents)[a := MergedEntry(old(merged.Contents), a, old(EntryOf(node)))]
  {
    match node
    case RootNode(h) =>
      merged.SetRoot(a, h);
    case TableNode(source) =>
      if a in merged.nodes && merged.nodes[a].RootNode? {
        // merged address already contains a root
        assert merged.Contents == merged.Contents[a := merged.Contents[a]];
        return;
      }
      var table: SlotTable;
      ghost var before := SlotsAt(merged.Contents, a);
      if a !in merged.nodes {
        table := new SlotTable();
        merged.nodes := merged.nodes[a := TableNode(table)];
        merged.Tables := merged.Tables + {table};
      } else {
        table := merged.nodes[a].table;
      }
      assert table.slots == before;
      CopySlots(source.slots, table);
      merged.Contents := merged.Contents[a := Slots(table.slots)];
  }

  function Restricted(m: StorageMap, keys: set<Address>): StorageMap {
    map a | a in m && a in keys :: m[a]
  }

  lemma MergedOneMore(before: StorageMap, other: StorageMap, keys: set<Address>, a: Address)
    requires a in other && a !in keys
    ensures Merged(before, Restricted(other, keys + {a}))
         == var merged := Merged(before, Restricted(other, keys)); merged[a := MergedEntry(merged, a, other[a])]
  {
  }

  /** Entries with a root win over slots; the validated map is neither changed nor shared. */
  method MergeStorageMap(merged: StorageTable, validated: StorageTable)
    requires merged != validated && merged.Valid() && validated.Valid() && merged.Tables !! validated.Tables
    modifies merged, merged.Tables
    ensures merged.Valid() && fresh(merged.Tables - old(merged.Tables)) && merged.Tables !! validated.Tables
    ensures merged.Contents == Merged(old(merged.Contents), validated.Contents)
    ensures validated.Valid()
  {
    ghost var before, done: set<Address> := merged.Contents, {};
    assert merged.Contents == Merged(before, Restricted(validated.Contents, done));
    var pending := validated.nodes.Keys;
    while pending != {}
      invariant pending <= validated.nodes.Keys && done == validated.Contents.Keys - pending
      invariant validated.Valid() && merged.Valid()
      invariant fresh(merged.Tables - old(merged.Tables)) && merged.Tables !! validated.Tables
      invariant merged.Contents == Merged(before, Restricted(validated.Contents, done))
      decreases pending
    {
      var a :| a in pending;
      MergedOneMore(before, validated.Contents, done, a);
      MergeEntry(merged, a, validated.nodes[a]);
      pending := pending - {a};
      done := done + {a};
    }
    assert Restricted(validated.Contents, done) == validated.Contents;
  }

  // ---- Folding a list of maps ----

  /** The roots the maps give an address, in order. */
  function RootsAt(maps: seq<StorageMap>, a: Address): seq<string> {
    if maps == [] then []
    else
      var last := maps[|maps| - 1];
      RootsAt(maps[..|maps| - 1], a) + (if a in last && last[a].Root? then [last[a].hash] else [])
  }

  /** The slots the maps give an address, later values winning. */
  function SlotUnion(maps: seq<StorageMap>, a: Address): SlotMap {
    if maps == [] then map[]
    else SlotUnion(maps[..|maps| - 1], a) + SlotsAt(maps[|maps| - 1], a)
  }

  lemma {:induction false} MergeAllKeys(maps: seq<StorageMap>, a: Address)
    ensures a in MergeAll(maps) <==> exists m <- maps :: a in m
  {
    if maps != [] {
      var init, last := maps[..|maps| - 1], maps[|maps| - 1];
      MergeAllKeys(init, a);
      assert maps == init + [last];
    }
  }

  /** The last root if any map has one, otherwise the union of the slots; absent when no map has the address. */
  lemma {:induction false} MergeAllMeaning(maps: seq<StorageMap>, a: Address)
    ensures a in MergeAll(maps) <==> exists m <- maps :: a in m
    ensures a in MergeAll(maps) ==>
              MergeAll(maps)[a] == if RootsAt(maps, a) != [] then Root(RootsAt(maps, a)[|RootsAt(maps, a)| - 1])
                                   else Slots(SlotUnion(maps, a))
    ensures a !in MergeAll(maps) ==> RootsAt(maps, a) == [] && SlotUnion(maps, a) == map[]
  {
    MergeAllKeys(maps, a);
    if maps != [] {
      var init, last := maps[..|maps| - 1], maps[|maps| - 1];
      MergeAllMeaning(init, a);
      assert MergeAll(maps) == Merged(MergeAll(init), last);
    }
  }

  // ---- Agreement makes order and repetition irrelevant ----

  /** The maps never give two roots, or two values of a slot, for the same address. */
  ghost predicate Agree(maps: seq<StorageMap>) {
    forall m, n, a | m in maps && n in maps && a in m && a in n :: EntriesAgree(m[a], n[a])
  }

  predicate EntriesAgree(x: StorageEntry, y: StorageEntry) {
    match (x, y)
    case (Root(h), Root(h')) => h == h'
    case (Slots(s), Slots(s')) => forall k | k in s && k in s' :: s[k] == s'[k]
    case _ => true
  }

  lemma {:induction false} RootsAtMembers(maps: seq<StorageMap>, a: Address, h: string)
    ensures h in RootsAt(maps, a) <==> exists m <- maps :: a in m && m[a] == Root(h)
  {
    if maps != [] {
      var init, last := maps[..|maps| - 1], maps[|maps| - 1];
      RootsAtMembers(init, a, h);
      assert maps == init + [last];
    }
  }

  lemma {:induction false} SlotUnionMembers(maps: seq<StorageMap>, a: Address, k: Word)
    ensures k in SlotUnion(maps, a) <==> exists m <- maps :: k in SlotsAt(m, a)
    ensures k in SlotUnion(maps, a)
         ==> exists m <- maps :: k in SlotsAt(m, a) && SlotsAt(m, a)[k] == SlotUnion(maps, a)[k]
  {
    if maps != [] {
      var init, last := maps[..|maps| - 1], maps[|maps| - 1];
      SlotUnionMembers(init, a, k);
      assert maps == init + [last];
    }
  }

  lemma SameRoots(xs: seq<StorageMap>, ys: seq<StorageMap>, a: Address)
    requires Agree(xs) && forall m :: m in xs <==> m in ys
    ensures RootsAt(xs, a) == [] <==> RootsAt(ys, a) == []
    ensures RootsAt(xs, a) != [] ==>
              RootsAt(xs, a)[|RootsAt(xs, a)| - 1] == RootsAt(ys, a)[|RootsAt(ys, a)| - 1]
  {
    var rx, ry := RootsAt(xs, a), RootsAt(ys, a);
    if rx != [] {
      RootsAtMembers(xs, a, rx[|rx| - 1]);
      RootsAtMembers(ys, a, rx[|rx| - 1]);
    }
    if ry != [] {
      RootsAtMembers(ys, a, ry[|ry| - 1]);
      RootsAtMembers(xs, a, ry[|ry| - 1]);
    }
  }

  lemma SameSlots(xs: seq<StorageMap>, ys: seq<StorageMap>, a: Address)
    requires Agree(xs) && forall m :: m in xs <==> m in ys
    ensures SlotUnion(xs, a) == SlotUnion(ys, a)
  {
    forall k: Word
      ensures k in SlotUnion(xs, a) <==> k in SlotUnion(ys, a)
      ensures k in SlotUnion(xs, a) ==> SlotUnion(xs, a)[k] == SlotUnion(ys, a)[k]
    {
      SlotUnionMembers(xs, a, k);
      SlotUnionMembers(ys, a, k);
    }
  }

  /** Maps that agree merge to the same result in any order and with any repetition. */
  lemma MergeAllOrderIrrelevant(xs: seq<StorageMap>, ys: seq<StorageMap>)
    requires Agree(xs) && forall m :: m in xs <==> m in ys
    ensures MergeAll(xs) == MergeAll(ys)
  {
    forall a: Address
      ensures a in MergeAll(xs) <==> a in MergeAll(ys)
      ensures a in MergeAll(xs) ==> MergeAll(xs)[a] == MergeAll(ys)[a]
    {
      MergeAllMeaning(xs, a);
      MergeAllMeaning(ys, a);
      SameRoots(xs, ys, a);
      SameSlots(xs, ys, a);
    }
  }
}
