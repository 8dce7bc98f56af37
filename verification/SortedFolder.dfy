/** A directory listing that is kept sorted by priority while its entries arrive one by one. */
module SortedFolder {
  import opened FileNames

  const DATA8_MAX := 127
  const MAX_DEPTH := DATA8_MAX // the loops count in signed bytes
  const FILENAME_SIZE := 52    // a row of `Entry`, its terminator included
  const SORT_PRJS := 1
  const SORT_TYPES := 4

  datatype Item = Item(name: string, priority: nat)

  // What snprintf leaves of a name in a row.
  function Row(name: string): (r: string)
    ensures r <= name && |r| == if |name| < FILENAME_SIZE then |name| else FILENAME_SIZE - 1
  {
    if |name| < FILENAME_SIZE then name else name[..FILENAME_SIZE - 1]
  }

  // NoOfFavourites
  function Favourites(sort: nat): nat
    requires sort < SORT_TYPES
  {
    [0, 6, 5, 8][sort]
  }

  // pFavourites
  function FavouriteNames(sort: nat): (names: seq<string>)
    requires sort < SORT_TYPES
    ensures |names| == Favourites(sort)
  {
    if sort == 0 then []
    else if sort == 1 then ["", "BrkProg_SAVE", "BrkDL_SAVE", "SD_Card", "USB_Stick", "TEST"]
    else if sort == 2 then ["Port View", "Motor Control", "IR Control", "Brick Program", "Brick Datalog"]
    else ["Volume", "Sleep", "Bluetooth", "WiFi", "Brick Name", "Brick Info", "Test", "Debug"]
  }

  // ---- Stable sorting by priority ----

  predicate Sorted(q: seq<Item>) {
    forall i, j :: 0 <= i < j < |q| ==> q[i].priority <= q[j].priority
  }

  // The items of one priority, in the order they have.
  function Class(q: seq<Item>, p: nat): seq<Item> {
    if q == [] then [] else (if q[0].priority == p then [q[0]] else []) + Class(q[1..], p)
  }

  ghost predicate SameClasses(q: seq<Item>, r: seq<Item>) {
    |q| == |r| && forall p: nat :: Class(q, p) == Class(r, p)
  }

  ghost predicate StableSortOf(q: seq<Item>, r: seq<Item>) {
    Sorted(r) && SameClasses(q, r)
  }

  lemma ClassFirst(q: seq<Item>, p: nat)
    requires q != []
    ensures Class(q, p) == (if q[0].priority == p then [q[0]] else []) + Class(q[1..], p)
  {
  }

  lemma {:induction false} ClassJoin(a: seq<Item>, b: seq<Item>, p: nat)
    ensures Class(a + b, p) == Class(a, p) + Class(b, p)
  {
    if a == [] {
      assert a + b == b;
    } else {
      ClassFirst(a, p);
      ClassFirst(a + b, p);
      hide Class;
      assert (a + b)[0] == a[0] && (a + b)[1..] == a[1..] + b;
      ClassJoin(a[1..], b, p);
      Regroup(if a[0].priority == p then [a[0]] else [], Class(a[1..], p), Class(b, p));
    }
  }

  lemma Regroup(x: seq<Item>, y: seq<Item>, z: seq<Item>)
    ensures x + (y + z) == (x + y) + z
  {
  }

  lemma {:induction false} InClass(q: seq<Item>, i: nat)
    requires i < |q|
    ensures q[i] in Class(q, q[i].priority)
  {
    if i == 0 {
    } else {
      InClass(q[1..], i - 1);
    }
  }

  lemma {:induction false} OfClass(q: seq<Item>, p: nat, x: Item)
    requires x in Class(q, p)
    ensures x.priority == p && x in q
  {
    if q[0].priority == p && x == q[0] {
    } else {
      OfClass(q[1..], p, x);
      assert x in q[1..];
    }
  }

  // A sorted sequence begins with an item of the lowest priority that occurs.
  lemma SmallestFirst(q: seq<Item>, r: seq<Item>)
    requires Sorted(q) && Sorted(r) && SameClasses(q, r) && q != []
    ensures q[0].priority == r[0].priority
  {
    InClass(q, 0);
    InClass(r, 0);
    OfClass(r, q[0].priority, q[0]);
    OfClass(q, r[0].priority, r[0]);
  }

  /** A sequence has only one stable sort. */
  lemma {:induction false} StableSortUnique(q: seq<Item>, r: seq<Item>)
    requires Sorted(q) && Sorted(r) && SameClasses(q, r)
    ensures q == r
  {
    if q == [] {
    } else {
      SmallestFirst(q, r);
      var p := q[0].priority;
      assert Class(q, p)[0] == q[0] && Class(r, p)[0] == r[0];
      forall c: nat ensures Class(q[1..], c) == Class(r[1..], c) {
        assert Class(q, c) == Class(r, c);
        if c == p {
          assert Class(q, p)[1..] == Class(q[1..], p) && Class(r, p)[1..] == Class(r[1..], p);
        }
      }
      StableSortUnique(q[1..], r[1..]);
    }
  }

  // Two neighbours of different priority may change places.
  lemma Swapped(q: seq<Item>, i: nat)
    requires i + 1 < |q| && q[i].priority != q[i + 1].priority
    ensures SameClasses(q, q[i := q[i + 1]][i + 1 := q[i]])
  {
    var r := q[i := q[i + 1]][i + 1 := q[i]];
    var a, x, y, b := q[..i], [q[i]], [q[i + 1]], q[i + 2..];
    assert q == a + (x + (y + b)) && r == a + (y + (x + b));
    forall p: nat ensures Class(q, p) == Class(r, p) {
      ClassJoin(a, x + (y + b), p);
      ClassJoin(a, y + (x + b), p);
      ClassJoin(x, y + b, p);
      ClassJoin(y, b, p);
      ClassJoin(y, x + b, p);
      ClassJoin(x, b, p);
      assert x[1..] == [] && y[1..] == [];
    }
  }

  /** FOLDER: two parallel arrays. `fileTypes` is the number of file types, above every favourite's rank. */
  class Folder {
    const entry: array<string>
    const priority: array<nat>
    const sort: nat
    const folders: bool          // lists folders, otherwise files
    const fileTypes: nat
    var entries: nat

    // The highest priority value an item can get here.
    function Last(): nat
      requires sort < SORT_TYPES
    {
      if folders then Favourites(sort) else fileTypes
    }

    ghost predicate Ready()
      reads this
    {
      && sort < SORT_TYPES && 4 <= fileTypes && entry.Length == priority.Length <= MAX_DEPTH && entries <= entry.Length
    }

    ghost function Items(): (q: seq<Item>)
      requires entries <= entry.Length == priority.Length
      reads this, entry, priority
      ensures |q| == entries
    {
      seq(entries, i requires 0 <= i < entries reads this, entry, priority requires entries <= entry.Length == priority.Length =>
        Item(entry[i], priority[i]))
    }

    ghost predicate Valid()
      reads this, entry, priority
    {
      Ready() && Sorted(Items()) && Bounded(Items(), Last())
    }

    // cMemoryOpenFolder
    constructor (depth: nat, sort: nat, folders: bool, fileTypes: nat)
      requires depth <= MAX_DEPTH && sort < SORT_TYPES && 4 <= fileTypes
      ensures Valid() && fresh(entry) && fresh(priority) && Items() == []
      ensures entry.Length == depth && this.sort == sort && this.folders == folders && this.fileTypes == fileTypes
    {
      entry, priority := new string[depth](_ => ""), new nat[depth](_ => 0);
      this.sort, this.folders, this.fileTypes, entries := sort, folders, fileTypes, 0;
    }

    // The priority of a new entry; `favourite` is the rank of a file's type, 0 for none.
    function Rank(name: string, favourite: nat): (p: nat)
      requires sort < SORT_TYPES && favourite <= 4 <= fileTypes
      ensures p <= Last()
    {
      if !folders then (if favourite == 0 then fileTypes else favourite)
      else
        var found := Place(name, FavouriteNames(sort));
        if sort == SORT_PRJS then (if found < 6 then found else 0) else found
    }

    /** Among the apps and the tools the favourites come first, in their order, and among the projects last; a file
        of a favourite type comes before all those of higher rank and of none. */
    lemma RankOrder(a: string, b: string, x: nat, y: nat)
      requires sort < SORT_TYPES && x <= 4 <= fileTypes && y <= 4
      ensures var names := FavouriteNames(sort);
              folders && a != "" && a in names && b !in names ==>
                if sort == SORT_PRJS then Rank(b, y) < Rank(a, x) else Rank(a, x) < Rank(b, y)
      ensures var names := FavouriteNames(sort);
              folders ==> forall i, j :: 0 <= i < j < |names| ==> Rank(names[i], x) < Rank(names[j], y)
      ensures !folders && 0 < x < y ==> Rank(a, x) < Rank(b, y)
      ensures !folders && 0 < x && y == 0 ==> Rank(a, x) <= Rank(b, y) == Last()
    {
      var names := FavouriteNames(sort);
      Placed(a, names);
      Placed(b, names);
      forall i | 0 <= i < |names| ensures Place(names[i], names) == i {
        Placed(names[i], names);
        FirstPlace(names, i);
      }
    }

    // The loop that looks for a file's extension counts in a signed byte, which wraps behind 127.
    method SeekDot(name: string) returns (inside: bool)
      ensures inside <==> DotReached(name)
    {
      var pointer := 0;
      while pointer < |name| && name[pointer] != '.'
        invariant 0 <= pointer <= |name| && pointer <= DATA8_MAX && '.' !in name[..pointer]
      {
        if pointer == DATA8_MAX {
          FirstDotBehind(name, '.', pointer + 1);
          return false;
        }
        pointer := pointer + 1;
      }
      FirstDotIs(name, '.', pointer);
      inside := true;
    }

    method Prioritise(name: string, favourite: nat) returns (inside: bool, p: nat)
      requires sort < SORT_TYPES && favourite <= 4 <= fileTypes
      ensures inside <==> folders || DotReached(name)
      ensures inside ==> p == Rank(name, favourite)
    {
      hide DotReached;
      inside := true;
      var names := FavouriteNames(sort);
      p := Favourites(sort);
      if !folders {
        inside := SeekDot(name);
        p := favourite;
        if p == 0 {
          p := fileTypes;
        }
      } else if sort == SORT_PRJS {
        p := 0;
        var pointer := 1;
        while pointer < Favourites(sort)
          invariant 1 <= pointer <= |names| && p < pointer
          invariant forall i :: 1 <= i < pointer && names[i] == name ==> p == i
          invariant p != 0 ==> names[p] == name
        {
          if name == names[pointer] {
            p := pointer;
          }
          pointer := pointer + 1;
        }
        Placed(name, names);
      } else {
        var pointer := 0;
        while pointer < Favourites(sort)
          invariant 0 <= pointer <= |names| && (p < pointer || p == |names|)
          invariant forall i :: 0 <= i < pointer && names[i] == name ==> p == i
          invariant p < |names| ==> names[p] == name
        {
          if name == names[pointer] {
            p := pointer;
          }
          pointer := pointer + 1;
        }
        Placed(name, names);
      }
    }

    method SwapNext(i: nat)
      requires Ready() && i + 1 < entries && priority[i + 1] < priority[i]
      modifies entry, priority
      ensures Items() == old(Items())[i := old(Items())[i + 1]][i + 1 := old(Items())[i]]
      ensures SameClasses(old(Items()), Items())
    {
      Swapped(Items(), i);
      var tmpPriority, tmpEntry := priority[i], entry[i];
      priority[i], entry[i] := priority[i + 1], entry[i + 1];
      priority[i + 1], entry[i + 1] := tmpPriority, tmpEntry;
    }

    // One pass over neighbours: after `sort1` passes that many of the largest are in place.
    method Pass(sort1: nat, ghost top: nat)
      requires Ready() && sort1 < entries && Settled(Items(), entries - sort1, entries) && Bounded(Items(), top)
      modifies entry, priority
      ensures Ready() && Settled(Items(), entries - sort1 - 1, entries) && Bounded(Items(), top)
      ensures SameClasses(old(Items()), Items())
    {
      hide Class, SameClasses, Settled, MaxAt, Bounded;
      SameRefl(Items());
      PassStart(Items(), entries - sort1 - 1);
      var sort2 := 0;
      while sort2 < entries - 1
        invariant sort2 < entries && Ready() && Settled(Items(), entries - sort1, entries) && Bounded(Items(), top)
        invariant MaxAt(Items(), sort2) && Settled(Items(), entries - sort1 - 1, sort2 + 1)
        invariant SameClasses(old(Items()), Items())
      {
        PassStep(Items(), entries - sort1, sort2, top);
        if priority[sort2 + 1] < priority[sort2] {
          ghost var before := Items();
          SwapNext(sort2);
          SameTrans(old(Items()), before, Items());
        }
        sort2 := sort2 + 1;
      }
    }

    // The sorting loops of cMemorySortEntry
    method Sort(ghost top: nat)
      requires Ready() && entries > 0 && Bounded(Items(), top)
      modifies entry, priority
      ensures Ready() && StableSortOf(old(Items()), Items()) && Bounded(Items(), top)
    {
      hide Class, SameClasses;
      SameRefl(Items());
      var sort1 := 0;
      while sort1 < entries - 1
        invariant sort1 < entries && Ready() && Settled(Items(), entries - sort1, entries)
        invariant SameClasses(old(Items()), Items()) && Bounded(Items(), top)
      {
        ghost var before := Items();
        Pass(sort1, top);
        SameTrans(old(Items()), before, Items());
        sort1 := sort1 + 1;
      }
    }

    // cMemorySortEntry
    method SortEntry(name: string, favourite: nat) returns (inside: bool)
      requires Valid() && entries < entry.Length && favourite <= 4
      modifies this`entries, entry, priority
      ensures Valid() && (inside <==> folders || DotReached(name))
      ensures inside ==> entries == old(entries) + 1
      ensures inside ==> StableSortOf(old(Items()) + [Item(Row(name), Rank(name, favourite))], Items())
    {
      hide Class, SameClasses, Rank, DotReached;
      var p;
      inside, p := Prioritise(name, favourite);
      if !inside {
        return;
      }
      entry[entries], priority[entries] := Row(name), p;
      entries := entries + 1;
      ghost var added := Items();
      assert added == old(Items()) + [Item(Row(name), p)];
      assert forall i :: 0 <= i < |old(Items())| ==> old(Items())[i].priority == old(priority[i]);
      SameRefl(added);
      if p < Last() {
        Sort(Last());
        assert forall i :: 0 <= i < entries ==> priority[i] == Items()[i].priority;
      } else {
        LastIsSorted(old(Items()), Item(Row(name), p));
      }
    }

    // The rank comes from the whole name, the row keeps what fits.
    function Listing(e: DirEntry): Item
      requires sort < SORT_TYPES && e.favourite <= 4 <= fileTypes
    {
      Item(Row(e.name), Rank(e.name, e.favourite))
    }

    // cMemoryGetFolderItems, for one entry of the directory
    method GetFolderItem(e: DirEntry) returns (inside: bool)
      requires Valid() && e.favourite <= 4
      modifies this`entries, entry, priority
      ensures Valid() && (inside <==> old(entries) == entry.Length || EntryFits(e, folders))
      ensures inside ==>
              if old(entries) < entry.Length && Listed(e, folders)
              then StableSortOf(old(Items()) + [Listing(e)], Items())
              else Items() == old(Items())
    {
      hide ExtPart, DotReached;
      inside := true;
      if entries < entry.Length {
        if e.name == "" || e.name[0] != '.' {
          if e.name != "CVS" {
            if folders {
              if e.kind == Directory || e.kind == Link {
                inside := SortEntry(e.name, e.favourite);
              }
            } else {
              if e.kind == Regular {
                var path, name, ext;
                inside, path, name, ext := FindName(e.name, '/', '.', Null, Null, Buffer(EXTSIZE));
                if inside && e.known {
                  inside := SortEntry(e.name, e.favourite);
                }
              }
            }
          }
        }
      }
    }

    // The items a directory contributes, in the order it names them, as far as there is room.
    function Chosen(es: seq<DirEntry>): (q: seq<Item>)
      requires sort < SORT_TYPES && 4 <= fileTypes && forall e :: e in es ==> e.favourite <= 4
      ensures |q| <= entry.Length
    {
      if es == [] then [] else
        var q := Chosen(es[..|es| - 1]);
        var e := es[|es| - 1];
        if |q| < entry.Length && Listed(e, folders) then q + [Listing(e)] else q
    }

    /** One call for each entry of the directory: at every moment the listing is the stable sort by priority
        of what has been listed so far.  The destinations are kept exactly if the entries met while there is
        room fit them. */
    method ReadFolder(es: seq<DirEntry>) returns (inside: bool)
      requires Valid() && entries == 0 && forall e :: e in es ==> e.favourite <= 4
      modifies this`entries, entry, priority
      ensures Valid()
      ensures inside <==> forall i :: 0 <= i < |es| && |Chosen(es[..i])| < entry.Length ==> EntryFits(es[i], folders)
      ensures inside ==> StableSortOf(Chosen(es), Items())
    {
      hide Class, SameClasses, Rank, Listed, Listing, EntryFits;
      inside := true;
      var n := 0;
      assert Items() == Chosen(es[..0]);
      SameRefl(Items());
      while n < |es|
        invariant 0 <= n <= |es| && Valid() && StableSortOf(Chosen(es[..n]), Items()) && inside
        invariant forall i :: 0 <= i < n && |Chosen(es[..i])| < entry.Length ==> EntryFits(es[i], folders)
      {
        ghost var before, chosen := Items(), Chosen(es[..n]);
        SameLength(chosen, before);
        assert es[..n + 1][..n] == es[..n];
        inside := GetFolderItem(es[n]);
        if !inside {
          return;
        }
        if |before| < entry.Length && Listed(es[n], folders) {
          var x := Listing(es[n]);
          SameAppend(chosen, before, x);
          SameTrans(chosen + [x], before + [x], Items());
        }
        n := n + 1;
      }
      assert es[..|es|] == es;
    }
  }

  /** An ordinary file name whose extension does not fit its five bytes. */
  method LongExtension() returns (inside: bool)
    ensures !inside
  {
    var folder := new Folder(MAX_DEPTH, 0, false, 4);
    PartsUnique([], "a", ".html", '/', '.');
    assert "a.html" == [] + "a" + ".html";
    inside := folder.ReadFolder([DirEntry("a.html", Regular, false, 0)]);
  }

  /** A file of a known type with 128 bytes in front of its dot. */
  method LongStem() returns (inside: bool)
    ensures !inside
  {
    var stem: string := seq(128, _ => 'a');
    var folder := new Folder(MAX_DEPTH, 0, false, 4);
    assert (stem + ".rbf")[..128] == stem;
    FirstDotIs(stem + ".rbf", '.', 128);
    inside := folder.ReadFolder([DirEntry(stem + ".rbf", Regular, true, 0)]);
  }

  lemma {:induction false} FirstDotBehind(s: string, dot: char, n: nat)
    requires n <= |s| && dot !in s[..n]
    ensures FirstDot(s, dot) >= n
  {
    if n > 0 {
      assert s[0] == s[..n][0] && s[1..][..n - 1] == s[..n][1..];
      FirstDotBehind(s[1..], dot, n - 1);
    }
  }

  // From place `k` on, up to `to`, everything is at least as large as all that comes before it.
  predicate Settled(q: seq<Item>, k: int, to: nat) {
    forall i, j :: 0 <= i < j < to && j < |q| && k <= j ==> q[i].priority <= q[j].priority
  }

  predicate MaxAt(q: seq<Item>, m: nat)
    requires m < |q|
  {
    forall i :: 0 <= i < m ==> q[i].priority <= q[m].priority
  }

  // Every priority is at most `top`, and every name fits its row.
  predicate Bounded(q: seq<Item>, top: nat) {
    forall i :: 0 <= i < |q| ==> q[i].priority <= top && |q[i].name| < FILENAME_SIZE
  }

  lemma PassStart(q: seq<Item>, k: int)
    requires q != []
    ensures MaxAt(q, 0) && Settled(q, k, 1)
  {
  }

  lemma PassStep(q: seq<Item>, k: int, i: nat, top: nat)
    requires i + 1 < |q| && Settled(q, k, |q|) && MaxAt(q, i) && Settled(q, k - 1, i + 1) && Bounded(q, top)
    ensures var r := if q[i + 1].priority < q[i].priority then q[i := q[i + 1]][i + 1 := q[i]] else q;
            Settled(r, k, |q|) && MaxAt(r, i + 1) && Settled(r, k - 1, i + 2) && Bounded(r, top)
  {
    var swap := q[i + 1].priority < q[i].priority;
    var r := if swap then q[i := q[i + 1]][i + 1 := q[i]] else q;
    assert swap ==> i + 1 < k;
    forall a, b | 0 <= a < b < |q| && k <= b ensures r[a].priority <= r[b].priority {
      var was := if swap && a == i then i + 1 else if swap && a == i + 1 then i else a;
      assert r[a] == q[was] && r[b] == q[b];
    }
    assert MaxAt(r, i + 1);
  }

  datatype Kind = Directory | Link | Regular | Other

  // A directory entry; `known` and `favourite` describe the type that belongs to its extension.
  datatype DirEntry = DirEntry(name: string, kind: Kind, known: bool, favourite: nat)

  // The place of the first dot, or of the end, is reached by a signed byte.
  predicate DotReached(name: string) { FirstDot(name, '.') <= DATA8_MAX }

  /** What is done with an entry stays inside its destinations: a file's extension is copied into five bytes
      before its type is looked up, and its dot is then looked for in the whole name. */
  predicate EntryFits(e: DirEntry, folders: bool) {
    folders || e.kind != Regular || "." <= e.name || e.name == "CVS" ||
    (|ExtPart(e.name, '/', '.')| < EXTSIZE && (e.known ==> DotReached(e.name)))
  }

  predicate Listed(e: DirEntry, folders: bool) {
    && !("." <= e.name) && e.name != "CVS"
    && if folders then e.kind == Directory || e.kind == Link else e.kind == Regular && e.known
  }

  lemma SameRefl(q: seq<Item>)
    ensures SameClasses(q, q)
  {
  }

  lemma SameTrans(q: seq<Item>, r: seq<Item>, s: seq<Item>)
    requires SameClasses(q, r) && SameClasses(r, s)
    ensures SameClasses(q, s)
  {
    forall p: nat ensures Class(q, p) == Class(s, p) {
      assert Class(q, p) == Class(r, p) && Class(r, p) == Class(s, p);
    }
  }

  lemma SameLength(q: seq<Item>, r: seq<Item>)
    requires SameClasses(q, r)
    ensures |q| == |r|
  {
  }

  lemma SameAppend(q: seq<Item>, r: seq<Item>, x: Item)
    requires SameClasses(q, r)
    ensures SameClasses(q + [x], r + [x])
  {
    forall p: nat ensures Class(q + [x], p) == Class(r + [x], p) {
      ClassJoin(q, [x], p);
      ClassJoin(r, [x], p);
      assert Class(q, p) == Class(r, p);
    }
  }

  // An item of the highest priority value belongs at the end, so nothing has to move.
  lemma LastIsSorted(q: seq<Item>, x: Item)
    requires Sorted(q) && forall i :: 0 <= i < |q| ==> q[i].priority <= x.priority
    ensures Sorted(q + [x])
  {
  }

  lemma {:induction false} FirstPlace(names: seq<string>, i: nat)
    requires i < |names| && forall k :: 0 <= k < i ==> names[k] != names[i]
    ensures Place(names[i], names) == i
  {
    if i > 0 {
      assert names[1..][i - 1] == names[i];
      FirstPlace(names[1..], i - 1);
    }
  }

  // The first place of a name, or the length.
  function Place(name: string, names: seq<string>): (i: nat)
    ensures i <= |names| && (i < |names| ==> names[i] == name)
  {
    if names == [] || names[0] == name then 0 else 1 + Place(name, names[1..])
  }

  lemma {:induction false} Placed(name: string, names: seq<string>)
    ensures forall i :: 0 <= i < Place(name, names) ==> names[i] != name
  {
    if names == [] || names[0] == name {
    } else {
      Placed(name, names[1..]);
    }
  }
}
