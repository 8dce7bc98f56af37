/** The list of recently used programs: ten rows of text that are shifted in place. */
module Recent {

  const CACHE_DEEPT := 10

  type Name = string

  // The rows that hold the list `q`: the names, then empty rows.
  function Rows(q: seq<Name>): (rows: seq<Name>)
    requires |q| <= CACHE_DEEPT
    ensures |rows| == CACHE_DEEPT
  {
    q + seq(CACHE_DEEPT - |q|, _ => "")
  }

  // The names up to the first empty row.
  function Names(rows: seq<Name>): (q: seq<Name>)
    ensures |q| <= |rows| && "" !in q
  {
    if rows == [] || rows[0] == "" then [] else [rows[0]] + Names(rows[1..])
  }

  predicate Distinct(q: seq<Name>) {
    forall i, j :: 0 <= i < j < |q| ==> q[i] != q[j]
  }

  // ---- What put and delete mean for the list ----

  function Without(q: seq<Name>, name: Name): (r: seq<Name>)
    ensures |r| <= |q| && (forall x :: x in r <==> x in q && x != name)
    ensures name !in q ==> r == q
  {
    if q == [] then [] else if q[0] == name then Without(q[1..], name) else [q[0]] + Without(q[1..], name)
  }

  function Keep(q: seq<Name>): seq<Name> { if |q| <= CACHE_DEEPT then q else q[..CACHE_DEEPT] }

  function Put(q: seq<Name>, name: Name): seq<Name> { Keep([name] + Without(q, name)) }

  lemma Tail(q: seq<Name>)
    requires Distinct(q) && q != []
    ensures Distinct(q[1..]) && q[0] !in q[1..]
  {
    assert forall j :: 0 <= j < |q[1..]| ==> q[1..][j] == q[j + 1];
  }

  lemma Front(x: Name, r: seq<Name>)
    requires Distinct(r) && x !in r
    ensures Distinct([x] + r)
  {
    var q := [x] + r;
    forall i, j | 0 <= i < j < |q| ensures q[i] != q[j] {
      assert q[j] == r[j - 1];
    }
  }

  lemma {:induction false} WithoutDistinct(q: seq<Name>, name: Name)
    requires Distinct(q)
    ensures Distinct(Without(q, name))
    ensures name in q ==> |Without(q, name)| == |q| - 1
  {
    if q == [] {
    } else {
      hide Distinct;
      Tail(q);
      WithoutDistinct(q[1..], name);
      if q[0] != name {
        Front(q[0], Without(q[1..], name));
      }
    }
  }

  // A name at a known place is cut out there.
  lemma {:induction false} WithoutAt(q: seq<Name>, i: nat)
    requires Distinct(q) && i < |q|
    ensures Without(q, q[i]) == q[..i] + q[i + 1..]
  {
    hide Distinct;
    Tail(q);
    if i == 0 {
    } else {
      WithoutAt(q[1..], i - 1);
      assert q[1..][i - 1] == q[i] && q[1..][..i - 1] == q[1..i] && q[1..][i..] == q[i + 1..];
      assert q[..i] == [q[0]] + q[1..i];
    }
  }

  lemma {:induction false} NamesOfRows(q: seq<Name>, rest: seq<Name>)
    requires "" !in q && (rest == [] || rest[0] == "")
    ensures Names(q + rest) == q
  {
    if q == [] {
      assert q + rest == rest;
    } else {
      assert q[0] != "" && (q + rest)[1..] == q[1..] + rest;
      NamesOfRows(q[1..], rest);
    }
  }

  /** The cache of the memory module. */
  class Cache {
    const cache: array<Name>      // one row more than the list uses

    ghost function List(): (q: seq<Name>)
      requires cache.Length == CACHE_DEEPT + 1
      reads cache
    {
      Names(cache[..CACHE_DEEPT])
    }

    ghost predicate Valid()
      reads cache
    {
      cache.Length == CACHE_DEEPT + 1 && Distinct(List()) && cache[..CACHE_DEEPT] == Rows(List())
    }

    // cMemoryOpen, when there is no file of an earlier session
    constructor ()
      ensures Valid() && fresh(cache) && List() == []
    {
      cache := new Name[CACHE_DEEPT + 1](_ => "");
      new;
      NamesOfRows([], cache[..CACHE_DEEPT]);
    }

    // The first row with this name, or the number of rows
    method Find(name: Name) returns (item: nat)
      requires Valid()
      ensures item <= CACHE_DEEPT && (item < CACHE_DEEPT ==> cache[item] == name)
      ensures forall i :: 0 <= i < item ==> cache[i] != name
    {
      item := 0;
      while item < CACHE_DEEPT && cache[item] != name
        invariant item <= CACHE_DEEPT && forall i :: 0 <= i < item ==> cache[i] != name
      {
        item := item + 1;
      }
    }

    method CloseUp(from: nat)
      requires cache.Length == CACHE_DEEPT + 1 && from <= CACHE_DEEPT
      modifies cache
      ensures cache[..CACHE_DEEPT] == if from == CACHE_DEEPT then old(cache[..CACHE_DEEPT])
                                      else old(cache[..from]) + old(cache[from + 1..CACHE_DEEPT]) + [""]
    {
      var item := from;
      while item < CACHE_DEEPT - 1
        invariant from <= item && (item < CACHE_DEEPT || item == from)
        invariant forall i :: 0 <= i < from ==> cache[i] == old(cache[i])
        invariant forall i :: from <= i < item && i < CACHE_DEEPT - 1 ==> cache[i] == old(cache[i + 1])
        invariant forall i :: item <= i < CACHE_DEEPT ==> cache[i] == old(cache[i])
      {
        cache[item] := cache[item + 1];
        item := item + 1;
      }
      cache[item] := "";
    }

    // cMemoryDeleteCacheFile
    method Delete(name: Name)
      requires Valid()
      modifies cache
      ensures Valid() && List() == Without(old(List()), name)
      ensures name !in old(List()) ==> cache[..CACHE_DEEPT] == old(cache[..CACHE_DEEPT])
    {
      hide Names, Distinct, Without, Rows;
      ghost var q := List();
      var item := Find(name);
      CloseUp(item);
      Deleted(q, item, name, cache[..CACHE_DEEPT]);
    }

    // scPUT_CACHE_FILE, for a file name that was found to be good
    method PutFile(name: Name)
      requires Valid() && name != ""
      modifies cache
      ensures Valid() && List() == Put(old(List()), name)
    {
      hide Names, Distinct, Without, Keep;
      Delete(name);
      ghost var q := List();
      var item := CACHE_DEEPT - 1;
      while item > 0
        invariant 0 <= item < CACHE_DEEPT && cache.Length == CACHE_DEEPT + 1
        invariant forall i :: 0 <= i <= item ==> cache[i] == Rows(q)[i]
        invariant forall i :: item < i < CACHE_DEEPT ==> cache[i] == Rows(q)[i - 1]
      {
        cache[item] := cache[item - 1];
        item := item - 1;
      }
      cache[item] := name;
      Shifted(q, name, cache[..CACHE_DEEPT]);
    }
  }

  lemma Deleted(q: seq<Name>, item: nat, name: Name, rows: seq<Name>)
    requires |q| <= CACHE_DEEPT && "" !in q && Distinct(q) && item <= CACHE_DEEPT
    requires item < CACHE_DEEPT ==> Rows(q)[item] == name
    requires forall i :: 0 <= i < item ==> Rows(q)[i] != name
    requires rows == if item == CACHE_DEEPT then Rows(q) else Rows(q)[..item] + Rows(q)[item + 1..] + [""]
    ensures var r := Without(q, name); |r| <= CACHE_DEEPT && rows == Rows(r) && Names(rows) == r && Distinct(r)
    ensures name !in q ==> rows == Rows(q)
  {
    hide Names, Distinct, Without;
    var r := Without(q, name);
    WithoutDistinct(q, name);
    assert forall i :: 0 <= i < item && i < |q| ==> q[i] == Rows(q)[i];
    if item < |q| {
      assert q[item] == Rows(q)[item];
      WithoutAt(q, item);
    } else {
      assert name !in q;
    }
    assert rows == Rows(r);
    NamesOfRows(r, seq(CACHE_DEEPT - |r|, _ => ""));
  }

  lemma Shifted(q: seq<Name>, name: Name, rows: seq<Name>)
    requires |q| <= CACHE_DEEPT && name !in q && |rows| == CACHE_DEEPT
    requires rows[0] == name && forall i :: 0 < i < CACHE_DEEPT ==> rows[i] == Rows(q)[i - 1]
    requires Distinct(q) && "" !in q && name != ""
    ensures var r := Keep([name] + q); |r| <= CACHE_DEEPT && rows == Rows(r) && Names(rows) == r && Distinct(r)
  {
    var r := Keep([name] + q);
    assert rows == Rows(r);
    Front(name, q);
    NamesOfRows(r, seq(CACHE_DEEPT - |r|, _ => ""));
  }

  // ---- Any sequence of puts and deletes ----

  datatype Op = PutOp(name: Name) | DeleteOp(name: Name)

  predicate Good(ops: seq<Op>) { forall op :: op in ops && op.PutOp? ==> op.name != "" }

  function After(ops: seq<Op>): seq<Name> {
    if ops == [] then [] else
      var q := After(ops[..|ops| - 1]);
      match ops[|ops| - 1]
      case PutOp(name) => Put(q, name)
      case DeleteOp(name) => Without(q, name)
  }

  method Session(ops: seq<Op>) returns (c: Cache)
    requires Good(ops)
    ensures c.Valid() && c.List() == After(ops)
  {
    c := new Cache();
    var i := 0;
    while i < |ops|
      invariant 0 <= i <= |ops| && c.Valid() && fresh(c.cache) && c.List() == After(ops[..i])
    {
      hide Put, Without, Names;
      assert ops[..i + 1][..i] == ops[..i] && ops[..i + 1][i] == ops[i];
      match ops[i] {
        case PutOp(name) => c.PutFile(name);
        case DeleteOp(name) => c.Delete(name);
      }
      i := i + 1;
    }
    assert ops[..|ops|] == ops;
  }

  // All names put, the last put first, without any limit.
  function ByRecency(puts: seq<Name>): (q: seq<Name>)
    ensures forall x :: x in q <==> x in puts
  {
    if puts == [] then [] else
      var last, before := puts[|puts| - 1], puts[..|puts| - 1];
      assert puts == before + [last];
      [last] + Without(ByRecency(before), last)
  }

  function PutOps(puts: seq<Name>): seq<Op> { seq(|puts|, i requires 0 <= i < |puts| => PutOp(puts[i])) }

  lemma {:induction false} RecencyDistinct(puts: seq<Name>)
    ensures Distinct(ByRecency(puts))
  {
    if puts == [] {
    } else {
      RecencyDistinct(puts[..|puts| - 1]);
      WithoutDistinct(ByRecency(puts[..|puts| - 1]), puts[|puts| - 1]);
    }
  }

  // Cutting the list before or after a put makes no difference to the ten names kept.
  lemma KeepPut(q: seq<Name>, name: Name)
    requires Distinct(q)
    ensures Put(Keep(q), name) == Put(q, name)
  {
    hide Distinct, Without;
    var k := Keep(q);
    KeepDistinct(q);
    if name in k {
      var i :| 0 <= i < |k| && k[i] == name;
      WithoutAt(k, i);
      WithoutAt(q, i);
    } else if name in q {
      var i :| 0 <= i < |q| && q[i] == name;
      WithoutAt(q, i);
      assert forall j :: 0 <= j < |k| ==> k[j] == q[j];
      assert Without(k, name) == k;
    }
  }

  lemma KeepDistinct(q: seq<Name>)
    requires Distinct(q)
    ensures Distinct(Keep(q))
  {
  }

  /** After any puts the list is the ten names used most recently, in that order: cutting to ten rows at
      every put never loses a name that would belong there. */
  lemma {:induction false} MostRecent(puts: seq<Name>)
    ensures After(PutOps(puts)) == Keep(ByRecency(puts))
  {
    if puts == [] {
    } else {
      var before, last := puts[..|puts| - 1], puts[|puts| - 1];
      MostRecent(before);
      RecencyDistinct(before);
      KeepPut(ByRecency(before), last);
      assert PutOps(puts)[..|puts| - 1] == PutOps(before);
    }
  }

  /** In every session the occupied rows are a prefix without a duplicate. */
  lemma {:induction false} AlwaysDistinct(ops: seq<Op>)
    requires Good(ops)
    ensures Distinct(After(ops)) && |After(ops)| <= CACHE_DEEPT && "" !in After(ops)
  {
    if ops == [] {
    } else {
      var before := ops[..|ops| - 1];
      AlwaysDistinct(before);
      WithoutDistinct(After(before), ops[|ops| - 1].name);
      assert ops[|ops| - 1] in ops;
    }
  }
}
