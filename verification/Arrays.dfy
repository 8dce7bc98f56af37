/** The growable arrays of the virtual machine: a block of bytes behind a descriptor, reallocated in place
    of the pool entry whenever its number of elements changes. */
module Arrays {
  import opened Bytes
  import opened Elements

  const MAX_ARRAY_SIZE := 1000000000
  const DESCR_SIZE := 12
  const DATA32_MAX := 0x7FFF_FFFF

  type int32 = x: int | -0x8000_0000 <= x < 0x8000_0000

  // Outside: the C code would now leave the allocated block; the model stops there.
  datatype Status = NoBreak | FailBreak | Outside

  function Wrap(x: int): int32 { (x + 0x8000_0000) % 0x1_0000_0000 - 0x8000_0000 }

  // Division truncates towards zero.
  function Quotient(a: int, b: nat): int
    requires b > 0
  {
    if a >= 0 then a / b else -(-a / b)
  }

  // The size asked for, an unsigned word.
  function BlockSize(elements: int, es: nat): nat { (Span(elements, es) + DESCR_SIZE) % 0x1_0000_0000 }

  // The size passes the test in cMemoryReallocate.
  predicate Allocates(elements: int, es: nat) { 0 < BlockSize(elements, es) <= MAX_ARRAY_SIZE }

  // The block really has room for its elements.
  predicate Fits(elements: int, es: nat) { 0 <= elements && Span(elements, es) + DESCR_SIZE <= MAX_ARRAY_SIZE }

  // The bytes behind the descriptor in the block that is asked for.
  function Room(elements: int, es: nat): nat {
    if BlockSize(elements, es) > DESCR_SIZE then BlockSize(elements, es) - DESCR_SIZE else 0
  }

  lemma RoomFits(elements: int32, es: nat)
    requires IsSize(es) && Allocates(elements, es)
    ensures Fits(elements, es) <==> 0 <= elements && Room(elements, es) == Span(elements, es)
    ensures 0 <= elements && !Fits(elements, es) ==> Room(elements, es) < Span(elements, es) - es
  {
  }

  /** The size test lets every fitting block through, and others only when their size has wrapped around. */
  lemma FitsAllocates(elements: int32, es: nat)
    requires IsSize(es)
    ensures Fits(elements, es) <==>
            Allocates(elements, es) && 0 <= elements && BlockSize(elements, es) == Span(elements, es) + DESCR_SIZE
    ensures es == 1 && 0 <= elements ==> (Fits(elements, es) <==> Allocates(elements, es))
  {
  }

  // ---- What the operations mean for a mathematical sequence ----

  function Written(q: seq<Element>, index: nat, v: Element, es: nat): (r: seq<Element>)
    ensures |r| == if index < |q| then |q| else index + 1
  {
    if index < |q| then q[index := v] else q + Zeros(index - |q|, es) + [v]
  }

  // Kept up to the shorter length; what growth adds is not specified.
  predicate Resized(q: seq<Element>, r: seq<Element>, n: nat) {
    |r| == n && if n <= |q| then r == q[..n] else r[..|q|] == q
  }

  function ReadAt(b: seq<byte>, index: nat, n: nat): (r: seq<byte>)
    ensures |r| == n
  {
    seq(n, d requires 0 <= d < n => if index + d < |b| then b[index + d] else 0)
  }

  // `b` after data is written at byte `index` and the size is cut to the last element touched.
  ghost predicate ContentWritten(before: seq<byte>, b: seq<byte>, index: nat, data: seq<byte>, es: nat) {
    && index + |data| <= |b| < index + |data| + es
    && (exists n: nat :: |b| == Span(n, es))
    && b[index..index + |data|] == data
    && forall i :: 0 <= i < index && i < |before| ==> b[i] == before[i]
  }

  /** What was written as content is read back from the same byte offset; reading further on within the last
      element gives whatever is there, and zeros behind the array. */
  lemma ContentRoundTrip(before: seq<byte>, b: seq<byte>, index: nat, data: seq<byte>, es: nat, n: nat)
    requires IsSize(es) && ContentWritten(before, b, index, data, es)
    ensures ReadAt(b, index, |data|) == data
    ensures n >= |data| ==> data <= ReadAt(b, index, n)
    ensures forall d :: |b| - index <= d < n ==> ReadAt(b, index, n)[d] == 0
    ensures |Elems(b, es)| == (index + |data| + (es - 1)) / es
  {
    assert ReadAt(b, index, |data|) == b[index..index + |data|];
    if n >= |data| {
      assert ReadAt(b, index, n)[..|data|] == ReadAt(b, index, |data|);
    }
    var m: nat :| |b| == Span(m, es);
    Count(b, m, es);
  }

  /** A pool entry: the bytes behind its descriptor and the number of elements in the descriptor. */
  class Array {
    const elementSize: nat
    var pool: array?<byte>       // null once the array is lost
    var elements: int32

    ghost predicate Valid()
      reads this, pool
    {
      && IsSize(elementSize)
      && (pool != null ==>
            0 <= elements && pool.Length == Span(elements, elementSize) && Fits(elements, elementSize))
    }

    ghost function Items(): seq<Element>
      requires IsSize(elementSize) && pool != null
      reads this, pool
    {
      Elems(pool[..], elementSize)
    }

    constructor (size: nat)
      requires IsSize(size)
      ensures Valid() && elementSize == size && pool != null && fresh(pool) && Items() == []
    {
      elementSize, elements := size, 0;
      pool := new byte[0];
    }

    // realloc: a block of `length` bytes that keeps what fits of this one
    method Moved(length: nat) returns (moved: array<byte>)
      requires pool != null
      ensures fresh(moved) && moved.Length == length
      ensures forall i :: 0 <= i < length && i < pool.Length ==> moved[i] == pool[i]
    {
      moved := new byte[length];
      var i := 0;
      while i < length && i < pool.Length
        invariant 0 <= i <= length && i <= pool.Length
        invariant forall k :: 0 <= k < i ==> moved[k] == pool[k]
      {
        moved[i] := pool[i];
        i := i + 1;
      }
    }

    // cMemoryResize with cMemoryReallocate; `granted` is what realloc answers.
    method Resize(n: int32, granted: bool) returns (ok: bool)
      requires Valid()
      modifies this
      ensures ok <==> old(pool) != null && granted && Allocates(n, elementSize)
      ensures !ok ==> pool == null
      ensures ok ==> old(pool) != null && pool != null && fresh(pool) && elements == n && pool.Length == Room(n, elementSize)
      ensures ok ==> (Valid() <==> Fits(n, elementSize))
      ensures ok ==> forall i :: 0 <= i < pool.Length && i < old(pool.Length) ==> pool[i] == old(pool[i])
      ensures ok && Fits(n, elementSize) ==> Resized(old(Items()), Items(), n)
    {
      hide Elems, Resized;
      if pool == null {
        return false;
      }
      var size := BlockSize(n, elementSize);
      if 0 < size <= MAX_ARRAY_SIZE && granted {
        var moved := Moved(if size > DESCR_SIZE then size - DESCR_SIZE else 0);
        RoomFits(n, elementSize);
        if Fits(n, elementSize) {
          PrefixKept(pool[..], moved[..], elements, n, elementSize);
        }
        pool, elements := moved, n;
        ok := true;
      } else {
        pool := null;
        ok := false;
      }
    }

    method Clear(from: nat, to: nat)
      requires pool != null && from <= to <= pool.Length
      modifies pool
      ensures forall i :: 0 <= i < pool.Length ==> pool[i] == if from <= i < to then 0 else old(pool[i])
    {
      var i := from;
      while i < to
        invariant from <= i <= to
        invariant forall k :: 0 <= k < pool.Length ==> pool[k] == if from <= k < i then 0 else old(pool[k])
      {
        pool[i] := 0;
        i := i + 1;
      }
    }

    method Store(at: nat, v: Element)
      requires pool != null && at + |v| <= pool.Length
      modifies pool
      ensures pool[..] == old(pool[..at]) + v + old(pool[at + |v|..])
    {
      var i := 0;
      while i < |v|
        invariant i <= |v|
        invariant forall k :: 0 <= k < pool.Length ==> pool[k] == if at <= k < at + i then v[k - at] else old(pool[k])
      {
        pool[at + i] := v[i];
        i := i + 1;
      }
    }

    // Clears the gap before the new element and stores it.
    method Place(index: nat, v: Element, offset: nat, length: int, ghost before: seq<byte>, ghost m: nat)
      requires Valid() && pool != null && |v| == elementSize && |before| == Span(m, elementSize)
      requires index < elements == if index < m then m else index + 1
      requires forall i :: 0 <= i < |before| ==> pool[i] == before[i]
      requires if index < m then length == 0 else offset == |before| && length == Span(index, elementSize) - offset
      modifies pool
      ensures Valid() && Items() == Written(Elems(before, elementSize), index, v, elementSize)
    {
      hide Elems, Written;
      if length > 0 {
        Clear(offset, offset + length);
      }
      ghost var cleared := pool[..];
      Store(Span(index, elementSize), v);
      WrittenBytes(before, m, cleared, elements, pool[..], index, v, elementSize);
    }

    // cMemoryArrayWrite
    method Write(index: int32, v: Element, granted: bool) returns (status: Status)
      requires Valid() && |v| == elementSize
      modifies this, pool
      ensures old(pool) == null ==> status == FailBreak && pool == null
      ensures old(pool) != null ==>
        var grows := old(elements) <= index < DATA32_MAX;
        && (status == FailBreak <==> index < 0 || (grows && !(granted && Allocates(index + 1, elementSize))))
        && (status == Outside <==>
              || index == DATA32_MAX
              || (grows && granted && Allocates(index + 1, elementSize) && !Fits(index + 1, elementSize)))
        && (status == NoBreak ==> Valid() && pool != null && Items() == Written(old(Items()), index, v, elementSize))
        && (status == NoBreak ==> pool == old(pool) || fresh(pool))
        && (status == FailBreak ==> if index < 0 then pool == old(pool) && Items() == old(Items()) else pool == null)
    {
      hide Elems, Written, Resized;
      if pool == null || index < 0 {
        return FailBreak;
      }
      ghost var before := pool[..];
      ghost var m := elements;
      var newElements := Wrap(index + 1);
      var offset, length := 0, 0;
      if newElements > elements {
        offset := Span(elements, elementSize);
        length := Span(index, elementSize) - offset;
        var ok := Resize(newElements, granted);
        if !ok {
          return FailBreak;
        }
        RoomFits(newElements, elementSize);
      }
      if pool.Length < Span(index, elementSize) + elementSize {
        return Outside;
      }
      Place(index, v, offset, length, before, m);
      return NoBreak;
    }

    // cMemoryArrayAppend
    method Append(v: Element, granted: bool) returns (status: Status)
      requires Valid() && |v| == elementSize
      modifies this, pool
      ensures old(pool) == null ==> status == FailBreak && pool == null
      ensures old(pool) != null ==>
        && (status == NoBreak <==> granted && Fits(old(elements) + 1, elementSize))
        && (status == NoBreak ==> Valid() && pool != null && fresh(pool) && Items() == old(Items()) + [v])
        && (status != NoBreak ==> status == FailBreak && pool == null)
    {
      hide Elems, Resized;
      if pool == null {
        return FailBreak;
      }
      ghost var before := pool[..];
      ghost var items := Items();
      var index := elements;
      Count(before, index, elementSize);
      NextFits(index, elementSize);
      var ok := Resize(index + 1, granted);
      if !ok {
        return FailBreak;
      }
      Place(index, v, Span(index, elementSize), 0, before, index);
      assert items + Zeros(0, elementSize) == items;
      return NoBreak;
    }

    // cMemoryArrayRead
    method Read(index: int32) returns (status: Status, v: Element)
      requires Valid()
      ensures status == NoBreak <==> pool != null && 0 <= index < |Items()|
      ensures status == NoBreak ==> v == Items()[index]
      ensures status != Outside
    {
      hide Elems;
      if pool != null {
        Count(pool[..], elements, elementSize);
        if 0 <= index < elements {
          Around(pool[..], elements, index, elementSize);
          v := pool[Span(index, elementSize)..Span(index, elementSize) + elementSize];
          return NoBreak, v;
        }
      }
      return FailBreak, [];
    }

    // Both arrays exist and are of one type, which the element size stands for.
    ghost predicate CopiesFrom(source: Array)
      reads this, source
    {
      pool != null && source.pool != null && source.elementSize == elementSize
    }

    // scCOPY. When an array is copied to itself and realloc has moved the block, it is read where it no longer is.
    method Copy(source: Array, granted: bool, moved: bool) returns (status: Status)
      requires Valid() && source.Valid()
      modifies this
      ensures !old(CopiesFrom(source)) ==> status == FailBreak && pool == old(pool) && elements == old(elements)
      ensures old(CopiesFrom(source)) ==>
                status == if !granted then FailBreak else if source == this && moved then Outside else NoBreak
      ensures old(CopiesFrom(source)) && !granted ==> pool == null
      ensures status == NoBreak ==> Valid() && pool != null && fresh(pool)
      ensures status == NoBreak ==> Items() == old(source.Items()) && elements == old(source.elements)
    {
      if source.pool == null || pool == null || source.elementSize != elementSize {
        return FailBreak;
      }
      hide Elems, Resized;
      ghost var items := source.Items();
      Count(source.pool[..], source.elements, elementSize);
      var ok := Resize(source.elements, granted);
      if !ok {
        return FailBreak;
      }
      if source == this {
        WholeKept(items, Items());
        return if moved then Outside else NoBreak;
      }
      CopyAll(source.pool);
      return NoBreak;
    }

    // memcpy
    method CopyAll(block: array<byte>)
      requires pool != null && pool != block && pool.Length == block.Length
      modifies pool
      ensures pool[..] == block[..]
    {
      var i := 0;
      while i < block.Length
        invariant 0 <= i <= pool.Length
        invariant forall k :: 0 <= k < i ==> pool[k] == block[k]
      {
        pool[i] := block[i];
        i := i + 1;
      }
    }

    // The copy loop of scWRITE_CONTENT
    method CopyIn(index: nat, bytes: int, data: seq<byte>, size: int)
      requires pool != null && bytes <= |data| && size <= pool.Length
      modifies pool
      ensures forall k :: 0 <= k < pool.Length ==>
                pool[k] == if index <= k < index + bytes && k < size then data[k - index] else old(pool[k])
    {
      var at, d := index, 0;
      while d < bytes && at < size
        invariant 0 <= d && at == index + d && (d > 0 ==> d <= bytes && at <= size)
        invariant forall k :: 0 <= k < pool.Length ==> pool[k] == if index <= k < at then data[k - index] else old(pool[k])
      {
        pool[at] := data[d];
        d := d + 1;
        at := at + 1;
      }
    }

    // scWRITE_CONTENT
    method WriteContent(index: int32, bytes: int32, data: seq<byte>, granted: bool) returns (status: Status)
      requires Valid() && bytes <= |data|
      modifies this, pool
      ensures old(pool) == null ==> status == FailBreak && pool == null
      ensures old(pool) != null ==>
        var n := Quotient(Wrap(index + bytes + (elementSize - 1)), elementSize);
        && (pool != null <==> granted && Allocates(n, elementSize))
        && (status == NoBreak <==> pool != null && index >= 0)
        && (status != NoBreak ==> status == FailBreak)
        && (pool != null ==> (Valid() <==> 0 <= n) && elements == n)
        && (status == NoBreak && bytes >= 0 ==>
              if index + bytes + (elementSize - 1) <= DATA32_MAX then
                ContentWritten(old(pool[..]), pool[..], index, data[..bytes], elementSize)
              else pool.Length == 0)
    {
      hide Elems, Resized, Quotient, Wrap;
      if pool == null {
        return FailBreak;
      }
      ghost var before := pool[..];
      ContentSize(index, bytes, elementSize);
      var n := Quotient(Wrap(index + bytes + (elementSize - 1)), elementSize);
      var size := Span(n, elementSize);
      var ok := Resize(n, granted);
      if !ok || index < 0 {
        return FailBreak;
      }
      CopyIn(index, bytes, data, size);
      if bytes >= 0 && index + bytes + (elementSize - 1) <= DATA32_MAX {
        assert pool[..][index..index + bytes] == data[..bytes];
        var m: nat := n;
        assert |pool[..]| == Span(m, elementSize);
      }
      return NoBreak;
    }

    // scREAD_CONTENT, with a destination of `bytes` bytes
    method ReadContent(index: int32, bytes: int32) returns (status: Status, data: seq<byte>)
      requires Valid()
      ensures status == NoBreak <==> pool != null && index >= 0
      ensures status == NoBreak ==> data == ReadAt(pool[..], index, if bytes < 0 then 0 else bytes)
      ensures status != Outside
    {
      data := [];
      if pool == null || index < 0 {
        return FailBreak, [];
      }
      var size := Span(elements, elementSize);
      var at := index;
      while |data| < bytes && at < size
        invariant at == index + |data| && (bytes >= 0 ==> |data| <= bytes) && (bytes < 0 ==> data == [])
        invariant |data| > 0 ==> at <= size
        invariant forall d :: 0 <= d < |data| ==> index + d < pool.Length && data[d] == pool[index + d]
      {
        data := data + [pool[at]];
        at := at + 1;
      }
      ghost var copied := |data|;
      while |data| < bytes
        invariant copied <= |data| && (bytes >= 0 ==> |data| <= bytes) && (bytes < 0 ==> data == [])
        invariant |data| > copied ==> index + copied >= size
        invariant forall d :: 0 <= d < |data| ==> data[d] == if index + d < pool.Length then pool[index + d] else 0
      {
        data := data + [0];
      }
      return NoBreak, data;
    }
  }

  /** An array of words grown to 2^30 elements: its size wraps to that of the descriptor alone, so the block is
      allocated, and the element that was to be written lies outside it. */
  method SizeWraps() returns (status: Status)
    ensures status == Outside
  {
    hide Elems, Written;
    var a := new Array(4);
    assert |Elems(a.pool[..], 4)| == 0;
    Count(a.pool[..], a.elements, 4);
    status := a.Write(0x3FFF_FFFF, [1, 2, 3, 4], true);
  }

  // ---- Any sequence of operations ----

  datatype Op =
    | WriteOp(index: int32, v: Element)
    | AppendOp(v: Element)
    | ReadOp(index: int32)
    | ResizeOp(n: int32)
    | CopyOp                               // from a second array

  // What a successful operation does to the mathematical sequence, and what it returns.
  ghost predicate Means(q: seq<Element>, op: Op, r: seq<Element>, out: Element, source: seq<Element>, es: nat) {
    match op
    case WriteOp(index, v) => 0 <= index && r == Written(q, index, v, es)
    case AppendOp(v) => r == q + [v]
    case ReadOp(index) => 0 <= index < |q| && r == q && out == q[index]
    case ResizeOp(n) => 0 <= n && Resized(q, r, n)
    case CopyOp => r == source
  }

  // An operation whose elements have the size of the array.
  predicate Typed(op: Op, es: nat) {
    (op.WriteOp? ==> |op.v| == es) && (op.AppendOp? ==> |op.v| == es)
  }

  method Perform(a: Array, source: Array, op: Op, granted: bool) returns (ok: bool, out: Element)
    requires a.Valid() && a.pool != null && source.Valid() && source.pool != null && source != a && source.pool != a.pool
    requires source.elementSize == a.elementSize && Typed(op, a.elementSize)
    modifies a, a.pool
    ensures ok ==> a.Valid() && a.pool != null && (fresh(a.pool) || a.pool == old(a.pool))
    ensures ok ==> Means(old(a.Items()), op, a.Items(), out, old(source.Items()), a.elementSize)
  {
    hide Elems, Written, Resized;
    out := [];
    match op {
      case WriteOp(index, v) =>
        var status := a.Write(index, v, granted);
        ok := status == NoBreak;
      case AppendOp(v) =>
        var status := a.Append(v, granted);
        ok := status == NoBreak;
      case ReadOp(index) =>
        var status;
        status, out := a.Read(index);
        ok := status == NoBreak;
      case ResizeOp(n) =>
        var resized := a.Resize(n, granted);
        ok := resized && Fits(n, a.elementSize);
      case CopyOp =>
        var status := a.Copy(source, granted, false);
        ok := status == NoBreak;
    }
  }

  /** As long as they succeed, any operations in any order behave on the array as on a mathematical sequence. */
  method Session(a: Array, source: Array, ops: seq<Op>, grants: seq<bool>)
    returns (done: nat, outs: seq<Element>, ghost trace: seq<seq<Element>>)
    requires a.Valid() && a.pool != null && source.Valid() && source.pool != null && source != a && source.pool != a.pool
    requires source.elementSize == a.elementSize && |grants| == |ops| && forall op :: op in ops ==> Typed(op, a.elementSize)
    modifies a, a.pool
    ensures done <= |ops| && |outs| == done && |trace| == done + 1 && trace[0] == old(a.Items())
    ensures forall k :: 0 <= k < done ==> Means(trace[k], ops[k], trace[k + 1], outs[k], old(source.Items()), a.elementSize)
    ensures done == |ops| ==> a.Valid() && a.pool != null && a.Items() == trace[done]
  {
    hide Elems, Means, Typed;
    done, outs, trace := 0, [], [a.Items()];
    while done < |ops|
      invariant done <= |ops| && |outs| == done && |trace| == done + 1 && trace[0] == old(a.Items())
      invariant a.Valid() && a.pool != null && (fresh(a.pool) || a.pool == old(a.pool)) && a.Items() == trace[done]
      invariant source.Valid() && source.pool == old(source.pool) != null && source.Items() == old(source.Items())
      invariant source.pool != a.pool
      invariant forall k :: 0 <= k < done ==> Means(trace[k], ops[k], trace[k + 1], outs[k], old(source.Items()), a.elementSize)
    {
      var ok, out := Perform(a, source, ops[done], grants[done]);
      if !ok {
        return;
      }
      outs, trace := outs + [out], trace + [a.Items()];
      done := done + 1;
    }
  }

  lemma WholeKept(q: seq<Element>, r: seq<Element>)
    requires Resized(q, r, |q|)
    ensures q == r
  {
  }

  lemma PrefixKept(before: seq<byte>, b: seq<byte>, m: nat, n: nat, es: nat)
    requires IsSize(es) && |before| == Span(m, es) && |b| == Span(n, es)
    requires forall i :: 0 <= i < |before| && i < |b| ==> b[i] == before[i]
    ensures Resized(Elems(before, es), Elems(b, es), n)
  {
    Count(before, m, es);
    Count(b, n, es);
    if n <= m {
      var cut := Span(n, es);
      assert before == b + before[cut..];
      Joined(b, n, before[cut..], es);
    } else {
      var cut := Span(m, es);
      assert b == before + b[cut..];
      Joined(before, m, b[cut..], es);
    }
  }

  // One element more than a block that fits never wraps around.
  lemma NextFits(elements: int32, es: nat)
    requires IsSize(es) && Fits(elements, es)
    ensures elements + 1 < DATA32_MAX && (Fits(elements + 1, es) <==> Allocates(elements + 1, es))
  {
  }

  // The bytes left by a write: kept, cleared up to the index, and the new element.
  lemma WrittenBytes(before: seq<byte>, m: nat, cleared: seq<byte>, n: nat, b: seq<byte>, index: nat, v: Element, es: nat)
    requires IsSize(es) && |v| == es && |before| == Span(m, es) && |cleared| == Span(n, es)
    requires n == if index < m then m else index + 1
    requires forall i :: 0 <= i < |before| ==> cleared[i] == before[i]
    requires forall i :: |before| <= i < Span(index, es) ==> cleared[i] == 0
    requires b == cleared[..Span(index, es)] + v + cleared[Span(index, es) + es..]
    ensures Elems(b, es) == Written(Elems(before, es), index, v, es)
  {
    hide Elems, Written;
    if index < m {
      assert cleared == before;
      WrittenInside(before, m, index, v, es);
    } else {
      var gap := cleared[|before|..Span(index, es)];
      assert cleared[..Span(index, es)] == before + gap;
      WrittenBehind(before, m, gap, index, v, es);
      assert b == before + gap + v;
    }
  }

  lemma WrittenInside(before: seq<byte>, m: nat, index: nat, v: Element, es: nat)
    requires IsSize(es) && |v| == es && |before| == Span(m, es) && index < m
    ensures 0 <= Span(index, es) && Span(index, es) + es <= |before|
    ensures Elems(before[..Span(index, es)] + v + before[Span(index, es) + es..], es) == Written(Elems(before, es), index, v, es)
  {
    hide Elems;
    var at := Span(index, es);
    Around(before, m, index, es);
    Replaced(before[..at], index, v, before[at + es..], es);
  }

  lemma WrittenBehind(before: seq<byte>, m: nat, gap: seq<byte>, index: nat, v: Element, es: nat)
    requires IsSize(es) && |v| == es && |before| == Span(m, es) && m <= index
    requires |gap| == Span(index - m, es) && forall i :: 0 <= i < |gap| ==> gap[i] == 0
    ensures Elems(before + gap + v, es) == Written(Elems(before, es), index, v, es)
  {
    hide Elems;
    Count(before, m, es);
    ZeroBlock(gap, index - m, es);
    assert before + gap + v == before + (gap + v);
    Joined(before, m, gap + v, es);
    Joined(gap, index - m, v, es);
    One(v, es);
  }

  lemma QuotientIs(x: int32, es: nat)
    requires IsSize(es)
    ensures var n := Quotient(x, es);
            if x >= 0 then 0 <= n && Span(n, es) <= x < Span(n, es) + es else x <= Span(n, es) <= 0 && n <= 0
  {
  }

  lemma WrapIs(x: int)
    requires -0x8000_0000 <= x < 0x1_0000_0000 + 4
    ensures Wrap(x) == if x <= DATA32_MAX then x else if x < 0x1_8000_0000 then x - 0x1_0000_0000 else x - 0x2_0000_0000
  {
  }

  // A size that is neither wrapped nor negative allocates its room, and any other no room at all.
  lemma SmallBlock(n: int, es: nat)
    requires IsSize(es) && Allocates(n, es) && -0x8000_0000 <= Span(n, es) <= DATA32_MAX
    ensures 0 <= n ==> Fits(n, es)
    ensures n <= 0 ==> Room(n, es) == 0
  {
  }

  lemma ContentSize(index: int32, bytes: int32, es: nat)
    requires IsSize(es)
    ensures var n := Quotient(Wrap(index + bytes + (es - 1)), es);
            && -0x8000_0000 <= n < 0x8000_0000
            && (Allocates(n, es) && 0 <= n ==> Fits(n, es))
            && (index >= 0 && bytes >= 0 ==>
                  if index + bytes + (es - 1) <= DATA32_MAX then 0 <= n && index + bytes <= Span(n, es) < index + bytes + es
                  else n <= 0)
            && (n <= 0 && Allocates(n, es) ==> Room(n, es) == 0)
  {
    hide Quotient, Wrap, Allocates, Fits, Room;
    var x := index + bytes + (es - 1);
    QuotientIs(Wrap(x), es);
    if index >= 0 && bytes >= 0 {
      WrapIs(x);
    }
    var n := Quotient(Wrap(x), es);
    if Allocates(n, es) {
      SmallBlock(n, es);
    }
  }
}
