/** A block of bytes seen as a sequence of elements of one, two or four bytes. */
module Elements {
  import opened Bytes

  type Element = seq<byte>

  // The sizes of DATA_8, DATA_16, DATA_32 and DATA_F.
  predicate IsSize(es: nat) { es == 1 || es == 2 || es == 4 }

  // i * es, kept linear
  function Span(i: int, es: nat): int { if es == 1 then i else if es == 2 then 2 * i else 4 * i }

  function Elems(b: seq<byte>, es: nat): seq<Element>
    requires IsSize(es)
    decreases |b|
  {
    if |b| < es then [] else [b[..es]] + Elems(b[es..], es)
  }

  function Zero(es: nat): Element { seq(es, _ => 0) }

  function Zeros(n: nat, es: nat): seq<Element> { seq(n, _ => Zero(es)) }

  lemma {:induction false} Count(b: seq<byte>, n: nat, es: nat)
    requires IsSize(es) && |b| == Span(n, es)
    ensures |Elems(b, es)| == n
  {
    if n == 0 {
    } else {
      Count(b[es..], n - 1, es);
    }
  }

  lemma FirstOff(a: seq<byte>, b: seq<byte>, es: nat)
    requires IsSize(es) && es <= |a|
    ensures Elems(a, es) == [a[..es]] + Elems(a[es..], es)
    ensures Elems(a + b, es) == [a[..es]] + Elems(a[es..] + b, es)
  {
    assert (a + b)[..es] == a[..es] && (a + b)[es..] == a[es..] + b;
  }

  lemma {:induction false} Joined(a: seq<byte>, n: nat, b: seq<byte>, es: nat)
    requires IsSize(es) && |a| == Span(n, es)
    ensures Elems(a + b, es) == Elems(a, es) + Elems(b, es)
    decreases n
  {
    if n == 0 {
      assert a + b == b;
    } else {
      Joined(a[es..], n - 1, b, es);
      FirstOff(a, b, es);
    }
  }

  lemma One(v: seq<byte>, es: nat)
    requires IsSize(es) && |v| == es
    ensures Elems(v, es) == [v]
  {
    assert v[..es] == v && v[es..] == [];
  }

  lemma {:induction false} ZeroBlock(b: seq<byte>, n: nat, es: nat)
    requires IsSize(es) && |b| == Span(n, es) && forall i :: 0 <= i < |b| ==> b[i] == 0
    ensures Elems(b, es) == Zeros(n, es)
  {
    if n == 0 {
    } else {
      ZeroBlock(b[es..], n - 1, es);
      assert b[..es] == Zero(es);
      assert Zeros(n, es) == [Zero(es)] + Zeros(n - 1, es);
    }
  }

  /** A block with one element between two others: replacing its bytes replaces that element and no other. */
  lemma Replaced(left: seq<byte>, i: nat, v: Element, right: seq<byte>, es: nat)
    requires IsSize(es) && |left| == Span(i, es) && |v| == es
    ensures |Elems(left, es)| == i
    ensures Elems(left + v + right, es) == Elems(left, es) + [v] + Elems(right, es)
  {
    hide Elems;
    Count(left, i, es);
    assert left + v + right == left + (v + right);
    Joined(left, i, v + right, es);
    Joined(v, 1, right, es);
    One(v, es);
  }

  // The three parts of a block around its element number `i`.
  lemma Around(b: seq<byte>, n: nat, i: nat, es: nat)
    requires IsSize(es) && |b| == Span(n, es) && i < n
    ensures 0 <= Span(i, es) && Span(i, es) + es <= |b|
    ensures |Elems(b, es)| == n && Elems(b, es)[i] == b[Span(i, es)..Span(i, es) + es]
    ensures Elems(b, es) == Elems(b[..Span(i, es)], es) + [b[Span(i, es)..Span(i, es) + es]] + Elems(b[Span(i, es) + es..], es)
  {
    hide Elems;
    var at := Span(i, es);
    var left, here, right := b[..at], b[at..at + es], b[at + es..];
    assert b == left + here + right;
    Replaced(left, i, here, right, es);
    Count(b, n, es);
  }
}
