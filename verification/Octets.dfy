/** Unsigned bytes as bits and as numbers. */
module Octets {
  type octet = bv8

  function Num(b: octet): (n: nat)
    ensures n < 256
  {
    b as nat
  }

  /** The octet with number `n`, counted up from 0. */
  function Byte(n: nat): octet
    requires n < 256
  {
    if n == 0 then 0 else Byte(n - 1) + 1
  }

  lemma CountUp(b: octet)
    requires b != 255
    ensures (b + 1) as nat == b as nat + 1
  {
  }

  lemma {:induction false} NumByte(n: nat)
    requires n < 256
    ensures Num(Byte(n)) == n
  {
    if n > 0 {
      NumByte(n - 1);
      CountUp(Byte(n - 1));
    }
  }

  /** UBYTE minus one. */
  function Minus1(b: octet): octet {
    if Num(b) == 0 then Byte(255) else Byte(Num(b) - 1)
  }
}
