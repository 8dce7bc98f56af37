/** The macros of the ring buffer as they are written, with a mask on 32-bit words, compute the remainders that
    Ring works with. */
module RingMasks {
  import opened Ring

  type uword = bv16    // the pointers
  type word = bv32     // what they are promoted to in an expression
  type low = bv10      // what the mask leaves

  function BytesFree(inPtr: uword, outPtr: uword): word { ((outPtr as word - inPtr as word) - 1) & 1023 }

  function BytesAvail(inPtr: uword, outPtr: uword): word { (inPtr as word - outPtr as word) & 1023 }

  function AddPtr(ptr: uword): word { (ptr as word + 1) & 1023 }

  function Num(w: low): (n: nat) { w as nat }

  function NumOfWord(w: word): (n: nat) { w as nat }

  /** The low bits with number `n`, counted up from 0. */
  function Low(n: nat): low { if n == 0 then 0 else Next(Low(n - 1)) }

  // A pointer whose value is `n`.
  function Pointer(n: nat): uword { Low(n) as uword }

  // ---- Bits ----

  function Next(w: low): low { w + 1 }

  function Plus(a: low, b: low): low { a + b }

  function Minus(a: low, b: low): low { a - b }

  lemma NumZero()
    ensures Num(0) == 0
  {
  }

  lemma NumNext(w: low)
    ensures Num(Next(w)) == if w == 1023 then 0 else Num(w) + 1
  {
  }

  lemma NumLast(w: low)
    ensures w == 1023 <==> Num(w) == 1023
  {
  }

  lemma NumPromoted(w: low)
    ensures NumOfWord(w as word) == Num(w)
  {
  }

  lemma PlusNext(a: low, b: low)
    ensures Plus(Next(a), b) == Next(Plus(a, b)) && Plus(0, b) == b && Plus(a, 0) == a
  {
  }

  lemma MinusPlus(a: low, b: low)
    ensures Minus(Plus(a, b), b) == a
  {
  }

  /** The masks cut off the low bits, in which the promoted arithmetic wraps around. */
  lemma FreeIsLow(inPtr: low, outPtr: low)
    ensures BytesFree(inPtr as uword, outPtr as uword) == Minus(outPtr, Next(inPtr)) as word
  {
  }

  lemma AvailIsLow(inPtr: low, outPtr: low)
    ensures BytesAvail(inPtr as uword, outPtr as uword) == Minus(inPtr, outPtr) as word
  {
  }

  lemma AddIsLow(ptr: low)
    ensures AddPtr(ptr as uword) == Next(ptr) as word
  {
  }

  // ---- Numbers ----

  lemma {:induction false} LowValue(n: nat)
    ensures Num(Low(n)) == n % SIZE
  {
    hide Num, Next;
    NumZero();
    if n > 0 {
      LowValue(n - 1);
      NumNext(Low(n - 1));
      NumLast(Low(n - 1));
    }
  }

  lemma {:induction false} LowAdds(a: nat, b: nat)
    ensures Low(a + b) == Plus(Low(a), Low(b))
  {
    hide Plus, Next;
    if a == 0 {
      PlusNext(0, Low(b));
    } else {
      LowAdds(a - 1, b);
      PlusNext(Low(a - 1), Low(b));
    }
  }

  lemma Turn()
    ensures Low(SIZE) == 0
  {
    hide Num;
    LowValue(SIZE - 1);
    NumLast(Low(SIZE - 1));
  }

  /** Also a difference that is negative as a number, and has wrapped as a word, is the remainder. */
  lemma DifferenceValue(a: nat, b: nat)
    requires b <= SIZE
    ensures Num(Minus(Low(a), Low(b))) == (a - b) % SIZE
  {
    hide Low, Num, Plus, Minus;
    var d := a + SIZE - b;
    Turn();
    LowAdds(d, b);
    LowAdds(a, SIZE);
    PlusNext(Low(a), 0);
    MinusPlus(Low(d), Low(b));
    LowValue(d);
    assert d % SIZE == (a - b) % SIZE;
  }

  lemma LowNext(n: nat)
    ensures Next(Low(n)) == Low(n + 1)
  {
  }

  lemma FreeMacro(m: Mem)
    requires Ring.Valid(m)
    ensures NumOfWord(BytesFree(Pointer(m.inPtr), Pointer(m.outPtr))) == Free(m)
  {
    hide Low, Next, Num, Minus, NumOfWord, BytesFree;
    FreeIsLow(Low(m.inPtr), Low(m.outPtr));
    LowNext(m.inPtr);
    DifferenceValue(m.outPtr, m.inPtr + 1);
    NumPromoted(Minus(Low(m.outPtr), Low(m.inPtr + 1)));
  }

  lemma AvailMacro(m: Mem)
    requires Ring.Valid(m)
    ensures NumOfWord(BytesAvail(Pointer(m.inPtr), Pointer(m.outPtr))) == Avail(m)
  {
    hide Low, Num, Minus, NumOfWord, BytesAvail;
    AvailIsLow(Low(m.inPtr), Low(m.outPtr));
    DifferenceValue(m.inPtr, m.outPtr);
    NumPromoted(Minus(Low(m.inPtr), Low(m.outPtr)));
  }

  lemma AddMacro(n: nat)
    ensures NumOfWord(AddPtr(Pointer(n))) == (n + 1) % SIZE && NumOfWord(Pointer(n) as word) == n % SIZE
  {
    hide Low, Next, Num, NumOfWord, AddPtr;
    AddIsLow(Low(n));
    LowNext(n);
    LowValue(n + 1);
    LowValue(n);
    NumPromoted(Low(n));
    NumPromoted(Low(n + 1));
    Promoted(Low(n));
  }

  lemma Promoted(w: low)
    ensures (w as uword) as word == w as word
  {
  }

  /** For every position of the two pointers the four macros compute what Ring says of the numbers. */
  lemma Macros(m: Mem)
    requires Ring.Valid(m)
    ensures var i, o := Pointer(m.inPtr), Pointer(m.outPtr);
            && NumOfWord(i as word) == m.inPtr && NumOfWord(o as word) == m.outPtr
            && NumOfWord(BytesFree(i, o)) == Free(m) && NumOfWord(BytesAvail(i, o)) == Avail(m)
            && NumOfWord(AddPtr(i)) == AdvanceIn(m).inPtr && NumOfWord(AddPtr(o)) == AdvanceOut(m).outPtr
  {
    hide Pointer, NumOfWord, BytesFree, BytesAvail, AddPtr;
    FreeMacro(m);
    AvailMacro(m);
    AddMacro(m.inPtr);
    AddMacro(m.outPtr);
  }
}
