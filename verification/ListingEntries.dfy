/** The entries of a directory and the line of the listing that stands for each. */
module ListingEntries {
  import opened Bytes
  import opened FileNames

  const MD5LEN: nat := 32
  const SIZEOFFILESIZE: nat := 8

  // The bytes of TmpFileName in LIST_FILES, and in the two continuations.
  const LIST_CAPACITY: nat := MD5LEN + 1 + SIZEOFFILESIZE + 1 + FILENAMESIZE
  const CONTINUE_CAPACITY: nat := FILENAMESIZE
  const SPACE: byte := 32
  const NEWLINE: byte := 10

  datatype Kind = Directory | Link | Regular | OtherKind

  /** `sum` are the sixteen bytes printed in front of a file, `size` its length. */
  datatype Entry = Entry(name: seq<byte>, kind: Kind, sum: seq<byte>, size: nat)

  predicate EntryOk(e: Entry) {
    |e.sum| == 16
  }

  function HexDigit(n: nat): byte
    requires n < 16
  {
    if n < 10 then 48 + n else 55 + n
  }

  // %0nX of an unsigned word
  function Hex(n: nat, digits: nat): (s: seq<byte>)
    ensures |s| == digits
  {
    if digits == 0 then [] else Hex(n / 16, digits - 1) + [HexDigit(n % 16)]
  }

  function HexAll(bytes: seq<byte>): (s: seq<byte>)
    ensures |s| == 2 * |bytes|
  {
    if bytes == [] then [] else Hex(bytes[0], 2) + HexAll(bytes[1..])
  }

  /** The line of an entry: a folder or link with a slash, a file behind its sum and size, nothing for the rest. */
  function Text(e: Entry): (text: seq<byte>) {
    match e.kind
    case Directory => e.name + [SLASH, NEWLINE]
    case Link => e.name + [SLASH, NEWLINE]
    case Regular => HexAll(e.sum) + [SPACE] + Hex(e.size % 0x1_0000_0000, SIZEOFFILESIZE) + [SPACE] + e.name + [NEWLINE]
    case OtherKind => []
  }

  // ---- What a reader finds in a line ----

  // '0' to '9' and 'A' to 'F'
  predicate IsDigit(c: byte) { 48 <= c <= 57 || 65 <= c <= 70 }

  function DigitValue(c: byte): nat
    requires IsDigit(c)
  {
    if c <= 57 then c - 48 else c - 65 + 10
  }

  /** Digits as a number, the first counting most. */
  function Number(s: seq<byte>): nat
    requires forall c :: c in s ==> IsDigit(c)
  {
    if s == [] then 0 else 16 * Number(s[..|s| - 1]) + DigitValue(s[|s| - 1])
  }

  predicate Reads(s: seq<byte>, n: nat) {
    (forall c :: c in s ==> IsDigit(c)) && Number(s) == n
  }

  /** The fields at their places: a folder's name and "/\n", or a file's sum in sixteen pairs of digits, its size in
      eight digits, and its name, each with what separates them. */
  predicate Line(e: Entry, line: seq<byte>) {
    var n := |e.name|;
    match e.kind
    case Directory => |line| == n + 2 && line[..n] == e.name && line[n] == 47 && line[n + 1] == 10
    case Link => |line| == n + 2 && line[..n] == e.name && line[n] == 47 && line[n + 1] == 10
    case Regular =>
      && |line| == n + 43
      && (forall k :: 0 <= k < |e.sum| && k < 16 ==> Reads(line[2 * k..2 * k + 2], e.sum[k]))
      && line[32] == 32 && Reads(line[33..41], e.size % 0x1_0000_0000) && line[41] == 32
      && line[42..42 + n] == e.name && line[42 + n] == 10
    case OtherKind => line == []
  }

  function Pow16(digits: nat): (p: nat)
    ensures p > 0
  {
    if digits == 0 then 1 else 16 * Pow16(digits - 1)
  }

  lemma {:induction false} HexReads(n: nat, digits: nat)
    ensures Reads(Hex(n, digits), n % Pow16(digits))
  {
    if digits > 0 {
      HexReads(n / 16, digits - 1);
      var s, d := Hex(n, digits), HexDigit(n % 16);
      assert s[..digits - 1] == Hex(n / 16, digits - 1) && s[digits - 1] == d;
      assert DigitValue(d) == n % 16;
      Digits(n, Pow16(digits - 1));
    }
  }

  lemma Digits(n: nat, p: nat)
    requires p > 0
    ensures 16 * p > 0 && 16 * (n / 16 % p) + n % 16 == n % (16 * p)
  {
    var q, r := n / 16 / p, n / 16 % p;
    assert n == 16 * (q * p + r) + n % 16;
    assert n == q * (16 * p) + (16 * r + n % 16);
    Remainder(n, 16 * p, q, 16 * r + n % 16);
  }

  lemma Remainder(n: nat, m: nat, q: nat, r: nat)
    requires m > 0 && r < m && n == q * m + r
    ensures n % m == r
  {
    var a, b := n / m, n % m;
    assert n == m * a + b;
    if a > q {
      Above(m, a, q);
    } else if a < q {
      Above(m, q, a);
    }
  }

  lemma Above(m: nat, a: nat, b: nat)
    requires a > b
    ensures m * a >= b * m + m
  {
    AtLeast(m, a - b);
    Apart(m, a, b);
  }

  lemma AtLeast(m: nat, k: nat)
    requires k >= 1
    ensures m * k >= m
  {
  }

  lemma Apart(m: nat, a: nat, b: nat)
    requires a >= b
    ensures m * (a - b) == m * a - b * m
  {
  }

  lemma {:induction false} HexAllReads(bytes: seq<byte>, k: nat)
    requires k < |bytes|
    ensures Reads(HexAll(bytes)[2 * k..2 * k + 2], bytes[k])
  {
    hide Hex, Reads;
    var rest := HexAll(bytes[1..]);
    if k == 0 {
      HexReads(bytes[0], 2);
      assert Pow16(1) == 16 && Pow16(2) == 256;
      assert HexAll(bytes)[..2] == Hex(bytes[0], 2);
    } else {
      HexAllReads(bytes[1..], k - 1);
      assert HexAll(bytes)[2 * k..2 * k + 2] == rest[2 * (k - 1)..2 * (k - 1) + 2];
    }
  }

  lemma SizeReads(n: nat)
    requires n < 0x1_0000_0000
    ensures Reads(Hex(n, SIZEOFFILESIZE), n)
  {
    hide Hex, Reads;
    HexReads(n, 8);
    assert Pow16(4) == 0x1_0000;
    assert Pow16(8) == 0x1_0000_0000;
  }

  lemma TextIsLine(e: Entry)
    requires EntryOk(e)
    ensures Line(e, Text(e))
  {
    hide Hex, HexAll, Reads;
    if e.kind == Regular {
      var n, line := |e.name|, Text(e);
      var sum, size := HexAll(e.sum), Hex(e.size % 0x1_0000_0000, SIZEOFFILESIZE);
      assert line[..32] == sum && line[33..41] == size && line[42..42 + n] == e.name;
      SizeReads(e.size % 0x1_0000_0000);
      forall k | 0 <= k < 16 ensures Reads(line[2 * k..2 * k + 2], e.sum[k]) {
        HexAllReads(e.sum, k);
        assert line[2 * k..2 * k + 2] == line[..32][2 * k..2 * k + 2];
      }
    }
  }

  function Texts(es: seq<Entry>): (texts: seq<seq<byte>>)
    ensures |texts| == |es|
  {
    seq(|es|, i requires 0 <= i < |es| => Text(es[i]))
  }

  /** The line of an entry, with its final zero, has room in a destination of `capacity` bytes, and its name in
      the places it passes through: strncpy takes less than FILENAMESIZE bytes of a folder's name with a zero
      behind them, and a file's name is put behind its folder's. */
  predicate LineFits(e: Entry, folder: seq<byte>, capacity: nat) {
    match e.kind
    case Directory => |e.name| < FILENAMESIZE && |Text(e)| < capacity
    case Link => |e.name| < FILENAMESIZE && |Text(e)| < capacity
    case Regular => |folder| + 1 + |e.name| < MD5LEN + 1 + FILENAMESIZE && |Text(e)| < capacity
    case OtherKind => true
  }

  // cComGetNameFromScandirList; unless `inside`, it leaves one of its arrays or reads a string without an end.
  method GetName(e: Entry, folder: seq<byte>, capacity: nat) returns (inside: bool, buffer: seq<byte>, nameLen: nat)
    requires EntryOk(e) && capacity >= FILENAMESIZE
    ensures inside <==> LineFits(e, folder, capacity)
    ensures inside ==> buffer == Text(e) && nameLen == |buffer| && Line(e, buffer)
  {
    hide Line;
    TextIsLine(e);
    inside, buffer, nameLen := true, [], 0;
    if e.kind == Link || e.kind == Directory {
      if |e.name| >= FILENAMESIZE {
        return false, [], 0;
      }
      buffer := e.name;
      nameLen := |e.name|;
      buffer, nameLen := buffer + [SLASH], nameLen + 1;
      buffer, nameLen := buffer + [NEWLINE], nameLen + 1;
      inside := |buffer| < capacity;
    } else if e.kind == Regular {
      var fileName := folder + [SLASH] + e.name;
      if |fileName| >= MD5LEN + 1 + FILENAMESIZE {
        return false, [], 0;
      }
      buffer := HexAll(e.sum) + [SPACE];
      nameLen := |buffer|;
      var size := Hex(e.size % 0x1_0000_0000, SIZEOFFILESIZE) + [SPACE];
      buffer, nameLen := buffer + size, nameLen + |size|;
      buffer, nameLen := buffer + e.name, nameLen + |e.name|;
      buffer, nameLen := buffer + [NEWLINE], nameLen + 1;
      inside := |buffer| < capacity;
    }
  }

  /** The bounds in plain numbers: what fits the continuations fits LIST_FILES too, and a file's name has room
      for 76 bytes, a folder's for 117. */
  lemma NameBounds(e: Entry, folder: seq<byte>)
    requires EntryOk(e)
    ensures LineFits(e, folder, CONTINUE_CAPACITY) ==> LineFits(e, folder, LIST_CAPACITY)
    ensures e.kind == Regular && |folder| <= 75 ==> (LineFits(e, folder, CONTINUE_CAPACITY) <==> |e.name| <= 76)
    ensures e.kind == Directory || e.kind == Link ==> (LineFits(e, folder, CONTINUE_CAPACITY) <==> |e.name| <= 117)
  {
  }

  // What the first pass of LIST_FILES adds for an entry.
  method GetLength(e: Entry) returns (len: nat)
    requires EntryOk(e)
    ensures len == |Text(e)|
  {
    len := 0;
    if e.kind == Regular || e.kind == Directory || e.kind == Link {
      len := len + |e.name|;
      if e.kind != Regular {
        len := len + 1;
      } else {
        len := len + MD5LEN + 1 + SIZEOFFILESIZE + 1;
      }
      len := len + 1;
    }
  }
}
