/** The words of 32 bits that a BinarySet is packed into. */
module BinaryWords {
  import opened Bits

  /** 1 << j. */
  function Mask(j: nat): bv32
    requires j < 32
  {
    1 << j
  }

  predicate Meets(v: bv32, w: bv32) { v & w != 0 }

  function Both(v: bv32, w: bv32): bv32 { v & w }

  function Either(v: bv32, w: bv32): bv32 { v | w }

  function Without(v: bv32, w: bv32): bv32 { v & !w }

  function Drop(w: bv32): bv32 { w & (w - 1) }

  predicate Bit(w: bv32, j: nat)
    requires j < 32
  {
    Meets(w, Mask(j))
  }

  // ----- one word -----

  /** Exactly one bit is set. */
  ghost predicate OneHot(p: bv32) { p != 0 && p & (p - 1) == 0 }

  lemma MaskShift(j: nat)
    requires j < 32
    ensures Mask(j) == 1 << (j as bv32) && (j as bv32) < 32 && (j as bv32) as int == j
  {
  }

  lemma MaskHot(j: nat)
    requires j < 32
    ensures OneHot(Mask(j))
  {
    hide Mask;
    MaskShift(j);
    HotShift(j as bv32);
  }

  lemma MaskApart(j: nat, k: nat)
    requires j < 32 && k < 32
    ensures Mask(j) == Mask(k) <==> j == k
  {
    hide Mask;
    if j != k {
      MaskShift(j);
      MaskShift(k);
      ApartShift(j as bv32, k as bv32);
    }
  }

  lemma OrMeets(v: bv32, w: bv32, q: bv32)
    requires OneHot(q)
    ensures Meets(Either(v, w), q) <==> Meets(v, q) || Meets(w, q)
  {
    OrMask(v, w, q);
  }

  lemma AndMeets(v: bv32, w: bv32, q: bv32)
    requires OneHot(q)
    ensures Meets(Both(v, w), q) <==> Meets(v, q) && Meets(w, q)
  {
    AndMask(v, w, q);
  }

  lemma SetMeets(w: bv32, p: bv32, q: bv32)
    requires OneHot(p) && OneHot(q)
    ensures Meets(Either(w, p), q) <==> p == q || Meets(w, q)
  {
    SetMask(w, p, q);
  }

  lemma ClearMeets(w: bv32, p: bv32, q: bv32)
    requires OneHot(p) && OneHot(q)
    ensures Meets(Without(w, p), q) <==> p != q && Meets(w, q)
  {
    ClearMask(w, p, q);
  }

  lemma SetBit(w: bv32, j: nat, k: nat)
    requires j < 32 && k < 32
    ensures Bit(Either(w, Mask(j)), k) <==> j == k || Bit(w, k)
    ensures Bit(Without(w, Mask(j)), k) <==> j != k && Bit(w, k)
  {
    hide Mask, OneHot, Meets, Either, Without;
    MaskHot(j);
    MaskHot(k);
    MaskApart(j, k);
    SetMeets(w, Mask(j), Mask(k));
    ClearMeets(w, Mask(j), Mask(k));
  }

  lemma BothBits(v: bv32, w: bv32, j: nat)
    requires j < 32
    ensures Bit(Both(v, w), j) <==> Bit(v, j) && Bit(w, j)
    ensures Bit(Either(v, w), j) <==> Bit(v, j) || Bit(w, j)
  {
    hide Mask, OneHot, Meets, Both, Either;
    MaskHot(j);
    AndMeets(v, w, Mask(j));
    OrMeets(v, w, Mask(j));
  }

  lemma NoBit(j: nat)
    requires j < 32
    ensures !Bit(0, j)
  {
    hide Mask;
  }

  /** A word that is not zero has a bit; the lowest is the one that w & (w - 1) takes away. */
  lemma Lowest(w: bv32) returns (j: nat)
    requires w != 0
    ensures j < 32 && Bit(w, j) && (forall k :: 0 <= k < j ==> !Bit(w, k))
    ensures w - Drop(w) == Mask(j) && Drop(w) == Without(w, Mask(j))
  {
    hide Mask, OneHot, Meets, Drop, Without;
    j := 0;
    LowFirst(w);
    while !Bit(w, j)
      invariant j < 32 && LowFree(w, Mask(j)) && forall k :: 0 <= k < j ==> !Bit(w, k)
      decreases 32 - j
    {
      hide LowFree;
      LowNext(w, j);
      j := j + 1;
    }
    MaskHot(j);
    LowTake(w, Mask(j));
  }

  ghost predicate LowFree(w: bv32, p: bv32) { w & (p - 1) == 0 }

  lemma LowFirst(w: bv32)
    ensures LowFree(w, Mask(0))
  {
  }

  lemma LowStep(w: bv32, j: bv32)
    requires j < 32 && LowFree(w, 1 << j) && !Meets(w, 1 << j) && w != 0
    ensures j < 31 && LowFree(w, 1 << (j + 1))
  {
  }

  // the two conversions, kept apart from arithmetic

  function ToWord(j: nat): bv32
    requires j < 40
  {
    j as bv32
  }

  function ToInt(x: bv32): nat { x as nat }

  lemma ThereAndBack(j: nat)
    requires j < 32
    ensures ToInt(ToWord(j)) == j && ToWord(j) < 40
  {
  }

  lemma BackAndThere(x: bv32)
    requires x < 40
    ensures ToInt(x) < 40 && ToWord(ToInt(x)) == x
  {
    FromWord(x);
  }

  lemma OneUp(x: bv32)
    requires x < 39
    ensures ToInt(x + 1) == ToInt(x) + 1 && x + 1 < 40
  {
    Increment(x);
  }

  lemma Small(j: nat)
    requires j < 32
    ensures ToWord(j) < 39
  {
  }

  lemma NextWord(j: nat)
    requires j < 31
    ensures ToWord(j) + 1 == ToWord(j + 1)
  {
    hide ToWord, ToInt;
    ThereAndBack(j);
    Small(j);
    OneUp(ToWord(j));
    BackAndThere(ToWord(j) + 1);
  }

  lemma NextShift(j: nat)
    requires j < 31
    ensures j as bv32 + 1 == (j + 1) as bv32
  {
    NextWord(j);
  }

  lemma LowNext(w: bv32, j: nat)
    requires j < 32 && w != 0 && LowFree(w, Mask(j)) && !Bit(w, j)
    ensures j < 31 && LowFree(w, Mask(j + 1))
  {
    hide Mask, LowFree, Meets;
    MaskShift(j);
    LowStep(w, j as bv32);
    NextShift(j);
    MaskShift(j + 1);
  }

  lemma LowTake(x: bv32, p: bv32)
    requires OneHot(p) && Meets(x, p) && LowFree(x, p)
    ensures x - Drop(x) == p && Drop(x) == Without(x, p)
  {
  }

  /** A word is determined by its bits. */
  lemma SameBits(v: bv32, w: bv32)
    requires forall j :: 0 <= j < 32 ==> (Bit(v, j) <==> Bit(w, j))
    ensures v == w
  {
    hide Bit, OneHot;
    if Xor(v, w) != 0 {
      var j := Lowest(Xor(v, w));
      XorBit(v, w, j);
    }
    XorNone(v, w);
  }

  function Xor(v: bv32, w: bv32): bv32 { v ^ w }

  lemma XorNone(v: bv32, w: bv32)
    ensures Xor(v, w) == 0 <==> v == w
  {
    XorMask(v, w, 1);
  }

  lemma XorMeets(v: bv32, w: bv32, q: bv32)
    requires OneHot(q)
    ensures Meets(Xor(v, w), q) <==> Meets(v, q) != Meets(w, q)
  {
    XorMask(v, w, q);
  }

  lemma XorBit(v: bv32, w: bv32, j: nat)
    requires j < 32
    ensures Bit(Xor(v, w), j) <==> Bit(v, j) != Bit(w, j)
  {
    hide Mask, OneHot, Meets, Xor;
    MaskHot(j);
    XorMeets(v, w, Mask(j));
  }

  /** CheckExistence shifts the bit down. */
  lemma CheckBit(w: bv32, j: nat)
    requires j < 32
    ensures One(w, j) == 1 <==> Bit(w, j)
  {
    hide Mask, Meets;
    MaskShift(j);
    OneShift(w, j);
    ShiftMeets(w, j as bv32);
  }

  lemma ShiftMeets(w: bv32, j: bv32)
    requires j < 32
    ensures (w >> j) & 1 == 1 <==> Meets(w, 1 << j)
  {
    CheckShift(w, j);
  }

  // ----- log_2 -----

  /** The position that log_2 stores for 1 << j, looked for from j on. */
  function Log2From(p: bv32, j: nat): (k: nat)
    requires j < 32
    ensures k < 32
    decreases 32 - j
  {
    if j == 31 || p == Mask(j) then j else Log2From(p, j + 1)
  }

  lemma {:induction false} Log2Is(k: nat, j: nat)
    requires j <= k < 32
    ensures Log2From(Mask(k), j) == k
    decreases k - j
  {
    hide Mask;
    MaskApart(j, k);
    if j < k { Log2Is(k, j + 1); }
  }

  /** What log_2 finds for the bit that w & (w - 1) takes away. */
  function Position(w: bv32): nat { Log2From(w - Drop(w), 0) }

  lemma PositionIs(w: bv32)
    requires w != 0
    ensures var j := Position(w);
            && j < 32 && Bit(w, j) && (forall k :: 0 <= k < j ==> !Bit(w, k))
            && Drop(w) == Without(w, Mask(j))
  {
    hide Bit, Mask, Drop, Without, Log2From;
    var j := Lowest(w);
    Log2Is(j, 0);
  }

  // ----- counting -----

  function One(w: bv32, j: nat): bv32
    requires j < 32
  {
    (w >> j) & 1
  }

  /** The masked sums of Total, down to one number a byte ... */
  function Bytes(w: bv32): bv32 {
    var a := (w & 0x55555555) + ((w >> 1) & 0x55555555);
    var b := (a & 0x33333333) + ((a >> 2) & 0x33333333);
    (b & 0x0F0F0F0F) + ((b >> 4) & 0x0F0F0F0F)
  }

  /** ... and from there to one number. */
  function Halves(v: bv32): bv32 {
    var a := (v & 0x00FF00FF) + ((v >> 8) & 0x00FF00FF);
    (a & 0x0000FFFF) + ((a >> 16) & 0x0000FFFF)
  }

  function PopCount(w: bv32): bv32 { Halves(Bytes(w)) }

  /** The number of bits below n. */
  ghost function Count(w: bv32, n: nat): nat
    requires n <= 32
  {
    if n == 0 then 0 else Count(w, n - 1) + if Bit(w, n - 1) then 1 else 0
  }

  function Raw0(w: bv32): bv32 {
    ((w >> 0) & 1) + ((w >> 1) & 1) + ((w >> 2) & 1) + ((w >> 3) & 1) + ((w >> 4) & 1) + ((w >> 5) & 1)
    + ((w >> 6) & 1) + ((w >> 7) & 1)
  }

  lemma Byte0(w: bv32)
    ensures (Bytes(w) >> 0) & 0xFF == Raw0(w)
  {
  }

  lemma Lits0(w: bv32)
    ensures One(w, 0) == (w >> 0) & 1
    ensures One(w, 1) == (w >> 1) & 1
    ensures One(w, 2) == (w >> 2) & 1
    ensures One(w, 3) == (w >> 3) & 1
    ensures One(w, 4) == (w >> 4) & 1
    ensures One(w, 5) == (w >> 5) & 1
    ensures One(w, 6) == (w >> 6) & 1
    ensures One(w, 7) == (w >> 7) & 1
  {
  }

  lemma Raw0Is(w: bv32)
    ensures Raw0(w) == Eight(One(w, 0), One(w, 1), One(w, 2), One(w, 3), One(w, 4), One(w, 5), One(w, 6), One(w, 7))
  {
    hide One;
    Lits0(w);
  }

  function Raw1(w: bv32): bv32 {
    ((w >> 8) & 1) + ((w >> 9) & 1) + ((w >> 10) & 1) + ((w >> 11) & 1) + ((w >> 12) & 1) + ((w >> 13) & 1)
    + ((w >> 14) & 1) + ((w >> 15) & 1)
  }

  lemma Byte1(w: bv32)
    ensures (Bytes(w) >> 8) & 0xFF == Raw1(w)
  {
  }

  lemma Lits1(w: bv32)
    ensures One(w, 8) == (w >> 8) & 1
    ensures One(w, 9) == (w >> 9) & 1
    ensures One(w, 10) == (w >> 10) & 1
    ensures One(w, 11) == (w >> 11) & 1
    ensures One(w, 12) == (w >> 12) & 1
    ensures One(w, 13) == (w >> 13) & 1
    ensures One(w, 14) == (w >> 14) & 1
    ensures One(w, 15) == (w >> 15) & 1
  {
  }

  lemma Raw1Is(w: bv32)
    ensures Raw1(w) == Eight(One(w, 8), One(w, 9), One(w, 10), One(w, 11),
                              One(w, 12), One(w, 13), One(w, 14), One(w, 15))
  {
    hide One;
    Lits1(w);
  }

  function Raw2(w: bv32): bv32 {
    ((w >> 16) & 1) + ((w >> 17) & 1) + ((w >> 18) & 1) + ((w >> 19) & 1) + ((w >> 20) & 1) + ((w >> 21) & 1)
    + ((w >> 22) & 1) + ((w >> 23) & 1)
  }

  lemma Byte2(w: bv32)
    ensures (Bytes(w) >> 16) & 0xFF == Raw2(w)
  {
  }

  lemma Lits2(w: bv32)
    ensures One(w, 16) == (w >> 16) & 1
    ensures One(w, 17) == (w >> 17) & 1
    ensures One(w, 18) == (w >> 18) & 1
    ensures One(w, 19) == (w >> 19) & 1
    ensures One(w, 20) == (w >> 20) & 1
    ensures One(w, 21) == (w >> 21) & 1
    ensures One(w, 22) == (w >> 22) & 1
    ensures One(w, 23) == (w >> 23) & 1
  {
  }

  lemma Raw2Is(w: bv32)
    ensures Raw2(w) == Eight(One(w, 16), One(w, 17), One(w, 18), One(w, 19),
                              One(w, 20), One(w, 21), One(w, 22), One(w, 23))
  {
    hide One;
    Lits2(w);
  }

  function Raw3(w: bv32): bv32 {
    ((w >> 24) & 1) + ((w >> 25) & 1) + ((w >> 26) & 1) + ((w >> 27) & 1) + ((w >> 28) & 1) + ((w >> 29) & 1)
    + ((w >> 30) & 1) + ((w >> 31) & 1)
  }

  lemma Byte3(w: bv32)
    ensures (Bytes(w) >> 24) & 0xFF == Raw3(w)
  {
  }

  lemma Lits3(w: bv32)
    ensures One(w, 24) == (w >> 24) & 1
    ensures One(w, 25) == (w >> 25) & 1
    ensures One(w, 26) == (w >> 26) & 1
    ensures One(w, 27) == (w >> 27) & 1
    ensures One(w, 28) == (w >> 28) & 1
    ensures One(w, 29) == (w >> 29) & 1
    ensures One(w, 30) == (w >> 30) & 1
    ensures One(w, 31) == (w >> 31) & 1
  {
  }

  lemma Raw3Is(w: bv32)
    ensures Raw3(w) == Eight(One(w, 24), One(w, 25), One(w, 26), One(w, 27),
                              One(w, 28), One(w, 29), One(w, 30), One(w, 31))
  {
    hide One;
    Lits3(w);
  }

  lemma OneIs(w: bv32, j: nat)
    requires j < 32
    ensures One(w, j) as int == (if Bit(w, j) then 1 else 0) && One(w, j) <= 1
  {
    hide Bit;
    CheckBit(w, j);
    ZeroOrOne(One(w, j));
  }

  function Plus(x: bv32, y: bv32): bv32 { x + y }

  lemma PlusIs(x: bv32, y: bv32)
    requires x as int <= 32 && y as int <= 8
    ensures Plus(x, y) as int == x as int + y as int
  {
    AtMost(x);
    AtMostEight(y);
    AddSmall(x, y);
  }

  /** n bits from b on, summed up in a word. */
  ghost function Ones(w: bv32, b: nat, n: nat): bv32
    requires b + n <= 32
  {
    if n == 0 then 0 else if n == 1 then One(w, b) else Plus(Ones(w, b, n - 1), One(w, b + n - 1))
  }

  lemma {:induction false} OnesCount(w: bv32, b: nat, n: nat)
    requires b + n <= 32 && 1 <= n <= 8
    ensures Ones(w, b, n) as int == Count(w, b + n) - Count(w, b) && Ones(w, b, n) as int <= n
    decreases n
  {
    hide Bit, One, Plus;
    OneIs(w, b + n - 1);
    if n > 1 {
      OnesCount(w, b, n - 1);
      PlusIs(Ones(w, b, n - 1), One(w, b + n - 1));
    }
  }

  ghost function Eight(a: bv32, b: bv32, c: bv32, d: bv32, e: bv32, f: bv32, g: bv32, h: bv32): bv32 {
    Plus(Plus(Plus(Plus(Plus(Plus(Plus(a, b), c), d), e), f), g), h)
  }

  lemma EightOnes(w: bv32, b: nat)
    requires b <= 24
    ensures Ones(w, b, 8) == Eight(One(w, b), One(w, b + 1), One(w, b + 2), One(w, b + 3), One(w, b + 4),
            One(w, b + 5), One(w, b + 6), One(w, b + 7))
  {
    hide One, Plus;
    assert Ones(w, b, 2) == Plus(One(w, b), One(w, b + 1));
    assert Ones(w, b, 4) == Plus(Plus(Ones(w, b, 2), One(w, b + 2)), One(w, b + 3));
    assert Ones(w, b, 6) == Plus(Plus(Ones(w, b, 4), One(w, b + 4)), One(w, b + 5));
    assert Ones(w, b, 8) == Plus(Plus(Ones(w, b, 6), One(w, b + 6)), One(w, b + 7));
  }

  lemma EightByte0(w: bv32)
    ensures Bytes(w) & 0xFF == Ones(w, 0, 8)
  {
    hide Bytes, Ones, One, Eight;
    EightOnes(w, 0);
    Split0(w);
  }

  lemma Split0(w: bv32)
    ensures Bytes(w) & 0xFF == Eight(One(w, 0), One(w, 1), One(w, 2), One(w, 3), One(w, 4), One(w, 5), One(w, 6),
            One(w, 7))
  {
    hide Bytes, Raw0, Eight, One;
    Byte0(w);
    Raw0Is(w);
  }

  lemma EightByte1(w: bv32)
    ensures (Bytes(w) >> 8) & 0xFF == Ones(w, 8, 8)
  {
    hide Bytes, Ones, One, Eight;
    EightOnes(w, 8);
    Split1(w);
  }

  lemma Split1(w: bv32)
    ensures (Bytes(w) >> 8) & 0xFF
            == Eight(One(w, 8), One(w, 9), One(w, 10), One(w, 11), One(w, 12), One(w, 13), One(w, 14), One(w, 15))
  {
    hide Bytes, Raw1, Eight, One;
    Byte1(w);
    Raw1Is(w);
  }

  lemma EightByte2(w: bv32)
    ensures (Bytes(w) >> 16) & 0xFF == Ones(w, 16, 8)
  {
    hide Bytes, Ones, One, Eight;
    EightOnes(w, 16);
    Split2(w);
  }

  lemma Split2(w: bv32)
    ensures (Bytes(w) >> 16) & 0xFF
            == Eight(One(w, 16), One(w, 17), One(w, 18), One(w, 19), One(w, 20), One(w, 21), One(w, 22), One(w, 23))
  {
    hide Bytes, Raw2, Eight, One;
    Byte2(w);
    Raw2Is(w);
  }

  lemma EightByte3(w: bv32)
    ensures (Bytes(w) >> 24) & 0xFF == Ones(w, 24, 8)
  {
    hide Bytes, Ones, One, Eight;
    EightOnes(w, 24);
    Split3(w);
  }

  lemma Split3(w: bv32)
    ensures (Bytes(w) >> 24) & 0xFF
            == Eight(One(w, 24), One(w, 25), One(w, 26), One(w, 27), One(w, 28), One(w, 29), One(w, 30), One(w, 31))
  {
    hide Bytes, Raw3, Eight, One;
    Byte3(w);
    Raw3Is(w);
  }

  lemma FourBytes(v: bv32, a: bv32, b: bv32, c: bv32, d: bv32)
    requires v & 0xFF == a && (v >> 8) & 0xFF == b && (v >> 16) & 0xFF == c && (v >> 24) & 0xFF == d && a <= 8
             && b <= 8 && c <= 8 && d <= 8
    ensures Halves(v) == Plus(Plus(Plus(a, b), c), d)
  {
  }

  lemma OnesOf(w: bv32, b: nat)
    requires b <= 24
    ensures Ones(w, b, 8) <= 8 && Ones(w, b, 8) as int == Count(w, b + 8) - Count(w, b) <= 8
  {
    hide Ones, Count;
    OnesCount(w, b, 8);
    AtMostEight(Ones(w, b, 8));
  }

  lemma PopCountOnes(w: bv32)
    ensures PopCount(w) == Plus(Plus(Plus(Ones(w, 0, 8), Ones(w, 8, 8)), Ones(w, 16, 8)), Ones(w, 24, 8))
  {
    hide Bytes, Halves, Ones, Plus, Count;
    EightByte0(w);
    EightByte1(w);
    EightByte2(w);
    EightByte3(w);
    OnesOf(w, 0);
    OnesOf(w, 8);
    OnesOf(w, 16);
    OnesOf(w, 24);
    FourBytes(Bytes(w), Ones(w, 0, 8), Ones(w, 8, 8), Ones(w, 16, 8), Ones(w, 24, 8));
  }

  /** The masked sums count the bits. */
  lemma PopCountIs(w: bv32)
    ensures PopCount(w) as int == Count(w, 32)
  {
    hide PopCount, Ones, Plus, Count;
    PopCountOnes(w);
    OnesOf(w, 0);
    OnesOf(w, 8);
    OnesOf(w, 16);
    OnesOf(w, 24);
    FourIs(Ones(w, 0, 8), Ones(w, 8, 8), Ones(w, 16, 8), Ones(w, 24, 8));
    CountNone(w);
  }

  lemma CountNone(w: bv32)
    ensures Count(w, 0) == 0
  {
  }

  lemma FourIs(a: bv32, b: bv32, c: bv32, d: bv32)
    requires a as int <= 8 && b as int <= 8 && c as int <= 8 && d as int <= 8
    ensures Plus(Plus(Plus(a, b), c), d) as int == a as int + b as int + c as int + d as int
  {
    hide Plus;
    PlusIs(a, b);
    PlusIs(Plus(a, b), c);
    PlusIs(Plus(Plus(a, b), c), d);
  }
}
