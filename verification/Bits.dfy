/** Facts about single words of 32 bits, without any definitions in the way. */
module Bits {

  lemma HotShift(j: bv32)
    requires j < 32
    ensures (1 as bv32) << j != 0 && ((1 as bv32) << j) & (((1 as bv32) << j) - 1) == 0
  {
  }

  lemma ApartShift(j: bv32, k: bv32)
    requires j < 32 && k < 32 && j != k
    ensures (1 as bv32) << j != 1 << k
  {
  }

  lemma OrMask(v: bv32, w: bv32, q: bv32)
    requires q != 0 && q & (q - 1) == 0
    ensures (v | w) & q != 0 <==> v & q != 0 || w & q != 0
  {
  }

  lemma AndMask(v: bv32, w: bv32, q: bv32)
    requires q != 0 && q & (q - 1) == 0
    ensures (v & w) & q != 0 <==> v & q != 0 && w & q != 0
  {
  }

  lemma SetMask(w: bv32, p: bv32, q: bv32)
    requires q != 0 && q & (q - 1) == 0 && p != 0 && p & (p - 1) == 0
    ensures (w | p) & q != 0 <==> p == q || w & q != 0
  {
  }

  lemma ClearMask(w: bv32, p: bv32, q: bv32)
    requires q != 0 && q & (q - 1) == 0 && p != 0 && p & (p - 1) == 0
    ensures (w & !p) & q != 0 <==> p != q && w & q != 0
  {
  }

  lemma Increment(x: bv32)
    requires x < 40
    ensures (x + 1) as int == x as int + 1
  {
  }

  lemma CheckShift(w: bv32, j: bv32)
    requires j < 32
    ensures (w >> j) & 1 == 1 <==> w & (1 << j) != 0
  {
    if j < 8 {
      CheckQuarter0(w, j);
    } else if j < 16 {
      CheckQuarter1(w, j);
    } else if j < 24 {
      CheckQuarter2(w, j);
    } else {
      CheckQuarter3(w, j);
    }
  }

  // one case for each distance

  lemma CheckQuarter0(w: bv32, j: bv32)
    requires 0 <= j < 8
    ensures (w >> j) & 1 == 1 <==> w & (1 << j) != 0
  {
    if j == 0 {} else if j == 1 {} else if j == 2 {} else if j == 3 {
    } else if j == 4 {} else if j == 5 {} else if j == 6 {} else {
    }
  }

  lemma CheckQuarter1(w: bv32, j: bv32)
    requires 8 <= j < 16
    ensures (w >> j) & 1 == 1 <==> w & (1 << j) != 0
  {
    if j == 8 {} else if j == 9 {} else if j == 10 {} else if j == 11 {
    } else if j == 12 {} else if j == 13 {} else if j == 14 {} else {
    }
  }

  lemma CheckQuarter2(w: bv32, j: bv32)
    requires 16 <= j < 24
    ensures (w >> j) & 1 == 1 <==> w & (1 << j) != 0
  {
    if j == 16 {} else if j == 17 {} else if j == 18 {} else if j == 19 {
    } else if j == 20 {} else if j == 21 {} else if j == 22 {} else {
    }
  }

  lemma CheckQuarter3(w: bv32, j: bv32)
    requires 24 <= j < 32
    ensures (w >> j) & 1 == 1 <==> w & (1 << j) != 0
  {
    if j == 24 {} else if j == 25 {} else if j == 26 {} else if j == 27 {
    } else if j == 28 {} else if j == 29 {} else if j == 30 {} else {
    }
  }

  lemma OneShift(w: bv32, j: nat)
    requires j < 32
    ensures w >> j == w >> (j as bv32)
  {
  }

  lemma ZeroOrOne(x: bv32)
    requires x <= 1
    ensures x == 0 || x == 1
  {
  }

  lemma AddSmall(x: bv32, y: bv32)
    requires x <= 32 && y <= 8
    ensures (x + y) as int == x as int + y as int
  {
  }

  lemma AtMost(x: bv32)
    requires x as int <= 32
    ensures x <= 32
  {
  }

  lemma AtMostEight(x: bv32)
    requires x as int <= 8
    ensures x <= 8
  {
  }

  lemma FromWord(x: bv32)
    requires x < 40
    ensures (x as int) as bv32 == x
  {
  }

  lemma XorMask(v: bv32, w: bv32, q: bv32)
    requires q != 0 && q & (q - 1) == 0
    ensures (v ^ w) & q != 0 <==> ((v & q != 0) != (w & q != 0))
    ensures v ^ w == 0 <==> v == w
  {
  }
}
