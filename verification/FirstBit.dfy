// Finding the lowest set bit of a 32-bit word (src/kservice.c, __rt_ffs).
module FirstBit {
  // __lowest_bit_bitmap: sixteen rows of sixteen entries that differ only in column 0
  const COLUMNS: seq<nat> := [0, 0, 1, 0, 2, 0, 1, 0, 3, 0, 1, 0, 2, 0, 1, 0]
  const LEADS: seq<nat> := [0, 4, 5, 4, 6, 4, 5, 4, 7, 4, 5, 4, 6, 4, 5, 4]

  function LowestBitBitmap(b: nat): (r: nat)
    requires b < 256
    ensures r < 8
  {
    if b % 16 == 0 then LEADS[b / 16] else COLUMNS[b % 16]
  }

  function Byte(v: nat, k: nat): nat {
    if k == 0 then v % 256
    else if k == 1 then v / 256 % 256
    else if k == 2 then v / 256 / 256 % 256
    else v / 256 / 256 / 256 % 256
  }

  // __rt_ffs on the unsigned value of its argument
  function Ffs(v: nat): nat
    requires v < 0x1_0000_0000
  {
    if v == 0 then 0
    else if Byte(v, 0) != 0 then LowestBitBitmap(Byte(v, 0)) + 1
    else if Byte(v, 1) != 0 then LowestBitBitmap(Byte(v, 1)) + 9
    else if Byte(v, 2) != 0 then LowestBitBitmap(Byte(v, 2)) + 17
    else LowestBitBitmap(Byte(v, 3)) + 25
  }

  // Bit i of v is 1.
  predicate Bit(v: nat, i: nat) {
    if i == 0 then v % 2 == 1 else Bit(v / 2, i - 1)
  }

  ghost predicate LowestAt(v: nat, r: nat) {
    Bit(v, r) && forall i: nat :: i < r ==> !Bit(v, i)
  }

  lemma Halve(v: nat, r: nat)
    requires v % 2 == 0 && LowestAt(v / 2, r)
    ensures LowestAt(v, r + 1)
  {
    forall i: nat | i < r + 1 ensures !Bit(v, i) {
      if i > 0 { assert !Bit(v / 2, i - 1); }
    }
  }

  // The bits of a nibble
  lemma NibbleBits(v: nat)
    ensures v % 16 == v % 2 + 2 * (v / 2 % 2) + 4 * (v / 2 / 2 % 2) + 8 * (v / 2 / 2 / 2 % 2)
  {
    var a, b, c, d := v / 2, v / 2 / 2, v / 2 / 2 / 2, v / 2 / 2 / 2 / 2;
    assert v == 2 * a + v % 2 && a == 2 * b + a % 2 && b == 2 * c + b % 2 && c == 2 * d + c % 2;
    InSixteens(v, d, v % 2 + 2 * (a % 2) + 4 * (b % 2) + 8 * (c % 2));
  }

  lemma InSixteens(v: nat, q: nat, r: nat)
    requires v == 16 * q + r && r < 16
    ensures v / 16 == q && v % 16 == r
  {}

  lemma NibbleLowest(v: nat)
    requires v % 16 != 0
    ensures LowestAt(v, COLUMNS[v % 16])
  {
    hide LowestAt;
    NibbleBits(v);
    if v % 2 == 1 {
      OddLowest(v);
    } else if v / 2 % 2 == 1 {
      OddLowest(v / 2);
      Halve(v, 0);
    } else if v / 2 / 2 % 2 == 1 {
      OddLowest(v / 2 / 2);
      Halve(v / 2, 0);
      Halve(v, 1);
    } else {
      OddLowest(v / 2 / 2 / 2);
      Halve(v / 2 / 2, 0);
      Halve(v / 2, 1);
      Halve(v, 2);
    }
  }

  lemma OddLowest(v: nat)
    requires v % 2 == 1
    ensures LowestAt(v, 0)
  {}

  lemma Shift4(v: nat, r: nat)
    requires v % 16 == 0 && LowestAt(v / 16, r)
    ensures LowestAt(v, r + 4)
  {
    assert v / 2 / 2 / 2 / 2 == v / 16;
    Halve(v / 2 / 2 / 2, r);
    Halve(v / 2 / 2, r + 1);
    Halve(v / 2, r + 2);
    Halve(v, r + 3);
  }

  lemma Nibbles(v: nat)
    ensures v % 256 % 16 == v % 16 && v % 256 / 16 == v / 16 % 16
  {
    var q, a, b := v / 256, v % 256 / 16, v % 256 % 16;
    InSixteens(v, 16 * q + a, b);
    InSixteens(16 * q + a, q, a);
  }

  lemma ByteLowest(v: nat)
    requires v % 256 != 0
    ensures LowestAt(v, LowestBitBitmap(v % 256))
  {
    hide LowestAt;
    Nibbles(v);
    if v % 16 != 0 {
      NibbleLowest(v);
    } else {
      NibbleLowest(v / 16);
      Shift4(v, COLUMNS[v / 16 % 16]);
      assert LEADS[v % 256 / 16] == COLUMNS[v / 16 % 16] + 4;
    }
  }

  lemma Shift8(v: nat, r: nat)
    requires v % 256 == 0 && LowestAt(v / 256, r)
    ensures LowestAt(v, r + 8)
  {
    assert v / 16 / 16 == v / 256;
    Shift4(v / 16, r);
    Shift4(v, r + 4);
  }

  // The table lookup by bytes finds the lowest set bit, counting from 1; 0 means none is set.
  lemma FfsFindsLowest(v: nat)
    requires v < 0x1_0000_0000
    ensures v == 0 ==> Ffs(v) == 0
    ensures v > 0 ==> 1 <= Ffs(v) <= 32 && LowestAt(v, Ffs(v) - 1)
  {
    hide LowestBitBitmap, LowestAt;
    if v == 0 {
    } else if v % 256 != 0 {
      ByteLowest(v);
    } else if v / 256 % 256 != 0 {
      ByteLowest(v / 256);
      Shift8(v, LowestBitBitmap(v / 256 % 256));
    } else if v / 256 / 256 % 256 != 0 {
      ByteLowest(v / 256 / 256);
      Shift8(v / 256, LowestBitBitmap(v / 256 / 256 % 256));
      Shift8(v, LowestBitBitmap(v / 256 / 256 % 256) + 8);
    } else {
      var x := v / 256 / 256 / 256;
      assert x < 256 && x != 0;
      ByteLowest(x);
      Shift8(v / 256 / 256, LowestBitBitmap(x % 256));
      Shift8(v / 256, LowestBitBitmap(x % 256) + 8);
      Shift8(v, LowestBitBitmap(x % 256) + 16);
    }
  }

  function Least(s: set<nat>): (m: nat)
    requires s != {}
    ensures m in s && forall i :: i in s ==> m <= i
  {
    LeastExists(s);
    var m: nat :| IsLeast(s, m);
    m
  }

  predicate IsLeast(s: set<nat>, m: nat) { m in s && forall i :: i in s ==> m <= i }

  lemma {:induction false} LeastExists(s: set<nat>)
    requires s != {}
    ensures exists m: nat :: IsLeast(s, m)
  {
    var x :| x in s;
    var rest := s - {x};
    if rest == {} {
      forall i | i in s ensures i == x { assert i != x ==> i in rest; }
      assert IsLeast(s, x);
    } else {
      LeastExists(rest);
      var m: nat :| IsLeast(rest, m);
      assert forall i :: i in s ==> i == x || i in rest;
      assert IsLeast(s, if x < m then x else m);
    }
  }
}
