// The operations on bitmap words that the scheduler uses: |, & ~ and 1 << k.
module Words {
  import opened FirstBit

  function Or(a: nat, b: nat): nat {
    if a == 0 && b == 0 then 0 else 2 * Or(a / 2, b / 2) + (if a % 2 == 1 || b % 2 == 1 then 1 else 0)
  }

  // a & ~b
  function AndNot(a: nat, b: nat): (r: nat)
    ensures r <= a
  {
    if a == 0 then 0 else 2 * AndNot(a / 2, b / 2) + (if a % 2 == 1 && b % 2 == 0 then 1 else 0)
  }

  // 1 << k
  function Shifted(k: nat): (r: nat)
    ensures r > 0
  {
    if k == 0 then 1 else 2 * Shifted(k - 1)
  }

  lemma Halved(x: nat, half: nat)
    requires x == 2 * half || x == 2 * half + 1
    ensures x / 2 == half
  {}

  lemma {:induction false} NoBits(i: nat)
    ensures !Bit(0, i)
  {
    if i > 0 { NoBits(i - 1); }
  }

  lemma {:induction false} OrBits(a: nat, b: nat, i: nat)
    ensures Bit(Or(a, b), i) <==> Bit(a, i) || Bit(b, i)
  {
    if a == 0 && b == 0 {
      NoBits(i);
    } else if i > 0 {
      OrBits(a / 2, b / 2, i - 1);
      Halved(Or(a, b), Or(a / 2, b / 2));
    }
  }

  lemma {:induction false} AndNotBits(a: nat, b: nat, i: nat)
    ensures Bit(AndNot(a, b), i) <==> Bit(a, i) && !Bit(b, i)
  {
    if a == 0 {
      NoBits(i);
    } else if i > 0 {
      AndNotBits(a / 2, b / 2, i - 1);
      Halved(AndNot(a, b), AndNot(a / 2, b / 2));
    }
  }

  lemma {:induction false} ShiftedBits(k: nat, i: nat)
    ensures Bit(Shifted(k), i) <==> i == k
  {
    if k == 0 {
      if i > 0 { NoBits(i - 1); }
    } else if i > 0 {
      ShiftedBits(k - 1, i - 1);
    }
  }

  // A word of n bits stays one.
  lemma {:induction false} OrFits(a: nat, b: nat, n: nat)
    requires a < Shifted(n) && b < Shifted(n)
    ensures Or(a, b) < Shifted(n)
  {
    if n > 0 && !(a == 0 && b == 0) { OrFits(a / 2, b / 2, n - 1); }
  }

  lemma {:induction false} ShiftedGrows(k: nat, n: nat)
    requires k < n
    ensures Shifted(k) < Shifted(n)
  {
    if k + 1 < n { ShiftedGrows(k, n - 1); }
  }

  lemma WordSizes()
    ensures Shifted(8) == 0x100 && Shifted(32) == 0x1_0000_0000
  {
    assert Shifted(4) == 0x10;
    assert Shifted(8) == 0x100;
    assert Shifted(12) == 0x1000;
    assert Shifted(16) == 0x1_0000;
    assert Shifted(20) == 0x10_0000;
    assert Shifted(24) == 0x100_0000;
    assert Shifted(28) == 0x1000_0000;
  }

  // Setting and clearing bit k of a word of n bits
  lemma SetBit(w: nat, k: nat, n: nat)
    requires w < Shifted(n) && k < n
    ensures Or(w, Shifted(k)) < Shifted(n)
    ensures forall i: nat :: Bit(Or(w, Shifted(k)), i) <==> Bit(w, i) || i == k
  {
    ShiftedGrows(k, n);
    OrFits(w, Shifted(k), n);
    forall i: nat ensures Bit(Or(w, Shifted(k)), i) <==> Bit(w, i) || i == k {
      OrBits(w, Shifted(k), i);
      ShiftedBits(k, i);
    }
  }

  lemma ClearBit(w: nat, k: nat)
    ensures forall i: nat :: Bit(AndNot(w, Shifted(k)), i) <==> Bit(w, i) && i != k
  {
    forall i: nat ensures Bit(AndNot(w, Shifted(k)), i) <==> Bit(w, i) && i != k {
      AndNotBits(w, Shifted(k), i);
      ShiftedBits(k, i);
    }
  }

  // A 32-bit word is 0 exactly if no bit is set; otherwise __rt_ffs finds the least one.
  lemma FfsOfWord(w: nat)
    requires w < 0x1_0000_0000
    ensures w == 0 ==> forall i: nat :: !Bit(w, i)
    ensures w != 0 ==> Ffs(w) > 0 && Bit(w, Ffs(w) - 1) && forall i: nat :: Bit(w, i) ==> Ffs(w) - 1 <= i
  {
    FfsFindsLowest(w);
    if w == 0 {
      forall i: nat ensures !Bit(w, i) { NoBits(i); }
    } else {
      var r: nat := Ffs(w) - 1;
      assert LowestAt(w, r) && Bit(w, r);
      forall i: nat | Bit(w, i) ensures r <= i {}
    }
  }
}
