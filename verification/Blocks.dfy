// Heaps cut into blocks, as offsets from the heap start (src/mem.c and src/memheap.c).
module Blocks {
  const RANGE: nat := 0x1_0000_0000

  // Every block has room for the smaller header, of 12 bytes, and a word.
  const SPAN: nat := 16

  datatype Block = Block(start: nat, next: nat, used: bool)

  // RT_ALIGN on 32-bit numbers: sizes above RANGE - 4 wrap to zero.
  function Align(n: nat): nat {
    if n > RANGE - 4 then 0 else (n + 3) / 4 * 4
  }

  // Blocks cover [0, end) one after the other; every block has room for its header and a word.
  ghost predicate Tiles(bs: seq<Block>, end: nat) {
    && bs != [] && bs[0].start == 0 && bs[|bs| - 1].next == end
    && (forall i :: 0 <= i < |bs| ==> bs[i].start + SPAN <= bs[i].next)
    && (forall i, j :: 0 <= i < |bs| && j == i + 1 && j < |bs| ==> bs[i].next == bs[j].start)
  }

  // No two neighbours are free, except perhaps blocks x and y with their successors.
  ghost predicate CoalescedBut(bs: seq<Block>, x: int, y: int) {
    forall i, j :: 0 <= i < |bs| && j == i + 1 && j < |bs| && i != x && i != y ==> bs[i].used || bs[j].used
  }

  ghost predicate Coalesced(bs: seq<Block>) { CoalescedBut(bs, -1, -1) }

  ghost predicate FreeAt(bs: seq<Block>, p: nat) { exists i :: 0 <= i < |bs| && bs[i].start == p && !bs[i].used }

  lemma {:induction false} Increasing(bs: seq<Block>, end: nat, i: nat, j: nat)
    requires Tiles(bs, end) && i < j < |bs|
    ensures bs[i].next <= bs[j].start
    decreases j - i
  {
    if j > i + 1 {
      var k := j - 1;
      Increasing(bs, end, i, k);
      assert bs[k].next == bs[j].start;
    }
  }

  lemma Bounds(bs: seq<Block>, end: nat, i: nat)
    requires Tiles(bs, end) && i < |bs|
    ensures bs[i].next <= end && (i < |bs| - 1 ==> bs[i].next + SPAN <= end)
  {
    if i < |bs| - 1 { Increasing(bs, end, i, |bs| - 1); }
  }

  lemma SameStart(bs: seq<Block>, end: nat, i: nat, j: nat)
    requires Tiles(bs, end) && i < |bs| && j < |bs| && bs[i].start == bs[j].start
    ensures i == j
  {
    if i < j { Increasing(bs, end, i, j); } else if j < i { Increasing(bs, end, j, i); }
  }

  // Replace the n blocks from i on.
  function Replace(bs: seq<Block>, i: nat, n: nat, piece: seq<Block>): seq<Block>
    requires i + n <= |bs|
  {
    bs[..i] + piece + bs[i + n..]
  }

  function SetFree(bs: seq<Block>, i: nat): seq<Block>
    requires i < |bs|
  {
    Replace(bs, i, 1, [bs[i].(used := false)])
  }

  // The used block i gives up what lies behind 'at'.
  function Split(bs: seq<Block>, i: nat, at: nat): seq<Block>
    requires i < |bs|
  {
    Replace(bs, i, 1, [Block(bs[i].start, at, true), Block(at, bs[i].next, false)])
  }

  // Block i takes in the next one.
  function Join(bs: seq<Block>, i: nat): seq<Block>
    requires i + 1 < |bs|
  {
    Replace(bs, i, 2, [Block(bs[i].start, bs[i + 1].next, false)])
  }

  lemma ReplaceAt(bs: seq<Block>, i: nat, n: nat, w: seq<Block>)
    requires i + n <= |bs|
    ensures var r := Replace(bs, i, n, w);
            && |r| == |bs| - n + |w|
            && (forall k :: 0 <= k < i ==> r[k] == bs[k])
            && (forall k :: i <= k < i + |w| ==> r[k] == w[k - i])
            && (forall k :: i + |w| <= k < |r| ==> r[k] == bs[k - |w| + n])
  {
  }

  // Neighbours still meet.
  lemma ReplaceMeets(bs: seq<Block>, end: nat, i: nat, n: nat, w: seq<Block>, k: nat)
    requires Tiles(bs, end) && 0 < n && i + n <= |bs| && w != [] && k + 1 < |Replace(bs, i, n, w)|
    requires w[0].start == bs[i].start && w[|w| - 1].next == bs[i + n - 1].next
    requires forall k, l :: 0 <= k < |w| && l == k + 1 && l < |w| ==> w[k].next == w[l].start
    ensures Replace(bs, i, n, w)[k].next == Replace(bs, i, n, w)[k + 1].start
  {
    ReplaceAt(bs, i, n, w);
    var l := k + 1;
    if l < i {
      assert bs[k].next == bs[l].start;
    } else if l == i {
      assert bs[k].next == bs[i].start;
    } else if k < i + |w| - 1 {
      assert w[k - i].next == w[l - i].start;
    } else if k == i + |w| - 1 {
      assert bs[i + n - 1].next == bs[i + n].start;
    } else {
      assert bs[k - |w| + n].next == bs[l - |w| + n].start;
    }
  }

  // Replacing some blocks by others that cover the same span keeps the tiling.
  lemma ReplaceTiles(bs: seq<Block>, end: nat, i: nat, n: nat, w: seq<Block>)
    requires Tiles(bs, end) && 0 < n && i + n <= |bs| && w != []
    requires w[0].start == bs[i].start && w[|w| - 1].next == bs[i + n - 1].next
    requires forall k :: 0 <= k < |w| ==> w[k].start + SPAN <= w[k].next
    requires forall k, l :: 0 <= k < |w| && l == k + 1 && l < |w| ==> w[k].next == w[l].start
    ensures Tiles(Replace(bs, i, n, w), end)
  {
    ReplaceAt(bs, i, n, w);
    var r := Replace(bs, i, n, w);
    forall k, l | 0 <= k < |r| && l == k + 1 && l < |r| ensures r[k].next == r[l].start {
      ReplaceMeets(bs, end, i, n, w, k);
    }
    if i + n == |bs| { assert r[|r| - 1] == w[|w| - 1]; } else { assert r[|r| - 1] == bs[|bs| - 1]; }
  }

  lemma TilesOrdered(bs: seq<Block>, end: nat)
    requires Tiles(bs, end)
    ensures forall k :: 0 <= k < |bs| ==> bs[k].start <= bs[k].next
  {
  }

  // Where a block starts, or the number of blocks
  function IndexOf(bs: seq<Block>, p: nat): (k: nat)
    ensures k <= |bs| && (k < |bs| ==> bs[k].start == p)
    ensures forall j :: 0 <= j < k ==> bs[j].start != p
  {
    if bs == [] || bs[0].start == p then 0 else 1 + IndexOf(bs[1..], p)
  }

  // A free block keeps being one when other blocks are replaced.
  lemma StillFree(bs: seq<Block>, i: nat, n: nat, w: seq<Block>, p: nat, j: nat)
    requires i + n <= |bs| && j < |bs| && (j < i || j >= i + n) && bs[j].start == p && !bs[j].used
    ensures FreeAt(Replace(bs, i, n, w), p)
  {
    ReplaceAt(bs, i, n, w);
    var r := Replace(bs, i, n, w);
    if j < i {
      assert r[j] == bs[j];
    } else {
      assert r[j - n + |w|] == bs[j];
    }
  }

  lemma NewFree(bs: seq<Block>, i: nat, n: nat, w: seq<Block>, k: nat)
    requires i + n <= |bs| && k < |w| && !w[k].used
    ensures FreeAt(Replace(bs, i, n, w), w[k].start)
  {
    ReplaceAt(bs, i, n, w);
    assert Replace(bs, i, n, w)[i + k] == w[k];
  }

  lemma JoinTiles(bs: seq<Block>, end: nat, i: nat)
    requires Tiles(bs, end) && i + 1 < |bs|
    ensures Tiles(Join(bs, i), end)
  {
    assert bs[i].next == bs[i + 1].start;
    ReplaceTiles(bs, end, i, 2, [Block(bs[i].start, bs[i + 1].next, false)]);
  }

  lemma JoinCoalesced(bs: seq<Block>, i: nat, x: int)
    requires i + 1 < |bs| && !bs[i].used && !bs[i + 1].used && x < i && CoalescedBut(bs, i, x)
    ensures CoalescedBut(Join(bs, i), x, x)
  {
    ReplaceAt(bs, i, 2, [Block(bs[i].start, bs[i + 1].next, false)]);
    var r := Join(bs, i);
    forall k, l | 0 <= k < |r| && l == k + 1 && l < |r| && k != x ensures r[k].used || r[l].used {
      if l <= i {
        assert bs[k].used || bs[l].used;
      } else {
        assert bs[k + 1].used || bs[l + 1].used;
      }
    }
  }

  lemma SetFreeCoalesced(bs: seq<Block>, i: nat)
    requires Coalesced(bs) && i < |bs|
    ensures !SetFree(bs, i)[i].used && CoalescedBut(SetFree(bs, i), i - 1, i)
  {
    ReplaceAt(bs, i, 1, [bs[i].(used := false)]);
    var r := SetFree(bs, i);
    forall k, l | 0 <= k < |r| && l == k + 1 && l < |r| && k != i - 1 && k != i ensures r[k].used || r[l].used {
      assert bs[k].used || bs[l].used;
    }
  }

  lemma SplitCoalesced(bs: seq<Block>, i: nat, at: nat)
    requires Coalesced(bs) && i < |bs|
    ensures var r := Split(bs, i, at);
            |r| == |bs| + 1 && r[i].used && !r[i + 1].used && r[i + 1].start == at && CoalescedBut(r, i, i + 1)
  {
    ReplaceAt(bs, i, 1, [Block(bs[i].start, at, true), Block(at, bs[i].next, false)]);
    var r := Split(bs, i, at);
    forall k, l | 0 <= k < |r| && l == k + 1 && l < |r| && k != i && k != i + 1 ensures r[k].used || r[l].used {
      if k < i { assert bs[k].used || bs[l].used; } else { assert bs[k - 1].used || bs[l - 1].used; }
    }
  }

  ghost function UsedBlocks(bs: seq<Block>): set<Block> { set b | b in bs && b.used }

  lemma UsedConcat(a: seq<Block>, b: seq<Block>)
    ensures UsedBlocks(a + b) == UsedBlocks(a) + UsedBlocks(b)
  {
  }

  lemma PartsDisjoint(bs: seq<Block>, end: nat, i: nat, j: nat)
    requires Tiles(bs, end) && i <= j <= |bs|
    ensures UsedBlocks(bs[..i]) !! UsedBlocks(bs[i..j])
    ensures UsedBlocks(bs[i..j]) !! UsedBlocks(bs[j..])
  {
    if b :| b in bs[..i] && b in bs[i..j] {
      var k :| 0 <= k < i && bs[k] == b;
      var l :| i <= l < j && bs[l] == b;
      SameStart(bs, end, k, l);
    }
    if b :| b in bs[i..j] && b in bs[j..] {
      var k :| i <= k < j && bs[k] == b;
      var l :| j <= l < |bs| && bs[l] == b;
      SameStart(bs, end, k, l);
    }
  }

  lemma ReplaceUsed(bs: seq<Block>, end: nat, i: nat, n: nat, w: seq<Block>)
    requires Tiles(bs, end) && i + n <= |bs|
    ensures UsedBlocks(Replace(bs, i, n, w)) == UsedBlocks(bs) - UsedBlocks(bs[i..i + n]) + UsedBlocks(w)
  {
    var a, m, z := bs[..i], bs[i..i + n], bs[i + n..];
    PartsDisjoint(bs, end, i, i + n);
    PartsUsed(bs, a, m, z, w, i, n);
  }

  lemma PartsUsed(bs: seq<Block>, a: seq<Block>, m: seq<Block>, z: seq<Block>, w: seq<Block>, i: nat, n: nat)
    requires i + n <= |bs| && a == bs[..i] && m == bs[i..i + n] && z == bs[i + n..]
    requires UsedBlocks(a) !! UsedBlocks(m) && UsedBlocks(m) !! UsedBlocks(z)
    ensures UsedBlocks(Replace(bs, i, n, w)) == UsedBlocks(bs) - UsedBlocks(m) + UsedBlocks(w)
  {
    assert bs == a + m + z;
    UsedConcat(a + m, z);
    UsedConcat(a, m);
    UsedConcat(a, w);
    UsedConcat(a + w, z);
  }

  lemma JoinUsed(bs: seq<Block>, end: nat, i: nat)
    requires Tiles(bs, end) && i + 1 < |bs| && !bs[i].used && !bs[i + 1].used
    ensures UsedBlocks(Join(bs, i)) == UsedBlocks(bs)
  {
    ReplaceUsed(bs, end, i, 2, [Block(bs[i].start, bs[i + 1].next, false)]);
    assert bs[i..i + 2] == [bs[i], bs[i + 1]];
  }

  lemma SetFreeUsed(bs: seq<Block>, end: nat, i: nat)
    requires Tiles(bs, end) && i < |bs| && bs[i].used
    ensures UsedBlocks(SetFree(bs, i)) == UsedBlocks(bs) - {bs[i]}
  {
    var w := [bs[i].(used := false)];
    ReplaceUsed(bs, end, i, 1, w);
    assert bs[i..i + 1] == [bs[i]];
    assert UsedBlocks(w) == {} && UsedBlocks([bs[i]]) == {bs[i]};
  }

  lemma SplitUsed(bs: seq<Block>, end: nat, i: nat, at: nat)
    requires Tiles(bs, end) && i < |bs| && bs[i].used
    ensures UsedBlocks(Split(bs, i, at)) == UsedBlocks(bs) - {bs[i]} + {Block(bs[i].start, at, true)}
  {
    var x, y := Block(bs[i].start, at, true), Block(at, bs[i].next, false);
    ReplaceUsed(bs, end, i, 1, [x, y]);
    assert bs[i..i + 1] == [bs[i]];
    assert UsedBlocks([x, y]) == {x} && UsedBlocks([bs[i]]) == {bs[i]};
  }

  ghost predicate Aligned(bs: seq<Block>) { forall i :: 0 <= i < |bs| ==> bs[i].start % 4 == 0 }

  lemma ReplaceAligned(bs: seq<Block>, i: nat, n: nat, w: seq<Block>)
    requires i + n <= |bs| && Aligned(bs) && Aligned(w)
    ensures Aligned(Replace(bs, i, n, w))
  {
    ReplaceAt(bs, i, n, w);
  }
}
