// Block headers, found by their offset, that link neighbouring blocks (src/mem.c and src/memheap.c).
module BlockLinks {
  import opened Blocks

  datatype Header = Header(next: nat, prev: nat, used: bool)

  function PrevOf(bs: seq<Block>, base: nat, i: nat): nat
    requires i < |bs|
  {
    if i == 0 then base else bs[i - 1].start
  }

  // The header of block i of a stretch of blocks that follows the one at 'base'
  ghost predicate HeaderOk(hdr: map<nat, Header>, bs: seq<Block>, base: nat, i: nat)
    requires i < |bs|
  {
    bs[i].start in hdr && hdr[bs[i].start] == Header(bs[i].next, PrevOf(bs, base, i), bs[i].used)
  }
}
