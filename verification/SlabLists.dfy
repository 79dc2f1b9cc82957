// The zone lists of the slab allocator: which zones rt_malloc may allocate from.
module SlabLists {
  import opened Options
  import opened Lists
  import opened SlabSizes
  import opened SlabZone
  import opened SlabHeap

  // A list holds zones of its class that have a free chunk.
  ghost predicate ListsSound(h: Heap) {
    && |h.lists| == CLASSES
    && (forall i | 0 <= i < CLASSES :: Distinct(h.lists[i]))
    && (forall i, s | 0 <= i < CLASSES && s in h.lists[i] ::
         s in h.zones && h.zones[s].cls == i && h.zones[s].nfree > 0 && s !in h.spare)
  }

  // It holds all of them, `but` aside.
  ghost predicate ListsFull(h: Heap, but: Option<nat>) {
    forall s | s in h.zones :: s in h.spare || h.zones[s].nfree == 0 || but == Some(s) ||
                               (h.zones[s].cls < |h.lists| && s in h.lists[h.zones[s].cls])
  }

  // At most one zone of a class is wholly free without being spare, `but` aside.
  ghost predicate OneWhole(h: Heap, but: Option<nat>) {
    forall s, t | s in h.zones && t in h.zones && h.zones[s].cls == h.zones[t].cls && Whole(h.zones[s]) &&
        Whole(h.zones[t]) ::
      s in h.spare || t in h.spare || but == Some(s) || but == Some(t) || s == t
  }

  ghost predicate SparesOk(h: Heap) {
    && Distinct(h.spare) && h.spares == |h.spare|
    && forall s | s in h.spare :: s in h.zones && Whole(h.zones[s])
  }

  ghost predicate ListsOk(h: Heap) {
    ListsSound(h) && ListsFull(h, None) && OneWhole(h, None) && SparesOk(h)
  }

  // Zone s, at the head of list i, loses a free chunk, and leaves the list with its last one.
  ghost predicate HeadTaken(h: Heap, e: Heap, i: nat, s: nat) {
    && i < |h.lists| && h.lists[i] != [] && s == h.lists[i][0] && s in h.zones
    && s in e.zones && e.zones == h.zones[s := e.zones[s]]
    && e.zones[s].cls == h.zones[s].cls && e.zones[s].max == h.zones[s].max
    && e.zones[s].nfree + 1 == h.zones[s].nfree <= h.zones[s].max
    && e.lists == (if e.zones[s].nfree == 0 then h.lists[i := h.lists[i][1..]] else h.lists)
    && e.spare == h.spare && e.spares == h.spares
  }

  lemma HeadTakenSound(h: Heap, e: Heap, i: nat, s: nat)
    requires ListsSound(h) && HeadTaken(h, e, i, s)
    ensures ListsSound(e)
  {
    DistinctTail(h.lists[i]);
    assert s in h.lists[i];
  }

  lemma HeadTakenFull(h: Heap, e: Heap, i: nat, s: nat)
    requires ListsSound(h) && ListsFull(h, None) && HeadTaken(h, e, i, s)
    ensures ListsFull(e, None)
  {
    assert s in h.lists[i];
    assert forall t :: t in h.lists[i] <==> t == s || t in h.lists[i][1..];
  }

  lemma HeadTakenWhole(h: Heap, e: Heap, i: nat, s: nat)
    requires ListsSound(h) && OneWhole(h, None) && SparesOk(h) && HeadTaken(h, e, i, s)
    ensures OneWhole(e, None) && SparesOk(e)
  {
    assert s in h.lists[i];
    assert !Whole(e.zones[s]);
  }

  lemma TakeListedLists(h: Heap, i: nat)
    requires ListsOk(h) && i < CLASSES && h.lists[i] != [] && CanTake(h.zones[h.lists[i][0]])
    requires var z := h.zones[h.lists[i][0]]; z.nfree <= z.max
    ensures ListsOk(TakeListed(h, i).heap)
  {
    hide ListsFull, OneWhole, SparesOk, Distinct;
    var s, e := h.lists[i][0], TakeListed(h, i).heap;
    assert s in h.lists[i];
    assert HeadTaken(h, e, i, s);
    HeadTakenSound(h, e, i, s);
    HeadTakenFull(h, e, i, s);
    HeadTakenWhole(h, e, i, s);
  }

  // A zone that is in no list joins the list of its new class.
  lemma OpenZoneLists(h: Heap, s: nat, i: nat, chunk: nat)
    requires ListsSound(h) && ListsFull(h, Some(s)) && OneWhole(h, Some(s)) && SparesOk(h)
    requires i < CLASSES && CanOpen(h.size, chunk)
    requires s !in h.spare && forall j | 0 <= j < CLASSES :: s !in h.lists[j]
    ensures ListsOk(OpenZone(h, s, i, chunk).heap)
  {
    var e := OpenZone(h, s, i, chunk).heap;
    DistinctConcat([s], h.lists[i]);
    assert forall t :: t in e.lists[i] <==> t == s || t in h.lists[i];
    assert e.zones[s].nfree == e.zones[s].max - 1 > 0;
  }

  lemma PopSpareLists(h: Heap)
    requires ListsOk(h) && h.spare != []
    ensures
      var (e, s) := (h.(spare := h.spare[1..], spares := h.spares - 1), h.spare[0]);
      && ListsSound(e) && ListsFull(e, Some(s)) && OneWhole(e, Some(s)) && SparesOk(e)
      && s !in e.spare && s in h.zones && forall j | 0 <= j < CLASSES :: s !in h.lists[j]
  {
    DistinctTail(h.spare);
    assert h.spare[0] in h.spare;
    assert forall t :: t in h.spare <==> t == h.spare[0] || t in h.spare[1..];
  }

  lemma PutBackLists(h: Heap, s: nat, a: nat)
    requires ListsOk(h) && s in h.zones && s !in h.spare && h.zones[s].cls < CLASSES
    requires h.zones[s].nfree < h.zones[s].max
    ensures
      var e := PutBack(h, s, a);
      && ListsSound(e) && ListsFull(e, None) && OneWhole(e, Some(s)) && SparesOk(e)
      && s in e.lists[e.zones[s].cls]
  {
    var e, z := PutBack(h, s, a), h.zones[s];
    if z.nfree == 0 {
      DistinctConcat([s], h.lists[z.cls]);
      assert forall t :: t in e.lists[z.cls] <==> t == s || t in h.lists[z.cls];
    }
  }

  // If its class has no other zone to allocate from, no other zone of it is wholly free.
  lemma NotDispensable(h: Heap, s: nat)
    requires ListsSound(h) && ListsFull(h, None) && OneWhole(h, Some(s))
    requires s in h.zones && h.zones[s].cls < CLASSES && s in h.lists[h.zones[s].cls] && h.zones[s].max > 0
    requires !Dispensable(h, s)
    requires forall t | t in h.zones :: h.zones[t].max > 0
    ensures OneWhole(h, None)
  {
    if Whole(h.zones[s]) {
      assert forall t :: t in h.lists[h.zones[s].cls] <==> t == s;
    }
  }

  lemma RetireLists(h: Heap, s: nat)
    requires ListsSound(h) && ListsFull(h, None) && OneWhole(h, Some(s)) && SparesOk(h)
    requires s in h.zones && h.zones[s].cls < CLASSES && Whole(h.zones[s]) && s in h.lists[h.zones[s].cls]
    ensures ListsOk(Retire(h, s))
  {
    DistinctConcat([s], h.spare);
    assert s !in Retire(h, s).lists[h.zones[s].cls];
  }

  lemma ReleaseLists(h: Heap)
    requires ListsOk(h) && h.spare != []
    ensures ListsOk(Release(h))
  {
    PopSpareLists(h);
  }
}
