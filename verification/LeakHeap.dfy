/** What the leak tracker's table means: the program's heap, as far as the stops tell. */
module LeakHeap {
  import opened Words
  import opened LeakTracking

  // ---------- the program's side

  /** An allocator call that has not returned; `held` is the block a `realloc` was given. */
  datatype Call = Call(info: AllocInfo, held: Option<(Word, AllocInfo)>)

  /** `blocks` are the blocks returned and not freed, each with the size and the return
      address of the call that made it; `lost` are those kept by a failed `realloc`. */
  datatype Heap = Heap(calls: map<nat, Call>, blocks: map<Word, AllocInfo>, lost: set<Word>)

  /** Calls carry an identity, so calls of different threads may interleave in any way. */
  datatype HeapEvent =
    | Malloc(id: nat, size: Word, site: Word)
    | Calloc(id: nat, count: Word, each: Word, site: Word)
    | Realloc(id: nat, ptr: Word, size: Word, site: Word)
    | Free(ptr: Word)
    | Return(id: nat, ptr: Word)

  predicate Legal(h: Heap, e: HeapEvent) {
    match e
    case Malloc(id, _, _) => id !in h.calls
    case Calloc(id, _, _, _) => id !in h.calls
    case Realloc(id, _, _, _) => id !in h.calls
    case Free(_) => true
    case Return(id, _) => id in h.calls
  }

  function Freed(h: Heap, ptr: Word): Heap {
    if ptr == 0 then h else h.(blocks := h.blocks - {ptr}, lost := h.lost - {ptr})
  }

  function Began(h: Heap, id: nat, size: Word, site: Word, held: Option<(Word, AllocInfo)>): Heap {
    h.(calls := h.calls[id := Call(AllocInfo(size, site), held)])
  }

  /** The bytes of `count` pieces: the smaller of the product and 2^64 - 1. */
  function Total(count: Word, each: Word): Word {
    if count * each > 0xFFFF_FFFF_FFFF_FFFF then 0xFFFF_FFFF_FFFF_FFFF else (count as int * each) as Word
  }

  /** A null return gives nothing, and gives a `realloc`ed block back. */
  function After(h: Heap, e: HeapEvent): Heap
    requires Legal(h, e)
  {
    match e
    case Malloc(id, size, site) => Began(h, id, size, site, None)
    case Calloc(id, count, each, site) => Began(h, id, Total(count, each), site, None)
    case Realloc(id, ptr, size, site) =>
      Began(Freed(h, ptr), id, size, site,
            if ptr != 0 && ptr in h.blocks then Some((ptr, h.blocks[ptr])) else None)
    case Free(ptr) => Freed(h, ptr)
    case Return(id, ptr) =>
      var c, h1 := h.calls[id], h.(calls := h.calls - {id});
      if ptr != 0 then h1.(blocks := h.blocks[ptr := c.info], lost := h.lost - {ptr})
      else if c.held.Some? then
        h1.(blocks := h.blocks[c.held.value.0 := c.held.value.1], lost := h.lost + {c.held.value.0})
      else h1
  }

  /** The tracker's saturating product is that number of bytes. */
  lemma SaturatesToTotal(count: Word, each: Word)
    ensures SaturatingMul(count, each) == Total(count, each)
    ensures Total(count, each) == count * each || (Total(count, each) == WORD - 1 && count * each >= WORD)
  {
  }

  // ---------- the tracker's side

  /** What the tracker makes of the stop the event causes. */
  function Track(t: Tracker, h: Heap, e: HeapEvent): Tracker
    requires Legal(h, e)
    requires e.Return? ==> h.calls[e.id].info.callSite in t.pending
  {
    match e
    case Malloc(id, size, site) => AddPending(t, site, size)
    case Calloc(id, count, each, site) => AddPending(t, site, SaturatingMul(count, each))
    case Realloc(id, ptr, size, site) => AddPending(Forget(t, ptr), site, size)
    case Free(ptr) => Forget(t, ptr)
    case Return(id, ptr) => PopReturn(t, h.calls[id].info.callSite, ptr)
  }

  function InFlight(h: Heap, site: Word): set<nat> {
    set id | id in h.calls && h.calls[id].info.callSite == site
  }

  /** As many pending entries at each return address as calls in flight there, and an
      entry exists only where there is one. */
  ghost predicate PendingOk(t: Tracker, h: Heap) {
    && (forall id :: id in h.calls ==> h.calls[id].info.callSite in t.pending)
    && (forall s :: s in t.pending ==>
          && |t.pending[s]| == |InFlight(h, s)| > 0
          && forall i :: 0 <= i < |t.pending[s]| ==> t.pending[s][i].callSite == s)
  }

  /** The table of live blocks is the heap without the blocks a failed `realloc` kept. */
  ghost predicate LiveOk(t: Tracker, h: Heap) {
    && h.lost <= h.blocks.Keys
    && t.live.Keys == h.blocks.Keys - h.lost
    && forall p :: p in t.live ==> t.live[p].callSite == h.blocks[p].callSite
  }

  ghost predicate Tracks(t: Tracker, h: Heap) {
    PendingOk(t, h) && LiveOk(t, h)
  }

  lemma InFlightBegan(h: Heap, id: nat, size: Word, site: Word, held: Option<(Word, AllocInfo)>, s: Word)
    requires id !in h.calls
    ensures InFlight(Began(h, id, size, site, held), s)
         == if s == site then InFlight(h, s) + {id} else InFlight(h, s)
    ensures id !in InFlight(h, s)
  {
  }

  lemma NonePending(t: Tracker, h: Heap, site: Word)
    requires PendingOk(t, h) && site !in t.pending
    ensures InFlight(h, site) == {}
  {
  }

  lemma EnterPending(t: Tracker, h: Heap, id: nat, size: Word, site: Word, held: Option<(Word, AllocInfo)>)
    requires PendingOk(t, h) && id !in h.calls
    ensures PendingOk(AddPending(t, site, size), Began(h, id, size, site, held))
  {
    var t', h' := AddPending(t, site, size), Began(h, id, size, site, held);
    if site !in t.pending {
      NonePending(t, h, site);
    }
    hide InFlight;
    forall s | s in t'.pending
      ensures |t'.pending[s]| == |InFlight(h', s)| > 0
      ensures forall i :: 0 <= i < |t'.pending[s]| ==> t'.pending[s][i].callSite == s
    {
      InFlightBegan(h, id, size, site, held, s);
    }
  }

  lemma EnterTracks(t: Tracker, h: Heap, id: nat, size: Word, site: Word, held: Option<(Word, AllocInfo)>)
    requires Tracks(t, h) && id !in h.calls
    ensures Tracks(AddPending(t, site, size), Began(h, id, size, site, held))
  {
    hide PendingOk, InFlight;
    EnterPending(t, h, id, size, site, held);
  }

  lemma ForgetTracks(t: Tracker, h: Heap, ptr: Word)
    requires Tracks(t, h)
    ensures Tracks(Forget(t, ptr), Freed(h, ptr))
  {
    forall s
      ensures InFlight(Freed(h, ptr), s) == InFlight(h, s)
    {
    }
  }

  lemma ReturnPending(t: Tracker, h: Heap, id: nat, ptr: Word)
    requires PendingOk(t, h) && id in h.calls
    ensures PendingOk(PopReturn(t, h.calls[id].info.callSite, ptr), After(h, Return(id, ptr)))
  {
    var site := h.calls[id].info.callSite;
    var t', h' := PopReturn(t, site, ptr), After(h, Return(id, ptr));
    assert InFlight(h', site) == InFlight(h, site) - {id};
    assert id in InFlight(h, site);
    assert |InFlight(h', site)| == |t.pending[site]| - 1;
    forall j | j in h'.calls
      ensures h'.calls[j].info.callSite in t'.pending
    {
      if h'.calls[j].info.callSite == site {
        assert j in InFlight(h', site);
      }
    }
    forall s | s in t'.pending
      ensures |t'.pending[s]| == |InFlight(h', s)| > 0
      ensures forall i :: 0 <= i < |t'.pending[s]| ==> t'.pending[s][i].callSite == s
    {
      if s != site {
        assert InFlight(h', s) == InFlight(h, s);
      }
    }
  }

  lemma ReturnLive(t: Tracker, h: Heap, id: nat, ptr: Word)
    requires Tracks(t, h) && id in h.calls
    requires ptr == 0 ==> HeldGone(h, id)
    ensures LiveOk(PopReturn(t, h.calls[id].info.callSite, ptr), After(h, Return(id, ptr)))
  {
  }

  /** The block a `realloc` in flight was given has not come back as another block. */
  ghost predicate HeldGone(h: Heap, id: nat)
    requires id in h.calls
  {
    h.calls[id].held.Some? ==> h.calls[id].held.value.0 !in h.blocks
  }

  /** Allocators do not hand out a block they still hold for a `realloc` that will fail. */
  ghost predicate Sensible(h: Heap, e: HeapEvent) {
    Legal(h, e) && (e.Return? && e.ptr == 0 ==> HeldGone(h, e.id))
  }

  lemma TrackStep(t: Tracker, h: Heap, e: HeapEvent)
    requires Tracks(t, h) && Sensible(h, e)
    ensures Tracks(Track(t, h, e), After(h, e))
  {
    match e
    case Malloc(id, size, site) => EnterTracks(t, h, id, size, site, None);
    case Calloc(id, count, each, site) =>
      SaturatesToTotal(count, each);
      EnterTracks(t, h, id, Total(count, each), site, None);
    case Realloc(id, ptr, size, site) =>
      ForgetTracks(t, h, ptr);
      EnterTracks(Forget(t, ptr), Freed(h, ptr), id, size, site,
                  if ptr != 0 && ptr in h.blocks then Some((ptr, h.blocks[ptr])) else None);
    case Free(ptr) => ForgetTracks(t, h, ptr);
    case Return(id, ptr) =>
      ReturnPending(t, h, id, ptr);
      ReturnLive(t, h, id, ptr);
  }

  // ---------- whole histories

  ghost predicate Plausible(h: Heap, es: seq<HeapEvent>)
    decreases |es|
  {
    es == [] || (Sensible(h, es[0]) && Plausible(After(h, es[0]), es[1..]))
  }

  ghost function HeapAfter(h: Heap, es: seq<HeapEvent>): Heap
    requires Plausible(h, es)
    decreases |es|
  {
    if es == [] then h else HeapAfter(After(h, es[0]), es[1..])
  }

  ghost function TrackAll(t: Tracker, h: Heap, es: seq<HeapEvent>): Tracker
    requires Tracks(t, h) && Plausible(h, es)
    decreases |es|
  {
    if es == [] then t
    else
      TrackStep(t, h, es[0]);
      TrackAll(Track(t, h, es[0]), After(h, es[0]), es[1..])
  }

  /** For every interleaving of calls and returns the live table is the heap, except for
      blocks a failed `realloc` gave back; every call site is right. */
  lemma {:induction false} LiveIsHeap(t: Tracker, h: Heap, es: seq<HeapEvent>)
    requires Tracks(t, h) && Plausible(h, es)
    ensures Tracks(TrackAll(t, h, es), HeapAfter(h, es))
    decreases |es|
  {
    if es != [] {
      TrackStep(t, h, es[0]);
      LiveIsHeap(Track(t, h, es[0]), After(h, es[0]), es[1..]);
    }
  }

  /** After any history the live table names only blocks the program owns; it names all of
      them exactly when no block is kept by a failed `realloc`. */
  lemma LiveIsExactIff(t: Tracker, h: Heap, es: seq<HeapEvent>)
    requires Tracks(t, h) && Plausible(h, es)
    ensures TrackAll(t, h, es).live.Keys <= HeapAfter(h, es).blocks.Keys
    ensures TrackAll(t, h, es).live.Keys == HeapAfter(h, es).blocks.Keys <==> HeapAfter(h, es).lost == {}
  {
    LiveIsHeap(t, h, es);
    var h1 := HeapAfter(h, es);
    if p :| p in h1.lost {
      assert p in h1.blocks && p !in TrackAll(t, h, es).live;
    }
  }

  // ---------- a failed `realloc`

  const BLOCK: AllocInfo := AllocInfo(24, 144)

  /** 24 bytes at 4096, and an attempt to grow them that fails. */
  function GrowFails(): seq<HeapEvent> {
    [Malloc(0, 24, 144), Return(0, 4096), Realloc(1, 4096, 48, 160), Return(1, 0)]
  }

  function NoHeap(): Heap {
    Heap(map[], map[], {})
  }

  lemma GrowSteps()
    ensures var h1 := Heap(map[0 := Call(BLOCK, None)], map[], {});
      var h2 := Heap(map[], map[4096 := BLOCK], {});
      var h3 := Heap(map[1 := Call(AllocInfo(48, 160), Some((4096, BLOCK)))], map[], {});
      var h4 := Heap(map[], map[4096 := BLOCK], {4096});
      && After(NoHeap(), GrowFails()[0]) == h1
      && Legal(h1, GrowFails()[1]) && After(h1, GrowFails()[1]) == h2
      && Legal(h2, GrowFails()[2]) && After(h2, GrowFails()[2]) == h3
      && Legal(h3, GrowFails()[3]) && After(h3, GrowFails()[3]) == h4
  {
    var h2 := Heap(map[], map[4096 := BLOCK], {});
    assert Freed(h2, 4096) == NoHeap();
  }

  /** The program still owns the block at 4096; the leak list is empty. */
  lemma FailedReallocHides(t: Tracker)
    requires Tracks(t, NoHeap())
    ensures Plausible(NoHeap(), GrowFails())
    ensures HeapAfter(NoHeap(), GrowFails()).blocks == map[4096 := BLOCK]
    ensures TrackAll(t, NoHeap(), GrowFails()).live == map[]
  {
    GrowSteps();
    var es := GrowFails();
    assert es[1..][0] == es[1] && es[1..][1..][0] == es[2] && es[1..][1..][1..][0] == es[3];
    assert es[1..][1..][1..][1..] == [];
    var h3 := Heap(map[1 := Call(AllocInfo(48, 160), Some((4096, BLOCK)))], map[], {});
    hide After, Tracks, TrackAll, Legal;
    assert Plausible(h3, es[1..][1..][1..]);
    assert HeapAfter(NoHeap(), es) == Heap(map[], map[4096 := BLOCK], {4096});
    LiveIsHeap(t, NoHeap(), es);
    LiveKeys(TrackAll(t, NoHeap(), es), HeapAfter(NoHeap(), es));
  }

  lemma LiveKeys(t: Tracker, h: Heap)
    requires Tracks(t, h)
    ensures t.live.Keys == h.blocks.Keys - h.lost
  {
  }

  ghost predicate NoReallocFails(h: Heap, es: seq<HeapEvent>)
    requires Plausible(h, es)
    decreases |es|
  {
    es != [] ==>
      && !(es[0].Return? && es[0].ptr == 0 && h.calls[es[0].id].held.Some?)
      && NoReallocFails(After(h, es[0]), es[1..])
  }

  lemma {:induction false} NothingLost(h: Heap, es: seq<HeapEvent>)
    requires Plausible(h, es) && h.lost == {} && NoReallocFails(h, es)
    ensures HeapAfter(h, es).lost == {}
    decreases |es|
  {
    if es != [] {
      NothingLost(After(h, es[0]), es[1..]);
    }
  }

  // ---------- sizes

  /** No two calls in flight share a return address. */
  ghost predicate Apart(h: Heap) {
    forall i, j :: i in h.calls && j in h.calls && h.calls[i].info.callSite == h.calls[j].info.callSite ==> i == j
  }

  ghost predicate ExactCalls(t: Tracker, h: Heap) {
    forall id :: id in h.calls ==>
      && h.calls[id].info.callSite in t.pending
      && t.pending[h.calls[id].info.callSite] == [h.calls[id].info]
  }

  ghost predicate ExactBlocks(t: Tracker, h: Heap) {
    forall p :: p in t.live && p in h.blocks ==> t.live[p] == h.blocks[p]
  }

  /** Sizes as well as call sites are those of the program. */
  ghost predicate Exact(t: Tracker, h: Heap) {
    ExactCalls(t, h) && ExactBlocks(t, h)
  }

  ghost predicate ApartThroughout(h: Heap, es: seq<HeapEvent>)
    requires Plausible(h, es)
    decreases |es|
  {
    Apart(h) && (es != [] ==> ApartThroughout(After(h, es[0]), es[1..]))
  }

  lemma EnterExact(t: Tracker, h: Heap, id: nat, size: Word, site: Word, held: Option<(Word, AllocInfo)>)
    requires Tracks(t, h) && Exact(t, h) && id !in h.calls
    requires Apart(Began(h, id, size, site, held))
    ensures Exact(AddPending(t, site, size), Began(h, id, size, site, held))
  {
    var t', h' := AddPending(t, site, size), Began(h, id, size, site, held);
    NoOtherCall(h, id, size, site, held);
    assert site !in t.pending;
    hide LiveOk, InFlight, Apart;
    forall j | j in h'.calls
      ensures h'.calls[j].info.callSite in t'.pending
      ensures t'.pending[h'.calls[j].info.callSite] == [h'.calls[j].info]
    {
      if j != id {
        assert h'.calls[j] == h.calls[j];
      }
    }
  }

  lemma NoOtherCall(h: Heap, id: nat, size: Word, site: Word, held: Option<(Word, AllocInfo)>)
    requires id !in h.calls && Apart(Began(h, id, size, site, held))
    ensures InFlight(h, site) == {}
  {
    var h' := Began(h, id, size, site, held);
    forall j | j in h.calls
      ensures h.calls[j].info.callSite != site
    {
      assert h'.calls[j] == h.calls[j] && h'.calls[id].info.callSite == site;
    }
  }

  lemma ReturnExactCalls(t: Tracker, h: Heap, id: nat, ptr: Word)
    requires ExactCalls(t, h) && Apart(h) && id in h.calls
    ensures ExactCalls(PopReturn(t, h.calls[id].info.callSite, ptr), After(h, Return(id, ptr)))
    ensures t.pending[h.calls[id].info.callSite] == [h.calls[id].info]
  {
    var site, h' := h.calls[id].info.callSite, After(h, Return(id, ptr));
    assert PopReturn(t, site, ptr).pending == t.pending - {site};
    assert forall j :: j in h'.calls ==> h'.calls[j] == h.calls[j] && h'.calls[j].info.callSite != site;
  }

  lemma ReturnExactBlocks(t: Tracker, h: Heap, id: nat, ptr: Word)
    requires LiveOk(t, h) && ExactBlocks(t, h) && Sensible(h, Return(id, ptr))
    requires h.calls[id].info.callSite in t.pending
    requires t.pending[h.calls[id].info.callSite] == [h.calls[id].info]
    ensures ExactBlocks(PopReturn(t, h.calls[id].info.callSite, ptr), After(h, Return(id, ptr)))
  {
  }

  lemma ReturnExact(t: Tracker, h: Heap, id: nat, ptr: Word)
    requires Tracks(t, h) && Exact(t, h) && Apart(h) && Sensible(h, Return(id, ptr))
    ensures Exact(PopReturn(t, h.calls[id].info.callSite, ptr), After(h, Return(id, ptr)))
  {
    hide LiveOk, PopReturn, After, Apart, ExactBlocks;
    ReturnExactCalls(t, h, id, ptr);
    ReturnExactBlocks(t, h, id, ptr);
  }

  lemma ForgetExact(t: Tracker, h: Heap, ptr: Word)
    requires Exact(t, h)
    ensures Exact(Forget(t, ptr), Freed(h, ptr)) && Freed(h, ptr).calls == h.calls
  {
  }

  lemma ExactStep(t: Tracker, h: Heap, e: HeapEvent)
    requires Tracks(t, h) && Exact(t, h) && Sensible(h, e) && Apart(h) && Apart(After(h, e))
    ensures Exact(Track(t, h, e), After(h, e))
  {
    hide Tracks, Exact, Apart, AddPending, Began, Forget, Freed, PopReturn, SaturatingMul, Total;
    match e
    case Malloc(id, size, site) => EnterExact(t, h, id, size, site, None);
    case Calloc(id, count, each, site) =>
      SaturatesToTotal(count, each);
      EnterExact(t, h, id, Total(count, each), site, None);
    case Realloc(id, ptr, size, site) =>
      ForgetTracks(t, h, ptr);
      ForgetExact(t, h, ptr);
      EnterExact(Forget(t, ptr), Freed(h, ptr), id, size, site,
                 if ptr != 0 && ptr in h.blocks then Some((ptr, h.blocks[ptr])) else None);
    case Free(ptr) => ForgetExact(t, h, ptr);
    case Return(id, ptr) => ReturnExact(t, h, id, ptr);
  }

  /** When calls with one return address never overlap, every size is exact. */
  lemma {:induction false} SizesAreExact(t: Tracker, h: Heap, es: seq<HeapEvent>)
    requires Tracks(t, h) && Exact(t, h) && Plausible(h, es) && ApartThroughout(h, es)
    ensures Exact(TrackAll(t, h, es), HeapAfter(h, es))
    decreases |es|
  {
    if es != [] {
      TrackStep(t, h, es[0]);
      assert Apart(After(h, es[0])) by {
        assert ApartThroughout(After(h, es[0]), es[1..]);
      }
      ExactStep(t, h, es[0]);
      SizesAreExact(Track(t, h, es[0]), After(h, es[0]), es[1..]);
    }
  }

  // ---------- overlapping calls

  function Requested(e: HeapEvent, site: Word): multiset<AllocInfo> {
    match e
    case Malloc(_, size, at) => if at == site then multiset{AllocInfo(size, at)} else multiset{}
    case Calloc(_, count, each, at) =>
      if at == site then multiset{AllocInfo(Total(count, each), at)} else multiset{}
    case Realloc(_, _, size, at) => if at == site then multiset{AllocInfo(size, at)} else multiset{}
    case _ => multiset{}
  }

  function PendingAt(t: Tracker, site: Word): multiset<AllocInfo> {
    if site in t.pending then multiset(t.pending[site]) else multiset{}
  }

  /** The entry taken off the pending list by a return to `site`. */
  function Popped(t: Tracker, h: Heap, e: HeapEvent, site: Word): multiset<AllocInfo>
    requires Legal(h, e)
  {
    if e.Return? && h.calls[e.id].info.callSite == site && site in t.pending && t.pending[site] != [] then
      multiset{t.pending[site][|t.pending[site]| - 1]}
    else multiset{}
  }

  /** All requests at `site`, all entries put into the live table by returns to `site`,
      and all entries dropped by null returns. */
  datatype Ledger = Ledger(requested: multiset<AllocInfo>, recorded: multiset<AllocInfo>, dropped: multiset<AllocInfo>)

  ghost function Account(t: Tracker, h: Heap, es: seq<HeapEvent>, site: Word): Ledger
    requires Tracks(t, h) && Plausible(h, es)
    decreases |es|
  {
    if es == [] then Ledger(multiset{}, multiset{}, multiset{})
    else
      TrackStep(t, h, es[0]);
      var rest := Account(Track(t, h, es[0]), After(h, es[0]), es[1..], site);
      var popped, failed := Popped(t, h, es[0], site), es[0].Return? && es[0].ptr == 0;
      Ledger(Requested(es[0], site) + rest.requested,
             (if failed then multiset{} else popped) + rest.recorded,
             (if failed then popped else multiset{}) + rest.dropped)
  }

  function One(b: bool, x: AllocInfo): multiset<AllocInfo> {
    if b then multiset{x} else multiset{}
  }

  lemma AddBalances(t: Tracker, at: Word, size: Word, site: Word)
    ensures PendingAt(AddPending(t, at, size), site) == PendingAt(t, site) + One(at == site, AllocInfo(size, at))
  {
  }

  lemma PopBalances(t: Tracker, at: Word, ptr: Word, site: Word)
    requires at in t.pending && t.pending[at] != []
    ensures PendingAt(PopReturn(t, at, ptr), site) + One(at == site, t.pending[at][|t.pending[at]| - 1])
         == PendingAt(t, site)
  {
    var calls := t.pending[at];
    assert calls == calls[..|calls| - 1] + [calls[|calls| - 1]];
  }

  lemma ReturnBalances(t: Tracker, h: Heap, id: nat, ptr: Word, site: Word)
    requires PendingOk(t, h) && id in h.calls
    ensures var e := Return(id, ptr);
      PendingAt(Track(t, h, e), site) + Popped(t, h, e, site) == PendingAt(t, site) + Requested(e, site)
  {
    var at := h.calls[id].info.callSite;
    assert at in t.pending && t.pending[at] != [];
    hide PopReturn, PendingAt, PendingOk;
    PopBalances(t, at, ptr, site);
  }

  lemma StepBalances(t: Tracker, h: Heap, e: HeapEvent, site: Word)
    requires Tracks(t, h) && Sensible(h, e)
    ensures PendingAt(Track(t, h, e), site) + Popped(t, h, e, site) == PendingAt(t, site) + Requested(e, site)
  {
    hide AddPending, PopReturn, PendingAt, SaturatingMul, Total, Forget, LiveOk, InFlight;
    match e
    case Malloc(_, size, at) => AddBalances(t, at, size, site);
    case Calloc(_, count, each, at) =>
      SaturatesToTotal(count, each);
      AddBalances(t, at, Total(count, each), site);
    case Realloc(_, ptr, size, at) =>
      AddBalances(Forget(t, ptr), at, size, site);
      ForgetKeeps(t, ptr, site);
    case Free(ptr) => ForgetKeeps(t, ptr, site);
    case Return(id, ptr) => ReturnBalances(t, h, id, ptr, site);
  }

  lemma ForgetKeeps(t: Tracker, ptr: Word, site: Word)
    ensures PendingAt(Forget(t, ptr), site) == PendingAt(t, site)
  {
  }

  lemma QuietPending(t: Tracker, h: Heap, site: Word)
    requires Tracks(t, h) && h.calls == map[]
    ensures PendingAt(t, site) == multiset{}
  {
    assert InFlight(h, site) == {};
  }

  lemma Balance(l: Ledger, r: Ledger, popped: multiset<AllocInfo>, failed: bool, asked: multiset<AllocInfo>,
                before: multiset<AllocInfo>, mid: multiset<AllocInfo>, end: multiset<AllocInfo>)
    requires l == Ledger(asked + r.requested, (if failed then multiset{} else popped) + r.recorded,
                         (if failed then popped else multiset{}) + r.dropped)
    requires mid + popped == before + asked
    requires r.recorded + r.dropped + end == mid + r.requested
    ensures l.recorded + l.dropped + end == before + l.requested
  {
    calc {
      l.recorded + l.dropped + end;
      (r.recorded + r.dropped + end) + popped;
      (mid + popped) + r.requested;
      before + l.requested;
    }
  }

  /** Overlapping calls with one return address may swap their sizes, but each request is
      recorded once: recorded, dropped and pending entries together are the requests. */
  lemma {:induction false} RequestsAreConserved(t: Tracker, h: Heap, es: seq<HeapEvent>, site: Word)
    requires Tracks(t, h) && Plausible(h, es)
    ensures var l := Account(t, h, es, site);
      l.recorded + l.dropped + PendingAt(TrackAll(t, h, es), site) == PendingAt(t, site) + l.requested
    decreases |es|
  {
    if es != [] {
      TrackStep(t, h, es[0]);
      StepBalances(t, h, es[0], site);
      var t1, h1 := Track(t, h, es[0]), After(h, es[0]);
      RequestsAreConserved(t1, h1, es[1..], site);
      hide Tracks, Sensible, Track, After, PendingAt, Popped, Requested;
      Balance(Account(t, h, es, site), Account(t1, h1, es[1..], site), Popped(t, h, es[0], site),
              es[0].Return? && es[0].ptr == 0, Requested(es[0], site),
              PendingAt(t, site), PendingAt(t1, site), PendingAt(TrackAll(t, h, es), site));
    }
  }

  ghost predicate NoNullReturns(es: seq<HeapEvent>) {
    forall i :: 0 <= i < |es| && es[i].Return? ==> es[i].ptr != 0
  }

  lemma {:induction false} NothingDropped(t: Tracker, h: Heap, es: seq<HeapEvent>, site: Word)
    requires Tracks(t, h) && Plausible(h, es) && NoNullReturns(es)
    ensures Account(t, h, es, site).dropped == multiset{}
    decreases |es|
  {
    if es != [] {
      TrackStep(t, h, es[0]);
      assert es[0].Return? ==> es[0].ptr != 0;
      assert forall i :: 0 <= i < |es| - 1 ==> es[1..][i] == es[i + 1];
      NothingDropped(Track(t, h, es[0]), After(h, es[0]), es[1..], site);
    }
  }

  /** Once all calls are back and none failed, the sizes recorded at a call site are, as a
      multiset, exactly the sizes requested there. */
  lemma SizesAtQuiet(t: Tracker, h: Heap, es: seq<HeapEvent>, site: Word)
    requires Tracks(t, h) && Plausible(h, es) && NoNullReturns(es)
    requires h.calls == map[] && HeapAfter(h, es).calls == map[]
    ensures Account(t, h, es, site).recorded == Account(t, h, es, site).requested
  {
    RequestsAreConserved(t, h, es, site);
    NothingDropped(t, h, es, site);
    LiveIsHeap(t, h, es);
    QuietPending(t, h, site);
    QuietPending(TrackAll(t, h, es), HeapAfter(h, es), site);
    hide Tracks, PendingAt;
    var l := Account(t, h, es, site);
    assert l.recorded + multiset{} + multiset{} == l.recorded;
  }
}
