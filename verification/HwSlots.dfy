/** Hardware breakpoints and watchpoints on ARM64 as functions on the debugger's state:
    two slot tables, and the same registers in every thread of the target. */
module HwSlots {
  import opened Words
  import opened Machine
  import opened Engine
  import opened DebugRegs

  const BP_SLOTS: nat := 16
  const WP_SLOTS: nat := 4

  /** `HW_BP_BCR_ENABLE`: enabled, user mode, all four bytes. */
  const BCR_ENABLE: Word := 0x1E5

  /** One thread's debug registers. */
  datatype File = File(bvr: seq<Word>, bcr: seq<Word>, wvr: seq<Word>, wcr: seq<Word>) {
    predicate Shaped() {
      |bvr| == BP_SLOTS && |bcr| == BP_SLOTS && |wvr| == WP_SLOTS && |wcr| == WP_SLOTS
    }
  }

  datatype Edit =
    | ArmBp(slot: nat, addr: Word)
    | DisarmBp(slot: nat)
    | ArmWp(slot: nat, watch: Watch)
    | DisarmWp(slot: nat)

  predicate InRange(e: Edit) {
    e.slot < if e.ArmBp? || e.DisarmBp? then BP_SLOTS else WP_SLOTS
  }

  /** Reads a thread's registers, changes one slot, writes them back. */
  function Edited(f: File, e: Edit): (f': File)
    requires f.Shaped() && InRange(e)
    ensures f'.Shaped()
  {
    match e
    case ArmBp(s, a) => f.(bvr := f.bvr[s := a], bcr := f.bcr[s := BCR_ENABLE])
    case DisarmBp(s) => f.(bvr := f.bvr[s := 0], bcr := f.bcr[s := 0])
    case ArmWp(s, w) =>
      var (wvr, wcr) := WcrEncode(w.addr, w.cond, w.len);
      f.(wvr := f.wvr[s := wvr], wcr := f.wcr[s := wcr])
    case DisarmWp(s) => f.(wvr := f.wvr[s := 0], wcr := f.wcr[s := 0])
  }

  datatype Thread = Thread(tid: Tid, suspended: bool)

  datatype Hw = Hw(
    alive: bool,
    files: map<Tid, File>,
    pcs: map<Tid, Word>,
    threads: seq<Thread>,
    current: nat,
    slots: seq<Option<Word>>,
    watches: seq<Option<Watch>>,
    bps: set<Word>,
    at: Option<Word>,
    last: Option<Status>)

  /** One resume seen from outside: the threads afterwards, where they stand, why it ended. */
  datatype HwEnv = HwEnv(listing: seq<Tid>, pcs: map<Tid, Word>, event: Event)

  predicate Shaped(h: Hw) {
    && |h.slots| == BP_SLOTS && |h.watches| == WP_SLOTS
    && forall t :: t in h.files ==> h.files[t].Shaped()
  }

  /** Applies an edit thread by thread; a thread that is gone ends the loop with an error. */
  function EditAll(alive: bool, files: map<Tid, File>, threads: seq<Thread>, e: Edit): (r: (map<Tid, File>, bool))
    requires InRange(e) && forall t :: t in files ==> files[t].Shaped()
    ensures r.0.Keys == files.Keys && forall t :: t in r.0 ==> r.0[t].Shaped()
    decreases |threads|
  {
    if threads == [] then (files, true)
    else if alive && threads[0].tid in files then
      EditAll(alive, files[threads[0].tid := Edited(files[threads[0].tid], e)], threads[1..], e)
    else (files, false)
  }

  function EditThreads(h: Hw, e: Edit): (r: (Hw, bool))
    requires Shaped(h) && InRange(e)
    ensures Shaped(r.0)
  {
    var (files, ok) := EditAll(h.alive, h.files, h.threads, e);
    (h.(files := files), ok)
  }

  // ---------- slots

  /** The first index that satisfies `want`, or the length. */
  function FirstFree<T>(s: seq<Option<T>>): (i: nat)
    ensures i <= |s| && (i < |s| ==> s[i] == None) && forall j :: 0 <= j < i ==> s[j].Some?
  {
    if s == [] || s[0] == None then 0 else 1 + FirstFree(s[1..])
  }

  function SlotOf(s: seq<Option<Word>>, a: Word): (i: nat)
    ensures i <= |s| && (i < |s| ==> s[i] == Some(a)) && forall j :: 0 <= j < i ==> s[j] != Some(a)
  {
    if s == [] || s[0] == Some(a) then 0 else 1 + SlotOf(s[1..], a)
  }

  function WatchSlotOf(s: seq<Option<Watch>>, a: Word): (i: nat)
    ensures i <= |s| && (i < |s| ==> s[i].Some? && s[i].value.addr == a)
    ensures forall j :: 0 <= j < i ==> !(s[j].Some? && s[j].value.addr == a)
  {
    if s == [] || (s[0].Some? && s[0].value.addr == a) then 0 else 1 + WatchSlotOf(s[1..], a)
  }

  /** Claims the first free slot; it stays claimed even if a later call fails. */
  function Alloc(h: Hw, a: Word): (r: (Hw, Option<nat>))
    requires Shaped(h)
    ensures Shaped(r.0) && (r.1.Some? ==> r.1.value < BP_SLOTS)
  {
    var i := FirstFree(h.slots);
    if i < BP_SLOTS then (h.(slots := h.slots[i := Some(a)]), Some(i)) else (h, None)
  }

  function Release(h: Hw, i: nat): (h': Hw)
    requires Shaped(h) && i < BP_SLOTS
    ensures Shaped(h')
  {
    h.(slots := h.slots[i := None])
  }

  function SetBp(h: Hw, a: Word): (r: (Hw, bool))
    requires Shaped(h)
    ensures Shaped(r.0)
  {
    var (h1, i) := Alloc(h, a);
    if i == None then (h1, false)
    else
      var (h2, ok) := EditThreads(h1, ArmBp(i.value, a));
      if ok then (h2.(bps := h2.bps + {a}), true) else (h2, false)
  }

  function RemoveBp(h: Hw, a: Word): (r: (Hw, bool))
    requires Shaped(h)
    ensures Shaped(r.0)
  {
    var i := SlotOf(h.slots, a);
    var (h1, ok) := if i < BP_SLOTS then EditThreads(h, DisarmBp(i)) else (h, true);
    if !ok then (h1, false)
    else
      var h2 := if i < BP_SLOTS then Release(h1, i) else h1;
      (h2.(bps := h2.bps - {a}, at := if h2.at == Some(a) then None else h2.at), true)
  }

  function SetWatch(h: Hw, w: Watch): (r: (Hw, Option<nat>))
    requires Shaped(h)
    ensures Shaped(r.0)
  {
    var known, i := WatchSlotOf(h.watches, w.addr), FirstFree(h.watches);
    if known < WP_SLOTS then (h, Some(known))
    else if i == WP_SLOTS then (h, None)
    else
      var (h1, ok) := EditThreads(h, ArmWp(i, w));
      if ok then (h1.(watches := h1.watches[i := Some(w)]), Some(i)) else (h1, None)
  }

  function RemoveWatch(h: Hw, i: nat): (r: (Hw, bool))
    requires Shaped(h)
    ensures Shaped(r.0)
  {
    if i >= WP_SLOTS then (h, false)
    else
      var (h1, ok) := EditThreads(h, DisarmWp(i));
      if ok then (h1.(watches := h1.watches[i := None]), true) else (h1, false)
  }

  // ---------- threads come and go

  /** A new thread starts with clear debug registers. */
  function Clear(): (f: File)
    ensures f.Shaped()
  {
    File(Zeros(BP_SLOTS), Zeros(BP_SLOTS), Zeros(WP_SLOTS), Zeros(WP_SLOTS))
  }

  function Zeros(n: nat): (z: seq<Word>)
    ensures |z| == n && forall i :: 0 <= i < n ==> z[i] == 0
  {
    if n == 0 then [] else [0] + Zeros(n - 1)
  }

  /** The kernel's side of a resume: registers stay with their threads. */
  function Survive(files: map<Tid, File>, listing: seq<Tid>): map<Tid, File> {
    map t | t in listing :: if t in files then files[t] else Clear()
  }

  function ArmBps(f: File, slots: seq<Option<Word>>, i: nat): (f': File)
    requires f.Shaped() && |slots| == BP_SLOTS && i <= BP_SLOTS
    ensures f'.Shaped()
  {
    if i == 0 then f
    else
      var f1 := ArmBps(f, slots, i - 1);
      if slots[i - 1].Some? then Edited(f1, ArmBp(i - 1, slots[i - 1].value)) else f1
  }

  function ArmWps(f: File, watches: seq<Option<Watch>>, i: nat): (f': File)
    requires f.Shaped() && |watches| == WP_SLOTS && i <= WP_SLOTS
    ensures f'.Shaped()
  {
    if i == 0 then f
    else
      var f1 := ArmWps(f, watches, i - 1);
      if watches[i - 1].Some? then Edited(f1, ArmWp(i - 1, watches[i - 1].value)) else f1
  }

  /** The occupied slots programmed into a newly found thread. */
  function ApplyExisting(f: File, slots: seq<Option<Word>>, watches: seq<Option<Watch>>): (f': File)
    requires f.Shaped() && |slots| == BP_SLOTS && |watches| == WP_SLOTS
    ensures f'.Shaped()
  {
    ArmWps(ArmBps(f, slots, BP_SLOTS), watches, WP_SLOTS)
  }

  function Tids(threads: seq<Thread>): seq<Tid> {
    seq(|threads|, i requires 0 <= i < |threads| => threads[i].tid)
  }

  function SuspendedFlag(threads: seq<Thread>, t: Tid): bool {
    var i := IndexOf(Tids(threads), t);
    i < |threads| && threads[i].suspended
  }

  /** The listed threads, each with the flag its id had before. */
  function Relisted(threads: seq<Thread>, listing: seq<Tid>): (r: seq<Thread>)
    ensures Tids(r) == listing
  {
    seq(|listing|, j requires 0 <= j < |listing| => Thread(listing[j], SuspendedFlag(threads, listing[j])))
  }

  /** Threads that were not known before get the occupied slots. */
  function Introduced(h: Hw, listing: seq<Tid>): (files: map<Tid, File>)
    requires Shaped(h)
    ensures forall t :: t in files ==> files[t].Shaped()
  {
    map t | t in h.files ::
      if t in listing && t !in Tids(h.threads) then ApplyExisting(h.files[t], h.slots, h.watches) else h.files[t]
  }

  function Refresh(h: Hw, listing: seq<Tid>): (h': Hw)
    requires Shaped(h)
    ensures Shaped(h')
  {
    var i := if h.current < |h.threads| then IndexOf(listing, h.threads[h.current].tid) else 0;
    h.(files := Introduced(h, listing), threads := Relisted(h.threads, listing),
       current := if i < |listing| then i else 0)
  }

  function CurrentPc(h: Hw): Option<Word> {
    if h.alive && h.current < |h.threads| && h.threads[h.current].tid in h.pcs
    then Some(h.pcs[h.threads[h.current].tid]) else None
  }

  function Resume(h: Hw, env: HwEnv): (h': Hw)
    requires Shaped(h)
    ensures Shaped(h') && h'.last.Some?
  {
    match env.event
    case StopEvent(signal) =>
      var h1 := Refresh(h.(files := Survive(h.files, env.listing), pcs := env.pcs), env.listing);
      h1.(last := Some(Stopped(signal, CurrentPc(h1).GetOr(0))))
    case ExitEvent(code) => h.(alive := false, last := Some(Exited(code)))
    case KillEvent(signal) => h.(alive := false, last := Some(Signaled(signal)))
  }

  predicate Stands(h: Hw, t: Thread) {
    t.tid in h.pcs && h.pcs[t.tid] in h.bps
  }

  function FirstStanding(h: Hw, threads: seq<Thread>): (i: nat)
    ensures i <= |threads| && (i < |threads| ==> Stands(h, threads[i]))
  {
    if threads == [] || Stands(h, threads[0]) then 0 else 1 + FirstStanding(h, threads[1..])
  }

  /** The first thread that stands on a breakpoint is selected; nothing is rewound. */
  function Handle(h: Hw): (h': Hw)
    requires Shaped(h)
    ensures Shaped(h') && h'.slots == h.slots && h'.bps == h.bps && (h.last.Some? ==> h'.last.Some?)
  {
    var i := FirstStanding(h, h.threads);
    if h.alive && h.last.Some? && h.last.value.Stopped? && h.last.value.signal == SIGTRAP && i < |h.threads| then
      var a := h.pcs[h.threads[i].tid];
      h.(at := Some(a), current := i, last := Some(Stopped(SIGTRAP, a)))
    else h
  }

  // ---------- running

  /** One instruction by a temporary breakpoint four bytes on. */
  function StepCurrent(h: Hw, env: HwEnv): (r: (Hw, Outcome))
    requires Shaped(h)
    ensures Shaped(r.0)
  {
    match CurrentPc(h)
    case None => (h, Failed)
    case Some(pc) =>
      var a := Plus(pc, 4);
      var (h1, planted) := if a in h.bps then (h, false) else SetBp(h, a);
      var h2 := Handle(Resume(h1, env));
      (if planted then RemoveBp(h2, a).0 else h2, Done(h2.last.value))
  }

  function StepOver(h: Hw, a: Word, env: HwEnv): (r: (Hw, Outcome))
    requires Shaped(h)
    ensures Shaped(r.0)
  {
    var i := SlotOf(h.slots, a);
    if i == BP_SLOTS then (h, Failed)
    else
      var (h1, ok1) := EditThreads(h, DisarmBp(i));
      if !ok1 then (h1, Failed)
      else
        var (h2, out) := StepCurrent(h1, env);
        if !out.Done? then (h2, out)
        else
          var (h3, ok3) := EditThreads(h2, ArmBp(i, a));
          (h3, if ok3 then out else Failed)
  }

  function NoteLanding(h: Hw): (h': Hw)
    requires Shaped(h)
    ensures Shaped(h')
  {
    match CurrentPc(h)
    case Some(pc) => if pc in h.bps then h.(at := Some(pc)) else h
    case None => h
  }

  function StepI(h: Hw, env: HwEnv): (r: (Hw, Outcome))
    requires Shaped(h)
    ensures Shaped(r.0)
  {
    var (h1, out) := if h.at.Some? then StepOver(h.(at := None), h.at.value, env) else StepCurrent(h, env);
    if !out.Done? then (h1, out)
    else
      var h2 := NoteLanding(h1);
      (h2, if h2.last.Some? then Done(h2.last.value) else Panicked)
  }

  function ContMain(h: Hw, env: HwEnv): (r: (Hw, Outcome))
    requires Shaped(h)
    ensures Shaped(r.0)
  {
    if !h.alive then (h, Failed)
    else
      var h1 := Handle(Resume(h, env));
      (h1, Done(h1.last.value))
  }

  function Cont(h: Hw, e1: HwEnv, e2: HwEnv): (r: (Hw, Outcome))
    requires Shaped(h)
    ensures Shaped(r.0)
  {
    if h.at.None? then ContMain(h, e2)
    else
      var (h1, out) := StepOver(h.(at := None), h.at.value, e1);
      if !out.Done? then (h1, out)
      else if h1.last.Some? && h1.last.value.Stopped? then ContMain(h1, e2)
      else (h1, if h1.last.Some? then Done(h1.last.value) else Panicked)
  }

  /** Clears the slot in all threads as far as that goes, and gives it back. */
  function DropSlot(h: Hw, i: nat): (h': Hw)
    requires Shaped(h) && i < BP_SLOTS
    ensures Shaped(h')
  {
    Release(h.(files := ClearQuietly(h, i)), i)
  }

  /** `let _ = clear(..)` for every thread: failures are skipped. */
  function ClearQuietly(h: Hw, i: nat): (files: map<Tid, File>)
    requires Shaped(h) && i < BP_SLOTS
    ensures forall t :: t in files ==> files[t].Shaped()
  {
    map t | t in h.files ::
      if h.alive && t in Tids(h.threads) then Edited(h.files[t], DisarmBp(i)) else h.files[t]
  }

  /** The second half of `finish`: run on, drop the slot, then look for breakpoints. */
  function FinishMain(h: Hw, i: nat, env: HwEnv): (r: (Hw, Outcome))
    requires Shaped(h) && i < BP_SLOTS
    ensures Shaped(r.0)
  {
    if !h.alive then (h, Failed)
    else
      var h1 := Handle(DropSlot(Resume(h, env), i));
      (h1, Done(h1.last.value))
  }

  function Finish(h: Hw, ret: Word, e1: HwEnv, e2: HwEnv): (r: (Hw, Outcome))
    requires Shaped(h)
    ensures Shaped(r.0)
  {
    var (h1, slot) := Alloc(h, ret);
    if slot == None then (h1, Failed)
    else
      var (h2, ok) := EditThreads(h1, ArmBp(slot.value, ret));
      if !ok then (h2, Failed)
      else if h2.at.None? then FinishMain(h2, slot.value, e2)
      else
        var (h3, out) := StepOver(h2.(at := None), h2.at.value, e1);
        if !out.Done? then (h3, out)
        else if h3.last.Some? && h3.last.value.Stopped? then FinishMain(h3, slot.value, e2)
        else (DropSlot(h3, slot.value), if h3.last.Some? then Done(h3.last.value) else Panicked)
  }

  function Select(h: Hw, i: nat): (Hw, bool) {
    if i < |h.threads| then (h.(current := i), true) else (h, false)
  }

  function SetSuspended(h: Hw, i: nat, suspended: bool): (Hw, bool) {
    if i < |h.threads| && h.alive && h.threads[i].tid in h.files then
      (h.(threads := h.threads[i := h.threads[i].(suspended := suspended)]), true)
    else (h, false)
  }
}
