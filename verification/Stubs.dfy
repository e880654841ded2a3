/** Stub addresses out of a thin 64-bit Mach-O image: two nested loops over the load
    commands, then stub to indirect table to symbol to string. */
module Stubs {
  import opened Words

  const MH_MAGIC_64: nat := 0xFEEDFACF
  const LC_SYMTAB: nat := 0x2
  const LC_DYSYMTAB: nat := 0xB
  const LC_SEGMENT_64: nat := 0x19
  const HEADER: nat := 32
  const SECTION: nat := 80
  const NLIST: nat := 16

  /** `__TEXT` and `__stubs`, with the zero that ends them. */
  const TEXT: seq<Byte> := [0x5f, 0x5f, 0x54, 0x45, 0x58, 0x54, 0]
  const STUBS: seq<Byte> := [0x5f, 0x5f, 0x73, 0x74, 0x75, 0x62, 0x73, 0]
  const UNDERSCORE: Byte := 0x5f

  type Name = seq<Byte>

  function ReadU32(data: seq<Byte>, off: nat): (v: Option<nat>)
    ensures v.Some? <==> off + 4 <= |data|
  {
    if off + 4 <= |data| then Some(FromLe(data[off..off + 4])) else None
  }

  function ReadU64(data: seq<Byte>, off: nat): Option<Word> {
    if off + 8 <= |data| then Some(WordFromLe(data[off..off + 8])) else None
  }

  datatype Tables = Tables(
    symoff: nat, nsyms: nat, stroff: nat, indirect: nat,
    stubsAddr: Word, stubsSize: Word, entrySize: nat, start: nat)

  const NO_TABLES: Tables := Tables(0, 0, 0, 0, 0, 0, 0, 0)

  // ---------- numbers in an image

  /** Four bytes, the least significant first. */
  function Le32(data: seq<Byte>, off: nat): nat
    requires off + 4 <= |data|
  {
    data[off] as nat + 0x100 * data[off + 1] as nat
    + 0x1_0000 * data[off + 2] as nat + 0x100_0000 * data[off + 3] as nat
  }

  predicate U32At(data: seq<Byte>, off: nat, v: nat) {
    off + 4 <= |data| && v == Le32(data, off)
  }

  predicate U64At(data: seq<Byte>, off: nat, v: nat) {
    off + 8 <= |data| && v == Le32(data, off) + 0x1_0000_0000 * Le32(data, off + 4)
  }

  lemma FourBytes(b: seq<Byte>)
    requires |b| >= 4
    ensures FromLe(b) == Le32(b, 0) + 0x1_0000_0000 * FromLe(b[4..])
  {
    assert b[1..][1..] == b[2..] && b[2..][1..] == b[3..] && b[3..][1..] == b[4..];
    assert FromLe(b) == b[0] + 256 * FromLe(b[1..]);
    assert FromLe(b[1..]) == b[1] + 256 * FromLe(b[2..]);
    assert FromLe(b[2..]) == b[2] + 256 * FromLe(b[3..]);
  }

  lemma U32Reads(data: seq<Byte>, off: nat)
    ensures forall v: nat :: U32At(data, off, v) <==> ReadU32(data, off) == Some(v)
  {
    if off + 4 <= |data| {
      FourBytes(data[off..off + 4]);
    }
  }

  lemma U64Reads(data: seq<Byte>, off: nat)
    ensures forall v: Word :: U64At(data, off, v) <==> ReadU64(data, off) == Some(v)
  {
    if off + 8 <= |data| {
      var b := data[off..off + 8];
      FourBytes(b);
      FourBytes(b[4..]);
    }
  }

  /** The magic number of a thin 64-bit image, and a count of load commands. */
  predicate IsThin64(data: seq<Byte>) {
    |data| >= 20 && Le32(data, 0) == 0xFEED_FACF
  }

  // ---------- load commands

  function SectionStep(data: seq<Byte>, segname: Name, off: nat, t: Tables): Tables
    requires off + SECTION <= |data|
  {
    if (TEXT <= segname || TEXT <= data[off + 16..off + 32]) && STUBS <= data[off..off + 16] then
      t.(stubsAddr := ReadU64(data, off + 32).GetOr(0), stubsSize := ReadU64(data, off + 40).GetOr(0),
         start := ReadU32(data, off + 68).GetOr(0), entrySize := ReadU32(data, off + 72).GetOr(0))
    else t
  }

  function Sections(data: seq<Byte>, segname: Name, off: nat, n: nat, t: Tables): Tables
    decreases n
  {
    if n == 0 || off + SECTION > |data| then t
    else Sections(data, segname, off + SECTION, n - 1, SectionStep(data, segname, off, t))
  }

  function SegmentName(data: seq<Byte>, off: nat): Name {
    if off + 24 <= |data| then data[off + 8..off + 24] else []
  }

  function CommandStep(data: seq<Byte>, off: nat, cmd: nat, t: Tables): Tables {
    if cmd == LC_SYMTAB then
      var so, ns, st := ReadU32(data, off + 8), ReadU32(data, off + 12), ReadU32(data, off + 16);
      if so.Some? && ns.Some? && st.Some? then t.(symoff := so.value, nsyms := ns.value, stroff := st.value) else t
    else if cmd == LC_DYSYMTAB then
      t.(indirect := ReadU32(data, off + 56).GetOr(t.indirect))
    else if cmd == LC_SEGMENT_64 then
      match ReadU32(data, off + 64)
      case None => t
      case Some(n) => Sections(data, SegmentName(data, off), off + 72, n, t)
    else t
  }

  function Commands(data: seq<Byte>, off: nat, n: nat, t: Tables): Tables
    decreases n
  {
    if n == 0 then t
    else
      match ReadU32(data, off + 4)
      case None => t
      case Some(size) =>
        if size == 0 then t
        else Commands(data, off + size, n - 1, CommandStep(data, off, ReadU32(data, off).value, t))
  }

  method ReadSections(data: seq<Byte>, segname: Name, off: nat, n: nat, t: Tables) returns (r: Tables)
    ensures r == Sections(data, segname, off, n, t)
  {
    r := t;
    var sec_off, i := off, 0;
    while i < n
      invariant 0 <= i <= n && 0 <= sec_off
      invariant Sections(data, segname, sec_off, n - i, r) == Sections(data, segname, off, n, t)
    {
      if sec_off + SECTION > |data| { return; }
      r := SectionStep(data, segname, sec_off, r);
      sec_off, i := sec_off + SECTION, i + 1;
    }
  }

  method ReadCommands(data: seq<Byte>, ncmds: nat) returns (t: Tables)
    ensures t == Commands(data, HEADER, ncmds, NO_TABLES)
  {
    t := NO_TABLES;
    var lc_off, i := HEADER, 0;
    while i < ncmds
      invariant 0 <= i <= ncmds
      invariant Commands(data, lc_off, ncmds - i, t) == Commands(data, HEADER, ncmds, NO_TABLES)
    {
      var cmd, size := ReadU32(data, lc_off), ReadU32(data, lc_off + 4);
      if cmd.None? || size.None? || size.value == 0 { return; }
      if cmd.value == LC_SEGMENT_64 {
        var nsects := ReadU32(data, lc_off + 64);
        if nsects.Some? {
          t := ReadSections(data, SegmentName(data, lc_off), lc_off + 72, nsects.value, t);
        }
      } else {
        t := CommandStep(data, lc_off, cmd.value, t);
      }
      lc_off, i := lc_off + size.value, i + 1;
    }
  }

  // ---------- names of stubs

  /** A stub ends the search, names nothing usable, or names a symbol. */
  datatype Lookup = Ends | Skipped | Named(name: Name)

  /** The bytes up to the first zero; none if there is no zero. */
  function CString(bytes: seq<Byte>): (s: seq<Byte>)
    ensures |s| <= |bytes|
  {
    var n := ZeroAt(bytes);
    if n < |bytes| then bytes[..n] else []
  }

  function ZeroAt(bytes: seq<Byte>): (n: nat)
    ensures n <= |bytes| && (n < |bytes| ==> bytes[n] == 0) && forall i :: 0 <= i < n ==> bytes[i] != 0
  {
    if bytes == [] || bytes[0] == 0 then 0 else 1 + ZeroAt(bytes[1..])
  }

  function Stripped(s: Name): Name {
    if s != [] && s[0] == UNDERSCORE then s[1..] else s
  }

  /** The string of symbol `s`, if symbol and string lie in the image. */
  function SymbolText(data: seq<Byte>, t: Tables, s: nat): Option<Name> {
    match ReadU32(data, t.symoff + s * NLIST)
    case None => None
    case Some(strx) => if t.stroff + strx >= |data| then None else Some(CString(data[t.stroff + strx..]))
  }

  function NameOf(data: seq<Byte>, t: Tables, i: nat, utf8: Name -> bool): Lookup {
    match ReadU32(data, t.indirect + (t.start + i) * 4)
    case None => Ends
    case Some(sym) =>
      if sym >= t.nsyms then Skipped
      else
        match SymbolText(data, t, sym)
        case None => Skipped
        case Some(raw) => if utf8(raw) then Named(Stripped(raw)) else Skipped
  }

  function StubCount(t: Tables): nat {
    if t.stubsAddr == 0 || t.entrySize == 0 || t.indirect == 0 || t.nsyms == 0 then 0 else t.stubsSize / t.entrySize
  }

  function StubAddr(t: Tables, i: nat): Word {
    Plus(t.stubsAddr, i * t.entrySize)
  }

  /** `found` maps each wanted name of the first `n` stubs to the last stub with it. */
  ghost predicate Found(data: seq<Byte>, t: Tables, want: set<Name>, utf8: Name -> bool, n: nat,
                        found: map<Name, Word>) {
    && (forall i: nat :: i < n ==> NameOf(data, t, i, utf8) != Ends)
    && (forall i: nat :: i < n && NameOf(data, t, i, utf8).Named? && NameOf(data, t, i, utf8).name in want
          ==> NameOf(data, t, i, utf8).name in found)
    && (forall name :: name in found ==>
          name in want
          && exists i: nat :: i < n && LastWith(data, t, utf8, n, name, i) && found[name] == StubAddr(t, i))
  }

  ghost predicate LastWith(data: seq<Byte>, t: Tables, utf8: Name -> bool, n: nat, name: Name, i: nat) {
    && NameOf(data, t, i, utf8) == Named(name)
    && forall j: nat :: i < j < n ==> NameOf(data, t, j, utf8) != Named(name)
  }

  /** How many stubs are looked at: all, or those before the first unreadable one. */
  ghost predicate Covers(data: seq<Byte>, t: Tables, utf8: Name -> bool, n: nat) {
    n <= StubCount(t) && (n < StubCount(t) ==> NameOf(data, t, n, utf8) == Ends)
  }

  lemma FoundNext(data: seq<Byte>, t: Tables, want: set<Name>, utf8: Name -> bool, n: nat,
                  before: map<Name, Word>, after: map<Name, Word>)
    requires Found(data, t, want, utf8, n, before) && NameOf(data, t, n, utf8) != Ends
    requires var l := NameOf(data, t, n, utf8);
      after == if l.Named? && l.name in want then before[l.name := StubAddr(t, n)] else before
    ensures Found(data, t, want, utf8, n + 1, after)
  {
    hide NameOf, StubAddr;
    var l := NameOf(data, t, n, utf8);
    forall name | name in after
      ensures name in want
      ensures exists i: nat :: i < n + 1 && LastWith(data, t, utf8, n + 1, name, i) && after[name] == StubAddr(t, i)
    {
      if l == Named(name) {
        assert LastWith(data, t, utf8, n + 1, name, n);
      } else {
        var i: nat :| i < n && LastWith(data, t, utf8, n, name, i) && before[name] == StubAddr(t, i);
        assert LastWith(data, t, utf8, n + 1, name, i);
      }
    }
  }

  method ParseThin(data: seq<Byte>, want: set<Name>, utf8: Name -> bool)
    returns (found: map<Name, Word>, ghost t: Tables, ghost n: nat)
    ensures !IsThin64(data) ==> found == map[]
    ensures IsThin64(data) ==>
      && t == Commands(data, 32, Le32(data, 16), NO_TABLES)
      && Covers(data, t, utf8, n) && Found(data, t, want, utf8, n, found)
  {
    U32Reads(data, 0);
    U32Reads(data, 16);
    found, t, n := map[], NO_TABLES, 0;
    if ReadU32(data, 0) != Some(MH_MAGIC_64) { return; }
    var ncmds := ReadU32(data, 16);
    if ncmds.None? { return; }
    var tables := ReadCommands(data, ncmds.value);
    t := tables;
    var count := StubCount(tables);
    var i := 0;
    while i < count
      invariant 0 <= i <= count && n == i && Found(data, t, want, utf8, n, found)
    {
      hide NameOf, Found;
      var l := NameOf(data, tables, i, utf8);
      if l == Ends { return; }
      ghost var before := found;
      if l.Named? && l.name in want {
        found := found[l.name := StubAddr(tables, i)];
      }
      FoundNext(data, t, want, utf8, i, before, found);
      i := i + 1;
      n := i;
    }
  }

  /** Every address found lies in the stub section. */
  lemma FoundInSection(data: seq<Byte>, t: Tables, want: set<Name>, utf8: Name -> bool, n: nat,
                       found: map<Name, Word>, name: Name)
    requires Covers(data, t, utf8, n) && Found(data, t, want, utf8, n, found) && name in found
    requires t.stubsAddr + t.stubsSize <= WORD
    ensures t.stubsAddr <= found[name] < t.stubsAddr + t.stubsSize
  {
    hide NameOf;
    var i: nat :| i < n && LastWith(data, t, utf8, n, name, i) && found[name] == StubAddr(t, i);
    InSection(t, i);
  }

  lemma Stretch(k: nat, e: nat)
    requires k >= 1
    ensures k * e >= e
  {
  }

  lemma ProductInside(i: nat, c: nat, e: nat)
    requires e > 0 && i < c
    ensures i * e < c * e
  {
    Stretch(c - i, e);
    assert c * e == i * e + (c - i) * e;
  }

  lemma EntryInside(i: nat, size: nat, e: nat)
    requires e > 0 && i < size / e
    ensures i * e < size
  {
    ProductInside(i, size / e, e);
    assert size == e * (size / e) + size % e;
  }

  lemma InSection(t: Tables, i: nat)
    requires i < StubCount(t) && t.stubsAddr + t.stubsSize <= WORD
    ensures t.stubsAddr <= StubAddr(t, i) < t.stubsAddr + t.stubsSize
  {
    EntryInside(i, t.stubsSize, t.entrySize);
    PlusInside(t.stubsAddr, i * t.entrySize);
  }

  lemma PlusInside(a: Word, n: nat)
    requires a + n < WORD
    ensures Plus(a, n) == a + n
  {
  }

  // ---------- images laid out from tables

  datatype Section = Section(name: Name, segment: Name, addr: Word, size: Word, start: nat, entry: nat)

  datatype Command =
    | Symtab(symoff: nat, nsyms: nat, stroff: nat)
    | Dysymtab(indirect: nat)
    | Segment(name: Name, sections: seq<Section>)
    | Other(code: nat)

  /** `section_64`, 80 bytes: names of 16 bytes, address and size, and the reserved words
      that hold the first entry in the indirect table and the size of a stub. */
  predicate SectionAt(data: seq<Byte>, off: nat, s: Section) {
    && off + 80 <= |data|
    && data[off..off + 16] == s.name && data[off + 16..off + 32] == s.segment
    && U64At(data, off + 32, s.addr) && U64At(data, off + 40, s.size)
    && U32At(data, off + 68, s.start) && U32At(data, off + 72, s.entry)
  }

  /** `symtab_command`, `dysymtab_command` and `segment_command_64`, whose 72 bytes the
      sections follow. */
  predicate CommandAt(data: seq<Byte>, off: nat, c: Command) {
    match c
    case Symtab(symoff, nsyms, stroff) =>
      && U32At(data, off, 0x2) && U32At(data, off + 8, symoff)
      && U32At(data, off + 12, nsyms) && U32At(data, off + 16, stroff)
    case Dysymtab(indirect) => U32At(data, off, 0xB) && U32At(data, off + 56, indirect)
    case Segment(name, sections) =>
      && U32At(data, off, 0x19) && U32At(data, off + 64, |sections|)
      && off + 24 <= |data| && data[off + 8..off + 24] == name
      && forall k :: 0 <= k < |sections| ==> SectionAt(data, off + 72 + k * 80, sections[k])
    case Other(code) => U32At(data, off, code) && code != 0x2 && code != 0xB && code != 0x19
  }

  /** The commands stand one after the other, each with its size. */
  predicate LaidOut(data: seq<Byte>, off: nat, cmds: seq<Command>)
    decreases |cmds|
  {
    cmds == [] ||
    (CommandAt(data, off, cmds[0]) && off + 8 <= |data| && Le32(data, off + 4) > 0
      && LaidOut(data, off + Le32(data, off + 4), cmds[1..]))
  }

  /** The characters of `text` and a zero after them. */
  predicate Spells(name: Name, text: string) {
    && |name| > |text| && name[|text|] == 0
    && forall i :: 0 <= i < |text| ==> name[i] == text[i] as nat
  }

  predicate IsStubs(segment: Name, s: Section) {
    (Spells(segment, "__TEXT") || Spells(s.segment, "__TEXT")) && Spells(s.name, "__stubs")
  }

  lemma NamesSpelled(name: Name)
    ensures TEXT <= name <==> Spells(name, "__TEXT")
    ensures STUBS <= name <==> Spells(name, "__stubs")
  {
    TextSpelled(name);
    StubsSpelled(name);
  }

  lemma TextSpelled(name: Name)
    ensures TEXT <= name <==> Spells(name, "__TEXT")
  {
    var text := "__TEXT";
    assert forall i :: 0 <= i < 6 ==> TEXT[i] == text[i] as nat;
    if Spells(name, text) {
      assert name[..7] == TEXT;
    }
  }

  lemma StubsSpelled(name: Name)
    ensures STUBS <= name <==> Spells(name, "__stubs")
  {
    var text := "__stubs";
    assert forall i :: 0 <= i < 7 ==> STUBS[i] == text[i] as nat;
    if Spells(name, text) {
      assert name[..8] == STUBS;
    }
  }

  function OfSections(segment: Name, sections: seq<Section>, t: Tables): Tables
    decreases |sections|
  {
    if sections == [] then t
    else
      var s := sections[0];
      OfSections(segment, sections[1..],
                 if IsStubs(segment, s)
                 then t.(stubsAddr := s.addr, stubsSize := s.size, start := s.start, entrySize := s.entry) else t)
  }

  function OfCommand(c: Command, t: Tables): Tables {
    match c
    case Symtab(symoff, nsyms, stroff) => t.(symoff := symoff, nsyms := nsyms, stroff := stroff)
    case Dysymtab(indirect) => t.(indirect := indirect)
    case Segment(name, sections) => OfSections(name, sections, t)
    case Other(_) => t
  }

  /** The tables the commands declare; a later one overrides an earlier one. */
  function OfCommands(cmds: seq<Command>, t: Tables): Tables
    decreases |cmds|
  {
    if cmds == [] then t else OfCommands(cmds[1..], OfCommand(cmds[0], t))
  }

  lemma {:induction false} SectionsRead(data: seq<Byte>, segment: Name, off: nat, sections: seq<Section>, t: Tables)
    requires forall k :: 0 <= k < |sections| ==> SectionAt(data, off + k * 80, sections[k])
    ensures Sections(data, segment, off, |sections|, t) == OfSections(segment, sections, t)
    decreases |sections|
  {
    hide SectionAt, SectionStep, IsStubs;
    if sections != [] {
      assert SectionAt(data, off + 0 * 80, sections[0]);
      assert off + 80 <= |data| by { SectionFits(data, off, sections[0]); }
      forall k | 0 <= k < |sections| - 1
        ensures SectionAt(data, off + 80 + k * 80, sections[1..][k])
      {
        assert SectionAt(data, off + (k + 1) * 80, sections[k + 1]);
        assert off + (k + 1) * 80 == off + 80 + k * 80;
      }
      SectionReads(data, segment, off, sections[0], t);
      SectionsRead(data, segment, off + 80, sections[1..], SectionStep(data, segment, off, t));
    }
  }

  lemma SectionFits(data: seq<Byte>, off: nat, s: Section)
    requires SectionAt(data, off, s)
    ensures off + 80 <= |data|
  {
  }

  lemma SectionReads(data: seq<Byte>, segment: Name, off: nat, s: Section, t: Tables)
    requires SectionAt(data, off, s)
    ensures SectionStep(data, segment, off, t)
         == if IsStubs(segment, s)
            then t.(stubsAddr := s.addr, stubsSize := s.size, start := s.start, entrySize := s.entry) else t
  {
    NamesSpelled(segment);
    NamesSpelled(s.segment);
    NamesSpelled(s.name);
    U64Reads(data, off + 32);
    U64Reads(data, off + 40);
    U32Reads(data, off + 68);
    U32Reads(data, off + 72);
    hide ReadU32, ReadU64, Spells, Le32;
  }

  lemma CommandReads(data: seq<Byte>, off: nat, c: Command, t: Tables)
    requires CommandAt(data, off, c)
    ensures ReadU32(data, off).Some? && CommandStep(data, off, ReadU32(data, off).value, t) == OfCommand(c, t)
  {
    hide Sections, OfSections, ReadU32, Le32;
    U32Reads(data, off);
    match c
    case Symtab(_, _, _) =>
      U32Reads(data, off + 8);
      U32Reads(data, off + 12);
      U32Reads(data, off + 16);
    case Dysymtab(_) => U32Reads(data, off + 56);
    case Segment(name, sections) =>
      U32Reads(data, off + 64);
      SectionsRead(data, name, off + 72, sections, t);
    case Other(_) =>
  }

  /** The loop over the load commands recovers what they declare. */
  lemma {:induction false} CommandsRead(data: seq<Byte>, off: nat, cmds: seq<Command>, t: Tables)
    requires LaidOut(data, off, cmds)
    ensures Commands(data, off, |cmds|, t) == OfCommands(cmds, t)
    decreases |cmds|
  {
    hide ReadU32, CommandStep, CommandAt, OfCommand, Le32;
    if cmds != [] {
      CommandReads(data, off, cmds[0], t);
      U32Reads(data, off + 4);
      assert U32At(data, off + 4, Le32(data, off + 4));
      CommandsRead(data, off + Le32(data, off + 4), cmds[1..], OfCommand(cmds[0], t));
    }
  }

  /** So the tables of an image are what its commands declare, zero where none does. */
  lemma TablesRead(data: seq<Byte>, cmds: seq<Command>)
    requires IsThin64(data) && Le32(data, 16) == |cmds| && LaidOut(data, 32, cmds)
    ensures Commands(data, 32, Le32(data, 16), NO_TABLES) == OfCommands(cmds, Tables(0, 0, 0, 0, 0, 0, 0, 0))
  {
    CommandsRead(data, 32, cmds, NO_TABLES);
    hide Commands, OfCommands, LaidOut;
  }

  /** `raw` stands in the string table with its zero. */
  predicate StringAt(data: seq<Byte>, off: nat, raw: Name) {
    && off + |raw| + 1 <= |data| && data[off + |raw|] == 0
    && forall i :: 0 <= i < |raw| ==> raw[i] == data[off + i] != 0
  }

  /** `name` is the symbol's own name: an underscore is taken off its front. */
  predicate IsPlain(raw: Name, name: Name) {
    raw == [0x5F] + name || (raw == name && (raw == [] || raw[0] != 0x5F))
  }

  /** The symbol, string and indirect tables hold these names and bindings. */
  ghost predicate TablesAt(data: seq<Byte>, t: Tables, names: seq<Name>, bound: seq<nat>) {
    && |names| == t.nsyms
    && (forall s :: 0 <= s < |names| ==> SymbolAt(data, t, s, names[s]))
    && (forall k :: 0 <= k < |bound| ==> U32At(data, t.indirect + k * 4, bound[k]))
  }

  /** Entry `s` of the symbol table, 16 bytes each, begins with where its string stands. */
  ghost predicate SymbolAt(data: seq<Byte>, t: Tables, s: nat, raw: Name) {
    var at := t.symoff + s * 16;
    at + 4 <= |data| && StringAt(data, t.stroff + Le32(data, at), raw)
  }

  lemma StringReads(data: seq<Byte>, off: nat, raw: Name)
    requires StringAt(data, off, raw)
    ensures CString(data[off..]) == raw
  {
    var bytes := data[off..];
    assert bytes[|raw|] == 0;
    assert forall k :: 0 <= k < |raw| ==> bytes[k] == raw[k] != 0;
    assert ZeroAt(bytes) == |raw|;
    assert bytes[..|raw|] == raw;
  }

  lemma StrippedIsPlain(raw: Name)
    ensures forall name :: IsPlain(raw, name) <==> name == Stripped(raw)
  {
    if raw != [] && raw[0] == 0x5F {
      assert raw == [0x5F] + raw[1..];
    }
    forall name | raw == [0x5F] + name ensures name == raw[1..] {
    }
  }

  /** A stub is named by the symbol its entry in the indirect table is bound to. */
  lemma StubNamed(data: seq<Byte>, t: Tables, names: seq<Name>, bound: seq<nat>, i: nat, utf8: Name -> bool)
    requires TablesAt(data, t, names, bound) && t.start + i < |bound|
    ensures NameOf(data, t, i, utf8) != Ends
    ensures forall name ::
      NameOf(data, t, i, utf8) == Named(name)
      <==> BoundTo(t, names, bound, i, name) && utf8(names[bound[t.start + i]])
  {
    hide Stripped, IsPlain, SymbolAt, U32At, ReadU32, SymbolText;
    var s := bound[t.start + i];
    U32Reads(data, t.indirect + (t.start + i) * 4);
    assert U32At(data, t.indirect + (t.start + i) * 4, s);
    if s < |names| {
      assert SymbolAt(data, t, s, names[s]);
      SymbolReads(data, t, s, names[s]);
      StrippedIsPlain(names[s]);
    }
  }

  lemma SymbolReads(data: seq<Byte>, t: Tables, s: nat, raw: Name)
    requires SymbolAt(data, t, s, raw)
    ensures SymbolText(data, t, s) == Some(raw)
  {
    hide CString, StringAt, ReadU32, Le32;
    var at := t.symoff + s * 16;
    U32Reads(data, at);
    assert U32At(data, at, Le32(data, at));
    StringReads(data, t.stroff + Le32(data, at), raw);
    StringInside(data, t.stroff + Le32(data, at), raw);
  }

  lemma StringInside(data: seq<Byte>, off: nat, raw: Name)
    requires StringAt(data, off, raw)
    ensures off < |data|
  {
  }

  /** An entry of the indirect table outside the image ends the search; one that names no
      symbol, or a symbol without a string in the image, is skipped. */
  lemma Unresolved(data: seq<Byte>, t: Tables, i: nat, utf8: Name -> bool)
    ensures NameOf(data, t, i, utf8) == Ends <==> t.indirect + (t.start + i) * 4 + 4 > |data|
    ensures t.indirect + (t.start + i) * 4 + 4 <= |data| ==>
      var s := Le32(data, t.indirect + (t.start + i) * 4);
      s >= t.nsyms || SymbolText(data, t, s).None? || !utf8(SymbolText(data, t, s).value)
      <==> NameOf(data, t, i, utf8) == Skipped
  {
    var entry := t.indirect + (t.start + i) * 4;
    U32Reads(data, entry);
    hide Le32, SymbolText;
    assert entry + 4 <= |data| ==> U32At(data, entry, Le32(data, entry));
  }

  /** A symbol or a string outside the image is none; a string without a zero is empty. */
  lemma NoText(data: seq<Byte>, t: Tables, s: nat)
    ensures SymbolText(data, t, s).None?
       <==> t.symoff + s * 16 + 4 > |data| || t.stroff + Le32(data, t.symoff + s * 16) >= |data|
    ensures
      t.symoff + s * 16 + 4 <= |data| && t.stroff + Le32(data, t.symoff + s * 16) < |data|
      && (forall k :: t.stroff + Le32(data, t.symoff + s * 16) <= k < |data| ==> data[k] != 0)
      ==> SymbolText(data, t, s) == Some([])
  {
    var at := t.symoff + s * 16;
    U32Reads(data, at);
    hide Le32;
    if at + 4 <= |data| {
      assert U32At(data, at, Le32(data, at));
      var off := t.stroff + Le32(data, at);
      if off < |data| && forall k :: off <= k < |data| ==> data[k] != 0 {
        var bytes := data[off..];
        assert forall k :: 0 <= k < |bytes| ==> bytes[k] == data[off + k];
        assert CString(bytes) == [];
      }
    }
  }

  /** Stub `i` is bound to the symbol `name`. */
  predicate BoundTo(t: Tables, names: seq<Name>, bound: seq<nat>, i: nat, name: Name) {
    t.start + i < |bound| && bound[t.start + i] < |names| && IsPlain(names[bound[t.start + i]], name)
  }

  /** Every stub resolves through the tables. */
  ghost predicate Resolves(data: seq<Byte>, t: Tables, names: seq<Name>, bound: seq<nat>, utf8: Name -> bool) {
    forall i: nat :: i < StubCount(t) ==>
      && NameOf(data, t, i, utf8) != Ends
      && forall name :: NameOf(data, t, i, utf8) == Named(name) <==> BoundTo(t, names, bound, i, name)
  }

  lemma TablesResolve(data: seq<Byte>, t: Tables, names: seq<Name>, bound: seq<nat>, utf8: Name -> bool)
    requires TablesAt(data, t, names, bound) && t.start + StubCount(t) <= |bound|
    requires forall s :: 0 <= s < |names| ==> utf8(names[s])
    ensures Resolves(data, t, names, bound, utf8)
  {
    hide NameOf, TablesAt, StubCount, IsPlain;
    forall i: nat | i < StubCount(t)
      ensures NameOf(data, t, i, utf8) != Ends
      ensures forall name :: NameOf(data, t, i, utf8) == Named(name) <==> BoundTo(t, names, bound, i, name)
    {
      StubNamed(data, t, names, bound, i, utf8);
    }
  }

  lemma BoundIsFound(data: seq<Byte>, t: Tables, names: seq<Name>, bound: seq<nat>, want: set<Name>,
                     utf8: Name -> bool, n: nat, found: map<Name, Word>, i: nat, name: Name)
    requires Resolves(data, t, names, bound, utf8) && Found(data, t, want, utf8, n, found)
    requires i < n <= StubCount(t) && name in want && BoundTo(t, names, bound, i, name)
    ensures name in found
  {
    hide NameOf, BoundTo, StubCount;
    assert NameOf(data, t, i, utf8) == Named(name);
  }

  lemma FoundIsLast(data: seq<Byte>, t: Tables, names: seq<Name>, bound: seq<nat>, want: set<Name>,
                    utf8: Name -> bool, n: nat, found: map<Name, Word>, name: Name) returns (i: nat)
    requires Resolves(data, t, names, bound, utf8) && Found(data, t, want, utf8, n, found)
    requires n <= StubCount(t) && name in found
    ensures name in want && i < n && BoundTo(t, names, bound, i, name) && found[name] == StubAddr(t, i)
    ensures forall j: nat :: i < j < n ==> !BoundTo(t, names, bound, j, name)
  {
    hide NameOf, BoundTo, StubCount, StubAddr;
    i :| i < n && LastWith(data, t, utf8, n, name, i) && found[name] == StubAddr(t, i);
    forall j: nat | i < j < n
      ensures !BoundTo(t, names, bound, j, name)
    {
      assert NameOf(data, t, j, utf8) != Named(name);
    }
  }

  /** `n` is the number of whole stubs in the section; without a section, a stub size, an
      indirect table or symbols there are none. */
  predicate StubsIn(t: Tables, n: nat) {
    if t.stubsAddr == 0 || t.entrySize == 0 || t.indirect == 0 || t.nsyms == 0 then n == 0
    else n * t.entrySize <= t.stubsSize < n * t.entrySize + t.entrySize
  }

  lemma StubAddrIs(t: Tables, i: nat)
    ensures StubAddr(t, i) == (t.stubsAddr + i * t.entrySize) % WORD
  {
  }

  lemma CountIsStubs(t: Tables)
    ensures StubsIn(t, StubCount(t))
  {
    if t.entrySize > 0 {
      assert t.stubsSize == t.entrySize * (t.stubsSize / t.entrySize) + t.stubsSize % t.entrySize;
    }
  }

  /** On an image laid out from tables each wanted name that some stub is bound to, and
      only those, maps to the address of the last such stub. */
  lemma ImageLookup(data: seq<Byte>, t: Tables, names: seq<Name>, bound: seq<nat>, want: set<Name>,
                    utf8: Name -> bool, n: nat, found: map<Name, Word>, name: Name)
    requires TablesAt(data, t, names, bound) && t.start + StubCount(t) <= |bound|
    requires forall s :: 0 <= s < |names| ==> utf8(names[s])
    requires Covers(data, t, utf8, n) && Found(data, t, want, utf8, n, found)
    ensures StubsIn(t, n)
    ensures name in found <==> name in want && exists i: nat :: i < n && BoundTo(t, names, bound, i, name)
    ensures name in found ==> exists i: nat ::
      && i < n && BoundTo(t, names, bound, i, name) && found[name] == (t.stubsAddr + i * t.entrySize) % WORD
      && forall j: nat :: i < j < n ==> !BoundTo(t, names, bound, j, name)
  {
    CountIsStubs(t);
    TablesResolve(data, t, names, bound, utf8);
    assert n == StubCount(t);
    hide NameOf, StubAddr, TablesAt, StubCount, BoundTo, Resolves, Found;
    if name in found {
      var i := FoundIsLast(data, t, names, bound, want, utf8, n, found, name);
      StubAddrIs(t, i);
    }
    if name in want {
      forall i: nat | i < n && BoundTo(t, names, bound, i, name)
        ensures name in found
      {
        BoundIsFound(data, t, names, bound, want, utf8, n, found, i, name);
      }
    }
  }
}
