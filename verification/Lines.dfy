/** The line table: address to line, line to address, and the end of a prologue
    (section 6.2 of DWARF Version 5). */
module Lines {
  import opened Words

  datatype LineRow =
    | Row(file: string, path: string, line: nat, addr: Word, prologueEnd: bool)
    | EndSequence(addr: Word)

  // ---------- well-formed tables

  /** The half-open interval of addresses that row `k` describes. */
  predicate Holds(rows: seq<LineRow>, k: nat, a: Word) {
    k + 1 < |rows| && rows[k].Row? && rows[k].addr <= a < rows[k + 1].addr
  }

  /** Rows `j` and `k` lie in one sequence. */
  predicate SameSequence(rows: seq<LineRow>, j: nat, k: nat)
    requires j <= k <= |rows|
  {
    forall m :: j <= m < k ==> rows[m].Row?
  }

  /** Every sequence is strictly increasing and ends with its end marker; the address
      ranges of different sequences are disjoint. */
  ghost predicate Tidy(rows: seq<LineRow>) {
    && (rows != [] ==> rows[|rows| - 1].EndSequence?)
    && (forall k :: 0 <= k < |rows| && rows[k].Row? ==> k + 1 < |rows| && rows[k].addr < rows[k + 1].addr)
    && (forall j: nat, k: nat, a: Word ::
          j < k < |rows| && Holds(rows, j, a) && Holds(rows, k, a) ==> SameSequence(rows, j, k))
  }

  lemma {:induction false} Increasing(rows: seq<LineRow>, j: nat, k: nat)
    requires Tidy(rows) && j < k < |rows| && SameSequence(rows, j, k)
    ensures rows[j].addr < rows[k].addr
    decreases k - j
  {
    if j + 1 < k {
      Increasing(rows, j + 1, k);
    }
  }

  /** At most one row holds an address. */
  lemma HoldsOnce(rows: seq<LineRow>, j: nat, k: nat, a: Word)
    requires Tidy(rows) && Holds(rows, j, a) && Holds(rows, k, a)
    ensures j == k
  {
    if j < k {
      Before(rows, j, k, a);
    } else if k < j {
      Before(rows, k, j, a);
    }
  }

  lemma Before(rows: seq<LineRow>, j: nat, k: nat, a: Word)
    requires Tidy(rows) && j < k && Holds(rows, j, a)
    ensures !Holds(rows, k, a)
  {
    if Holds(rows, k, a) && j + 1 < k {
      Increasing(rows, j + 1, k);
    }
  }

  // ---------- address to line

  /** The first row that holds the address, or the length of the table. */
  function RowOf(rows: seq<LineRow>, a: Word, from: nat): (k: nat)
    requires from <= |rows|
    ensures from <= k <= |rows| && (k < |rows| ==> Holds(rows, k, a))
    ensures forall j :: from <= j < k ==> !Holds(rows, j, a)
    decreases |rows| - from
  {
    if from == |rows| || Holds(rows, from, a) then from else RowOf(rows, a, from + 1)
  }

  function LocationOf(rows: seq<LineRow>, a: Word): Option<(string, nat)> {
    var k := RowOf(rows, a, 0);
    if k < |rows| then Some((rows[k].path, rows[k].line)) else None
  }

  method FindLocation(rows: seq<LineRow>, vaddr: Word) returns (loc: Option<(string, nat)>)
    ensures loc == LocationOf(rows, vaddr)
  {
    var prev: Option<(string, nat, Word)> := None;
    for i := 0 to |rows|
      invariant forall j :: 0 <= j < i - 1 ==> !Holds(rows, j, vaddr)
      invariant prev == if i > 0 && rows[i - 1].Row?
                        then Some((rows[i - 1].path, rows[i - 1].line, rows[i - 1].addr)) else None
    {
      var addr := rows[i].addr;
      if prev.Some? && prev.value.2 <= vaddr < addr {
        assert Holds(rows, i - 1, vaddr);
        return Some((prev.value.0, prev.value.1));
      }
      assert i > 0 ==> !Holds(rows, i - 1, vaddr);
      prev := if rows[i].Row? then Some((rows[i].path, rows[i].line, rows[i].addr)) else None;
    }
    loc := None;
  }

  /** On a tidy table the answer is the one row whose interval holds the address; across
      an end marker there is none. */
  lemma LocationIsTheRow(rows: seq<LineRow>, k: nat, a: Word)
    requires Tidy(rows) && Holds(rows, k, a)
    ensures LocationOf(rows, a) == Some((rows[k].path, rows[k].line))
  {
    HoldsOnce(rows, RowOf(rows, a, 0), k, a);
  }

  // ---------- line to address

  predicate Candidate(rows: seq<LineRow>, k: nat, file: string, line: nat) {
    k < |rows| && rows[k].Row? && rows[k].file == file && rows[k].line >= line
  }

  /** The order of `(line - wanted, address)` pairs. */
  predicate AtMost(a: (nat, Word), b: (nat, Word)) {
    a.0 < b.0 || (a.0 == b.0 && a.1 <= b.1)
  }

  function Key(rows: seq<LineRow>, k: nat, file: string, line: nat): (nat, Word)
    requires Candidate(rows, k, file, line)
  {
    (rows[k].line - line, rows[k].addr)
  }

  /** The least pair among the first `n` rows. */
  ghost predicate IsBest(rows: seq<LineRow>, n: nat, file: string, line: nat, best: Option<(nat, Word)>)
    requires n <= |rows|
  {
    && (best == None ==> forall k: nat :: k < n ==> !Candidate(rows, k, file, line))
    && (best.Some? ==>
          && (exists k: nat :: k < n && Candidate(rows, k, file, line) && Key(rows, k, file, line) == best.value)
          && (forall k: nat :: k < n && Candidate(rows, k, file, line) ==>
                AtMost(best.value, Key(rows, k, file, line))))
  }

  /** `want` is the last component of the file name asked for, if it has one. */
  method FindLine(rows: seq<LineRow>, want: Option<string>, line: nat) returns (addr: Option<Word>)
    ensures want == None ==> addr == None
    ensures want.Some? ==>
      exists best ::
        && IsBest(rows, |rows|, want.value, line, best)
        && addr == (match best case Some(b) => Some(b.1) case None => None)
  {
    if want == None { return None; }
    var best: Option<(nat, Word)> := None;
    for i := 0 to |rows|
      invariant IsBest(rows, i, want.value, line, best)
    {
      ghost var before := best;
      if rows[i].Row? && rows[i].file == want.value && rows[i].line >= line {
        var delta := rows[i].line - line;
        assert Candidate(rows, i, want.value, line);
        if best.None? || !AtMost(best.value, (delta, rows[i].addr)) {
          best := Some((delta, rows[i].addr));
          BestReplaced(rows, i, want.value, line, before);
        }
      }
    }
    addr := if best.Some? then Some(best.value.1) else None;
    assert addr == match best case Some(b) => Some(b.1) case None => None;
  }

  lemma BestReplaced(rows: seq<LineRow>, i: nat, file: string, line: nat, before: Option<(nat, Word)>)
    requires i < |rows| && IsBest(rows, i, file, line, before) && Candidate(rows, i, file, line)
    requires before.None? || !AtMost(before.value, Key(rows, i, file, line))
    ensures IsBest(rows, i + 1, file, line, Some(Key(rows, i, file, line)))
  {
    assert i < i + 1 && Key(rows, i, file, line) == Some(Key(rows, i, file, line)).value;
  }

  /** The best pair is determined by the table. */
  lemma BestIsUnique(rows: seq<LineRow>, file: string, line: nat, x: Option<(nat, Word)>, y: Option<(nat, Word)>)
    requires IsBest(rows, |rows|, file, line, x) && IsBest(rows, |rows|, file, line, y)
    ensures x == y
  {
    if x.Some? && y.Some? {
      var j: nat :| j < |rows| && Candidate(rows, j, file, line) && Key(rows, j, file, line) == x.value;
      var k: nat :| k < |rows| && Candidate(rows, k, file, line) && Key(rows, k, file, line) == y.value;
      assert AtMost(x.value, y.value) && AtMost(y.value, x.value);
    }
  }

  /** Looking up the address found for a line gives the smallest recorded line from there
      on in that file, at its smallest address. */
  lemma LookupsAreInverse(rows: seq<LineRow>, file: string, line: nat, best: (nat, Word))
    requires Tidy(rows) && IsBest(rows, |rows|, file, line, Some(best))
    ensures LocationOf(rows, best.1).Some? && LocationOf(rows, best.1).value.1 == line + best.0
    ensures exists k: nat ::
      && k < |rows| && rows[k].Row? && rows[k].file == file && line <= rows[k].line == line + best.0
      && rows[k].addr == best.1 && LocationOf(rows, best.1).value.0 == rows[k].path
    ensures forall k: nat :: k < |rows| && rows[k].Row? && rows[k].file == file && rows[k].line >= line ==>
      line + best.0 < rows[k].line || (line + best.0 == rows[k].line && best.1 <= rows[k].addr)
  {
    var k: nat :| k < |rows| && Candidate(rows, k, file, line) && Key(rows, k, file, line) == best;
    assert Holds(rows, k, best.1);
    LocationIsTheRow(rows, k, best.1);
    forall j: nat | j < |rows| && rows[j].Row? && rows[j].file == file && rows[j].line >= line
      ensures line + best.0 < rows[j].line || (line + best.0 == rows[j].line && best.1 <= rows[j].addr)
    {
      assert Candidate(rows, j, file, line);
      assert AtMost(best, Key(rows, j, file, line));
    }
  }

  // ---------- the end of a prologue

  /** The scan, with the state it carries from row to row; `bound` is the next symbol. */
  function Skip(rows: seq<LineRow>, from: nat, inFunc: bool, func: Word, bound: Option<Word>): Word
    requires from <= |rows|
    decreases |rows| - from
  {
    if from == |rows| then func
    else
      match rows[from]
      case EndSequence(_) => Skip(rows, from + 1, false, func, bound)
      case Row(_, _, _, addr, prologueEnd) =>
        if addr == func then
          if prologueEnd then addr else Skip(rows, from + 1, true, func, bound)
        else if inFunc && addr > func then
          if bound.None? || addr < bound.value then addr else func
        else Skip(rows, from + 1, inFunc, func, bound)
  }

  /** The least symbol address above the function. */
  ghost predicate IsBound(symbols: seq<Word>, func: Word, bound: Option<Word>) {
    && (bound == None ==> forall a :: a in symbols ==> a <= func)
    && (bound.Some? ==>
          && bound.value in symbols && bound.value > func
          && forall a :: a in symbols && a > func ==> bound.value <= a)
  }

  method SkipPrologue(rows: seq<LineRow>, symbols: seq<Word>, func: Word) returns (a: Word)
    ensures exists bound :: IsBound(symbols, func, bound) && a == Skip(rows, 0, false, func, bound)
  {
    var least: Option<Word> := None;
    for i := 0 to |symbols|
      invariant IsBound(symbols[..i], func, least)
    {
      assert symbols[..i + 1] == symbols[..i] + [symbols[i]];
      if symbols[i] > func && (least.None? || symbols[i] < least.value) {
        least := Some(symbols[i]);
      }
    }
    assert symbols[..|symbols|] == symbols;
    ghost var bound := least;
    var in_func := false;
    for i := 0 to |rows|
      invariant Skip(rows, i, in_func, func, bound) == Skip(rows, 0, false, func, bound)
    {
      match rows[i] {
        case EndSequence(_) => in_func := false;
        case Row(_, _, _, addr, prologueEnd) =>
          if addr == func {
            in_func := true;
            if prologueEnd { return addr; }
          } else if in_func && addr > func {
            if least.None? || addr < least.value { return addr; }
            return func;
          }
      }
    }
    a := func;
  }

  /** Row `k` stands at the function's entry. */
  predicate Enters(rows: seq<LineRow>, k: nat, func: Word) {
    k < |rows| && rows[k].Row? && rows[k].addr == func
  }

  lemma EntersOnce(rows: seq<LineRow>, j: nat, k: nat, func: Word)
    requires Tidy(rows) && Enters(rows, j, func) && Enters(rows, k, func)
    ensures j == k
  {
    assert Holds(rows, j, func) && Holds(rows, k, func);
    HoldsOnce(rows, j, k, func);
  }

  lemma {:induction false} SkipPast(rows: seq<LineRow>, from: nat, n: nat, func: Word, bound: Option<Word>)
    requires from + n <= |rows| && forall j: nat :: from <= j < from + n ==> !Enters(rows, j, func)
    ensures Skip(rows, from, false, func, bound) == Skip(rows, from + n, false, func, bound)
    decreases n
  {
    if n > 0 {
      assert !Enters(rows, from, func);
      SkipPast(rows, from + 1, n - 1, func, bound);
    }
  }

  /** On a tidy table the answer is the entry itself if it is marked as the end of the
      prologue, else the next row of its sequence if that is below the next symbol, else
      the entry; an address without a row stays as it is. */
  lemma SkipIsNextRow(rows: seq<LineRow>, k: nat, func: Word, bound: Option<Word>)
    requires Tidy(rows) && Enters(rows, k, func)
    ensures Skip(rows, 0, false, func, bound) ==
      if !rows[k].prologueEnd && rows[k + 1].Row? && (bound.None? || rows[k + 1].addr < bound.value)
      then rows[k + 1].addr else func
  {
    forall j: nat | j < |rows| && Enters(rows, j, func)
      ensures j == k
    {
      EntersOnce(rows, j, k, func);
    }
    SkipPast(rows, 0, k, func, bound);
    if !rows[k].prologueEnd && rows[k + 1].EndSequence? {
      SkipPast(rows, k + 2, |rows| - k - 2, func, bound);
    }
  }

  /** Row `m` is the first one marked as the end of the prologue from the function's entry
      `k` on: in the same sequence and below the next symbol. */
  predicate FlaggedFirst(rows: seq<LineRow>, k: nat, m: nat, bound: Option<Word>) {
    && k <= m < |rows| && SameSequence(rows, k, m + 1)
    && rows[m].prologueEnd && (forall j :: k <= j < m ==> !rows[j].prologueEnd)
    && (bound.Some? ==> rows[m].addr < bound.value)
  }

  /** The marked row is meant to be preferred; it is the answer exactly when it is the entry
      or the row right after it. */
  lemma FlagHonouredIff(rows: seq<LineRow>, k: nat, m: nat, func: Word, bound: Option<Word>)
    requires Tidy(rows) && Enters(rows, k, func) && FlaggedFirst(rows, k, m, bound)
    ensures Skip(rows, 0, false, func, bound) == rows[m].addr <==> m <= k + 1
  {
    SkipIsNextRow(rows, k, func, bound);
    if m > k + 1 {
      Increasing(rows, k + 1, m);
      assert rows[k].addr < rows[k + 1].addr;
    }
  }

  /** A function at 10 with three rows, the last of which is marked. */
  function MarkedThird(): seq<LineRow> {
    [Row("f", "f", 1, 10, false), Row("f", "f", 2, 14, false), Row("f", "f", 3, 18, true), EndSequence(30)]
  }

  lemma FlagPassedOver()
    ensures Tidy(MarkedThird()) && FlaggedFirst(MarkedThird(), 0, 2, None)
    ensures Skip(MarkedThird(), 0, false, 10, None) == 14 && MarkedThird()[2].addr == 18
  {
    SkipIsNextRow(MarkedThird(), 0, 10, None);
  }

  lemma NoRowNoSkip(rows: seq<LineRow>, func: Word, bound: Option<Word>)
    requires forall k: nat :: !Enters(rows, k, func)
    ensures Skip(rows, 0, false, func, bound) == func
  {
    SkipPast(rows, 0, |rows|, func, bound);
  }

  /** On any table the answer never leaves the function. */
  lemma {:induction false} SkipStaysInside(rows: seq<LineRow>, from: nat, inFunc: bool, func: Word, bound: Option<Word>)
    requires from <= |rows| && (bound.Some? ==> func < bound.value)
    ensures var a := Skip(rows, from, inFunc, func, bound); func <= a && (bound.Some? ==> a < bound.value)
    decreases |rows| - from
  {
    if from < |rows| {
      SkipStaysInside(rows, from + 1, true, func, bound);
      SkipStaysInside(rows, from + 1, false, func, bound);
    }
  }
}
