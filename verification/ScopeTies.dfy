/** Lookup in the flat variable list when an inner scope may have the range of its outer
    one: which declaration wins, and exactly when it is the lexical one. */
module ScopeTies {
  import opened Words
  import opened Leb128
  import opened Scopes

  /** The first declaration of `name` that belongs to the scope itself and stands before
      the inner scope that answers, in depth-first order. */
  function Ahead(dies: Dies, at: Place, name: string, pc: Word): Option<Variable> {
    match dies
    case End => None
    case Die(e, children, next) =>
      if Named(e, at, name).Some? then Named(e, at, name)
      else if InnerOf(e, children, at, name, pc).Some? then
        if Ranged(e) then None else Ahead(children, Inside(e, at), name, pc)
      else Or(if Ranged(e) then None else Own(children, Inside(e, at), name), Ahead(next, at, name, pc))
  }

  /** A scope around the answering one has the same range and declares `name` ahead of it;
      the outermost such declaration is not the lexical answer. */
  predicate Preempted(dies: Dies, at: Place, name: string, pc: Word) {
    match dies
    case End => false
    case Die(e, children, next) =>
      var inside := Inside(e, at);
      var answer := Innermost(children, inside, name, pc);
      if InnerOf(e, children, at, name, pc) == None then Preempted(next, at, name, pc)
      else if !Ranged(e) then Preempted(children, inside, name, pc)
      else if answer == None then false
      else if e.range == answer.value.scope && Ahead(children, inside, name, pc).Some? then
        Ahead(children, inside, name, pc) != answer
      else Preempted(children, inside, name, pc)
  }

  // ---------- which declaration wins

  /** The winner among the scopes opened by these entries. */
  function Inner(dies: Dies, at: Place, name: string, pc: Word): Option<Variable>
    decreases dies, 0
  {
    match dies
    case End => None
    case Die(e, children, next) =>
      if InnerOf(e, children, at, name, pc) == None then Inner(next, at, name, pc)
      else if Ranged(e) then Picked(children, Inside(e, at), name, pc)
      else Inner(children, Inside(e, at), name, pc)
  }

  /** The winner among these and the scope they stand in. */
  function Picked(dies: Dies, at: Place, name: string, pc: Word): Option<Variable>
    decreases dies, 1
  {
    var answer := Innermost(dies, at, name, pc);
    if answer == None then OwnAt(dies, at, name, pc)
    else if at.range == answer.value.scope && Ahead(dies, at, name, pc).Some? then Ahead(dies, at, name, pc)
    else Inner(dies, at, name, pc)
  }

  /** The facts about scopes that decide the competition. */
  ghost predicate Ranked(e: Entry, children: Dies, next: Dies, at: Place, name: string, pc: Word) {
    var bIn, cIn := InnerOf(e, children, at, name, pc), Innermost(next, at, name, pc);
    var bOwn := if Ranged(e) then None else OwnAt(children, Inside(e, at), name, pc);
    var cOwn := OwnAt(next, at, name, pc);
    && FromScope(HereAt(e, at, name, pc), at.range) && FromScope(bOwn, at.range) && FromScope(cOwn, at.range)
    && FromInner(bIn, at.range, false) && FromInner(cIn, at.range, false)
    && (bIn == None || cIn == None)
    && (bIn.Some? ==> bIn.value.scope.value.Contains(pc)) && (cIn.Some? ==> cIn.value.scope.value.Contains(pc))
    && Agree(Picked(children, Inside(e, at), name, pc), Or(bIn, bOwn), false)
    && Agree(Picked(next, at, name, pc), Or(cIn, cOwn), false)
  }

  /** A scope inside another with the same width has the same range. */
  lemma SameWidth(inner: Range, outer: Range, pc: Word)
    requires inner.Within(outer) && inner.Contains(pc)
    ensures inner.Width() <= outer.Width() && (inner.Width() == outer.Width() <==> inner == outer)
  {
  }

  /** The winner among an entry, its children and its siblings, by width. */
  ghost function Winner(e: Entry, children: Dies, next: Dies, at: Place, name: string, pc: Word): Option<Variable>
    requires Ranked(e, children, next, at, name, pc)
  {
    Narrower(HereAt(e, at, name, pc),
             Narrower(Picked(children, Inside(e, at), name, pc), Picked(next, at, name, pc)))
  }

  lemma AnswersHere(e: Entry, children: Dies, next: Dies, at: Place, name: string, pc: Word)
    requires Ranked(e, children, next, at, name, pc) && InnerOf(e, children, at, name, pc).Some?
    ensures Winner(e, children, next, at, name, pc) == Picked(Die(e, children, next), at, name, pc)
  {
    var dies, inside := Die(e, children, next), Inside(e, at);
    InnermostOfDie(e, children, next, at, name, pc);
    var v := InnerOf(e, children, at, name, pc).value;
    if at.range.Some? {
      SameWidth(v.scope.value, at.range.value, pc);
    }
    hide Innermost, Own, OwnAt;
    assert Inner(dies, at, name, pc)
        == if Ranged(e) then Picked(children, inside, name, pc) else Inner(children, inside, name, pc);
    if at.range == v.scope {
      if Named(e, at, name) == None && !Ranged(e) {
        assert Ahead(dies, at, name, pc) == Ahead(children, inside, name, pc);
      }
    }
  }

  lemma AnswersLater(e: Entry, children: Dies, next: Dies, at: Place, name: string, pc: Word)
    requires Ranked(e, children, next, at, name, pc) && InnerOf(e, children, at, name, pc) == None
    ensures Winner(e, children, next, at, name, pc) == Picked(Die(e, children, next), at, name, pc)
  {
    InnermostOfDie(e, children, next, at, name, pc);
    var cIn := Innermost(next, at, name, pc);
    if cIn.Some? && at.range.Some? {
      SameWidth(cIn.value.scope.value, at.range.value, pc);
    }
  }

  /** An inner scope's answer has a range around `pc`. */
  lemma {:induction false} AnswerContains(dies: Dies, at: Place, name: string, pc: Word)
    requires Proper(at)
    ensures var v := Innermost(dies, at, name, pc); v.Some? ==> v.value.scope.Some? && v.value.scope.value.Contains(pc)
    decreases dies
  {
    match dies
    case End =>
    case Die(e, children, next) =>
      AnswerContains(children, Inside(e, at), name, pc);
      AnswerContains(next, at, name, pc);
      OwnScope(children, Inside(e, at), name);
  }

  lemma RanksDie(e: Entry, children: Dies, next: Dies, at: Place, name: string, pc: Word)
    requires Proper(at) && Nested(Die(e, children, next), at.range, false)
    requires Narrowest(VariablesOf(children, Inside(e, at)), name, pc) == Picked(children, Inside(e, at), name, pc)
    requires Narrowest(VariablesOf(next, at), name, pc) == Picked(next, at, name, pc)
    ensures Ranked(e, children, next, at, name, pc)
  {
    WidthFindsInnermost(children, Inside(e, at), name, pc, false);
    WidthFindsInnermost(next, at, name, pc, false);
    InnerAnswer(e, children, next, at, name, pc, false, Narrowest(VariablesOf(children, Inside(e, at)), name, pc));
    OwnAnswers(e, children, next, at, name, pc);
    AnswerContains(Die(e, children, End), at, name, pc);
    InnermostOfDie(e, children, End, at, name, pc);
    AnswerContains(next, at, name, pc);
    assert !(Covers(Die(e, children, End), pc) && Covers(next, pc));
    hide Picked, Narrowest, VariablesOf, Nested, Covers, InnerOf, OwnAt, HereAt, Agree, FromInner, FromScope;
    assert Innermost(End, at, name, pc) == None;
  }

  /** The flat search yields the winner. */
  lemma {:induction false} FlatPicks(dies: Dies, at: Place, name: string, pc: Word)
    requires Proper(at) && Nested(dies, at.range, false)
    ensures Narrowest(VariablesOf(dies, at), name, pc) == Picked(dies, at, name, pc)
    decreases dies
  {
    match dies
    case End =>
    case Die(e, children, next) =>
      FlatPicks(children, Inside(e, at), name, pc);
      FlatPicks(next, at, name, pc);
      RanksDie(e, children, next, at, name, pc);
      NarrowestOfDie(e, children, next, at, name, pc);
      hide Picked, Narrowest, VariablesOf, Nested, Ranked;
      if InnerOf(e, children, at, name, pc).Some? {
        AnswersHere(e, children, next, at, name, pc);
      } else {
        AnswersLater(e, children, next, at, name, pc);
      }
  }

  /** The winner among the inner scopes is the lexical answer exactly when it is not
      preempted. */
  lemma {:induction false} InnerExactIff(dies: Dies, at: Place, name: string, pc: Word)
    requires Innermost(dies, at, name, pc).Some?
    ensures Inner(dies, at, name, pc) == Innermost(dies, at, name, pc) <==> !Preempted(dies, at, name, pc)
    decreases dies
  {
    match dies
    case Die(e, children, next) =>
      InnermostOfDie(e, children, next, at, name, pc);
      if InnerOf(e, children, at, name, pc) == None {
        InnerExactIff(next, at, name, pc);
      } else if Innermost(children, Inside(e, at), name, pc).Some? {
        InnerExactIff(children, Inside(e, at), name, pc);
      }
  }

  /** With equal ranges allowed, the flat search is lexical lookup exactly when no scope
      around the answering one that has its range declares another variable of the name
      ahead of it. */
  lemma FlatIsLexicalIff(unit: Dies, name: string, pc: Word)
    requires Nested(unit, None, false)
    ensures FindVariable(VariablesOf(unit, TOP), name, pc) == Lookup(unit, name, pc)
       <==> !Preempted(unit, TOP, name, pc)
  {
    FlatPicks(unit, TOP, name, pc);
    GlobalsAgree(unit, TOP, name);
    AnswerContains(unit, TOP, name, pc);
    hide Narrowest, VariablesOf, Inner, Preempted, Innermost, Nested;
    if Innermost(unit, TOP, name, pc).Some? {
      InnerExactIff(unit, TOP, name, pc);
      InnerFound(unit, TOP, name, pc);
    } else {
      NothingPreempted(unit, TOP, name, pc);
    }
  }

  lemma {:induction false} InnerFound(dies: Dies, at: Place, name: string, pc: Word)
    requires Innermost(dies, at, name, pc).Some?
    ensures Inner(dies, at, name, pc).Some?
    decreases dies
  {
    match dies
    case Die(e, children, next) =>
      InnermostOfDie(e, children, next, at, name, pc);
      if InnerOf(e, children, at, name, pc) == None {
        InnerFound(next, at, name, pc);
      } else if Innermost(children, Inside(e, at), name, pc).Some? {
        InnerFound(children, Inside(e, at), name, pc);
      }
  }

  lemma {:induction false} NothingPreempted(dies: Dies, at: Place, name: string, pc: Word)
    requires Innermost(dies, at, name, pc) == None
    ensures !Preempted(dies, at, name, pc)
    decreases dies
  {
    match dies
    case End =>
    case Die(e, children, next) =>
      InnermostOfDie(e, children, next, at, name, pc);
      NothingPreempted(next, at, name, pc);
  }

  // ---------- a block as wide as its function

  const FUNCTION: Option<Range> := Some(Range(0, 16))
  const INT: TypeInfo := TypeInfo(4, "int", false, "")

  function DeclareX(offset: int): Entry {
    Declaration(false, Some("x"), Some(FrameOffset(offset)), INT)
  }

  function X(offset: int): Variable {
    Variable("x", FUNCTION, FrameOffset(offset), false, Register, INT)
  }

  /** The function's `x` before a block of the same range with its own `x`, or after it. */
  function Unit(first: bool): Dies {
    var inner := Die(DeclareX(-8), End, End);
    var body := if first then Die(DeclareX(-4), End, Die(LexicalBlock(FUNCTION), inner, End))
                else Die(LexicalBlock(FUNCTION), inner, Die(DeclareX(-4), End, End));
    Die(Subprogram(FUNCTION, Register), body, End)
  }

  lemma UnitNested(first: bool)
    ensures Nested(Unit(first), None, false) && Lookup(Unit(first), "x", 0) == Some(X(-8))
  {
    var at := Place(true, FUNCTION, Register);
    var inner := Die(DeclareX(-8), End, End);
    var block := Die(LexicalBlock(FUNCTION), inner, End);
    assert Own(inner, at, "x") == Some(X(-8)) && Innermost(inner, at, "x", 0) == None;
    assert Innermost(block, at, "x", 0) == Some(X(-8));
    assert Nested(inner, FUNCTION, false) && Nested(End, FUNCTION, false) && Nested(block, FUNCTION, false);
    assert Nested(Die(DeclareX(-4), End, End), FUNCTION, false);
    assert Nested(Unit(first).children, FUNCTION, false);
    hide FindVariable, VariablesOf;
  }

  lemma UnitVariables(first: bool)
    ensures VariablesOf(Unit(first), TOP) == if first then [X(-4), X(-8)] else [X(-8), X(-4)]
  {
    var at := Place(true, FUNCTION, Register);
    assert VariablesOf(Die(DeclareX(-8), End, End), at) == [X(-8)];
    hide Nested, Lookup, FindVariable;
  }

  /** Of two entries with the same range the first one is found. */
  lemma FirstOfTwo(a: Variable, b: Variable, name: string, pc: Word)
    requires Matches(a, name, pc) && Matches(b, name, pc) && a.scope == b.scope
    ensures FindVariable([a, b], name, pc) == Some(a)
  {
    assert [a, b][1..] == [b] && [b][1..] == [];
    assert Narrowest([b], name, pc) == Some(b);
  }

  /** The function's variable hides the block's exactly when it is declared first. */
  lemma EqualRangesHideTheInner(first: bool)
    ensures Nested(Unit(first), None, false) && Lookup(Unit(first), "x", 0) == Some(X(-8))
    ensures FindVariable(VariablesOf(Unit(first), TOP), "x", 0) == Some(if first then X(-4) else X(-8))
  {
    UnitNested(first);
    UnitVariables(first);
    FirstOfTwo(X(-4), X(-8), "x", 0);
    FirstOfTwo(X(-8), X(-4), "x", 0);
    hide Nested, Lookup, VariablesOf, FindVariable, Unit;
  }
}
