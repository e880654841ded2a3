/** Variables of a DWARF unit: a walk over the flattened entries keeps the scopes in two
    stacks, and a search over the flat list stands for lexical lookup. */
module Scopes {
  import opened Words
  import opened Leb128

  datatype Range = Range(low: Word, high: Word) {
    predicate Contains(a: Word) {
      low <= a < high
    }

    predicate Within(outer: Range) {
      outer.low <= low && high <= outer.high
    }

    function Width(): int {
      high - low
    }
  }

  datatype FrameBase = Register | CallFrameCfa

  datatype TypeInfo = TypeInfo(byteSize: nat, typeName: string, isPointer: bool, pointeeType: string)

  /** A debugging information entry as the walk reads it. */
  datatype Entry =
    | Subprogram(range: Option<Range>, frameBase: FrameBase)
    | LexicalBlock(range: Option<Range>)
    | Declaration(isArg: bool, name: Option<string>, location: Option<VarLocation>, ty: TypeInfo)
    | Other

  datatype Variable = Variable(
    name: string, scope: Option<Range>, location: VarLocation, isArg: bool, frameBase: FrameBase, ty: TypeInfo)

  /** Sibling entries, each with its children. */
  datatype Dies = End | Die(entry: Entry, children: Dies, next: Dies)

  // ---------- what the tree means

  /** Where a declaration stands: inside any scope, in which ranged one, with which frame base. */
  datatype Place = Place(scoped: bool, range: Option<Range>, frameBase: FrameBase)

  const TOP: Place := Place(false, None, Register)

  function Inside(e: Entry, at: Place): Place {
    match e
    case Subprogram(range, fb) => Place(true, if range.Some? then range else at.range, fb)
    case LexicalBlock(range) => Place(true, if range.Some? then range else at.range, at.frameBase)
    case _ => at
  }

  function Declared(e: Entry, at: Place): seq<Variable> {
    if !e.Declaration? || e.name == None || e.location == None then []
    else if at.scoped && at.range == None then []
    else [Variable(e.name.value, if at.scoped then at.range else None, e.location.value, e.isArg, at.frameBase, e.ty)]
  }

  function VariablesOf(dies: Dies, at: Place): seq<Variable> {
    match dies
    case End => []
    case Die(e, children, next) =>
      Declared(e, at) + VariablesOf(children, Inside(e, at)) + VariablesOf(next, at)
  }

  // ---------- the depth-first stream

  function Preorder(dies: Dies, depth: int): seq<(int, Entry)> {
    match dies
    case End => []
    case Die(e, children, next) =>
      [(depth, e)] + Preorder(children, depth + 1) + Preorder(next, depth)
  }

  /** Depths as differences to the entry before. */
  function Deltas(entries: seq<(int, Entry)>, depth: int): seq<(int, Entry)> {
    if entries == [] then []
    else [(entries[0].0 - depth, entries[0].1)] + Deltas(entries[1..], entries[0].0)
  }

  // ---------- the walk

  type Stack<T> = seq<(int, T)>

  datatype Walk = Walk(scopes: Stack<Option<Range>>, bases: Stack<FrameBase>, found: seq<Variable>)

  /** Drops what lies at `depth` or deeper from the top. */
  function Popped<T>(stack: Stack<T>, depth: int): Stack<T> {
    if stack != [] && stack[|stack| - 1].0 >= depth then Popped(stack[..|stack| - 1], depth) else stack
  }

  /** The nearest enclosing range. */
  function Nearest(scopes: Stack<Option<Range>>): Option<Range> {
    if scopes == [] then None
    else if scopes[|scopes| - 1].1.Some? then scopes[|scopes| - 1].1
    else Nearest(scopes[..|scopes| - 1])
  }

  function PlaceOf(scopes: Stack<Option<Range>>, bases: Stack<FrameBase>): Place {
    Place(scopes != [], Nearest(scopes), if bases == [] then Register else bases[|bases| - 1].1)
  }

  /** One entry at its depth. */
  function Visit(w: Walk, depth: int, e: Entry): Walk {
    var scopes, bases := Popped(w.scopes, depth), Popped(w.bases, depth);
    match e
    case Subprogram(range, fb) => Walk(scopes + [(depth, range)], bases + [(depth, fb)], w.found)
    case LexicalBlock(range) => Walk(scopes + [(depth, range)], bases, w.found)
    case _ => Walk(scopes, bases, w.found + Declared(e, PlaceOf(scopes, bases)))
  }

  function VisitAll(w: Walk, entries: seq<(int, Entry)>): Walk
    decreases |entries|
  {
    if entries == [] then w else VisitAll(Visit(w, entries[0].0, entries[0].1), entries[1..])
  }

  /** The same, reading depth differences. */
  function VisitDeltas(w: Walk, events: seq<(int, Entry)>, depth: int): Walk
    decreases |events|
  {
    if events == [] then w
    else VisitDeltas(Visit(w, depth + events[0].0, events[0].1), events[1..], depth + events[0].0)
  }

  lemma VisitNext(w: Walk, events: seq<(int, Entry)>, i: nat, depth: int)
    requires i < |events|
    ensures VisitDeltas(w, events[i..], depth)
         == VisitDeltas(Visit(w, depth + events[i].0, events[i].1), events[i + 1..], depth + events[i].0)
  {
    assert events[i..][1..] == events[i + 1..];
    hide Visit;
  }

  lemma VisitNone(w: Walk, depth: int)
    ensures VisitDeltas(w, [], depth) == w
  {
  }

  /** `scope_stack.iter().rev().find_map(..)` */
  method NearestRange(scopes: Stack<Option<Range>>) returns (range: Option<Range>)
    ensures range == Nearest(scopes)
  {
    var i := |scopes|;
    assert scopes[..i] == scopes;
    while i > 0
      invariant 0 <= i <= |scopes| && Nearest(scopes[..i]) == Nearest(scopes)
    {
      i := i - 1;
      assert scopes[..i + 1][..i] == scopes[..i];
      if scopes[i].1.Some? {
        return scopes[i].1;
      }
    }
    range := None;
  }

  /** Leaves the entries at `depth` and below on the stack no longer open. */
  method PopTo<T>(stack: Stack<T>, depth: int) returns (rest: Stack<T>)
    ensures rest == Popped(stack, depth)
  {
    rest := stack;
    while rest != [] && rest[|rest| - 1].0 >= depth
      invariant Popped(rest, depth) == Popped(stack, depth)
      decreases |rest|
    {
      rest := rest[..|rest| - 1];
    }
  }

  /** A variable or parameter with a name and a location, in the scope the stacks describe. */
  method Record(scopes: Stack<Option<Range>>, bases: Stack<FrameBase>, found: seq<Variable>, e: Entry)
    returns (variables: seq<Variable>)
    ensures variables == found + Declared(e, PlaceOf(scopes, bases))
  {
    variables := found;
    if e.Declaration? && e.name.Some? && e.location.Some? {
      var fb := if bases == [] then Register else bases[|bases| - 1].1;
      if scopes == [] {
        variables := variables + [Variable(e.name.value, None, e.location.value, e.isArg, fb, e.ty)];
      } else {
        var range := NearestRange(scopes);
        if range.Some? {
          variables := variables + [Variable(e.name.value, range, e.location.value, e.isArg, fb, e.ty)];
        }
      }
    }
  }

  method CollectVariables(events: seq<(int, Entry)>, before: seq<Variable>) returns (variables: seq<Variable>)
    ensures variables == VisitDeltas(Walk([], [], before), events, 0).found
  {
    var scopes: Stack<Option<Range>>, bases: Stack<FrameBase>, depth := [], [], 0;
    variables := before;
    ghost var all := VisitDeltas(Walk([], [], before), events, 0);
    assert events[0..] == events;
    hide VisitDeltas, Popped, Declared;
    for i := 0 to |events|
      invariant VisitDeltas(Walk(scopes, bases, variables), events[i..], depth) == all
    {
      var (delta, e) := events[i];
      VisitNext(Walk(scopes, bases, variables), events, i, depth);
      depth := depth + delta;
      scopes := PopTo(scopes, depth);
      bases := PopTo(bases, depth);
      match e {
        case Subprogram(range, fb) =>
          scopes := scopes + [(depth, range)];
          bases := bases + [(depth, fb)];
        case LexicalBlock(range) =>
          scopes := scopes + [(depth, range)];
        case _ =>
          variables := Record(scopes, bases, variables, e);
      }
    }
    assert events[|events|..] == [];
    VisitNone(Walk(scopes, bases, variables), depth);
  }

  // ---------- the walk against the tree

  lemma {:induction false} PoppedBelow<T>(stack: Stack<T>, deep: int, shallow: int)
    requires shallow <= deep
    ensures Popped(Popped(stack, deep), shallow) == Popped(stack, shallow)
    decreases |stack|
  {
    if stack != [] && stack[|stack| - 1].0 >= deep {
      PoppedBelow(stack[..|stack| - 1], deep, shallow);
    }
  }

  lemma {:induction false} PoppedTop<T>(stack: Stack<T>, depth: int)
    ensures var p := Popped(stack, depth); p != [] ==> p[|p| - 1].0 < depth
    decreases |stack|
  {
    if stack != [] && stack[|stack| - 1].0 >= depth {
      PoppedTop(stack[..|stack| - 1], depth);
    }
  }

  /** Entering an entry leaves the outer stack in place for its children. */
  lemma PushedAbove<T>(stack: Stack<T>, depth: int, top: seq<(int, T)>)
    requires top == [] || (|top| == 1 && top[0].0 == depth)
    ensures var s := Popped(stack, depth) + top; Popped(s, depth + 1) == s && Popped(s, depth) == Popped(stack, depth)
  {
    var p := Popped(stack, depth);
    PoppedTop(stack, depth);
    assert top != [] ==> (p + top)[..|p + top| - 1] == p;
    assert top == [] ==> p + top == p;
  }

  lemma {:induction false} VisitAllConcat(w: Walk, a: seq<(int, Entry)>, b: seq<(int, Entry)>)
    ensures VisitAll(w, a + b) == VisitAll(VisitAll(w, a), b)
    decreases |a|
  {
    if a == [] {
      assert a + b == b;
    } else {
      assert (a + b)[1..] == a[1..] + b;
      VisitAllConcat(Visit(w, a[0].0, a[0].1), a[1..], b);
    }
  }

  function PlaceAt(w: Walk, depth: int): Place {
    PlaceOf(Popped(w.scopes, depth), Popped(w.bases, depth))
  }

  /** From `w` to `v` the walk found `vars` and left the stacks below `depth` as they were. */
  predicate Collects(w: Walk, v: Walk, depth: int, vars: seq<Variable>) {
    && v.found == w.found + vars
    && Popped(v.scopes, depth) == Popped(w.scopes, depth)
    && Popped(v.bases, depth) == Popped(w.bases, depth)
  }

  lemma VisitPlaces(w: Walk, depth: int, e: Entry)
    ensures Collects(w, Visit(w, depth, e), depth, Declared(e, PlaceAt(w, depth)))
    ensures PlaceAt(Visit(w, depth, e), depth + 1) == Inside(e, PlaceAt(w, depth))
  {
    hide Popped;
    var scopes, bases := Popped(w.scopes, depth), Popped(w.bases, depth);
    var v := Visit(w, depth, e);
    var pushed := if e.Subprogram? || e.LexicalBlock? then [(depth, e.range)] else [];
    var based := if e.Subprogram? then [(depth, e.frameBase)] else [];
    assert v.scopes == scopes + pushed && v.bases == bases + based;
    PushedAbove(w.scopes, depth, pushed);
    PushedAbove(w.bases, depth, based);
    assert pushed != [] ==> (scopes + pushed)[..|scopes + pushed| - 1] == scopes;
  }

  lemma CollectsBelow(w: Walk, v: Walk, deep: int, shallow: int, vars: seq<Variable>)
    requires Collects(w, v, deep, vars) && shallow <= deep
    ensures Collects(w, v, shallow, vars) && PlaceAt(v, shallow) == PlaceAt(w, shallow)
  {
    PoppedBelow(w.scopes, deep, shallow);
    PoppedBelow(v.scopes, deep, shallow);
    PoppedBelow(w.bases, deep, shallow);
    PoppedBelow(v.bases, deep, shallow);
  }

  lemma CollectsJoin(w: Walk, a: Walk, b: Walk, v: Walk, depth: int,
                     x: seq<Variable>, y: seq<Variable>, z: seq<Variable>)
    requires Collects(w, a, depth, x) && Collects(a, b, depth, y) && Collects(b, v, depth, z)
    ensures Collects(w, v, depth, x + y + z)
  {
    hide Popped;
    assert w.found + x + y + z == w.found + (x + y + z);
  }

  /** Walking siblings collects what they declare and restores the stacks below them. */
  lemma {:induction false} WalkCollects(dies: Dies, depth: int, w: Walk)
    ensures Collects(w, VisitAll(w, Preorder(dies, depth)), depth, VariablesOf(dies, PlaceAt(w, depth)))
    decreases dies
  {
    match dies
    case End =>
    case Die(e, children, next) =>
      hide Collects, Popped, Visit, VisitAll, PlaceAt, Inside, Declared, VariablesOf, Preorder;
      var inner, after := Preorder(children, depth + 1), Preorder(next, depth);
      var at, a := PlaceAt(w, depth), Visit(w, depth, e);
      var b := VisitAll(a, inner);
      var v := VisitAll(b, after);
      VisitPlaces(w, depth, e);
      CollectsBelow(w, a, depth, depth, Declared(e, at));
      WalkCollects(children, depth + 1, a);
      CollectsBelow(a, b, depth + 1, depth, VariablesOf(children, Inside(e, at)));
      WalkCollects(next, depth, b);
      CollectsJoin(w, a, b, v, depth, Declared(e, at), VariablesOf(children, Inside(e, at)), VariablesOf(next, at));
      VisitDie(w, depth, e, inner, after);
      PreorderOf(e, children, next, depth, at);
  }

  lemma VisitDie(w: Walk, depth: int, e: Entry, inner: seq<(int, Entry)>, after: seq<(int, Entry)>)
    ensures VisitAll(w, [(depth, e)] + inner + after) == VisitAll(VisitAll(Visit(w, depth, e), inner), after)
  {
    hide Visit;
    var all := [(depth, e)] + inner + after;
    assert all[1..] == inner + after;
    VisitAllConcat(Visit(w, depth, e), inner, after);
  }

  lemma PreorderOf(e: Entry, children: Dies, next: Dies, depth: int, at: Place)
    ensures Preorder(Die(e, children, next), depth)
         == [(depth, e)] + Preorder(children, depth + 1) + Preorder(next, depth)
    ensures VariablesOf(Die(e, children, next), at)
         == Declared(e, at) + VariablesOf(children, Inside(e, at)) + VariablesOf(next, at)
  {
  }

  lemma {:induction false} DeltasWalk(w: Walk, entries: seq<(int, Entry)>, depth: int)
    ensures VisitDeltas(w, Deltas(entries, depth), depth) == VisitAll(w, entries)
    decreases |entries|
  {
    if entries != [] {
      var events := Deltas(entries, depth);
      assert events[1..] == Deltas(entries[1..], entries[0].0);
      DeltasWalk(Visit(w, entries[0].0, entries[0].1), entries[1..], entries[0].0);
    }
  }

  /** Fed a tree in depth-first order, the walk appends exactly the tree's variables, each
      with the range of its nearest ranged ancestor and the frame base of its nearest
      subprogram. */
  lemma CollectsTheTree(unit: Dies, before: seq<Variable>)
    ensures VisitDeltas(Walk([], [], before), Deltas(Preorder(unit, 0), 0), 0).found == before + VariablesOf(unit, TOP)
  {
    DeltasWalk(Walk([], [], before), Preorder(unit, 0), 0);
    WalkCollects(unit, 0, Walk([], [], before));
  }

  // ---------- lookup in the flat list

  predicate Matches(v: Variable, name: string, pc: Word) {
    v.name == name && v.scope.Some? && v.scope.value.Contains(pc)
  }

  /** Of two candidates the narrower one, the first one if they are equally wide. */
  function Narrower(a: Option<Variable>, b: Option<Variable>): Option<Variable>
    requires a.Some? ==> a.value.scope.Some?
    requires b.Some? ==> b.value.scope.Some?
  {
    if a == None then b
    else if b == None then a
    else if b.value.scope.value.Width() < a.value.scope.value.Width() then b
    else a
  }

  /** The first of the narrowest scopes around `pc` that hold the name. */
  function Narrowest(vars: seq<Variable>, name: string, pc: Word): (v: Option<Variable>)
    ensures v.Some? ==> v.value in vars && Matches(v.value, name, pc)
  {
    if vars == [] then None
    else Narrower(if Matches(vars[0], name, pc) then Some(vars[0]) else None, Narrowest(vars[1..], name, pc))
  }

  function FirstGlobal(vars: seq<Variable>, name: string): Option<Variable> {
    if vars == [] then None
    else if vars[0].name == name && vars[0].scope == None then Some(vars[0])
    else FirstGlobal(vars[1..], name)
  }

  function FindVariable(vars: seq<Variable>, name: string, pc: Word): Option<Variable> {
    var local := Narrowest(vars, name, pc);
    if local.Some? then local else FirstGlobal(vars, name)
  }

  /** A scope begins at its low address and ends before its high one; without a scope a
      variable is found everywhere. */
  lemma FoundWhere(v: Variable, name: string, pc: Word)
    ensures FindVariable([v], name, pc) == Some(v)
       <==> v.name == name && (v.scope.Some? ==> v.scope.value.low <= pc && pc < v.scope.value.high)
    ensures FindVariable([v], name, pc) in {Some(v), None}
  {
    assert [v][1..] == [] && [v][0] == v;
    assert Narrowest([v][1..], name, pc) == None && FirstGlobal([v][1..], name) == None;
    assert Narrowest([v], name, pc) == if Matches(v, name, pc) then Some(v) else None;
  }

  lemma {:induction false} NarrowestConcat(a: seq<Variable>, b: seq<Variable>, name: string, pc: Word)
    ensures Narrowest(a + b, name, pc) == Narrower(Narrowest(a, name, pc), Narrowest(b, name, pc))
    decreases |a|
  {
    if a == [] {
      assert a + b == b;
    } else {
      assert (a + b)[1..] == a[1..] + b;
      NarrowestConcat(a[1..], b, name, pc);
    }
  }

  lemma {:induction false} FirstGlobalConcat(a: seq<Variable>, b: seq<Variable>, name: string)
    ensures FirstGlobal(a + b, name) == var f := FirstGlobal(a, name); if f.Some? then f else FirstGlobal(b, name)
    decreases |a|
  {
    if a == [] {
      assert a + b == b;
    } else {
      assert (a + b)[1..] == a[1..] + b;
      FirstGlobalConcat(a[1..], b, name);
    }
  }

  // ---------- lookup in the tree

  function Or(a: Option<Variable>, b: Option<Variable>): Option<Variable> {
    if a.Some? then a else b
  }

  /** The entry opens a scope with a range of its own. */
  predicate Ranged(e: Entry) {
    (e.Subprogram? || e.LexicalBlock?) && e.range.Some?
  }

  function Named(e: Entry, at: Place, name: string): Option<Variable> {
    var d := Declared(e, at);
    if d != [] && d[0].name == name then Some(d[0]) else None
  }

  /** The first declaration of `name` that belongs to the scope itself. */
  function Own(dies: Dies, at: Place, name: string): Option<Variable> {
    match dies
    case End => None
    case Die(e, children, next) =>
      Or(Named(e, at, name), Or(if Ranged(e) then None else Own(children, Inside(e, at), name), Own(next, at, name)))
  }

  /** Descends into the scopes around `pc`: an inner scope's answer hides the outer one's. */
  function Innermost(dies: Dies, at: Place, name: string, pc: Word): Option<Variable> {
    match dies
    case End => None
    case Die(e, children, next) =>
      var here :=
        if Ranged(e) && !e.range.value.Contains(pc) then None else Innermost(children, Inside(e, at), name, pc);
      Or(Or(here, if Ranged(e) && e.range.value.Contains(pc) then Own(children, Inside(e, at), name) else None),
         Innermost(next, at, name, pc))
  }

  /** The first declaration outside all scopes. */
  function Global(dies: Dies, at: Place, name: string): Option<Variable> {
    match dies
    case End => None
    case Die(e, children, next) =>
      Or(if at.scoped then None else Named(e, at, name),
         Or(Global(children, Inside(e, at), name), Global(next, at, name)))
  }

  function Lookup(unit: Dies, name: string, pc: Word): Option<Variable> {
    Or(Innermost(unit, TOP, name, pc), Global(unit, TOP, name))
  }

  /** Some outermost range among these entries holds `pc`. */
  predicate Covers(dies: Dies, pc: Word) {
    match dies
    case End => false
    case Die(e, children, next) =>
      || (if Ranged(e) then e.range.value.Contains(pc) else Covers(children, pc))
      || Covers(next, pc)
  }

  ghost predicate Apart(a: Dies, b: Dies) {
    forall pc: Word :: !(Covers(a, pc) && Covers(b, pc))
  }

  /** Ranges lie inside the enclosing range, `strict`ly or not, and siblings do not overlap. */
  ghost predicate Nested(dies: Dies, outer: Option<Range>, strict: bool) {
    match dies
    case End => true
    case Die(e, children, next) =>
      && (Ranged(e) && outer.Some? ==>
            e.range.value.Within(outer.value) && (strict ==> e.range.value != outer.value))
      && Nested(children, if Ranged(e) then e.range else outer, strict)
      && Nested(next, outer, strict)
      && Apart(Die(e, children, End), next)
  }

  // ---------- flat lookup is lexical lookup

  lemma {:induction false} CoveredInside(dies: Dies, outer: Range, strict: bool, pc: Word)
    requires Nested(dies, Some(outer), strict) && Covers(dies, pc)
    ensures outer.Contains(pc)
  {
    match dies
    case Die(e, children, next) =>
      if Covers(next, pc) {
        CoveredInside(next, outer, strict, pc);
      } else if !Ranged(e) {
        CoveredInside(children, outer, strict, pc);
      }
  }

  predicate Proper(at: Place) {
    at.range.Some? ==> at.scoped
  }

  lemma {:induction false} OwnScope(dies: Dies, at: Place, name: string)
    requires Proper(at)
    ensures var v := Own(dies, at, name); v.Some? ==> v.value.scope == at.range
  {
    match dies
    case End =>
    case Die(e, children, next) =>
      if !Ranged(e) {
        OwnScope(children, Inside(e, at), name);
      }
      OwnScope(next, at, name);
  }

  /** The scope's own answer, if `pc` is in its range. */
  function OwnAt(dies: Dies, at: Place, name: string, pc: Word): Option<Variable> {
    if at.range.Some? && at.range.value.Contains(pc) then Own(dies, at, name) else None
  }

  predicate FromScope(v: Option<Variable>, range: Option<Range>) {
    v.Some? ==> range.Some? && v.value.scope == range
  }

  /** An answer from an inner scope has a range inside the outer one. */
  predicate FromInner(v: Option<Variable>, outer: Option<Range>, strict: bool) {
    v.Some? ==>
      && v.value.scope.Some?
      && (outer.Some? ==> v.value.scope.value.Within(outer.value) && (strict ==> v.value.scope != outer))
  }

  /** The same scope, and the same variable when nesting is strict. */
  predicate Agree(a: Option<Variable>, b: Option<Variable>, strict: bool) {
    && a.Some? == b.Some?
    && (a.Some? ==> a.value.scope == b.value.scope && a.value.scope.Some?)
    && (strict ==> a == b)
  }

  /** Choosing by width among one entry, its children and its siblings chooses by depth. */
  lemma WidthIsDepth(a: Option<Variable>, b: Option<Variable>, bIn: Option<Variable>, bOwn: Option<Variable>,
                     c: Option<Variable>, cIn: Option<Variable>, cOwn: Option<Variable>,
                     outer: Option<Range>, strict: bool)
    requires FromScope(a, outer) && FromScope(bOwn, outer) && FromScope(cOwn, outer)
    requires FromInner(bIn, outer, strict) && FromInner(cIn, outer, strict)
    requires bIn == None || cIn == None
    requires Agree(b, Or(bIn, bOwn), strict) && Agree(c, Or(cIn, cOwn), strict)
    ensures Agree(Narrower(a, Narrower(b, c)), Or(Or(bIn, cIn), Or(a, Or(bOwn, cOwn))), strict)
  {
  }

  lemma {:induction false} WidthFindsInnermost(dies: Dies, at: Place, name: string, pc: Word, strict: bool)
    requires Proper(at) && Nested(dies, at.range, strict)
    ensures Finds(dies, at, name, pc, strict)
    decreases dies
  {
    match dies
    case End =>
    case Die(e, children, next) =>
      var inside := Inside(e, at);
      WidthFindsInnermost(children, inside, name, pc, strict);
      WidthFindsInnermost(next, at, name, pc, strict);
      DieFindsInnermost(e, children, next, at, name, pc, strict);
  }

  /** The answer from the ranged scopes at or below one entry. */
  function InnerOf(e: Entry, children: Dies, at: Place, name: string, pc: Word): Option<Variable> {
    if !Ranged(e) then Innermost(children, Inside(e, at), name, pc)
    else if e.range.value.Contains(pc) then
      Or(Innermost(children, Inside(e, at), name, pc), Own(children, Inside(e, at), name))
    else None
  }

  /** What `WidthFindsInnermost` says of one list of siblings. */
  ghost predicate Finds(dies: Dies, at: Place, name: string, pc: Word, strict: bool) {
    && FromInner(Innermost(dies, at, name, pc), at.range, strict)
    && (Innermost(dies, at, name, pc).Some? ==> Covers(dies, pc))
    && Agree(Narrowest(VariablesOf(dies, at), name, pc),
             Or(Innermost(dies, at, name, pc), OwnAt(dies, at, name, pc)), strict)
  }

  /** The answer of the entry itself. */
  function HereAt(e: Entry, at: Place, name: string, pc: Word): Option<Variable> {
    if at.range.Some? && at.range.value.Contains(pc) then Named(e, at, name) else None
  }

  lemma NarrowestDeclared(e: Entry, at: Place, name: string, pc: Word)
    requires Proper(at)
    ensures Narrowest(Declared(e, at), name, pc) == HereAt(e, at, name, pc)
  {
    assert Narrowest([], name, pc) == None;
  }

  lemma NarrowestOfThree(x: seq<Variable>, y: seq<Variable>, z: seq<Variable>, name: string, pc: Word)
    ensures Narrowest(x + y + z, name, pc)
         == Narrower(Narrowest(x, name, pc), Narrower(Narrowest(y, name, pc), Narrowest(z, name, pc)))
  {
    hide Narrowest, Narrower;
    NarrowestConcat(x, y + z, name, pc);
    NarrowestConcat(y, z, name, pc);
    assert x + y + z == x + (y + z);
  }

  lemma NarrowestOfDie(e: Entry, children: Dies, next: Dies, at: Place, name: string, pc: Word)
    requires Proper(at)
    ensures Narrowest(VariablesOf(Die(e, children, next), at), name, pc)
         == Narrower(HereAt(e, at, name, pc),
                     Narrower(Narrowest(VariablesOf(children, Inside(e, at)), name, pc),
                              Narrowest(VariablesOf(next, at), name, pc)))
  {
    hide Narrowest, Narrower, Declared, VariablesOf, HereAt;
    NarrowestDeclared(e, at, name, pc);
    NarrowestOfThree(Declared(e, at), VariablesOf(children, Inside(e, at)), VariablesOf(next, at), name, pc);
    PreorderOf(e, children, next, 0, at);
  }

  /** One entry with its children and siblings, in the terms `WidthIsDepth` speaks of. */
  lemma InnermostOfDie(e: Entry, children: Dies, next: Dies, at: Place, name: string, pc: Word)
    ensures var dies := Die(e, children, next);
      && Innermost(dies, at, name, pc) == Or(InnerOf(e, children, at, name, pc), Innermost(next, at, name, pc))
      && OwnAt(dies, at, name, pc)
           == Or(HereAt(e, at, name, pc),
                 Or(if Ranged(e) then None else OwnAt(children, Inside(e, at), name, pc), OwnAt(next, at, name, pc)))
  {
  }

  /** Answers of the scope itself carry its range. */
  lemma OwnAnswers(e: Entry, children: Dies, next: Dies, at: Place, name: string, pc: Word)
    requires Proper(at)
    ensures FromScope(HereAt(e, at, name, pc), at.range) && FromScope(OwnAt(next, at, name, pc), at.range)
    ensures !Ranged(e) ==> FromScope(OwnAt(children, Inside(e, at), name, pc), at.range)
  {
    OwnScope(children, Inside(e, at), name);
    OwnScope(next, at, name);
  }

  lemma DieFindsInnermost(e: Entry, children: Dies, next: Dies, at: Place, name: string, pc: Word, strict: bool)
    requires Proper(at) && Nested(Die(e, children, next), at.range, strict)
    requires Finds(children, Inside(e, at), name, pc, strict) && Finds(next, at, name, pc, strict)
    ensures Finds(Die(e, children, next), at, name, pc, strict)
  {
    var inside := Inside(e, at);
    var b := Narrowest(VariablesOf(children, inside), name, pc);
    var bOwn := if Ranged(e) then None else OwnAt(children, inside, name, pc);
    InnerAnswer(e, children, next, at, name, pc, strict, b);
    assert !(Covers(Die(e, children, End), pc) && Covers(next, pc));
    NarrowestOfDie(e, children, next, at, name, pc);
    InnermostOfDie(e, children, next, at, name, pc);
    OwnAnswers(e, children, next, at, name, pc);
    hide Innermost, InnerOf, Narrowest, VariablesOf, Own, OwnAt, HereAt, Nested, Declared, Named;
    hide Agree, FromInner, FromScope, Narrower, Or;
    WidthIsDepth(HereAt(e, at, name, pc), b, InnerOf(e, children, at, name, pc), bOwn,
                 Narrowest(VariablesOf(next, at), name, pc), Innermost(next, at, name, pc), OwnAt(next, at, name, pc),
                 at.range, strict);
  }

  lemma InnerAnswer(e: Entry, children: Dies, next: Dies, at: Place, name: string, pc: Word, strict: bool,
                    b: Option<Variable>)
    requires Proper(at) && Nested(Die(e, children, next), at.range, strict)
    requires Finds(children, Inside(e, at), name, pc, strict)
    requires b == Narrowest(VariablesOf(children, Inside(e, at)), name, pc)
    ensures FromInner(InnerOf(e, children, at, name, pc), at.range, strict)
    ensures InnerOf(e, children, at, name, pc).Some? ==> Covers(Die(e, children, End), pc)
    ensures Agree(b, Or(InnerOf(e, children, at, name, pc),
                        if Ranged(e) then None else OwnAt(children, Inside(e, at), name, pc)), strict)
  {
    OwnScope(children, Inside(e, at), name);
    if Ranged(e) && Covers(children, pc) {
      CoveredInside(children, e.range.value, strict, pc);
    }
  }

  lemma {:induction false} GlobalsAgree(dies: Dies, at: Place, name: string)
    requires Proper(at)
    ensures FirstGlobal(VariablesOf(dies, at), name) == Global(dies, at, name)
  {
    match dies
    case End =>
    case Die(e, children, next) =>
      GlobalsAgree(children, Inside(e, at), name);
      GlobalsAgree(next, at, name);
      FirstGlobalConcat(Declared(e, at) + VariablesOf(children, Inside(e, at)), VariablesOf(next, at), name);
      FirstGlobalConcat(Declared(e, at), VariablesOf(children, Inside(e, at)), name);
      assert FirstGlobal([], name) == None;
  }

  /** On strictly nested scopes the search over the flat list is lexical lookup. */
  lemma FlatIsLexical(unit: Dies, name: string, pc: Word)
    requires Nested(unit, None, true)
    ensures FindVariable(VariablesOf(unit, TOP), name, pc) == Lookup(unit, name, pc)
  {
    WidthFindsInnermost(unit, TOP, name, pc, true);
    GlobalsAgree(unit, TOP, name);
  }

  /** When an inner scope may have the range of its outer one, the scope found is still right. */
  lemma FlatFindsTheScope(unit: Dies, name: string, pc: Word)
    requires Nested(unit, None, false)
    ensures var flat, lexical := FindVariable(VariablesOf(unit, TOP), name, pc), Lookup(unit, name, pc);
      && flat.Some? == lexical.Some?
      && (flat.Some? ==> flat.value.scope == lexical.value.scope)
  {
    WidthFindsInnermost(unit, TOP, name, pc, false);
    GlobalsAgree(unit, TOP, name);
  }
}
