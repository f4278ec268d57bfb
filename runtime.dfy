/** What the emitted companion does when it runs: its constants, the owner
    value behind the test-only lock, the accessors as each build compiles
    them, and `_reset`. The build is a parameter; locking is modelled by
    making `_reset` one step that publishes all its assignments at once. */
module Runtime {
  import opened Syntax
  import opened Outcomes
  import opened Fields
  import opened Quotes

  /** Run-time values: a `&str`, a `String`, or the value of any other
      literal. */
  datatype Value = Borrowed(text: string) | Owned(text: string) | Scalar(token: string)

  /** The value a literal denotes. */
  function LitValue(l: Literal): Value {
    match l
    case Str(t) => Borrowed(t)
    case Other(tok) => Scalar(tok)
  }

  /** `.to_string()`: an owned copy of the value's text. */
  function ToOwnedValue(v: Value): Value {
    match v
    case Borrowed(t) => Owned(t)
    case Owned(t) => Owned(t)
    case Scalar(tok) => Owned(tok)
  }

  /** The two builds: `cfg(not(test))` and `cfg(test)`. */
  datatype BuildMode = Production | Instrumented

  predicate Compiled(c: Cfg, mode: BuildMode) {
    match c
    case Always => true
    case TestOnly => mode == Instrumented
    case NotTestOnly => mode == Production
  }

  /** The owner value inside the lock, field by field. */
  type State = map<string, Value>

  /** The first constant of that name. */
  function FindConst(cs: seq<ConstDecl>, name: string): Option<Literal> {
    if cs == [] then None
    else if cs[0].name == name then Some(cs[0].value)
    else FindConst(cs[1..], name)
  }

  function Eval(g: Generated, st: State, e: Expr): Option<Value> {
    match e
    case ConstRef(n) =>
      (match FindConst(g.constants, n) case Some(l) => Some(LitValue(l)) case None => None)
    case LockedField(f) => if f in st then Some(st[f]) else None
    case ToOwned(inner) =>
      (match Eval(g, st, inner) case Some(v) => Some(ToOwnedValue(v)) case None => None)
  }

  /** The first accessor of that name the build compiles, within one entry. */
  function FindIn(accs: seq<Accessor>, mode: BuildMode, name: string): Option<Accessor> {
    if accs == [] then None
    else if accs[0].name == name && Compiled(accs[0].cfg, mode) then Some(accs[0])
    else FindIn(accs[1..], mode, name)
  }

  /** The accessor a call by that name reaches in the build. */
  function FindAccessor(impls: seq<seq<Accessor>>, mode: BuildMode, name: string): Option<Accessor> {
    if impls == [] then None
    else match FindIn(impls[0], mode, name)
      case Some(a) => Some(a)
      case None => FindAccessor(impls[1..], mode, name)
  }

  /** Calling the accessor `name` on the companion whose locked owner value
      is `st`. */
  function Read(g: Generated, mode: BuildMode, st: State, name: string): Option<Value> {
    match FindAccessor(g.fnImplementations, mode, name)
    case Some(a) => Eval(g, st, a.body)
    case None => None
  }

  /** The owner value the emitted `Default` builds. */
  function InitState(g: Generated, inits: seq<FieldInit>): State
    decreases |inits|
  {
    if inits == [] then map[]
    else
      var st := InitState(g, inits[..|inits| - 1]);
      var last := inits[|inits| - 1];
      match Eval(g, map[], last.init)
      case Some(v) => st[last.field := v]
      case None => st
  }

  function DefaultState(g: Generated): State {
    InitState(g, g.defaultImpl.inits)
  }

  /** The argument bound to the parameter of that name. */
  function ArgFor(params: seq<ResetParam>, args: seq<Value>, name: string): Option<Value>
    requires |args| == |params|
  {
    if params == [] then None
    else if params[0].name == name then Some(args[0])
    else ArgFor(params[1..], args[1..], name)
  }

  /** The owner value after the assignments of `_reset`, in order. */
  function ApplyAssigns(params: seq<ResetParam>, args: seq<Value>, assigns: seq<ResetAssign>, st: State): State
    requires |args| == |params|
    decreases |assigns|
  {
    if assigns == [] then st
    else
      var prev := ApplyAssigns(params, args, assigns[..|assigns| - 1], st);
      var a := assigns[|assigns| - 1];
      match ArgFor(params, args, a.param)
      case Some(v) => prev[a.field := v]
      case None => prev
  }

  function ResetState(g: Generated, st: State, args: seq<Value>): State
    requires |args| == |g.reset.params|
  {
    ApplyAssigns(g.reset.params, args, g.reset.assigns, st)
  }

  /** The singleton of the companion type in one build. */
  class Companion {
    const gen: Generated
    const mode: BuildMode
    var pFields: State

    /** `Default` for the companion: the lock holds the owner's `Default`. */
    constructor (g: Generated, mode: BuildMode)
      ensures gen == g && this.mode == mode && pFields == DefaultState(g)
    {
      gen, this.mode := g, mode;
      pFields := DefaultState(g);
    }

    /** `_reset`, present only in the test build: every assignment is made
        on the guarded value, and all become visible together when the
        guard is released. */
    method Reset(args: seq<Value>)
      requires mode == Instrumented && |args| == |gen.reset.params|
      modifies this
      ensures pFields == ResetState(gen, old(pFields), args)
    {
      var lock := pFields;
      var assigns := gen.reset.assigns;
      for k := 0 to |assigns|
        invariant lock == ApplyAssigns(gen.reset.params, args, assigns[..k], old(pFields))
      {
        assert assigns[..k + 1][..k] == assigns[..k];
        var a := assigns[k];
        match ArgFor(gen.reset.params, args, a.param) {
          case Some(v) => lock := lock[a.field := v];
          case None =>
        }
      }
      assert assigns[..|assigns|] == assigns;
      pFields := lock;
    }
  }

  // ---------------------------------------------------------------------
  // What the accessors return

  /** Field names are distinct even once upper-cased, so the emitted
      constants do not clash. */
  predicate DistinctUpper(fs: seq<Field>) {
    forall i, j :: 0 <= i < j < |fs| ==> Upper(fs[i].ident) != Upper(fs[j].ident)
  }

  predicate Distinct(fs: seq<Field>) {
    forall i, j :: 0 <= i < j < |fs| ==> fs[i].ident != fs[j].ident
  }

  /** The value a field's accessor hands out by default: an owned string
      for a string literal, the literal's value otherwise. */
  function DefaultValue(f: Field): Value {
    if f.value.Str? then ToOwnedValue(LitValue(f.value)) else LitValue(f.value)
  }

  lemma {:induction false} FindConstFirst(cs: seq<ConstDecl>, name: string, i: nat)
    requires i < |cs| && cs[i].name == name
    requires forall j :: 0 <= j < i ==> cs[j].name != name
    ensures FindConst(cs, name) == Some(cs[i].value)
  {
    if i > 0 {
      FindConstFirst(cs[1..], name, i - 1);
    }
  }

  lemma {:induction false} FindInNone(accs: seq<Accessor>, mode: BuildMode, name: string)
    requires forall a :: a in accs ==> a.name != name
    ensures FindIn(accs, mode, name) == None
    decreases |accs|
  {
    if accs != [] {
      assert accs[0] in accs;
      FindInNone(accs[1..], mode, name);
    }
  }

  lemma {:induction false} FindAccessorAt(impls: seq<seq<Accessor>>, mode: BuildMode, name: string, i: nat)
    requires i < |impls| && FindIn(impls[i], mode, name).Some?
    requires forall j, a :: 0 <= j < i && a in impls[j] ==> a.name != name
    ensures FindAccessor(impls, mode, name) == FindIn(impls[i], mode, name)
  {
    if i == 0 {
    } else {
      FindInNone(impls[0], mode, name);
      FindAccessorAt(impls[1..], mode, name, i - 1);
    }
  }

  /** The constant emitted for field `i` is found by its name. */
  lemma GeneratedConst(owner: string, fs: seq<Field>, i: int)
    requires DistinctUpper(fs) && 0 <= i < |fs|
    ensures FindConst(Generate(owner, fs).constants, ConstName(owner, fs[i].ident)) == Some(fs[i].value)
  {
    var g := Generate(owner, fs);
    OnePerFieldInOrder(owner, fs);
    forall j | 0 <= j < i
      ensures g.constants[j].name != ConstName(owner, fs[i].ident)
    {
      ConstNameDeterminesField(owner, fs[j].ident, fs[i].ident);
    }
    FindConstFirst(g.constants, ConstName(owner, fs[i].ident), i);
  }

  /** A call of field `i`'s accessor reaches the accessor the build compiles
      for it: the test one of a test-mutable field in the test build, the
      one returning the constant otherwise. */
  lemma GeneratedAccessor(owner: string, fs: seq<Field>, i: int, mode: BuildMode)
    requires DistinctUpper(fs) && 0 <= i < |fs|
    ensures var a := FindAccessor(Generate(owner, fs).fnImplementations, mode, fs[i].ident);
      && a.Some?
      && a.value.body ==
           if fs[i].kind.Testmutable? && mode == Instrumented
           then OwnedIfText(fs[i], LockedField(fs[i].ident))
           else OwnedIfText(fs[i], ConstRef(ConstName(owner, fs[i].ident)))
  {
    var g := Generate(owner, fs);
    OnePerFieldInOrder(owner, fs);
    MapAt((f: Field) => AccessorsFor(ConstName(owner, f.ident), f), fs);
    var acc := g.fnImplementations[i];
    assert acc == AccessorsFor(ConstName(owner, fs[i].ident), fs[i]);
    if fs[i].kind.Testmutable? && mode == Instrumented {
      assert acc[1..][0] == acc[1];
    }
    FindAccessorAt(g.fnImplementations, mode, fs[i].ident, i);
  }

  lemma ReadsConstant(owner: string, fs: seq<Field>, i: int, mode: BuildMode, st: State)
    requires DistinctUpper(fs) && 0 <= i < |fs|
    requires fs[i].kind.Constant? || mode == Production
    ensures Read(Generate(owner, fs), mode, st, fs[i].ident) == Some(DefaultValue(fs[i]))
  {
    var g := Generate(owner, fs);
    GeneratedAccessor(owner, fs, i, mode);
    GeneratedConst(owner, fs, i);
    var c := ConstRef(ConstName(owner, fs[i].ident));
    assert Eval(g, st, c) == Some(LitValue(fs[i].value));
    assert Eval(g, st, OwnedIfText(fs[i], c)) == Some(DefaultValue(fs[i]));
  }

  /** A constant field's accessor returns its default in every build and
      whatever the locked owner value holds. */
  lemma ConstantReadsDefault(owner: string, fs: seq<Field>, i: int, mode: BuildMode, st: State)
    requires DistinctUpper(fs) && 0 <= i < |fs| && fs[i].kind.Constant?
    ensures Read(Generate(owner, fs), mode, st, fs[i].ident) == Some(DefaultValue(fs[i]))
  {
    ReadsConstant(owner, fs, i, mode, st);
  }

  /** In the production build every accessor returns its field's default. */
  lemma ProductionReadsDefault(owner: string, fs: seq<Field>, i: int, st: State)
    requires DistinctUpper(fs) && 0 <= i < |fs|
    ensures Read(Generate(owner, fs), Production, st, fs[i].ident) == Some(DefaultValue(fs[i]))
  {
    ReadsConstant(owner, fs, i, Production, st);
  }

  lemma {:induction false} InitStateAt(g: Generated, inits: seq<FieldInit>, i: int)
    requires 0 <= i < |inits| && Eval(g, map[], inits[i].init).Some?
    requires forall j :: 0 <= j < |inits| && j != i ==> inits[j].field != inits[i].field
    ensures inits[i].field in InitState(g, inits)
    ensures InitState(g, inits)[inits[i].field] == Eval(g, map[], inits[i].init).value
    decreases |inits|
  {
    if i < |inits| - 1 {
      InitStateAt(g, inits[..|inits| - 1], i);
    }
  }

  /** In the test build, before any reset, every accessor returns its
      field's default. */
  lemma InstrumentedStartsAtDefault(owner: string, fs: seq<Field>, i: int)
    requires DistinctUpper(fs) && 0 <= i < |fs|
    ensures var g := Generate(owner, fs);
      Read(g, Instrumented, DefaultState(g), fs[i].ident) == Some(DefaultValue(fs[i]))
  {
    var g := Generate(owner, fs);
    GeneratedAccessor(owner, fs, i, Instrumented);
    GeneratedConst(owner, fs, i);
    if fs[i].kind.Testmutable? {
      OnePerFieldInOrder(owner, fs);
      MapAt(f => InitFor(owner, f), fs);
      var inits := g.defaultImpl.inits;
      assert inits[i] == InitFor(owner, fs[i]);
      var c := ConstRef(ConstName(owner, fs[i].ident));
      assert Eval(g, map[], c) == Some(LitValue(fs[i].value));
      assert Eval(g, map[], inits[i].init) == Some(DefaultValue(fs[i]));
      forall j | 0 <= j < |inits| && j != i
        ensures inits[j].field != inits[i].field
      {
        assert inits[j] == InitFor(owner, fs[j]);
        if j < i {
          assert Upper(fs[j].ident) != Upper(fs[i].ident);
        } else {
          assert Upper(fs[i].ident) != Upper(fs[j].ident);
        }
      }
      InitStateAt(g, inits, i);
      var st := DefaultState(g);
      assert st[fs[i].ident] == DefaultValue(fs[i]);
      assert Eval(g, st, LockedField(fs[i].ident)) == Some(DefaultValue(fs[i]));
      assert Eval(g, st, OwnedIfText(fs[i], LockedField(fs[i].ident))) == Some(DefaultValue(fs[i]));
    } else {
      ReadsConstant(owner, fs, i, Instrumented, DefaultState(g));
    }
  }

  // ---------------------------------------------------------------------
  // What `_reset` does

  lemma {:induction false} MutFieldsDistinct(fs: seq<Field>)
    requires Distinct(fs)
    ensures Distinct(MutFields(fs))
    decreases |fs|
  {
    if fs != [] {
      var init := fs[..|fs| - 1];
      MutFieldsDistinct(init);
      MutFieldsMembers(init);
      var ms := MutFields(init);
      forall j | 0 <= j < |ms|
        ensures ms[j].ident != fs[|fs| - 1].ident
      {
        assert ms[j] in init;
      }
    }
  }

  lemma {:induction false} ArgForAt(params: seq<ResetParam>, args: seq<Value>, k: nat)
    requires |args| == |params| && k < |params|
    requires forall j :: 0 <= j < k ==> params[j].name != params[k].name
    ensures ArgFor(params, args, params[k].name) == Some(args[k])
  {
    if k > 0 {
      ArgForAt(params[1..], args[1..], k - 1);
    }
  }

  /** After the assignments, a field some assignment targets holds the value
      every such assignment gives it; any other field is untouched. */
  lemma {:induction false} ApplyAssignsAt(params: seq<ResetParam>, args: seq<Value>,
                                          assigns: seq<ResetAssign>, st: State, x: string)
    requires |args| == |params|
    ensures var r := ApplyAssigns(params, args, assigns, st);
      && ((exists k :: 0 <= k < |assigns| && assigns[k].field == x) &&
          (forall k :: 0 <= k < |assigns| && assigns[k].field == x ==>
             ArgFor(params, args, assigns[k].param).Some? &&
             ArgFor(params, args, assigns[k].param) == ArgFor(params, args, x))
          ==> x in r && Some(r[x]) == ArgFor(params, args, x))
      && ((forall k :: 0 <= k < |assigns| ==> assigns[k].field != x) ==>
            (x in r <==> x in st) && (x in st ==> r[x] == st[x]))
    decreases |assigns|
  {
    if assigns != [] {
      var init := assigns[..|assigns| - 1];
      ApplyAssignsAt(params, args, init, st, x);
    }
  }

  /** After `_reset(v1, ..., vn)` the locked value holds `vk` in the k-th
      test-mutable field. */
  lemma ResetStores(owner: string, fs: seq<Field>, st: State, args: seq<Value>, k: int)
    requires Distinct(fs)
    requires |args| == |MutFields(fs)| && 0 <= k < |args|
    ensures |args| == |Generate(owner, fs).reset.params|
    ensures var r := ResetState(Generate(owner, fs), st, args);
      MutFields(fs)[k].ident in r && r[MutFields(fs)[k].ident] == args[k]
  {
    var g := Generate(owner, fs);
    var ms := MutFields(fs);
    ResetTakesMutFields(owner, fs);
    MutFieldsDistinct(fs);
    var params, assigns := g.reset.params, g.reset.assigns;
    var x := ms[k].ident;
    assert params[k].name == x;
    ArgForAt(params, args, k);
    forall j | 0 <= j < |assigns| && assigns[j].field == x
      ensures ArgFor(params, args, assigns[j].param) == Some(args[k])
    {
      assert ms[j].ident == ms[k].ident;
    }
    ApplyAssignsAt(params, args, assigns, st, x);
  }

  /** After `_reset(v1, ..., vn)`, the accessor of the k-th test-mutable
      field returns `vk` in the test build (string fields receive owned
      strings). */
  lemma ResetThenRead(owner: string, fs: seq<Field>, st: State, args: seq<Value>, k: int)
    requires DistinctUpper(fs)
    requires |args| == |MutFields(fs)| && 0 <= k < |args|
    requires forall j :: 0 <= j < |args| && MutFields(fs)[j].value.Str? ==> args[j].Owned?
    ensures |args| == |Generate(owner, fs).reset.params|
    ensures var g := Generate(owner, fs);
      Read(g, Instrumented, ResetState(g, st, args), MutFields(fs)[k].ident) == Some(args[k])
  {
    var g := Generate(owner, fs);
    var ms := MutFields(fs);
    assert Distinct(fs);
    ResetStores(owner, fs, st, args, k);
    MutFieldsMembers(fs);
    assert ms[k] in fs;
    var i :| 0 <= i < |fs| && fs[i] == ms[k];
    GeneratedAccessor(owner, fs, i, Instrumented);
    var r := ResetState(g, st, args);
    assert Eval(g, r, LockedField(ms[k].ident)) == Some(args[k]);
    assert Eval(g, r, OwnedIfText(ms[k], LockedField(ms[k].ident))) == Some(args[k]);
  }

  /** `_reset` changes only the test-mutable fields of the locked value. */
  lemma ResetLeavesOthers(owner: string, fs: seq<Field>, st: State, args: seq<Value>, x: string)
    requires |args| == |MutFields(fs)|
    requires forall f :: f in fs && f.kind.Testmutable? ==> f.ident != x
    ensures |args| == |Generate(owner, fs).reset.params|
    ensures var r := ResetState(Generate(owner, fs), st, args);
      (x in r <==> x in st) && (x in st ==> r[x] == st[x])
  {
    var g := Generate(owner, fs);
    ResetTakesMutFields(owner, fs);
    MutFieldsMembers(fs);
    var ms := MutFields(fs);
    assert forall j :: 0 <= j < |ms| ==> ms[j] in fs;
    ApplyAssignsAt(g.reset.params, args, g.reset.assigns, st, x);
  }
}
