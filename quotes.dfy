/** The accessor generator: from the owner's name and its parsed field
    descriptors to the companion type's items. Token streams are replaced by
    a structured description of the emitted items. */
module Quotes {
  import opened Syntax
  import opened Outcomes
  import opened Fields

  // ---------------------------------------------------------------------
  // Names

  /** Upper-casing, restricted to ASCII letters. */
  function UpperChar(c: char): char {
    if 'a' <= c <= 'z' then (c as int - 32) as char else c
  }

  function Upper(s: string): string {
    seq(|s|, i requires 0 <= i < |s| => UpperChar(s[i]))
  }

  /** The name of the constant holding a field's default. */
  function ConstName(owner: string, field: string): string {
    "DEFAULT_" + Upper(owner) + "_" + Upper(field)
  }

  /** Characters that may start an identifier, and that may continue one:
      ASCII letters, `_` and (after the first) digits; every non-ASCII
      character is taken to be an identifier character. */
  predicate IdentStart(c: char) {
    'a' <= c <= 'z' || 'A' <= c <= 'Z' || c == '_' || c as int >= 128
  }

  predicate IdentContinue(c: char) {
    IdentStart(c) || '0' <= c <= '9'
  }

  /** Every character may continue an identifier. */
  predicate AllContinue(s: string)
    decreases |s|
  {
    s == [] || (IdentContinue(s[0]) && AllContinue(s[1..]))
  }

  /** The strings `Ident::new` accepts; it panics on any other, such as the
      text `r#type` of a raw identifier. */
  predicate IsIdentText(s: string) {
    |s| > 0 && IdentStart(s[0]) && AllContinue(s)
  }

  /** The constant name of every field, in order, is an identifier. */
  predicate ConstNamesValid(owner: string, fs: seq<Field>)
    decreases |fs|
  {
    fs == [] ||
    (ConstNamesValid(owner, fs[..|fs| - 1]) && IsIdentText(ConstName(owner, fs[|fs| - 1].ident)))
  }

  /** Every name `write` builds is an identifier: each field's constant, the
      companion type and the singleton. */
  predicate NamesValid(owner: string, fs: seq<Field>) {
    ConstNamesValid(owner, fs) && IsIdentText("Cornetto" + owner) && IsIdentText(Upper(owner))
  }

  // ---------------------------------------------------------------------
  // The emitted items

  /** The type a constant is declared with: `&str` for string literals, the
      field's declared type otherwise. */
  datatype ConstType = StrRef | Declared(ty: TypeExpr)

  /** `const <name>: <ty> = <value>;` */
  datatype ConstDecl = ConstDecl(name: string, ty: ConstType, value: Literal)

  /** The value expressions the generated bodies are made of. */
  datatype Expr =
    | ConstRef(name: string)        // a generated constant
    | LockedField(field: string)    // a field of the owner value behind the lock
    | ToOwned(inner: Expr)          // `.to_string()` applied to the inner value

  /** `<field>: <init>,` inside the owner's `Default` implementation. */
  datatype FieldInit = FieldInit(field: string, init: Expr)

  /** The builds an item is compiled into. */
  datatype Cfg = Always | TestOnly | NotTestOnly

  /** `pub fn <name>(&self) -> <ret> { <body> }`, under `cfg`. */
  datatype Accessor = Accessor(cfg: Cfg, name: string, ret: TypeExpr, body: Expr)

  /** A parameter `<name>: <ty>` of `_reset`. */
  datatype ResetParam = ResetParam(name: string, ty: TypeExpr)

  /** `lock.<field> = <param>;` inside `_reset`. */
  datatype ResetAssign = ResetAssign(field: string, param: string)

  /** `impl Default for <owner>` built from one initialiser per field. */
  datatype DefaultImpl = DefaultImpl(owner: string, inits: seq<FieldInit>)

  /** The companion struct; `testState` is the owner type its test-only
      `p_fields` mutex wraps, when that field is emitted. */
  datatype CompanionStruct = CompanionStruct(name: string, testState: Option<string>)

  /** The test-only `_reset`: its parameters, and the assignments it makes
      under one acquisition of the lock. */
  datatype ResetFn = ResetFn(params: seq<ResetParam>, assigns: seq<ResetAssign>)

  /** Everything the derive emits, in emission order; `staticName` is the
      lazily built singleton of the companion type. */
  datatype Generated = Generated(
    constants: seq<ConstDecl>,
    defaultImpl: DefaultImpl,
    companion: CompanionStruct,
    fnImplementations: seq<seq<Accessor>>,
    reset: ResetFn,
    staticName: string)

  // ---------------------------------------------------------------------
  // What each field contributes

  /** `.to_string()` is applied to the value of a string-literal field. */
  function OwnedIfText(f: Field, e: Expr): Expr {
    if f.value.Str? then ToOwned(e) else e
  }

  function ConstFor(owner: string, f: Field): ConstDecl {
    ConstDecl(ConstName(owner, f.ident), if f.value.Str? then StrRef else Declared(f.ty), f.value)
  }

  function InitFor(owner: string, f: Field): FieldInit {
    FieldInit(f.ident, OwnedIfText(f, ConstRef(ConstName(owner, f.ident))))
  }

  /** A constant field: one accessor for every build, returning the constant. */
  function ConstantAccessors(c: string, f: Field): seq<Accessor> {
    [Accessor(Always, f.ident, f.ty, OwnedIfText(f, ConstRef(c)))]
  }

  /** A test-mutable field: the production accessor returns the constant,
      the test accessor reads the field behind the lock. */
  function MutableAccessors(c: string, f: Field): seq<Accessor> {
    [Accessor(NotTestOnly, f.ident, f.ty, OwnedIfText(f, ConstRef(c))),
     Accessor(TestOnly, f.ident, f.ty, OwnedIfText(f, LockedField(f.ident)))]
  }

  function AccessorsFor(c: string, f: Field): seq<Accessor> {
    match f.kind
    case Constant => ConstantAccessors(c, f)
    case Testmutable => MutableAccessors(c, f)
  }

  /** The test-mutable fields, in declaration order. */
  function MutFields(fs: seq<Field>): seq<Field>
    decreases |fs|
  {
    if fs == [] then []
    else
      var last := fs[|fs| - 1];
      MutFields(fs[..|fs| - 1]) + if last.kind.Testmutable? then [last] else []
  }

  /** `f` applied to every element, in order. */
  function Map<A, B>(f: A -> B, s: seq<A>): seq<B>
    decreases |s|
  {
    if s == [] then [] else Map(f, s[..|s| - 1]) + [f(s[|s| - 1])]
  }

  lemma MapSnoc<A, B>(f: A -> B, s: seq<A>, x: A)
    ensures Map(f, s + [x]) == Map(f, s) + [f(x)]
  {
    assert (s + [x])[..|s|] == s;
  }

  function ResetParamOf(f: Field): ResetParam {
    ResetParam(f.ident, f.ty)
  }

  function ResetAssignOf(f: Field): ResetAssign {
    ResetAssign(f.ident, f.ident)
  }

  /** The items `write` emits, stated field by field. */
  function Generate(owner: string, fs: seq<Field>): Generated {
    var ms := MutFields(fs);
    Generated(
      Map(f => ConstFor(owner, f), fs),
      DefaultImpl(owner, Map(f => InitFor(owner, f), fs)),
      CompanionStruct("Cornetto" + owner, Some(owner)),
      Map((f: Field) => AccessorsFor(ConstName(owner, f.ident), f), fs),
      ResetFn(Map(ResetParamOf, ms), Map(ResetAssignOf, ms)),
      Upper(owner))
  }

  /** What `write` returns: the items, or the panic of `Ident::new` when one
      of the names it builds is not an identifier. */
  function WriteResult(owner: string, fs: seq<Field>): Outcome<Generated> {
    if NamesValid(owner, fs) then Ok(Generate(owner, fs)) else Panicked(InvalidIdent)
  }

  // ---------------------------------------------------------------------
  // The accumulator and the generator

  /** The pieces `write` collects while it walks the fields. */
  class TokenStreams {
    var constants: seq<ConstDecl>
    var testMutFieldsLock: seq<ResetAssign>
    var testMutFields: seq<ResetParam>
    var defaultFields: seq<FieldInit>
    var fnImplementations: seq<seq<Accessor>>

    constructor ()
      ensures constants == [] && testMutFieldsLock == [] && testMutFields == []
      ensures defaultFields == [] && fnImplementations == []
    {
      constants, testMutFieldsLock, testMutFields := [], [], [];
      defaultFields, fnImplementations := [], [];
    }

    /** Emits the field's constant and its initialiser in the owner's
        `Default`, and returns the constant's name; panics, emitting nothing,
        when that name is not an identifier. */
    method QuoteDefaultValue(owner: string, field: Field) returns (ident: Outcome<string>)
      modifies this
      ensures !IsIdentText(ConstName(owner, field.ident)) ==>
        ident == Panicked(InvalidIdent) && unchanged(this)
      ensures IsIdentText(ConstName(owner, field.ident)) ==>
        && ident == Ok(ConstName(owner, field.ident))
        && constants == old(constants) + [ConstFor(owner, field)]
        && defaultFields == old(defaultFields) + [InitFor(owner, field)]
        && testMutFieldsLock == old(testMutFieldsLock) && testMutFields == old(testMutFields)
        && fnImplementations == old(fnImplementations)
    {
      var name := ConstName(owner, field.ident);
      if !IsIdentText(name) {
        return Panicked(InvalidIdent);
      }
      ident := Ok(name);
      match field.value {
        case Str(_) =>
          constants := constants + [ConstDecl(name, StrRef, field.value)];
          defaultFields := defaultFields + [FieldInit(field.ident, ToOwned(ConstRef(name)))];
        case Other(_) =>
          constants := constants + [ConstDecl(name, Declared(field.ty), field.value)];
          defaultFields := defaultFields + [FieldInit(field.ident, ConstRef(name))];
      }
    }

    /** Emits the two build-dependent accessors of a test-mutable field and
        registers it as a parameter and an assignment of `_reset`. */
    method WriteTestMutableParam(constantName: string, field: Field)
      modifies this
      ensures fnImplementations == old(fnImplementations) + [MutableAccessors(constantName, field)]
      ensures testMutFields == old(testMutFields) + [ResetParam(field.ident, field.ty)]
      ensures testMutFieldsLock == old(testMutFieldsLock) + [ResetAssign(field.ident, field.ident)]
      ensures constants == old(constants) && defaultFields == old(defaultFields)
    {
      var name, ty := field.ident, field.ty;
      match field.value {
        case Str(_) =>
          fnImplementations := fnImplementations + [
            [Accessor(NotTestOnly, name, ty, ToOwned(ConstRef(constantName))),
             Accessor(TestOnly, name, ty, ToOwned(LockedField(name)))]];
        case Other(_) =>
          fnImplementations := fnImplementations + [
            [Accessor(NotTestOnly, name, ty, ConstRef(constantName)),
             Accessor(TestOnly, name, ty, LockedField(name))]];
      }
      testMutFields := testMutFields + [ResetParam(name, ty)];
      testMutFieldsLock := testMutFieldsLock + [ResetAssign(name, name)];
    }

    /** Emits the single accessor of a constant field. */
    method WriteConstantParam(constantName: string, field: Field)
      modifies this
      ensures fnImplementations == old(fnImplementations) + [ConstantAccessors(constantName, field)]
      ensures testMutFields == old(testMutFields) && testMutFieldsLock == old(testMutFieldsLock)
      ensures constants == old(constants) && defaultFields == old(defaultFields)
    {
      var ty, name := field.ty, field.ident;
      match field.value {
        case Str(_) =>
          fnImplementations := fnImplementations + [[Accessor(Always, name, ty, ToOwned(ConstRef(constantName)))]];
        case Other(_) =>
          fnImplementations := fnImplementations + [[Accessor(Always, name, ty, ConstRef(constantName))]];
      }
    }
  }

  /** The generator as the source runs it: one pass over the fields filling
      the accumulator, then the assembly of the items. It fails only by the
      panic of `Ident::new` on a name that is not an identifier. */
  method Write(owner: string, fields: seq<Field>) returns (r: Outcome<Generated>)
    ensures r == WriteResult(owner, fields)
  {
    var ts := new TokenStreams();
    for i := 0 to |fields|
      invariant ConstNamesValid(owner, fields[..i])
      invariant ts.constants == Map(f => ConstFor(owner, f), fields[..i])
      invariant ts.defaultFields == Map(f => InitFor(owner, f), fields[..i])
      invariant ts.fnImplementations == Map((f: Field) => AccessorsFor(ConstName(owner, f.ident), f), fields[..i])
      invariant ts.testMutFields == Map(ResetParamOf, MutFields(fields[..i]))
      invariant ts.testMutFieldsLock == Map(ResetAssignOf, MutFields(fields[..i]))
    {
      var field := fields[i];
      assert fields[..i + 1][..i] == fields[..i];
      ghost var ms := MutFields(fields[..i]);
      assert MutFields(fields[..i + 1]) == ms + if field.kind.Testmutable? then [field] else [];
      var named := ts.QuoteDefaultValue(owner, field);
      if named.IsFailure() {
        ConstNamesValidPrefix(owner, fields, i + 1);
        return Panicked(InvalidIdent);
      }
      var constantName := named.value;
      match field.kind {
        case Testmutable =>
          ts.WriteTestMutableParam(constantName, field);
          MapSnoc(ResetParamOf, ms, field);
          MapSnoc(ResetAssignOf, ms, field);
        case Constant =>
          ts.WriteConstantParam(constantName, field);
          assert ms + [] == ms;
      }
    }
    assert fields[..|fields|] == fields;
    var cornetto, cornettoStatic := "Cornetto" + owner, Upper(owner);
    if !IsIdentText(cornetto) || !IsIdentText(cornettoStatic) {
      return Panicked(InvalidIdent);
    }
    var defaultImpl := DefaultImpl(owner, ts.defaultFields);
    var resetFn := ResetFn(ts.testMutFields, ts.testMutFieldsLock);
    var companion := CompanionStruct(cornetto, Some(owner));
    r := Ok(Generated(ts.constants, defaultImpl, companion, ts.fnImplementations, resetFn, cornettoStatic));
  }

  /** One field whose constant name is not an identifier makes every longer
      list fail as well. */
  lemma {:induction false} ConstNamesValidPrefix(owner: string, fs: seq<Field>, k: nat)
    requires k <= |fs| && !ConstNamesValid(owner, fs[..k])
    ensures !ConstNamesValid(owner, fs)
    decreases |fs|
  {
    if k < |fs| {
      var init := fs[..|fs| - 1];
      assert init[..k] == fs[..k];
      ConstNamesValidPrefix(owner, init, k);
    } else {
      assert fs[..k] == fs;
    }
  }

  // ---------------------------------------------------------------------
  // Properties of the emitted items

  lemma {:induction false} MapAt<A, B>(f: A -> B, s: seq<A>)
    ensures |Map(f, s)| == |s|
    ensures forall i :: 0 <= i < |s| ==> Map(f, s)[i] == f(s[i])
    decreases |s|
  {
    if s != [] {
      MapAt(f, s[..|s| - 1]);
    }
  }

  /** Within one owner, two fields share a constant name exactly when their
      names agree once upper-cased. */
  lemma ConstNameDeterminesField(owner: string, a: string, b: string)
    ensures ConstName(owner, a) == ConstName(owner, b) <==> Upper(a) == Upper(b)
  {
    var prefix := "DEFAULT_" + Upper(owner) + "_";
    assert ConstName(owner, a) == prefix + Upper(a);
    assert ConstName(owner, b) == prefix + Upper(b);
    if ConstName(owner, a) == ConstName(owner, b) {
      assert Upper(a) == (prefix + Upper(a))[|prefix|..];
      assert Upper(b) == (prefix + Upper(b))[|prefix|..];
    }
  }

  /** Across owners the naming scheme is not injective: two distinct owners
      in one module can emit the same constant. */
  lemma ConstNamesCollideAcrossOwners()
    ensures ConstName("A_B", "c") == ConstName("A", "b_c")
  {
    assert Upper("A_B") == "A_B" && Upper("c") == "C";
    assert Upper("A") == "A" && Upper("b_c") == "B_C";
  }

  /** One constant, one `Default` initialiser and one accessor entry per
      field, in declaration order, named after the field. */
  lemma OnePerFieldInOrder(owner: string, fs: seq<Field>)
    ensures var g := Generate(owner, fs);
      && |g.constants| == |g.defaultImpl.inits| == |g.fnImplementations| == |fs|
      && forall i :: 0 <= i < |fs| ==>
           && g.constants[i].name == ConstName(owner, fs[i].ident)
           && g.constants[i].value == fs[i].value
           && g.defaultImpl.inits[i].field == fs[i].ident
           && g.defaultImpl.inits[i].init.ConstRef? != fs[i].value.Str?
           && Source(g.defaultImpl.inits[i].init) == ConstRef(ConstName(owner, fs[i].ident))
           && forall a :: a in g.fnImplementations[i] ==> a.name == fs[i].ident && a.ret == fs[i].ty
  {
    MapAt(f => ConstFor(owner, f), fs);
    MapAt(f => InitFor(owner, f), fs);
    MapAt((f: Field) => AccessorsFor(ConstName(owner, f.ident), f), fs);
  }

  /** The value an expression starts from, before any `.to_string()`. */
  function Source(e: Expr): Expr {
    match e
    case ToOwned(inner) => Source(inner)
    case _ => e
  }

  /** The literal's kind, not the declared type, decides the form: a string
      literal gives a `&str` constant whose uses all go through
      `.to_string()`; any other literal gives a constant of the declared
      type used by value. */
  lemma LiteralKindSelectsForm(owner: string, fs: seq<Field>, i: int)
    requires 0 <= i < |fs|
    ensures var g := Generate(owner, fs);
      && |g.constants| == |g.defaultImpl.inits| == |g.fnImplementations| == |fs|
      && g.constants[i].ty == (if fs[i].value.Str? then StrRef else Declared(fs[i].ty))
      && (g.defaultImpl.inits[i].init.ToOwned? <==> fs[i].value.Str?)
      && forall a :: a in g.fnImplementations[i] ==> (a.body.ToOwned? <==> fs[i].value.Str?)
  {
    OnePerFieldInOrder(owner, fs);
    MapAt(f => ConstFor(owner, f), fs);
    MapAt(f => InitFor(owner, f), fs);
    MapAt((f: Field) => AccessorsFor(ConstName(owner, f.ident), f), fs);
  }

  /** A constant field gets one accessor, present in every build, that
      returns its constant; a test-mutable field gets a production accessor
      that returns the constant and a test accessor that reads the field
      behind the lock. */
  lemma MutabilitySelectsAccessors(owner: string, fs: seq<Field>, i: int)
    requires 0 <= i < |fs|
    ensures |Generate(owner, fs).fnImplementations| == |fs|
    ensures var acc := Generate(owner, fs).fnImplementations[i];
      var c := ConstRef(ConstName(owner, fs[i].ident));
      && (fs[i].kind.Constant? ==>
            |acc| == 1 && acc[0].cfg == Always && Source(acc[0].body) == c)
      && (fs[i].kind.Testmutable? ==>
            && |acc| == 2
            && acc[0].cfg == NotTestOnly && Source(acc[0].body) == c
            && acc[1].cfg == TestOnly && Source(acc[1].body) == LockedField(fs[i].ident))
  {
    MapAt((f: Field) => AccessorsFor(ConstName(owner, f.ident), f), fs);
  }

  /** Selecting the test-mutable fields keeps their order: it distributes
      over concatenation. */
  lemma {:induction false} MutFieldsAppend(a: seq<Field>, b: seq<Field>)
    ensures MutFields(a + b) == MutFields(a) + MutFields(b)
    decreases |b|
  {
    if b == [] {
      assert a + b == a;
    } else {
      var b' := b[..|b| - 1];
      assert (a + b)[..|a + b| - 1] == a + b';
      MutFieldsAppend(a, b');
    }
  }

  /** Exactly the test-mutable fields are selected. */
  lemma {:induction false} MutFieldsMembers(fs: seq<Field>)
    ensures forall f :: f in MutFields(fs) <==> f in fs && f.kind.Testmutable?
    decreases |fs|
  {
    if fs != [] {
      var init := fs[..|fs| - 1];
      MutFieldsMembers(init);
      assert fs == init + [fs[|fs| - 1]];
    }
  }

  /** `_reset` takes exactly the test-mutable fields as parameters, in
      declaration order, and assigns each from its own parameter; its two
      lists always have the same length. */
  lemma ResetTakesMutFields(owner: string, fs: seq<Field>)
    ensures var r := Generate(owner, fs).reset;
      var ms := MutFields(fs);
      && |r.params| == |r.assigns| == |ms|
      && forall k :: 0 <= k < |ms| ==>
           r.params[k] == ResetParam(ms[k].ident, ms[k].ty) &&
           r.assigns[k] == ResetAssign(ms[k].ident, ms[k].ident)
  {
    MapAt(ResetParamOf, MutFields(fs));
    MapAt(ResetAssignOf, MutFields(fs));
  }

  /** The companion is named after the owner, the singleton is the owner's
      name upper-cased, and the test-only mutex over the owner is emitted
      even when no field is test-mutable. */
  lemma CompanionItems(owner: string, fs: seq<Field>)
    ensures var g := Generate(owner, fs);
      && g.companion.name == "Cornetto" + owner
      && g.companion.testState == Some(owner)
      && g.defaultImpl.owner == owner
      && g.staticName == Upper(owner) && |g.staticName| == |owner|
  {
  }

  // ---------------------------------------------------------------------
  // Which names are identifiers

  lemma {:induction false} AllContinueAt(s: string)
    ensures AllContinue(s) <==> forall i :: 0 <= i < |s| ==> IdentContinue(s[i])
    decreases |s|
  {
    if s != [] {
      AllContinueAt(s[1..]);
      assert forall i :: 1 <= i < |s| ==> s[i] == s[1..][i - 1];
    }
  }

  lemma AllContinueAppend(a: string, b: string)
    ensures AllContinue(a + b) <==> AllContinue(a) && AllContinue(b)
  {
    AllContinueAt(a + b);
    AllContinueAt(a);
    AllContinueAt(b);
    if AllContinue(a + b) {
      assert forall i :: 0 <= i < |a| ==> (a + b)[i] == a[i];
      forall i | 0 <= i < |b|
        ensures IdentContinue(b[i])
      {
        assert (a + b)[|a| + i] == b[i];
      }
    }
    if AllContinue(a) && AllContinue(b) {
      forall j | 0 <= j < |a + b|
        ensures IdentContinue((a + b)[j])
      {
        if j >= |a| {
          assert (a + b)[j] == b[j - |a|];
        }
      }
    }
  }

  /** Upper-casing neither adds nor removes identifier characters. */
  lemma UpperCharClass(c: char)
    ensures IdentStart(UpperChar(c)) <==> IdentStart(c)
    ensures IdentContinue(UpperChar(c)) <==> IdentContinue(c)
  {
  }

  lemma AllContinueUpper(s: string)
    ensures AllContinue(Upper(s)) <==> AllContinue(s)
  {
    AllContinueAt(s);
    AllContinueAt(Upper(s));
    forall i | 0 <= i < |s|
      ensures IdentContinue(Upper(s)[i]) <==> IdentContinue(s[i])
    {
      UpperCharClass(s[i]);
    }
  }

  /** A constant name is an identifier exactly when the owner's and the
      field's names consist of identifier characters. */
  lemma ConstNameValid(owner: string, field: string)
    ensures IsIdentText(ConstName(owner, field)) <==> AllContinue(owner) && AllContinue(field)
  {
    var prefix: string := "DEFAULT_";
    AllContinueAt(prefix);
    AllContinueAt("_");
    AllContinueAppend(prefix, Upper(owner));
    AllContinueAppend(prefix + Upper(owner), "_");
    AllContinueAppend(prefix + Upper(owner) + "_", Upper(field));
    AllContinueUpper(owner);
    AllContinueUpper(field);
  }

  lemma {:induction false} ConstNamesValidAt(owner: string, fs: seq<Field>)
    ensures ConstNamesValid(owner, fs) <==>
      forall i :: 0 <= i < |fs| ==> IsIdentText(ConstName(owner, fs[i].ident))
    decreases |fs|
  {
    if fs != [] {
      var init := fs[..|fs| - 1];
      ConstNamesValidAt(owner, init);
      assert forall i :: 0 <= i < |init| ==> init[i] == fs[i];
    }
  }

  /** `write` builds only identifiers exactly when the owner's name is an
      identifier and every field's name consists of identifier characters. */
  lemma NamesValidExactly(owner: string, fs: seq<Field>)
    ensures NamesValid(owner, fs) <==>
      IsIdentText(owner) && forall i :: 0 <= i < |fs| ==> AllContinue(fs[i].ident)
  {
    ConstNamesValidAt(owner, fs);
    forall i | 0 <= i < |fs|
      ensures IsIdentText(ConstName(owner, fs[i].ident)) <==> AllContinue(owner) && AllContinue(fs[i].ident)
    {
      ConstNameValid(owner, fs[i].ident);
    }
    AllContinueAt("Cornetto");
    AllContinueAppend("Cornetto", owner);
    AllContinueUpper(owner);
    if |owner| > 0 {
      UpperCharClass(owner[0]);
    }
  }

  /** A raw identifier such as `r#type` as a field name makes `write`
      panic: its text, with the `#`, ends up in the constant's name. */
  lemma RawFieldNamePanics(owner: string, fs: seq<Field>, i: int)
    requires 0 <= i < |fs| && '#' in fs[i].ident
    ensures WriteResult(owner, fs) == Panicked(InvalidIdent)
  {
    NamesValidExactly(owner, fs);
    AllContinueAt(fs[i].ident);
  }

  /** A raw identifier as the owner's name makes `write` panic. */
  lemma RawOwnerNamePanics(owner: string, fs: seq<Field>)
    requires '#' in owner
    ensures WriteResult(owner, fs) == Panicked(InvalidIdent)
  {
    NamesValidExactly(owner, fs);
    AllContinueAt(owner);
  }
}
