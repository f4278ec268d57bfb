/** The descriptor parser: from a struct's fields and their attributes to an
    ordered list of field descriptors, or an error. */
module Fields {
  import opened Syntax
  import opened Outcomes

  /** The mutability class of a field. */
  datatype Kind = Constant | Testmutable

  /** A parsed field descriptor. */
  datatype Field = Field(ident: string, value: Literal, kind: Kind, ty: TypeExpr)

  /** The two optional slots the parser fills while it reads one field. */
  datatype Slots = Slots(kind: Option<Kind>, value: Option<Literal>)

  const Empty: Slots := Slots(None, None)

  /** The mutability class a term's path names, if any. */
  function KindOf(p: Path): Option<Kind> {
    if p.IsIdent("const") then Some(Constant)
    else if p.IsIdent("mut") then Some(Testmutable)
    else None
  }

  /** Reading one entry. The duplication check comes before the term is
      validated. */
  function Step(s: Slots, n: Nested): Outcome<Slots> {
    match n
    case Meta(p) =>
      if s.kind.Some? then Bail(DuplicateKind)
      else if KindOf(p).None? then Bail(UnexpectedTerm(p.GetIdent()))
      else Ok(s.(kind := KindOf(p)))
    case Lit(l) =>
      if s.value.Some? then Bail(DuplicateValue)
      else Ok(s.(value := Some(l)))
  }

  /** Reading a group's entries left to right, stopping at the first error. */
  function ScanEntries(s: Slots, es: seq<Nested>): Outcome<Slots>
    decreases |es|
  {
    if es == [] then Ok(s)
    else
      var prev :- ScanEntries(s, es[..|es| - 1]);
      Step(prev, es[|es| - 1])
  }

  /** Reading all attributes of a field left to right; the slots carry over
      from one attribute to the next. */
  function ScanAttrs(s: Slots, attrs: seq<Attr>): Outcome<Slots>
    decreases |attrs|
  {
    if attrs == [] then Ok(s)
    else
      var prev :- ScanAttrs(s, attrs[..|attrs| - 1]);
      match attrs[|attrs| - 1]
      case NotList => Bail(NotMetaList)
      case List(_, es) => ScanEntries(prev, es)
  }

  /** Parsing one field: a missing class is reported before a missing
      literal, and both panic rather than return an error. */
  function ParseField(f: RawField): (r: Outcome<Field>)
    ensures r.Ok? ==> r.value.ident == f.ident && r.value.ty == f.ty
  {
    var s :- ScanAttrs(Empty, f.attrs);
    if s.kind.None? then Panicked(MissingKind)
    else if s.value.None? then Panicked(MissingValue)
    else Ok(Field(f.ident, s.value.value, s.kind.value, f.ty))
  }

  /** Parsing all fields in declaration order; the first field that fails
      ends the parse. */
  function ParseFields(ds: seq<RawField>): Outcome<seq<Field>>
    decreases |ds|
  {
    if ds == [] then Ok([])
    else
      var prev :- ParseFields(ds[..|ds| - 1]);
      var f :- ParseField(ds[|ds| - 1]);
      Ok(prev + [f])
  }

  /** The parser as the source runs it: nested loops over fields, attributes
      and entries, two mutable slots per field, and an early return on the
      first error. */
  method Parse(ds: seq<RawField>) returns (out: Outcome<seq<Field>>)
    ensures out == ParseFields(ds)
  {
    var ret: seq<Field> := [];
    for i := 0 to |ds|
      invariant ParseFields(ds[..i]) == Ok(ret)
    {
      var field := ds[i];
      var kind: Option<Kind> := None;
      var value: Option<Literal> := None;
      for j := 0 to |field.attrs|
        invariant ScanAttrs(Empty, field.attrs[..j]) == Ok(Slots(kind, value))
      {
        var attr := field.attrs[j];
        assert field.attrs[..j + 1][..j] == field.attrs[..j];
        if attr.NotList? {
          BailInField(ds, i, j, NotMetaList);
          return Bail(NotMetaList);
        }
        ghost var start := Slots(kind, value);
        for k := 0 to |attr.nested|
          invariant ScanEntries(start, attr.nested[..k]) == Ok(Slots(kind, value))
        {
          assert attr.nested[..k + 1][..k] == attr.nested[..k];
          match attr.nested[k] {
            case Meta(p) =>
              if kind.Some? {
                BailInEntries(ds, i, j, k, start, DuplicateKind);
                return Bail(DuplicateKind);
              }
              if p.IsIdent("const") {
                kind := Some(Constant);
              } else if p.IsIdent("mut") {
                kind := Some(Testmutable);
              } else {
                BailInEntries(ds, i, j, k, start, UnexpectedTerm(p.GetIdent()));
                return Bail(UnexpectedTerm(p.GetIdent()));
              }
            case Lit(l) =>
              if value.Some? {
                BailInEntries(ds, i, j, k, start, DuplicateValue);
                return Bail(DuplicateValue);
              }
              value := Some(l);
          }
        }
        assert attr.nested[..|attr.nested|] == attr.nested;
      }
      assert field.attrs[..|field.attrs|] == field.attrs;
      assert ds[..i + 1][..i] == ds[..i];
      if kind.None? {
        ParseFieldsSticky(ds, i + 1);
        return Panicked(MissingKind);
      }
      if value.None? {
        ParseFieldsSticky(ds, i + 1);
        return Panicked(MissingValue);
      }
      ret := ret + [Field(field.ident, value.value, kind.value, field.ty)];
    }
    assert ds[..|ds|] == ds;
    return Ok(ret);
  }

  // ---------------------------------------------------------------------
  // An error ends each scan: once a prefix fails, the whole input fails the
  // same way.

  lemma {:induction false} ScanEntriesSticky(s: Slots, es: seq<Nested>, k: nat)
    requires k <= |es| && !ScanEntries(s, es[..k]).Ok?
    ensures ScanEntries(s, es) == ScanEntries(s, es[..k])
    decreases |es|
  {
    if k < |es| {
      var init := es[..|es| - 1];
      assert init[..k] == es[..k];
      ScanEntriesSticky(s, init, k);
    } else {
      assert es[..k] == es;
    }
  }

  lemma {:induction false} ScanAttrsSticky(s: Slots, attrs: seq<Attr>, k: nat)
    requires k <= |attrs| && !ScanAttrs(s, attrs[..k]).Ok?
    ensures ScanAttrs(s, attrs) == ScanAttrs(s, attrs[..k])
    decreases |attrs|
  {
    if k < |attrs| {
      var init := attrs[..|attrs| - 1];
      assert init[..k] == attrs[..k];
      ScanAttrsSticky(s, init, k);
    } else {
      assert attrs[..k] == attrs;
    }
  }

  lemma {:induction false} ParseFieldsSticky(ds: seq<RawField>, k: nat)
    requires k <= |ds| && !ParseFields(ds[..k]).Ok?
    ensures ParseFields(ds) == ParseFields(ds[..k])
    decreases |ds|
  {
    if k < |ds| {
      var init := ds[..|ds| - 1];
      assert init[..k] == ds[..k];
      ParseFieldsSticky(init, k);
    } else {
      assert ds[..k] == ds;
    }
  }

  /** Bailing on attribute `j` of field `i` bails the whole parse. */
  lemma BailInField(ds: seq<RawField>, i: nat, j: nat, e: Error)
    requires i < |ds| && j < |ds[i].attrs|
    requires ParseFields(ds[..i]).Ok?
    requires ScanAttrs(Empty, ds[i].attrs[..j + 1]) == Bail(e)
    ensures ParseFields(ds) == Bail(e)
  {
    ScanAttrsSticky(Empty, ds[i].attrs, j + 1);
    assert ds[..i + 1][..i] == ds[..i];
    ParseFieldsSticky(ds, i + 1);
  }

  /** Bailing on entry `k` of attribute `j` of field `i` bails the whole
      parse. */
  lemma BailInEntries(ds: seq<RawField>, i: nat, j: nat, k: nat, start: Slots, e: Error)
    requires i < |ds| && j < |ds[i].attrs| && ds[i].attrs[j].List? && k < |ds[i].attrs[j].nested|
    requires ParseFields(ds[..i]).Ok?
    requires ScanAttrs(Empty, ds[i].attrs[..j]) == Ok(start)
    requires ScanEntries(start, ds[i].attrs[j].nested[..k + 1]) == Bail(e)
    ensures ParseFields(ds) == Bail(e)
  {
    var attrs := ds[i].attrs;
    ScanEntriesSticky(start, attrs[j].nested, k + 1);
    assert attrs[..j + 1][..j] == attrs[..j];
    BailInField(ds, i, j, e);
  }

  // ---------------------------------------------------------------------
  // Scanning is a left fold: scanning a concatenation scans the first part
  // and continues from where it stopped.

  lemma {:induction false} ScanEntriesAppend(s: Slots, a: seq<Nested>, b: seq<Nested>)
    ensures ScanEntries(s, a + b) ==
      (match ScanEntries(s, a) case Ok(t) => ScanEntries(t, b) case o => o)
    decreases |b|
  {
    if b == [] {
      assert a + b == a;
    } else {
      var b' := b[..|b| - 1];
      assert (a + b)[..|a + b| - 1] == a + b';
      ScanEntriesAppend(s, a, b');
    }
  }

  lemma {:induction false} ScanAttrsAppend(s: Slots, a: seq<Attr>, b: seq<Attr>)
    ensures ScanAttrs(s, a + b) ==
      (match ScanAttrs(s, a) case Ok(t) => ScanAttrs(t, b) case o => o)
    decreases |b|
  {
    if b == [] {
      assert a + b == a;
    } else {
      var b' := b[..|b| - 1];
      assert (a + b)[..|a + b| - 1] == a + b';
      ScanAttrsAppend(s, a, b');
    }
  }

  /** The stream of entries a field's attributes supply, up to the first
      attribute that is not a list. */
  function Entries(attrs: seq<Attr>): seq<Nested> {
    if attrs == [] then []
    else match attrs[0]
      case NotList => []
      case List(_, es) => es + Entries(attrs[1..])
  }

  /** Attribute boundaries do not matter: scanning the attributes is
      scanning the one stream of their entries (so duplicates are found
      across attributes, and the attribute's own path is never looked at),
      and a non-list attribute is an error at its place in that stream. */
  lemma {:induction false} AttributeBoundaries(s: Slots, attrs: seq<Attr>)
    ensures ScanAttrs(s, attrs) ==
      (var o := ScanEntries(s, Entries(attrs));
       if o.Ok? && NotList in attrs then Bail(NotMetaList) else o)
    decreases |attrs|
  {
    if attrs != [] {
      var rest := attrs[1..];
      assert attrs == [attrs[0]] + rest;
      ScanAttrsAppend(s, [attrs[0]], rest);
      assert [attrs[0]][..0] == [];
      match attrs[0]
      case NotList =>
      case List(_, es) =>
        ScanEntriesAppend(s, es, Entries(rest));
        if ScanEntries(s, es).Ok? {
          AttributeBoundaries(ScanEntries(s, es).value, rest);
        }
    }
  }

  // ---------------------------------------------------------------------
  // A declarative account of one entry stream read from empty slots.

  predicate HasMetaBefore(es: seq<Nested>, i: int)
    requires i <= |es|
  {
    exists j :: 0 <= j < i && es[j].Meta?
  }

  predicate HasLitBefore(es: seq<Nested>, i: int)
    requires i <= |es|
  {
    exists j :: 0 <= j < i && es[j].Lit?
  }

  /** Entry `i` is rejected: a term after another term, an unknown term, or
      a literal after another literal. */
  predicate Offends(es: seq<Nested>, i: int)
    requires 0 <= i < |es|
  {
    match es[i]
    case Meta(p) => HasMetaBefore(es, i) || KindOf(p).None?
    case Lit(_) => HasLitBefore(es, i)
  }

  predicate FirstOffence(es: seq<Nested>, i: int) {
    0 <= i < |es| && Offends(es, i) && forall j :: 0 <= j < i ==> !Offends(es, j)
  }

  /** The error an offending entry is reported with. */
  function ErrorAt(es: seq<Nested>, i: int): Error
    requires 0 <= i < |es|
  {
    match es[i]
    case Meta(p) => if HasMetaBefore(es, i) then DuplicateKind else UnexpectedTerm(p.GetIdent())
    case Lit(_) => DuplicateValue
  }

  /** Reading an entry stream from empty slots succeeds exactly when no
      entry offends, fails with the error of the first offending entry, and
      on success holds the class the term names and the literal, each
      present exactly when the stream has one. */
  lemma {:induction false} EntriesCharacterised(es: seq<Nested>)
    ensures !ScanEntries(Empty, es).Panicked?
    ensures ScanEntries(Empty, es).Ok? <==> forall i :: 0 <= i < |es| ==> !Offends(es, i)
    ensures forall i :: FirstOffence(es, i) ==> ScanEntries(Empty, es) == Bail(ErrorAt(es, i))
    ensures ScanEntries(Empty, es).Ok? ==>
      var s := ScanEntries(Empty, es).value;
      && (s.kind.Some? <==> HasMetaBefore(es, |es|))
      && (forall i :: 0 <= i < |es| && es[i].Meta? ==> s.kind == KindOf(es[i].path))
      && (s.value.Some? <==> HasLitBefore(es, |es|))
      && (forall i :: 0 <= i < |es| && es[i].Lit? ==> s.value == Some(es[i].lit))
    decreases |es|
  {
    if es != [] {
      var n := |es| - 1;
      var init := es[..n];
      EntriesCharacterised(init);
      assert forall j :: 0 <= j < n ==> init[j] == es[j];
      assert forall i :: 0 <= i <= n ==> HasMetaBefore(init, i) == HasMetaBefore(es, i);
      assert forall i :: 0 <= i <= n ==> HasLitBefore(init, i) == HasLitBefore(es, i);
      assert forall i :: 0 <= i < n ==> Offends(init, i) == Offends(es, i);
      assert forall i :: 0 <= i < n ==> ErrorAt(init, i) == ErrorAt(es, i);
      assert es[..n] == init;
      if ScanEntries(Empty, init).Ok? {
        var s := ScanEntries(Empty, init).value;
        assert ScanEntries(Empty, es) == Step(s, es[n]);
        assert Step(s, es[n]).Ok? <==> !Offends(es, n);
      } else {
        var i :| 0 <= i < n && Offends(init, i);
        assert Offends(es, i);
      }
      forall i | FirstOffence(es, i)
        ensures ScanEntries(Empty, es) == Bail(ErrorAt(es, i))
      {
        if i < n {
          assert FirstOffence(init, i);
        }
      }
    }
  }

  lemma ScanPair(t: Slots, x: Nested, y: Nested)
    ensures ScanEntries(t, [x, y]) == (var u :- Step(t, x); Step(u, y))
  {
    assert [x, y][..1] == [x] && [x][..0] == [];
    assert ScanEntries(t, [x]) == Step(t, x);
  }

  /** Two neighbouring entries may be read in either order: whether the
      stream is accepted, and what it is accepted as, do not change. Only
      absence and duplication matter. */
  lemma SwapNeighbours(s: Slots, a: seq<Nested>, x: Nested, y: Nested, b: seq<Nested>)
    ensures ScanEntries(s, a + [x, y] + b).Ok? == ScanEntries(s, a + [y, x] + b).Ok?
    ensures ScanEntries(s, a + [x, y] + b).Ok? ==>
      ScanEntries(s, a + [x, y] + b) == ScanEntries(s, a + [y, x] + b)
  {
    ScanEntriesAppend(s, a + [x, y], b);
    ScanEntriesAppend(s, a + [y, x], b);
    ScanEntriesAppend(s, a, [x, y]);
    ScanEntriesAppend(s, a, [y, x]);
    match ScanEntries(s, a)
    case Ok(t) =>
      ScanPair(t, x, y);
      ScanPair(t, y, x);
    case _ =>
  }

  /** What one field parses to, in terms of its entry stream: an error when
      an entry offends or an attribute is not a list, a panic when the class
      or the literal is missing (the class first), and otherwise the
      descriptor holding the one class and the one literal of the stream. */
  lemma ParseFieldCharacterised(f: RawField)
    ensures var es := Entries(f.attrs);
      var clean := NotList !in f.attrs && forall i :: 0 <= i < |es| ==> !Offends(es, i);
      && (forall i :: FirstOffence(es, i) ==> ParseField(f) == Bail(ErrorAt(es, i)))
      && (NotList in f.attrs && (forall i :: 0 <= i < |es| ==> !Offends(es, i)) ==>
            ParseField(f) == Bail(NotMetaList))
      && (ParseField(f) == Panicked(MissingKind) <==> clean && !HasMetaBefore(es, |es|))
      && (ParseField(f) == Panicked(MissingValue) <==>
            clean && HasMetaBefore(es, |es|) && !HasLitBefore(es, |es|))
      && (ParseField(f).Ok? <==> clean && HasMetaBefore(es, |es|) && HasLitBefore(es, |es|))
      && (ParseField(f).Ok? ==>
            && (forall i :: 0 <= i < |es| && es[i].Meta? ==>
                  KindOf(es[i].path) == Some(ParseField(f).value.kind))
            && (forall i :: 0 <= i < |es| && es[i].Lit? ==> es[i].lit == ParseField(f).value.value))
  {
    AttributeBoundaries(Empty, f.attrs);
    EntriesCharacterised(Entries(f.attrs));
  }

  /** A successful parse holds one descriptor per field, in declaration
      order, each the one its field parses to; and the parse succeeds
      exactly when every field does. */
  lemma {:induction false} ParsedFieldsCorrespond(ds: seq<RawField>)
    ensures ParseFields(ds).Ok? <==> forall i :: 0 <= i < |ds| ==> ParseField(ds[i]).Ok?
    ensures ParseFields(ds).Ok? ==>
      && |ParseFields(ds).value| == |ds|
      && forall i :: 0 <= i < |ds| ==> ParseField(ds[i]) == Ok(ParseFields(ds).value[i])
    decreases |ds|
  {
    if ds != [] {
      var init := ds[..|ds| - 1];
      ParsedFieldsCorrespond(init);
      assert forall i :: 0 <= i < |init| ==> init[i] == ds[i];
    }
  }

  /** No partial list: the parse fails exactly as the first failing field
      does, whatever the fields after it hold. */
  lemma FirstFailureWins(ds: seq<RawField>, i: nat)
    requires i < |ds| && !ParseField(ds[i]).Ok?
    requires forall j :: 0 <= j < i ==> ParseField(ds[j]).Ok?
    ensures ParseFields(ds) == ParseField(ds[i]).PropagateFailure()
  {
    var prefix := ds[..i];
    assert forall j :: 0 <= j < i ==> prefix[j] == ds[j];
    ParsedFieldsCorrespond(prefix);
    assert ds[..i + 1][..i] == prefix;
    ParseFieldsSticky(ds, i + 1);
  }

  /** An attribute that is not a list anywhere in the struct means the
      parse returns no descriptors. */
  lemma NotListAborts(ds: seq<RawField>, i: nat)
    requires i < |ds| && NotList in ds[i].attrs
    ensures !ParseFields(ds).Ok?
  {
    ParseFieldCharacterised(ds[i]);
    ParsedFieldsCorrespond(ds);
  }

  /** A second term is reported as a duplicate before it is checked, even
      when it is no term at all, and even when it sits in another
      attribute. */
  lemma DuplicateBeforeUnknown(name: string, ty: TypeExpr, p: Path, q: Path, r: Path, l: Literal)
    ensures ParseField(RawField(name, ty, [List(p, [Meta(Simple("const")), Meta(Simple("foo"))])])) == Bail(DuplicateKind)
    ensures ParseField(RawField(name, ty, [List(p, [Meta(Simple("mut")), Lit(l)]), List(q, [Meta(r)])])) == Bail(DuplicateKind)
  {
    var f1 := RawField(name, ty, [List(p, [Meta(Simple("const")), Meta(Simple("foo"))])]);
    var f2 := RawField(name, ty, [List(p, [Meta(Simple("mut")), Lit(l)]), List(q, [Meta(r)])]);
    assert Entries(f1.attrs) == [Meta(Simple("const")), Meta(Simple("foo"))];
    assert Entries(f1.attrs)[0].Meta?;
    assert f2.attrs[1..] == [List(q, [Meta(r)])] && f2.attrs[1..][1..] == [];
    assert Entries(f2.attrs[1..]) == [Meta(r)];
    assert Entries(f2.attrs) == [Meta(Simple("mut")), Lit(l)] + [Meta(r)];
    assert Entries(f2.attrs)[0].Meta?;
    ParseFieldCharacterised(f1);
    ParseFieldCharacterised(f2);
    assert FirstOffence(Entries(f1.attrs), 1);
    assert FirstOffence(Entries(f2.attrs), 2);
  }

  /** Only a bare `const` or `mut` names a class: a term with a leading `::`
      or with several segments, such as `::const` or `a::mut`, is an
      unexpected term, reported without an identifier. */
  lemma QualifiedTermRejected(name: string, ty: TypeExpr, p: Path, q: Path, l: Literal)
    requires q.leadingColon || |q.segments| != 1
    ensures ParseField(RawField(name, ty, [List(p, [Meta(q), Lit(l)])])) == Bail(UnexpectedTerm(None))
  {
    var f := RawField(name, ty, [List(p, [Meta(q), Lit(l)])]);
    assert f.attrs[1..] == [];
    assert Entries(f.attrs) == [Meta(q), Lit(l)];
    ParseFieldCharacterised(f);
    assert FirstOffence(Entries(f.attrs), 0);
  }
}
