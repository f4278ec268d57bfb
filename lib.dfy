/** The derive entry point: reject what the macro cannot handle, then parse
    the fields and generate the companion. */
module Cornetto {
  import opened Syntax
  import opened Outcomes
  import opened Fields
  import opened Quotes
  import opened Runtime

  /** The derive on one type definition. Generic types are rejected before
      the kind of type is looked at; a parse failure or panic is passed on
      as it is; a parsed struct goes to the generator. */
  function ImplCornetto(input: DeriveInput): (r: Outcome<Generated>)
    ensures input.generics != [] ==> r == Bail(GenericParams)
    ensures input.generics == [] && !input.data.Struct? ==> r == Bail(NotStruct)
    ensures input.generics == [] && input.data.Struct? && !ParseFields(input.data.fields).Ok? ==>
      r == ParseFields(input.data.fields).PropagateFailure()
    ensures input.generics == [] && input.data.Struct? && ParseFields(input.data.fields).Ok? ==>
      r == WriteResult(input.ident, ParseFields(input.data.fields).value)
  {
    if input.generics != [] then Bail(GenericParams)
    else match input.data
      case Struct(ds) =>
        var fields :- ParseFields(ds);
        WriteResult(input.ident, fields)
      case _ => Bail(NotStruct)
  }

  /** The derive succeeds exactly on a non-generic struct each of whose
      fields parses, whose name is an identifier and whose field names are
      not raw identifiers; it then emits one accessor entry per struct field,
      in declaration order, with the field's name and declared type. */
  lemma DeriveAcceptsExactly(input: DeriveInput)
    ensures ImplCornetto(input).Ok? <==>
      && input.generics == []
      && input.data.Struct?
      && (forall i :: 0 <= i < |input.data.fields| ==> ParseField(input.data.fields[i]).Ok?)
      && IsIdentText(input.ident)
      && (forall i :: 0 <= i < |input.data.fields| ==> AllContinue(input.data.fields[i].ident))
    ensures ImplCornetto(input).Ok? ==>
      var ds := input.data.fields;
      var fns := ImplCornetto(input).value.fnImplementations;
      && |fns| == |ds|
      && forall i, a :: 0 <= i < |ds| && a in fns[i] ==> a.name == ds[i].ident && a.ret == ds[i].ty
  {
    if input.generics == [] && input.data.Struct? {
      var ds := input.data.fields;
      ParsedFieldsCorrespond(ds);
      if ParseFields(ds).Ok? {
        var fs := ParseFields(ds).value;
        OnePerFieldInOrder(input.ident, fs);
        NamesValidExactly(input.ident, fs);
        assert forall i :: 0 <= i < |ds| ==> fs[i].ident == ds[i].ident && fs[i].ty == ds[i].ty;
      }
    }
  }

  // ---------------------------------------------------------------------
  // A worked example: `Settings` with `price: mut, 200` and
  // `label: const, "shop"`.

  const U32: TypeExpr := TypeExpr("u32")
  const StringType: TypeExpr := TypeExpr("String")

  const SettingsInput: DeriveInput :=
    DeriveInput("Settings", [], Struct([
      RawField("price", U32, [List(Simple("cornetto"), [Meta(Simple("mut")), Lit(Other("200"))])]),
      RawField("label", StringType, [List(Simple("cornetto"), [Lit(Str("shop")), Meta(Simple("const"))])])]))

  const SettingsFields: seq<Field> :=
    [Field("price", Other("200"), Testmutable, U32), Field("label", Str("shop"), Constant, StringType)]

  lemma SettingsParses()
    ensures ParseFields(SettingsInput.data.fields) == Ok(SettingsFields)
    ensures ImplCornetto(SettingsInput) == Ok(Generate("Settings", SettingsFields))
  {
    var ds := SettingsInput.data.fields;
    var price, shop := ds[0], ds[1];
    assert Entries(price.attrs) == price.attrs[0].nested;
    assert Entries(shop.attrs) == shop.attrs[0].nested;
    ParseFieldCharacterised(price);
    ParseFieldCharacterised(shop);
    assert price.attrs[0].nested[0].Meta? && price.attrs[0].nested[1].Lit?;
    assert shop.attrs[0].nested[1].Meta? && shop.attrs[0].nested[0].Lit?;
    assert HasMetaBefore(Entries(price.attrs), 2) && HasLitBefore(Entries(price.attrs), 2);
    assert HasMetaBefore(Entries(shop.attrs), 2) && HasLitBefore(Entries(shop.attrs), 2);
    assert ParseField(price) == Ok(SettingsFields[0]);
    assert ParseField(shop) == Ok(SettingsFields[1]);
    var one := ds[..1];
    assert one[..|one| - 1] == [] && one[|one| - 1] == price;
    assert ParseFields(one[..|one| - 1]) == Ok([]);
    assert ParseField(one[|one| - 1]) == Ok(SettingsFields[0]);
    assert [] + [SettingsFields[0]] == [SettingsFields[0]];
    assert ParseFields(one) == Ok([SettingsFields[0]]);
    assert ds[..|ds| - 1] == one && ds[|ds| - 1] == shop;
    assert [SettingsFields[0]] + [SettingsFields[1]] == SettingsFields;
    SettingsNamesValid();
  }

  /** Every name the generator builds for `Settings` is an identifier. */
  lemma SettingsNamesValid()
    ensures WriteResult("Settings", SettingsFields) == Ok(Generate("Settings", SettingsFields))
  {
    var fs := SettingsFields;
    assert IsIdentText("Settings");
    assert AllContinue(fs[0].ident) && AllContinue(fs[1].ident);
    assert forall i :: 0 <= i < |fs| ==> AllContinue(fs[i].ident) by {
      forall i | 0 <= i < |fs|
        ensures AllContinue(fs[i].ident)
      {
        assert i == 0 || i == 1;
      }
    }
    NamesValidExactly("Settings", fs);
  }

  /** The names the generator derives for `Settings`. */
  lemma SettingsNames()
    ensures var g := Generate("Settings", SettingsFields);
      && |g.constants| == 2
      && g.constants[0].name == "DEFAULT_SETTINGS_PRICE"
      && g.constants[1].name == "DEFAULT_SETTINGS_LABEL"
      && g.staticName == "SETTINGS" && g.companion.name == "CornettoSettings"
  {
    var fs := SettingsFields;
    assert Upper("Settings") == "SETTINGS";
    assert Upper("price") == "PRICE" && Upper("label") == "LABEL";
    OnePerFieldInOrder("Settings", fs);
  }

  /** `label()` always returns "shop"; `price()` returns 200 in the
      production build and at the start of the test build. */
  lemma SettingsReads(st: State)
    ensures var g := Generate("Settings", SettingsFields);
      && Read(g, Production, st, "label") == Some(Owned("shop"))
      && Read(g, Instrumented, st, "label") == Some(Owned("shop"))
      && Read(g, Production, st, "price") == Some(Scalar("200"))
      && Read(g, Instrumented, DefaultState(g), "price") == Some(Scalar("200"))
  {
    var fs := SettingsFields;
    assert Upper("price") == "PRICE" && Upper("label") == "LABEL";
    assert DistinctUpper(fs);
    ConstantReadsDefault("Settings", fs, 1, Production, st);
    ConstantReadsDefault("Settings", fs, 1, Instrumented, st);
    ProductionReadsDefault("Settings", fs, 0, st);
    InstrumentedStartsAtDefault("Settings", fs, 0);
  }

  /** In the test build, a reset to 100 makes `price()` return 100. */
  lemma SettingsReset(st: State)
    ensures var g := Generate("Settings", SettingsFields);
      && |g.reset.params| == 1
      && Read(g, Instrumented, ResetState(g, st, [Scalar("100")]), "price") == Some(Scalar("100"))
  {
    var fs := SettingsFields;
    assert Upper("price") == "PRICE" && Upper("label") == "LABEL";
    assert DistinctUpper(fs);
    var one := fs[..1];
    assert one[..|one| - 1] == [] && one[|one| - 1] == fs[0];
    assert MutFields(one) == [fs[0]];
    assert fs[..|fs| - 1] == one;
    assert MutFields(fs) == [fs[0]];
    ResetThenRead("Settings", fs, st, [Scalar("100")], 0);
  }

  /** The same scenario on the singleton object: create it in the test
      build, read, reset, read again. */
  method SettingsScenario() {
    var g := Generate("Settings", SettingsFields);
    SettingsReads(map[]);
    SettingsReset(DefaultState(g));
    var settings := new Companion(g, Instrumented);
    assert Read(g, Instrumented, settings.pFields, "price") == Some(Scalar("200"));
    settings.Reset([Scalar("100")]);
    SettingsReads(settings.pFields);
    assert Read(g, Instrumented, settings.pFields, "price") == Some(Scalar("100"));
    assert Read(g, Instrumented, settings.pFields, "label") == Some(Owned("shop"));
  }
}
