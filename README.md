# Cornetto derive macro — a Dafny model

Cornetto is a Rust derive macro for configuration structs. Every field of
the struct carries an attribute `#[cornetto(const, <literal>)]` or
`#[cornetto(mut, <literal>)]`. From these the derive generates:

- one `DEFAULT_<OWNER>_<FIELD>` constant per field;
- an `impl Default` for the owner;
- a companion struct `Cornetto<Owner>` with one accessor per field;
- a lazily built singleton `<OWNER>`.

A `const` field always returns its constant. A `mut` field returns its
constant in a normal build. In a test build it reads the owner value kept
behind a mutex, and the test-only `_reset` method overwrites that value.

The project models the three parts of the macro:

- `fields.dfy` (module `Fields`) models the attribute parser. `Parse` is
  the source's nested loops over fields, attributes and entries, with the
  two optional slots per field and the early return on the first error. It
  is proved equal to the fold `ParseFields`. Lemmas then describe what that
  fold accepts, what it rejects and with which error.
- `quotes.dfy` (module `Quotes`) models the generator. `TokenStreams` is
  the accumulator the source fills field by field, and its three helpers
  append to it. `Write` is proved to return `WriteResult`. That is
  `Generate`, a field-by-field description of the emitted items, or the
  panic of `Ident::new` when a name it builds is not an identifier.
- `runtime.dfy` (module `Runtime`) gives the emitted items a meaning.
  `Read` is what an accessor call returns in each build. `Companion` is
  the singleton, and its `Reset` is `_reset`. The lemmas state what the
  generated code does: constants, defaults, and values after a reset.
- `lib.dfy` (module `Cornetto`) models `impl_cornetto`, the entry point.
  It also holds a worked example, a `Settings` struct with one `mut` and
  one `const` field.
- `outcomes.dfy` and `syntax.dfy` hold the result type and the small
  syntax tree that the macro reads.

Token streams are replaced by structured data. A literal is either a string
literal or some other literal token. A generated item is a datatype value
(`ConstDecl`, `Accessor`, `ResetFn`, …). The `#[cfg(test)]` switch becomes
the `BuildMode` parameter (`Production`, `Instrumented`).

Behaviour a user of the macro may not expect, which the model keeps:

- The parser reads every attribute of a field, not only `#[cornetto(...)]`.
  The attribute's path is never checked. Any attribute that is not a
  parenthesised list, such as a doc comment, makes the derive fail
  (`NotListAborts`). Entries of several lists are read as one stream, so a
  duplicate is found across attributes (`AttributeBoundaries`).
- A duplicate term is reported before the term itself is checked
  (`DuplicateBeforeUnknown`).
- Only a bare `const` or `mut` names a class. `::const` or `a::mut` is an
  unexpected term, reported without an identifier (`QualifiedTermRejected`).
- A missing `const`/`mut` or a missing literal is a panic (`expect`), not
  an error value. The class is checked first (`Panicked(MissingKind)`
  before `Panicked(MissingValue)`).
- The test-only mutex field and `_reset` are emitted even when no field is
  `mut` (`CompanionItems`, `ResetTakesMutFields`).
- The form of a constant depends on the literal, not on the declared type.
  A string literal always gives a `&str` constant and `.to_string()` at
  every use (`LiteralKindSelectsForm`).
- A raw identifier (`r#type`) as a field or struct name makes the derive
  panic: its text keeps the `#`, which `Ident::new` refuses
  (`RawFieldNamePanics`, `RawOwnerNamePanics`).
- Constant names are not unique across owners (`ConstNamesCollideAcrossOwners`):
  `A_B.c` and `A.b_c` both give `DEFAULT_A_B_C`.

## Model

| member | source | states |
|---|---|---|
| Fields.ParseField | src/fields.rs:21-57 | a descriptor parsed from a field keeps that field's name and declared type |
| Fields.Parse | src/fields.rs:19-60 | the loop parser returns exactly `ParseFields(ds)`: the same descriptors on success, and the same error or panic as the first failing field |
| Fields.ScanEntriesSticky | src/fields.rs:29-50 | once a prefix of a list's entries fails, reading the whole list fails the same way |
| Fields.ScanAttrsSticky | src/fields.rs:24-51 | once a prefix of a field's attributes fails, reading all of them fails the same way |
| Fields.ParseFieldsSticky | src/fields.rs:19-60 | once a prefix of the fields fails, the whole parse fails the same way |
| Fields.ScanEntriesAppend | src/fields.rs:29-50 | reading `a + b` reads `a`, then continues from the resulting slots over `b` (errors in `a` win) |
| Fields.ScanAttrsAppend | src/fields.rs:24-51 | the slots carry over from one attribute to the next; reading `a + b` is reading `a`, then `b` from where it stopped |
| Fields.AttributeBoundaries | src/fields.rs:24-51 | reading the attributes equals reading the single stream of their entries; a non-list attribute yields `NotMetaList` unless an earlier entry already failed; the attribute path is ignored |
| Fields.EntriesCharacterised | src/fields.rs:29-50 | reading entries from empty slots never panics; it succeeds iff no entry is a second term, an unknown term or a second literal; it fails with the first such entry's error; on success it holds the kind of the term and the literal, each present iff the stream has one |
| Fields.SwapNeighbours | src/fields.rs:29-50 | swapping two neighbouring entries changes neither whether the list is accepted nor what it is accepted as |
| Fields.ParseFieldCharacterised | src/fields.rs:21-57 | one field: the first offending entry gives its error, a non-list attribute gives `NotMetaList`, a clean stream without a term panics with `MissingKind`, one with a term but no literal panics with `MissingValue`, and success holds exactly the stream's kind and literal |
| Fields.ParsedFieldsCorrespond | src/fields.rs:19-60 | the parse succeeds iff every field parses, and then returns one descriptor per field, in declaration order |
| Fields.FirstFailureWins | src/fields.rs:19-60 | the parse fails exactly as the first failing field does, whatever follows it |
| Fields.NotListAborts | src/fields.rs:25-28 | a non-list attribute on any field means no descriptors are returned |
| Fields.DuplicateBeforeUnknown | src/fields.rs:31-41 | a second term is reported as a duplicate even when it is unknown, and even when it sits in another attribute |
| Fields.QualifiedTermRejected | src/fields.rs:35-40 | a term with a leading `::` or several segments is an unexpected term, reported with no identifier |
| Syntax.Path.GetIdent | src/fields.rs:40 | a path yields an identifier iff it is one segment without a leading `::`, and that identifier is the one `is_ident` accepts |
| Quotes.TokenStreams.constructor | src/quotes.rs:121-128 | the accumulator starts with every collection empty |
| Quotes.TokenStreams.QuoteDefaultValue | src/quotes.rs:8-45 | panics and emits nothing when `DEFAULT_<OWNER>_<FIELD>` is not an identifier; otherwise returns that name, appends the field's constant (`&str` for a string literal, the declared type otherwise) and its `Default` initialiser (with `.to_string()` for a string literal), and changes nothing else |
| Quotes.TokenStreams.WriteTestMutableParam | src/quotes.rs:47-90 | appends the production accessor returning the constant and the test accessor reading the locked field, then one `_reset` parameter and one assignment; constants and initialisers are unchanged |
| Quotes.TokenStreams.WriteConstantParam | src/quotes.rs:92-119 | appends one accessor present in every build that returns the constant; nothing else changes |
| Quotes.Write | src/quotes.rs:130-183 | the accumulating loop and the assembly return exactly `WriteResult(owner, fields)`: the items of `Generate` when every name built is an identifier, and the `Ident::new` panic otherwise |
| Quotes.ConstNamesValidPrefix | src/quotes.rs:132-133 | once one field's constant name is refused, the whole list of fields is refused |
| Quotes.ConstNameValid | src/quotes.rs:13-18 | a constant name is an identifier iff the owner's and the field's names consist of identifier characters |
| Quotes.NamesValidExactly | src/quotes.rs:130-165 | every name `write` builds is an identifier iff the owner's name is an identifier and every field name consists of identifier characters |
| Quotes.RawFieldNamePanics | src/quotes.rs:13-18 | a field name containing `#` (a raw identifier) makes `write` panic |
| Quotes.RawOwnerNamePanics | src/quotes.rs:164-165 | an owner name containing `#` makes `write` panic |
| Quotes.MapSnoc | src/quotes.rs:132-142 | emitting for one more field appends that field's item to the items so far |
| Quotes.MapAt | src/quotes.rs:132-142 | the per-field collections have one item per field, the i-th built from the i-th field |
| Quotes.ConstNameDeterminesField | src/quotes.rs:13-17 | within one owner, two fields get the same constant name iff their names agree once upper-cased |
| Quotes.ConstNamesCollideAcrossOwners | src/quotes.rs:13-17 | two different owner/field pairs can produce the same constant name |
| Quotes.OnePerFieldInOrder | src/quotes.rs:130-142 | one constant, one initialiser and one accessor entry per field, in declaration order; each carries the field's name, type and literal, and the initialiser starts from the field's constant |
| Quotes.LiteralKindSelectsForm | src/quotes.rs:22-43 | the constant is `&str` iff the literal is a string, and the initialiser and every accessor body apply `.to_string()` iff the literal is a string |
| Quotes.MutabilitySelectsAccessors | src/quotes.rs:54-118 | a `const` field has one accessor present in every build, reading its constant; a `mut` field has a production accessor reading the constant and a test accessor reading the locked field |
| Quotes.MutFieldsAppend | src/quotes.rs:134-141 | selecting the `mut` fields keeps their order: it distributes over concatenation |
| Quotes.MutFieldsMembers | src/quotes.rs:134-141 | exactly the `mut` fields are selected |
| Quotes.ResetTakesMutFields | src/quotes.rs:157-162 | `_reset` has one parameter per `mut` field, in order, with that field's name and type, and assigns each field from its own parameter |
| Quotes.CompanionItems | src/quotes.rs:164-181 | the companion is `Cornetto<Owner>` and carries the owner-typed mutex, the `Default` is for the owner, and the singleton is the owner's name upper-cased |
| Runtime.Companion.constructor | src/quotes.rs:169-180 | the singleton starts with the owner's `Default` value behind the lock |
| Runtime.Companion.Reset | src/quotes.rs:157-162 | `_reset` in the test build makes the locked value exactly the result of applying its assignments, in order, to the old value, published at once |
| Runtime.GeneratedConst | src/quotes.rs:13-43 | when field names stay distinct after upper-casing, a field's constant name resolves to that field's literal |
| Runtime.GeneratedAccessor | src/quotes.rs:54-118 | a call to a field's accessor reaches the body reading the locked field for a `mut` field in the test build, and the body reading the constant otherwise |
| Runtime.ReadsConstant | src/quotes.rs:99-118 | a `const` field in any build, or any field in the production build, reads as the field's default value |
| Runtime.ConstantReadsDefault | src/quotes.rs:99-118 | a `const` field reads as its default in every build, whatever the locked value holds |
| Runtime.ProductionReadsDefault | src/quotes.rs:59-62 | in the production build every accessor returns its field's default |
| Runtime.InstrumentedStartsAtDefault | src/quotes.rs:143-152 | in the test build, before any reset, every accessor returns its field's default (owned string for a string literal) |
| Runtime.ResetStores | src/quotes.rs:157-162 | after `_reset(v1, …, vn)` the k-th `mut` field of the locked value holds `vk` |
| Runtime.ResetThenRead | src/quotes.rs:63-80 | after `_reset(v1, …, vn)` the test accessor of the k-th `mut` field returns `vk` |
| Runtime.ResetLeavesOthers | src/quotes.rs:157-162 | `_reset` leaves every field that is not `mut` untouched |
| Cornetto.ImplCornetto | src/lib.rs:14-22 | generic types are rejected whatever their body; non-generic enums and unions are rejected; a parse failure or panic passes through unchanged; a parsed struct gives what `write` gives |
| Cornetto.DeriveAcceptsExactly | src/lib.rs:14-22 | the derive succeeds iff the type is a non-generic struct whose fields all parse, whose name is an identifier and whose field names consist of identifier characters (no raw identifier), and then emits one accessor entry per struct field, in order, with that field's name and type |
| Cornetto.SettingsParses | src/lib.rs:14-22 | a concrete struct with a `mut` integer field and a `const` string field parses to the expected descriptors, and the derive emits their items |
| Cornetto.SettingsNamesValid | src/quotes.rs:130-165 | for that struct every generated name is an identifier, so `write` emits the items |
| Cornetto.SettingsNames | src/quotes.rs:13-17 | for that struct the constants are `DEFAULT_SETTINGS_PRICE` and `DEFAULT_SETTINGS_LABEL`, the companion is `CornettoSettings` and the singleton is `SETTINGS` |
| Cornetto.SettingsReads | src/quotes.rs:54-118 | for that struct `label()` returns "shop" in both builds, and `price()` returns 200 in production and at the start of the test build |
| Cornetto.SettingsReset | src/quotes.rs:157-162 | for that struct `_reset` takes one argument, and after `_reset(100)` the test build's `price()` returns 100 |

## Left out

- Token streams, `quote!`/`quote_spanned!`, `syn` parsing and `parse_meta`. Their output is modelled as structured data: attributes are either lists of entries or not lists, and literals are strings or other tokens.
- Span hygiene (`Span::mixed_site`). Identifiers are plain strings.
- `cornetto_derive` (src/lib.rs:9-12). It only unwraps the result of `impl_cornetto` and converts token streams. A failure there is a compile error, not something to model.
- The `unwrap` of the field identifier (src/fields.rs:54). The model assumes named fields, because tuple structs have no `ident` and the source panics on them.
- `#[cfg(test)]` conditional compilation. It is modelled as the `BuildMode` parameter.
- The `lazy_static` singleton, `Mutex` poisoning and concurrent callers. `Companion.Reset` is one atomic step, which is what holding the lock for the whole body gives.
- Rust's type checking of the emitted code. For example, whether a non-`Copy` type can be moved out of the lock is not modelled.
- Quotes.IsIdentText: every non-ASCII character is taken to be an identifier character. The Unicode `XID_Start`/`XID_Continue` classes `Ident::new` checks are not modelled.
- Quotes.Write: the panic is `Panicked(InvalidIdent)` without the offending name, so which name is refused first is not distinguished.
- Quotes.Upper: upper-casing is modelled for ASCII letters only. Rust's `to_uppercase` is full Unicode.
- Runtime.GeneratedConst, Runtime.GeneratedAccessor, Runtime.ReadsConstant, Runtime.ConstantReadsDefault, Runtime.ProductionReadsDefault, Runtime.InstrumentedStartsAtDefault, Runtime.ResetThenRead: these require field names that stay distinct once upper-cased. If two names collide, the emitted code does not compile, so there is nothing to state about it.
- Runtime.ResetThenRead: it requires owned strings as the arguments for string fields. That is what the emitted parameter type `String` demands of callers.
- Runtime.ToOwnedValue: `.to_string()` on a non-string value is modelled as the literal's token text, not as its `Display` rendering.
