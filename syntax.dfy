/** Abstract views of the syntax-tree values the derive macro receives from
    its parser library. Only the parts the macro inspects are kept; everything
    else (spans, tokens) is an opaque string. */
module Syntax {
  import opened Outcomes

  /** A literal. The macro tells string literals apart from every other kind
      (integers, floats, booleans, characters, byte strings, ...). */
  datatype Literal = Str(text: string) | Other(token: string)

  /** A type expression, re-emitted verbatim and never inspected. */
  datatype TypeExpr = TypeExpr(tokens: string)

  /** A path such as `const`, `mut`, `a::b` or `::const`: whether it starts
      with `::`, and its segments. */
  datatype Path = Path(leadingColon: bool, segments: seq<string>) {

    /** `is_ident`: the path is that single identifier, without `::`. */
    predicate IsIdent(name: string) {
      !leadingColon && segments == [name]
    }

    /** `get_ident`: the identifier, when the path is a single one. */
    function GetIdent(): (r: Option<string>)
      ensures r.Some? <==> !leadingColon && |segments| == 1
      ensures forall name :: r == Some(name) <==> IsIdent(name)
    {
      if !leadingColon && |segments| == 1 then Some(segments[0]) else None
    }
  }

  /** The path written as one plain identifier. */
  function Simple(name: string): (p: Path)
    ensures p.IsIdent(name)
  {
    Path(false, [name])
  }

  /** One comma-separated entry inside an attribute's parentheses: a meta
      item, of which only the path is consulted, or a literal. */
  datatype Nested = Meta(path: Path) | Lit(lit: Literal)

  /** An attribute as its meta parser sees it: a parenthesised list with its
      path and entries, or anything else (a bare path, a `name = value` pair,
      or text that does not parse as a meta item). */
  datatype Attr = List(path: Path, nested: seq<Nested>) | NotList

  /** A named field of the deriving struct, with all its attributes. */
  datatype RawField = RawField(ident: string, ty: TypeExpr, attrs: seq<Attr>)

  datatype GenericParam = TypeParam(name: string) | LifetimeParam(name: string) | ConstParam(name: string)

  /** The body of the deriving type. */
  datatype Data = Struct(fields: seq<RawField>) | Enum | Union

  /** The type definition the derive is applied to. */
  datatype DeriveInput = DeriveInput(ident: string, generics: seq<GenericParam>, data: Data)
}
