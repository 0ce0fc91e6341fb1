/**
 * The markup tokens the contract assembler consumes, as the markdown lexer
 * produces them: a closed variant over the token kinds the templates emit.
 * Fields the assembler never reads (`raw`, `loose`, `task`, ...) are omitted.
 */
module Markup {
  import opened Common

  /** Heading depths the lexer produces: `#` to `######`. */
  type HeadingDepth = d: int | 1 <= d <= 6 witness 1

  /** The kinds that have a token form of their own below. */
  const NamedKinds: set<string> := {"heading", "text", "paragraph", "space", "list", "list_item", "strong", "br"}

  /** The `type` of any other token. */
  type OtherKind = k: string | k !in NamedKinds witness "em"

  datatype Token =
    | Heading(depth: HeadingDepth, text: string)
      /** `tokens` is absent on plain inline text and present on block text. */
    | Text(text: string, tokens: Option<seq<Token>>)
    | Paragraph(text: string, tokens: Option<seq<Token>>)
    | Space
    | List(ordered: bool, items: seq<Token>)
    | ListItem(text: string, tokens: Option<seq<Token>>)
    | Strong(text: string)
    | Br
      /** Any other kind (em, codespan, link, ...), with its `text` field if it has one. */
    | Other(kind: OtherKind, maybeText: Option<string>)

  /** The token's `text` field when it has one: JavaScript's `"text" in token`. */
  function TextField(t: Token): (r: Option<string>)
    ensures r.None? <==> t.Space? || t.List? || t.Br? || (t.Other? && t.maybeText.None?)
  {
    match t
    case Heading(_, s) => Some(s)
    case Text(s, _) => Some(s)
    case Paragraph(s, _) => Some(s)
    case Space => None
    case List(_, _) => None
    case ListItem(s, _) => Some(s)
    case Strong(s) => Some(s)
    case Br => None
    case Other(_, s) => s
  }
}
