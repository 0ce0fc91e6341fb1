/**
 * The document objects the assembler creates, as values: text runs,
 * paragraphs (with a heading style or a numbering annotation), page-break
 * paragraphs, the table of contents, and the numbering definitions of the
 * final file. Fonts, sizes, margins and indents are fixed style data that the
 * serializer consumes; they are not part of this model.
 */
module Docx {
  import opened Common

  const ContractList := "contract-list"
  const DashBullets := "dash-bullets"

  datatype HeadingLevel = Heading1 | Heading2 | Heading3 | Heading4 | Heading5 | Heading6

  /** `new TextRun({ text, bold?, break? })`; a break run has `break: 1`. */
  datatype Run = Run(text: string, bold: bool, lineBreak: bool)

  function PlainRun(text: string): Run { Run(text, false, false) }
  function BoldRun(text: string): Run { Run(text, true, false) }
  const BreakRun := Run("", false, true)

  /** The `numbering` option of a list paragraph. */
  datatype Numbering = Numbering(reference: string, level: nat)

  datatype Element =
      /** `new Paragraph({ text, heading })` */
    | HeadingParagraph(text: string, heading: HeadingLevel)
      /** `new Paragraph({ text, ...paragraphStyles })` */
    | TextParagraph(text: string)
      /** `new Paragraph({ children: runs, ...paragraphStyles, numbering? })` */
    | RunParagraph(runs: seq<Run>, numbering: Option<Numbering>)
      /** `new Paragraph({})` */
    | EmptyParagraph
      /** `new Paragraph({ children: [new PageBreak()] })` */
    | PageBreakParagraph
      /** `new TableOfContents(title, { hyperlink, headingStyleRange })` */
    | TableOfContents(title: string, hyperlink: bool, headingStyleRange: string)

  /** One level of a numbering definition, with its format text when it has one. */
  datatype LevelFormat = LevelFormat(level: nat, text: Option<string>)

  datatype NumberingDefinition = NumberingDefinition(reference: string, levels: seq<LevelFormat>)

  datatype Document = Document(numbering: seq<NumberingDefinition>, children: seq<Element>)

  /** The two numbering definitions of the generated file. */
  const NumberingConfig: seq<NumberingDefinition> := [
    NumberingDefinition(ContractList, [
      LevelFormat(0, Some("%1)")), LevelFormat(1, None), LevelFormat(2, None), LevelFormat(3, None)]),
    NumberingDefinition(DashBullets, [LevelFormat(0, Some("-"))])
  ]

  /** The table of contents placed in front of all sections. */
  const Summary := TableOfContents("Summary", true, "1-5")

  /** True when `config` defines level `level` for reference `reference`. */
  predicate Defines(config: seq<NumberingDefinition>, reference: string, level: nat)
  {
    exists i, j :: 0 <= i < |config| && 0 <= j < |config[i].levels| &&
      config[i].reference == reference && config[i].levels[j].level == level
  }
}
