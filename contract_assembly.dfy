/**
 * Assembly of the whole contract (`buildDocx` and the section loop of
 * `generateDocx`): every section is converted token by token with an empty
 * context, sections are separated by page-break paragraphs, and the document
 * starts with a table of contents and a page break. The list-numbering
 * registry is shared by all sections and all runs.
 */
module ContractAssembly {
  import opened Common
  import opened Markup
  import opened Docx
  import opened ParagraphRuns
  import opened ListRegistry
  import opened TokenConverter

  /** The contract's sections, in document order. */
  const Files: seq<string> := [
    "partijen", "overwegingen", "definities", "deel_1",
    "deel_3_1", "deel_3_2", "deel_3_3", "deel_3_4",
    "deel_3_5", "deel_3_6", "deel_3_7", "ondertekening"
  ]

  /** The elements of one section: each top-level token converted with `{}`. */
  function BuildElements(tokens: seq<Token>): seq<Element>
  {
    ElementsOfAll(tokens, DashBullets, None)
  }

  /** `buildDocx(tokens)` */
  method BuildDocx(reg: Registry, tokens: seq<Token>) returns (children: seq<Element>)
    requires reg.Valid()
    modifies reg
    ensures reg.Valid()
    ensures children == BuildElements(tokens)
    ensures old(reg.order) <= reg.order
    ensures |reg.order| == |old(reg.order)| + OrderedListCountOfAll(tokens)
  {
    children := [];
    for i := 0 to |tokens|
      invariant reg.Valid()
      invariant children == ElementsOfAll(tokens[..i], DashBullets, None)
      invariant old(reg.order) <= reg.order
      invariant |reg.order| == |old(reg.order)| + OrderedListCountOfAll(tokens[..i])
    {
      var els := HandleToken(reg, tokens[i], NoContext);
      children := children + els;
      ElementsOfAllStep(tokens, i, DashBullets, None);
      OrderedListCountOfAllStep(tokens, i);
    }
    assert tokens[..|tokens|] == tokens;
  }

  /** Sections joined with one page break between neighbours and none after the last. */
  function JoinWithBreaks(sections: seq<seq<Element>>): seq<Element>
  {
    if sections == [] then []
    else if |sections| == 1 then sections[0]
    else sections[0] + [PageBreakParagraph] + JoinWithBreaks(sections[1..])
  }

  lemma {:induction false} JoinWithBreaksAppend(sections: seq<seq<Element>>, last: seq<Element>)
    requires sections != []
    ensures JoinWithBreaks(sections + [last]) == JoinWithBreaks(sections) + [PageBreakParagraph] + last
  {
    if |sections| > 1 {
      assert (sections + [last])[1..] == sections[1..] + [last];
      JoinWithBreaksAppend(sections[1..], last);
    }
  }

  /** The converted elements of every section, section by section. */
  function SectionsElements(sectionTokens: seq<seq<Token>>): (ss: seq<seq<Element>>)
    ensures |ss| == |sectionTokens|
    ensures forall k :: 0 <= k < |ss| ==> ss[k] == BuildElements(sectionTokens[k])
  {
    seq(|sectionTokens|, k requires 0 <= k < |sectionTokens| => BuildElements(sectionTokens[k]))
  }

  /** Ordered lists over all sections. */
  function SectionsOrderedListCount(sectionTokens: seq<seq<Token>>): nat
  {
    if sectionTokens == [] then 0
    else SectionsOrderedListCount(sectionTokens[..|sectionTokens| - 1]) + OrderedListCountOfAll(sectionTokens[|sectionTokens| - 1])
  }

  /** One more section adds its own elements and ordered lists. */
  lemma SectionsStep(sectionTokens: seq<seq<Token>>, i: nat)
    requires i < |sectionTokens|
    ensures SectionsElements(sectionTokens[..i + 1]) == SectionsElements(sectionTokens[..i]) + [BuildElements(sectionTokens[i])]
    ensures SectionsOrderedListCount(sectionTokens[..i + 1]) ==
            SectionsOrderedListCount(sectionTokens[..i]) + OrderedListCountOfAll(sectionTokens[i])
  {
    assert sectionTokens[..i + 1][..i] == sectionTokens[..i];
  }

  /**
   * `allChildren` after the first `i` sections: those sections joined, and a
   * page break waiting for the next section unless none follows.
   */
  function Assembled(sectionTokens: seq<seq<Token>>, i: nat): seq<Element>
    requires i <= |sectionTokens|
  {
    JoinWithBreaks(SectionsElements(sectionTokens[..i])) + (if 0 < i < |sectionTokens| then [PageBreakParagraph] else [])
  }

  lemma AssembledStep(sectionTokens: seq<seq<Token>>, i: nat)
    requires i < |sectionTokens|
    ensures Assembled(sectionTokens, i + 1) ==
            Assembled(sectionTokens, i) + BuildElements(sectionTokens[i]) +
            (if i < |sectionTokens| - 1 then [PageBreakParagraph] else [])
  {
    SectionsStep(sectionTokens, i);
    var before := SectionsElements(sectionTokens[..i]);
    var section := BuildElements(sectionTokens[i]);
    var tail: seq<Element> := if i < |sectionTokens| - 1 then [PageBreakParagraph] else [];
    if i > 0 {
      JoinWithBreaksAppend(before, section);
      assert Assembled(sectionTokens, i) == JoinWithBreaks(before) + [PageBreakParagraph];
    } else {
      assert before + [section] == [section];
      assert Assembled(sectionTokens, i) == [];
    }
    assert Assembled(sectionTokens, i + 1) == JoinWithBreaks(before + [section]) + tail;
  }

  /**
   * `generateDocx`: `sectionTokens[i]` is the lexed, rendered text of section
   * `Files[i]`. The document holds the table of contents, a page break and the
   * joined sections; the registry gains one entry per ordered list of all
   * sections, continuing from where earlier runs left it.
   */
  method GenerateDocx(reg: Registry, sectionTokens: seq<seq<Token>>) returns (doc: Document)
    requires reg.Valid()
    requires |sectionTokens| == |Files|
    modifies reg
    ensures reg.Valid()
    ensures doc.numbering == NumberingConfig
    ensures doc.children == DocumentChildren(sectionTokens)
    ensures old(reg.order) <= reg.order
    ensures |reg.order| == |old(reg.order)| + SectionsOrderedListCount(sectionTokens)
  {
    var allChildren: seq<Element> := [];
    for i := 0 to |Files|
      invariant reg.Valid()
      invariant allChildren == Assembled(sectionTokens, i)
      invariant old(reg.order) <= reg.order
      invariant |reg.order| == |old(reg.order)| + SectionsOrderedListCount(sectionTokens[..i])
    {
      var children := BuildDocx(reg, sectionTokens[i]);
      SectionsStep(sectionTokens, i);
      AssembledStep(sectionTokens, i);
      allChildren := allChildren + children;
      if i < |Files| - 1 {
        allChildren := allChildren + [PageBreakParagraph];
      }
    }
    assert sectionTokens[..|Files|] == sectionTokens;
    doc := Document(NumberingConfig, [Summary, PageBreakParagraph] + allChildren);
  }

  /** Number of page-break paragraphs among `els`. */
  function CountPageBreaks(els: seq<Element>): nat
  {
    if els == [] then 0 else (if els[0].PageBreakParagraph? then 1 else 0) + CountPageBreaks(els[1..])
  }

  lemma {:induction false} CountPageBreaksAppend(a: seq<Element>, b: seq<Element>)
    ensures CountPageBreaks(a + b) == CountPageBreaks(a) + CountPageBreaks(b)
  {
    if a == [] {
      assert a + b == b;
    } else {
      assert (a + b)[1..] == a[1..] + b;
      CountPageBreaksAppend(a[1..], b);
    }
  }

  lemma {:induction false} ContentHasNoPageBreaks(els: seq<Element>)
    requires forall e :: e in els ==> IsContent(e)
    ensures CountPageBreaks(els) == 0
  {
    if els != [] {
      assert IsContent(els[0]);
      ContentHasNoPageBreaks(els[1..]);
    }
  }

  /** Sections free of page breaks joined: exactly one break between neighbours. */
  lemma {:induction false} JoinedPageBreaks(sections: seq<seq<Element>>)
    requires sections != []
    requires forall k, e :: 0 <= k < |sections| && e in sections[k] ==> IsContent(e)
    ensures CountPageBreaks(JoinWithBreaks(sections)) == |sections| - 1
  {
    ContentHasNoPageBreaks(sections[0]);
    if |sections| > 1 {
      JoinedPageBreaks(sections[1..]);
      CountPageBreaksAppend(sections[0], [PageBreakParagraph]);
      CountPageBreaksAppend(sections[0] + [PageBreakParagraph], JoinWithBreaks(sections[1..]));
    }
  }

  lemma {:induction false} JoinedAreContent(sections: seq<seq<Element>>)
    requires forall k, e :: 0 <= k < |sections| && e in sections[k] ==> IsContent(e)
    ensures forall e :: e in JoinWithBreaks(sections) ==> IsContent(e) || e == PageBreakParagraph
  {
    if |sections| > 1 {
      JoinedAreContent(sections[1..]);
    }
  }

  lemma SectionsAreContent(sectionTokens: seq<seq<Token>>)
    ensures forall k, e :: 0 <= k < |sectionTokens| && e in SectionsElements(sectionTokens)[k] ==> IsContent(e)
  {
    forall k | 0 <= k < |sectionTokens|
      ensures forall e :: e in BuildElements(sectionTokens[k]) ==> IsContent(e)
    {
      AllAreContent(sectionTokens[k], DashBullets, None);
    }
  }

  /** The children `generateDocx` puts into the document's one section. */
  function DocumentChildren(sectionTokens: seq<seq<Token>>): seq<Element>
  {
    [Summary, PageBreakParagraph] + JoinWithBreaks(SectionsElements(sectionTokens))
  }

  /**
   * The document starts with the table of contents, which occurs nowhere else,
   * then a page break; it holds one page break per section in all: the leading
   * one and one between each two neighbouring sections.
   */
  lemma {:induction false} DocumentShape(sectionTokens: seq<seq<Token>>)
    requires |sectionTokens| == |Files|
    ensures DocumentChildren(sectionTokens)[0] == Summary
    ensures DocumentChildren(sectionTokens)[1] == PageBreakParagraph
    ensures forall i :: 0 < i < |DocumentChildren(sectionTokens)| ==> !DocumentChildren(sectionTokens)[i].TableOfContents?
    ensures CountPageBreaks(DocumentChildren(sectionTokens)) == |Files|
  {
    var joined := JoinWithBreaks(SectionsElements(sectionTokens));
    SectionsAreContent(sectionTokens);
    JoinedPageBreaks(SectionsElements(sectionTokens));
    JoinedAreContent(SectionsElements(sectionTokens));
    CountPageBreaksAppend([Summary, PageBreakParagraph], joined);
    var children := DocumentChildren(sectionTokens);
    forall i | 0 < i < |children|
      ensures !children[i].TableOfContents?
    {
      if i >= 2 {
        assert children[i] == joined[i - 2] && joined[i - 2] in joined;
      }
    }
  }

  lemma {:induction false} SectionReferencesAreKnown(sectionTokens: seq<seq<Token>>)
    ensures forall k :: 0 <= k < |sectionTokens| ==>
      NumberedFrom(SectionsElements(sectionTokens)[k], {ContractList, DashBullets})
  {
    forall k | 0 <= k < |sectionTokens|
      ensures NumberedFrom(BuildElements(sectionTokens[k]), {ContractList, DashBullets})
    {
      AllReferencesAreKnown(sectionTokens[k], DashBullets, None);
    }
  }

  lemma {:induction false} JoinedReferences(sections: seq<seq<Element>>, references: set<string>)
    requires forall k :: 0 <= k < |sections| ==> NumberedFrom(sections[k], references)
    ensures NumberedFrom(JoinWithBreaks(sections), references)
  {
    if |sections| > 1 {
      JoinedReferences(sections[1..], references);
    }
  }

  /** Every numbering reference used in the document has a numbering definition. */
  lemma NumberingReferencesDefined(sectionTokens: seq<seq<Token>>)
    ensures forall e :: e in DocumentChildren(sectionTokens) && e.RunParagraph? && e.numbering.Some? ==>
                          exists d :: d in NumberingConfig && d.reference == e.numbering.value.reference
  {
    SectionReferencesAreKnown(sectionTokens);
    JoinedReferences(SectionsElements(sectionTokens), {ContractList, DashBullets});
    assert NumberingConfig[0].reference == ContractList;
    assert NumberingConfig[1].reference == DashBullets;
  }

  /** Every numbered paragraph among `els` is at numbering level 0. */
  predicate NumberedAtLevelZero(els: seq<Element>)
  {
    forall e :: e in els && e.RunParagraph? && e.numbering.Some? ==> e.numbering.value.level == 0
  }

  lemma {:induction false} SectionLevelsAreZero(tokens: seq<Token>)
    requires forall t :: t in tokens ==> LexerShaped(t)
    ensures NumberedAtLevelZero(BuildElements(tokens))
  {
    if tokens != [] {
      TopLevelNumberingIsLevelZero(tokens[0]);
      SectionLevelsAreZero(tokens[1..]);
    }
  }

  /**
   * For lexer-shaped sections every numbered paragraph refers to a level its
   * numbering definition defines (level 0, defined by both definitions).
   */
  lemma NumberingLevelsDefined(sectionTokens: seq<seq<Token>>)
    requires forall k, t :: 0 <= k < |sectionTokens| && t in sectionTokens[k] ==> LexerShaped(t)
    ensures forall e :: e in DocumentChildren(sectionTokens) && e.RunParagraph? && e.numbering.Some? ==>
                          Defines(NumberingConfig, e.numbering.value.reference, e.numbering.value.level)
  {
    var ss := SectionsElements(sectionTokens);
    forall k | 0 <= k < |ss|
      ensures NumberedAtLevelZero(ss[k])
    {
      SectionLevelsAreZero(sectionTokens[k]);
    }
    JoinedLevelsAreZero(ss);
    NumberingReferencesDefined(sectionTokens);
    assert NumberingConfig[0].levels[0].level == 0;
    assert NumberingConfig[1].levels[0].level == 0;
    assert Defines(NumberingConfig, ContractList, 0);
    assert Defines(NumberingConfig, DashBullets, 0);
    SectionReferencesAreKnown(sectionTokens);
    JoinedReferences(ss, {ContractList, DashBullets});
  }

  lemma {:induction false} JoinedLevelsAreZero(sections: seq<seq<Element>>)
    requires forall k :: 0 <= k < |sections| ==> NumberedAtLevelZero(sections[k])
    ensures NumberedAtLevelZero(JoinWithBreaks(sections))
  {
    if |sections| > 1 {
      JoinedLevelsAreZero(sections[1..]);
    }
  }
}
