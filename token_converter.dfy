/**
 * Conversion of one markup token into document elements (`handleToken`),
 * threading the list context `{ currentList, level }` down the tree and
 * registering every ordered list in the list-numbering registry.
 *
 * `Elements` states what the conversion produces without reference to the
 * registry: the registry decides only the numbering reference of a list item,
 * and an ordered list is always registered before its items are converted.
 */
module TokenConverter {
  import opened Common
  import opened Markup
  import opened Docx
  import opened ParagraphRuns
  import opened ListRegistry

  /** The heading depth a heading style stands for (the inverse of `LevelToHeadingLevel`). */
  function HeadingNumber(h: HeadingLevel): nat
  {
    match h
    case Heading1 => 1
    case Heading2 => 2
    case Heading3 => 3
    case Heading4 => 4
    case Heading5 => 5
    case Heading6 => 6
  }

  /** `levelToHeadingLevel[depth]`: defined for depths 1 to 6 only. */
  function LevelToHeadingLevel(depth: int): (h: HeadingLevel)
    requires 1 <= depth <= 6
    ensures HeadingNumber(h) == depth
  {
    if depth == 1 then Heading1
    else if depth == 2 then Heading2
    else if depth == 3 then Heading3
    else if depth == 4 then Heading4
    else if depth == 5 then Heading5
    else Heading6
  }

  /** The `opts` argument of `handleToken`; both fields may be absent. */
  datatype Context = Context(currentList: Option<ListId>, level: Option<nat>)

  /** The context each top-level token is converted with: `{}`. */
  const NoContext := Context(None, None)

  /** `opts.level !== undefined ? opts.level + 1 : 0`: the level of a list's items. */
  function ItemLevel(level: Option<nat>): nat
  {
    if level.Some? then level.value + 1 else 0
  }

  /** `(currentList ? lists[currentList] : undefined)?.ref ?? "dash-bullets"` */
  function ResolveReference(currentList: Option<ListId>, lists: map<ListId, ListEntry>): string
  {
    if currentList.Some? && currentList.value in lists then lists[currentList.value].reference
    else DashBullets
  }

  /**
   * The elements a token converts to when its list items resolve to numbering
   * reference `reference` at context level `level`.
   */
  function Elements(t: Token, reference: string, level: Option<nat>): seq<Element>
    decreases t
  {
    match t
    case Heading(depth, text) => [HeadingParagraph(text, LevelToHeadingLevel(depth))]
    case Text(text, _) => [TextParagraph(text)]
    case Paragraph(_, tokens) => [RunParagraph(FlattenRuns(tokens.GetOr([])), None)]
    case Space => [EmptyParagraph]
    case List(ordered, items) =>
      ElementsOfAll(items, if ordered then ContractList else DashBullets, Some(ItemLevel(level)))
    case ListItem(_, _) => [ItemParagraph(t, reference, level)]
    case Strong(_) => []
    case Br => []
    case Other(_, _) => []
  }

  /** A sequence of tokens (the items of one list, or a whole section), each converted in the same context, concatenated in order. */
  function ElementsOfAll(items: seq<Token>, reference: string, level: Option<nat>): seq<Element>
    decreases items
  {
    if items == [] then [] else Elements(items[0], reference, level) + ElementsOfAll(items[1..], reference, level)
  }

  /** Ordered lists in a token, counting those reachable through list items. */
  function OrderedListCount(t: Token): nat
    decreases t
  {
    if t.List? then (if t.ordered then 1 else 0) + OrderedListCountOfAll(t.items) else 0
  }

  function OrderedListCountOfAll(items: seq<Token>): nat
    decreases items
  {
    if items == [] then 0 else OrderedListCount(items[0]) + OrderedListCountOfAll(items[1..])
  }

  lemma {:induction false} ElementsOfAllAppend(a: seq<Token>, b: seq<Token>, reference: string, level: Option<nat>)
    ensures ElementsOfAll(a + b, reference, level) == ElementsOfAll(a, reference, level) + ElementsOfAll(b, reference, level)
  {
    if a == [] {
      assert a + b == b;
    } else {
      assert (a + b)[1..] == a[1..] + b;
      ElementsOfAllAppend(a[1..], b, reference, level);
    }
  }

  lemma {:induction false} OrderedListCountOfAllAppend(a: seq<Token>, b: seq<Token>)
    ensures OrderedListCountOfAll(a + b) == OrderedListCountOfAll(a) + OrderedListCountOfAll(b)
  {
    if a == [] {
      assert a + b == b;
    } else {
      assert (a + b)[1..] == a[1..] + b;
      OrderedListCountOfAllAppend(a[1..], b);
    }
  }

  /** One more item adds its own elements at the end. */
  lemma ElementsOfAllStep(items: seq<Token>, i: nat, reference: string, level: Option<nat>)
    requires i < |items|
    ensures ElementsOfAll(items[..i + 1], reference, level) == ElementsOfAll(items[..i], reference, level) + Elements(items[i], reference, level)
  {
    assert items[..i + 1] == items[..i] + [items[i]];
    ElementsOfAllAppend(items[..i], [items[i]], reference, level);
  }

  /** One more item adds its own ordered lists. */
  lemma OrderedListCountOfAllStep(items: seq<Token>, i: nat)
    requires i < |items|
    ensures OrderedListCountOfAll(items[..i + 1]) == OrderedListCountOfAll(items[..i]) + OrderedListCount(items[i])
  {
    assert items[..i + 1] == items[..i] + [items[i]];
    OrderedListCountOfAllAppend(items[..i], [items[i]]);
  }

  /** Registrations only append: earlier entries keep their reference and instance. */
  lemma RegistrationsKeepEntries(
    lists0: map<ListId, ListEntry>, order0: seq<ListId>, issued0: nat,
    lists1: map<ListId, ListEntry>, order1: seq<ListId>, issued1: nat)
    requires WellNumbered(lists0, order0, issued0) && WellNumbered(lists1, order1, issued1)
    requires order0 <= order1
    ensures forall id :: id in lists0 ==> id in lists1 && lists1[id] == lists0[id]
  {
    forall id | id in lists0
      ensures id in lists1 && lists1[id] == lists0[id]
    {
      var i :| 0 <= i < |order0| && order0[i] == id;
      assert order1[i] == id;
    }
  }

  /**
   * `handleToken(token, opts)`. The elements are those `Elements` describes for
   * the reference the context resolves to; the registry gains one entry per
   * ordered list in the token, appended in conversion order, and keeps all of
   * its earlier entries.
   */
  method HandleToken(reg: Registry, t: Token, ctx: Context) returns (els: seq<Element>)
    requires reg.Valid()
    modifies reg
    decreases t
    ensures reg.Valid()
    ensures els == Elements(t, ResolveReference(ctx.currentList, old(reg.lists)), ctx.level)
    ensures old(reg.order) <= reg.order
    ensures |reg.order| == |old(reg.order)| + OrderedListCount(t)
    ensures reg.issued >= old(reg.issued)
    ensures forall id :: id in old(reg.lists) ==> id in reg.lists && reg.lists[id] == old(reg.lists[id])
  {
    match t {
      case Heading(depth, text) =>
        els := [HeadingParagraph(text, LevelToHeadingLevel(depth))];
      case Text(text, _) =>
        els := [TextParagraph(text)];
      case Paragraph(_, tokens) =>
        var runs := HandleParagraphChildren(tokens);
        els := [RunParagraph(runs, None)];
      case Space =>
        els := [EmptyParagraph];
      case List(ordered, items) =>
        var listId := reg.FreshId();
        if ordered {
          reg.RegisterOrdered(listId);
        }
        var itemContext := Context(if ordered then Some(listId) else None, Some(ItemLevel(ctx.level)));
        ghost var reference := if ordered then ContractList else DashBullets;
        ghost var registered := |old(reg.order)| + (if ordered then 1 else 0);
        els := [];
        for i := 0 to |items|
          invariant reg.Valid()
          invariant els == ElementsOfAll(items[..i], reference, itemContext.level)
          invariant old(reg.order) <= reg.order
          invariant |reg.order| == registered + OrderedListCountOfAll(items[..i])
          invariant reg.issued >= old(reg.issued)
          invariant ordered ==> listId in reg.lists && reg.lists[listId].reference == ContractList
        {
          ghost var lists0, order0, issued0 := reg.lists, reg.order, reg.issued;
          assert ResolveReference(itemContext.currentList, reg.lists) == reference;
          var itemElements := HandleToken(reg, items[i], itemContext);
          RegistrationsKeepEntries(lists0, order0, issued0, reg.lists, reg.order, reg.issued);
          els := els + itemElements;
          ElementsOfAllStep(items, i, reference, itemContext.level);
          OrderedListCountOfAllStep(items, i);
        }
        assert items[..|items|] == items;
        RegistrationsKeepEntries(old(reg.lists), old(reg.order), old(reg.issued), reg.lists, reg.order, reg.issued);
      case ListItem(_, tokens) =>
        var list := if ctx.currentList.Some? then reg.Lookup(ctx.currentList.value) else None;
        var runs := HandleParagraphChildren(tokens);
        var reference := if list.Some? then list.value.reference else DashBullets;
        els := [RunParagraph(runs, Some(Numbering(reference, ctx.level.GetOr(0))))];
      case Strong(_) =>
        els := [];
      case Br =>
        els := [];
      case Other(_, _) =>
        els := [];
    }
  }

  /**
   * Paragraphs a token yields: one per heading, text, paragraph, space and
   * list item, none per strong, br or other token, and a list yields its items'.
   */
  function ParagraphCount(t: Token): nat
    decreases t
  {
    match t
    case List(_, items) => ParagraphCountOfAll(items)
    case Strong(_) => 0
    case Br => 0
    case Other(_, _) => 0
    case _ => 1
  }

  function ParagraphCountOfAll(items: seq<Token>): nat
    decreases items
  {
    if items == [] then 0 else ParagraphCount(items[0]) + ParagraphCountOfAll(items[1..])
  }

  /** The number of elements depends only on the token, never on reference or level. */
  lemma {:induction false} ElementCount(t: Token, reference: string, level: Option<nat>)
    ensures |Elements(t, reference, level)| == ParagraphCount(t)
    decreases t
  {
    if t.List? {
      ElementCountOfAll(t.items, if t.ordered then ContractList else DashBullets, Some(ItemLevel(level)));
    }
  }

  lemma {:induction false} ElementCountOfAll(items: seq<Token>, reference: string, level: Option<nat>)
    ensures |ElementsOfAll(items, reference, level)| == ParagraphCountOfAll(items)
    decreases items
  {
    if items != [] {
      ElementCount(items[0], reference, level);
      ElementCountOfAll(items[1..], reference, level);
    }
  }

  /** An element the converter can produce: never a page break nor a table of contents. */
  predicate IsContent(e: Element)
  {
    !e.PageBreakParagraph? && !e.TableOfContents?
  }

  lemma {:induction false} ElementsAreContent(t: Token, reference: string, level: Option<nat>)
    ensures forall e :: e in Elements(t, reference, level) ==> IsContent(e)
    decreases t
  {
    if t.List? {
      AllAreContent(t.items, if t.ordered then ContractList else DashBullets, Some(ItemLevel(level)));
    }
  }

  lemma {:induction false} AllAreContent(items: seq<Token>, reference: string, level: Option<nat>)
    ensures forall e :: e in ElementsOfAll(items, reference, level) ==> IsContent(e)
    decreases items
  {
    if items != [] {
      ElementsAreContent(items[0], reference, level);
      AllAreContent(items[1..], reference, level);
    }
  }

  /** The paragraph of one list item at reference `reference` and context level `level`. */
  function ItemParagraph(item: Token, reference: string, level: Option<nat>): Element
    requires item.ListItem?
  {
    RunParagraph(FlattenRuns(item.tokens.GetOr([])), Some(Numbering(reference, level.GetOr(0))))
  }

  /**
   * A list whose items are all list items yields exactly one numbered paragraph
   * per item, in item order, tagged with the list's reference ("contract-list"
   * when ordered, "dash-bullets" otherwise) and the level one deeper than the
   * context's (0 at top level).
   */
  lemma {:induction false} ListParagraphs(ordered: bool, items: seq<Token>, reference: string, level: Option<nat>)
    requires forall i :: 0 <= i < |items| ==> items[i].ListItem?
    ensures |Elements(List(ordered, items), reference, level)| == |items|
    ensures forall i :: 0 <= i < |items| ==>
      Elements(List(ordered, items), reference, level)[i] ==
      ItemParagraph(items[i], if ordered then ContractList else DashBullets, Some(ItemLevel(level)))
  {
    ItemsParagraphs(items, if ordered then ContractList else DashBullets, Some(ItemLevel(level)));
  }

  lemma {:induction false} ItemsParagraphs(items: seq<Token>, reference: string, level: Option<nat>)
    requires forall i :: 0 <= i < |items| ==> items[i].ListItem?
    ensures |ElementsOfAll(items, reference, level)| == |items|
    ensures forall i :: 0 <= i < |items| ==> ElementsOfAll(items, reference, level)[i] == ItemParagraph(items[i], reference, level)
  {
    if items != [] {
      ItemsParagraphs(items[1..], reference, level);
    }
  }

  /** The numbering reference of each numbered paragraph among `els` is one of `references`. */
  predicate NumberedFrom(els: seq<Element>, references: set<string>)
  {
    forall e :: e in els && e.RunParagraph? && e.numbering.Some? ==> e.numbering.value.reference in references
  }

  /** Starting from a known reference, every numbered paragraph uses "contract-list" or "dash-bullets". */
  lemma {:induction false} ReferencesAreKnown(t: Token, reference: string, level: Option<nat>)
    requires reference == ContractList || reference == DashBullets
    ensures NumberedFrom(Elements(t, reference, level), {ContractList, DashBullets})
    decreases t
  {
    if t.List? {
      AllReferencesAreKnown(t.items, if t.ordered then ContractList else DashBullets, Some(ItemLevel(level)));
    }
  }

  lemma {:induction false} AllReferencesAreKnown(items: seq<Token>, reference: string, level: Option<nat>)
    requires reference == ContractList || reference == DashBullets
    ensures NumberedFrom(ElementsOfAll(items, reference, level), {ContractList, DashBullets})
    decreases items
  {
    if items != [] {
      ReferencesAreKnown(items[0], reference, level);
      AllReferencesAreKnown(items[1..], reference, level);
    }
  }

  /** The lexer's shape: the items of a list are list items (nested lists live inside them). */
  predicate LexerShaped(t: Token)
  {
    t.List? ==> forall i :: 0 <= i < |t.items| ==> t.items[i].ListItem?
  }

  /**
   * A top-level token of the lexer's shape yields numbering level 0 only: a list
   * nested in a list item is never converted, so no deeper level arises.
   */
  lemma TopLevelNumberingIsLevelZero(t: Token)
    requires LexerShaped(t)
    ensures forall e :: e in Elements(t, DashBullets, None) && e.RunParagraph? && e.numbering.Some? ==>
                         e.numbering.value.level == 0
  {
    if t.List? {
      ListParagraphs(t.ordered, t.items, DashBullets, None);
    }
  }
}
