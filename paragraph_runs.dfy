/**
 * Flattening of a paragraph's inline tokens into text runs
 * (`handleParagraphChildren`). A `text` child that carries nested tokens is
 * expanded one level deep; any other child becomes at most one run.
 */
module ParagraphRuns {
  import opened Common
  import opened Markup
  import opened Docx

  /** The run for one token nested inside a `text` child: only text, br and strong count. */
  function NestedRun(t: Token): seq<Run>
  {
    match t
    case Text(s, _) => [PlainRun(s)]
    case Br => [BreakRun]
    case Strong(s) => [BoldRun(s)]
    case _ => []
  }

  function NestedRuns(ts: seq<Token>): seq<Run>
  {
    if ts == [] then [] else NestedRun(ts[0]) + NestedRuns(ts[1..])
  }

  /** The runs for one direct child of the paragraph. */
  function ChildRuns(child: Token): seq<Run>
  {
    match child
    case Text(s, nested) => if nested.Some? then NestedRuns(nested.value) else [PlainRun(s)]
    case Br => [BreakRun]
    case _ => if TextField(child).Some? then [PlainRun(TextField(child).value)] else []
  }

  /** The runs of a whole paragraph: each child's runs, in child order. */
  function FlattenRuns(children: seq<Token>): seq<Run>
  {
    if children == [] then [] else ChildRuns(children[0]) + FlattenRuns(children[1..])
  }

  lemma {:induction false} NestedRunsAppend(a: seq<Token>, b: seq<Token>)
    ensures NestedRuns(a + b) == NestedRuns(a) + NestedRuns(b)
  {
    if a == [] {
      assert a + b == b;
    } else {
      assert (a + b)[0] == a[0];
      assert (a + b)[1..] == a[1..] + b;
      NestedRunsAppend(a[1..], b);
      calc {
        NestedRuns(a + b);
        NestedRun(a[0]) + NestedRuns(a[1..] + b);
        NestedRun(a[0]) + (NestedRuns(a[1..]) + NestedRuns(b));
        (NestedRun(a[0]) + NestedRuns(a[1..])) + NestedRuns(b);
      }
    }
  }

  /** Token order is run order: the runs of `a + b` are those of `a`, then those of `b`. */
  lemma {:induction false} FlattenRunsAppend(a: seq<Token>, b: seq<Token>)
    ensures FlattenRuns(a + b) == FlattenRuns(a) + FlattenRuns(b)
  {
    if a == [] {
      assert a + b == b;
    } else {
      assert (a + b)[1..] == a[1..] + b;
      FlattenRunsAppend(a[1..], b);
    }
  }

  /** One more nested token adds its own run (if any) at the end. */
  lemma NestedRunsStep(ts: seq<Token>, j: nat)
    requires j < |ts|
    ensures NestedRuns(ts[..j + 1]) == NestedRuns(ts[..j]) + NestedRun(ts[j])
  {
    assert ts[..j + 1] == ts[..j] + [ts[j]];
    NestedRunsAppend(ts[..j], [ts[j]]);
  }

  /** One more child adds its own runs at the end. */
  lemma FlattenRunsStep(children: seq<Token>, i: nat)
    requires i < |children|
    ensures FlattenRuns(children[..i + 1]) == FlattenRuns(children[..i]) + ChildRuns(children[i])
  {
    assert children[..i + 1] == children[..i] + [children[i]];
    FlattenRunsAppend(children[..i], [children[i]]);
  }

  /** The inner loop of `handleParagraphChildren`: pushes the runs of a `text` child's nested tokens. */
  method AppendNestedRuns(runs: seq<Run>, nested: seq<Token>) returns (result: seq<Run>)
    ensures result == runs + NestedRuns(nested)
  {
    result := runs;
    for j := 0 to |nested|
      invariant result == runs + NestedRuns(nested[..j])
    {
      var token := nested[j];
      ghost var done := result;
      if token.Text? {
        result := result + [PlainRun(token.text)];
      } else if token.Br? {
        result := result + [BreakRun];
      } else if token.Strong? {
        result := result + [BoldRun(token.text)];
      }
      assert result == done + NestedRun(token);
      NestedRunsStep(nested, j);
    }
    assert nested[..|nested|] == nested;
  }

  /** `handleParagraphChildren(tokens)`: absent tokens give no runs. */
  method HandleParagraphChildren(tokens: Option<seq<Token>>) returns (result: seq<Run>)
    ensures result == FlattenRuns(tokens.GetOr([]))
  {
    result := [];
    var children := tokens.GetOr([]);
    for i := 0 to |children|
      invariant result == FlattenRuns(children[..i])
    {
      var child := children[i];
      ghost var before := result;
      if child.Text? {
        if child.tokens.Some? {
          result := AppendNestedRuns(result, child.tokens.value);
        } else {
          result := result + [PlainRun(child.text)];
        }
      } else if child.Br? {
        result := result + [BreakRun];
      } else if TextField(child).Some? {
        result := result + [PlainRun(TextField(child).value)];
      }
      assert result == before + ChildRuns(child);
      FlattenRunsStep(children, i);
    }
    assert children[..|children|] == children;
  }

  /** A line-break run is always empty and never bold. */
  lemma {:induction false} BreakRunsAreEmpty(children: seq<Token>)
    ensures forall r :: r in FlattenRuns(children) && r.lineBreak ==> r == BreakRun
  {
    if children != [] {
      BreakRunsAreEmpty(children[1..]);
      var c := children[0];
      if c.Text? && c.tokens.Some? {
        NestedBreakRunsAreEmpty(c.tokens.value);
      }
    }
  }

  lemma {:induction false} NestedBreakRunsAreEmpty(ts: seq<Token>)
    ensures forall r :: r in NestedRuns(ts) && r.lineBreak ==> r == BreakRun
  {
    if ts != [] {
      NestedBreakRunsAreEmpty(ts[1..]);
    }
  }

  /** True when some token nested in a `text` child of `children` is `strong` with this text. */
  ghost predicate HasNestedStrong(children: seq<Token>, text: string)
  {
    exists i, j :: 0 <= i < |children| && children[i].Text? && children[i].tokens.Some? &&
      0 <= j < |children[i].tokens.value| && children[i].tokens.value[j] == Strong(text)
  }

  /**
   * Bold runs come only from `strong` tokens nested inside a `text` child; a
   * `strong` that is itself a direct child yields a plain run.
   */
  lemma {:induction false} BoldOnlyFromNestedStrong(children: seq<Token>)
    ensures forall r :: r in FlattenRuns(children) && r.bold ==> HasNestedStrong(children, r.text)
  {
    if children != [] {
      BoldOnlyFromNestedStrong(children[1..]);
      var c := children[0];
      forall r | r in FlattenRuns(children) && r.bold
        ensures HasNestedStrong(children, r.text)
      {
        if r in ChildRuns(c) {
          assert c.Text? && c.tokens.Some?;
          var j := NestedBoldSource(c.tokens.value, r);
          assert children[0].tokens.value[j] == Strong(r.text);
        } else {
          assert r in FlattenRuns(children[1..]);
          var i, j :| 0 <= i < |children[1..]| && children[1..][i].Text? && children[1..][i].tokens.Some? &&
            0 <= j < |children[1..][i].tokens.value| && children[1..][i].tokens.value[j] == Strong(r.text);
          assert children[i + 1] == children[1..][i];
        }
      }
    }
  }

  lemma {:induction false} NestedBoldSource(ts: seq<Token>, r: Run) returns (j: nat)
    requires r in NestedRuns(ts) && r.bold
    ensures j < |ts| && ts[j] == Strong(r.text)
  {
    if r in NestedRun(ts[0]) {
      j := 0;
    } else {
      var k := NestedBoldSource(ts[1..], r);
      j := k + 1;
    }
  }

  /**
   * A paragraph whose direct children are text "Hello", a break and strong
   * "World" yields a plain "World": only nested strong tokens are bold.
   */
  lemma DirectStrongIsPlain()
    ensures FlattenRuns([Text("Hello", None), Br, Strong("World")]) ==
      [PlainRun("Hello"), BreakRun, PlainRun("World")]
  {
  }

  /** The same three tokens nested inside one block `text` child: "World" is bold. */
  lemma NestedStrongIsBold()
    ensures FlattenRuns([Text("Hello\nWorld", Some([Text("Hello", None), Br, Strong("World")]))]) ==
      [PlainRun("Hello"), BreakRun, BoldRun("World")]
  {
  }
}
