/**
 * The terminal report viewer: greedy word wrap of a labelled value, and the
 * rule that a JSON section with nothing in it is not printed at all.
 */
module ReportView {
  import opened Wrappers
  import opened Text

  /** The width labelled values are wrapped to. */
  const ValueWidth := 66

  /** Words joined with single spaces. */
  function Line(g: seq<string>): string
  {
    Join(g, " ")
  }

  /**
   * The greedy grouping of words into lines: a word opens a new line only
   * when the current line plus a space plus the word would exceed `width`.
   */
  function Group(words: seq<string>, width: nat): (gs: seq<seq<string>>)
    ensures |words| == 0 <==> |gs| == 0
    ensures forall k :: 0 <= k < |gs| ==> |gs[k]| > 0
  {
    if |words| == 0 then []
    else
      var gs := Group(words[..|words| - 1], width);
      var w := words[|words| - 1];
      if |gs| == 0 then [[w]]
      else if |Line(gs[|gs| - 1])| + |w| + 1 > width then gs + [[w]]
      else gs[..|gs| - 1] + [gs[|gs| - 1] + [w]]
  }

  function Lines(gs: seq<seq<string>>): (r: seq<string>)
    ensures |r| == |gs|
    ensures forall k :: 0 <= k < |gs| ==> r[k] == Line(gs[k])
  {
    if |gs| == 0 then [] else Lines(gs[..|gs| - 1]) + [Line(gs[|gs| - 1])]
  }

  function Flatten(gs: seq<seq<string>>): seq<string>
  {
    if |gs| == 0 then [] else Flatten(gs[..|gs| - 1]) + gs[|gs| - 1]
  }

  /** `_wrap(text, width)`: the lines, or a single empty line when there are no words. */
  function Wrap(text: string, width: nat): seq<string>
  {
    var gs := Group(Words(text), width);
    if |gs| == 0 then [""] else Lines(gs)
  }

  /** The lines finished so far: all groups but the last. */
  function Finished(gs: seq<seq<string>>): seq<string>
  {
    if |gs| == 0 then [] else Lines(gs[..|gs| - 1])
  }

  /** The line being built: the last group, or nothing yet. */
  function Current(gs: seq<seq<string>>): string
  {
    if |gs| == 0 then "" else Line(gs[|gs| - 1])
  }

  /** What the wrap loop's state becomes when it reads one more (non-empty) word. */
  lemma WrapStep(words: seq<string>, i: nat, width: nat)
    requires i < |words| && |words[i]| > 0
    ensures var gs, w := Group(words[..i], width), words[i];
            var next := Group(words[..i + 1], width);
            |next| > 0 &&
            (|gs| == 0 ==> Finished(next) == [] && Current(next) == w) &&
            (|gs| > 0 && |Current(gs)| + |w| + 1 > width ==>
               Finished(next) == Finished(gs) + [Current(gs)] && Current(next) == w) &&
            (|gs| > 0 && |Current(gs)| + |w| + 1 <= width ==>
               Finished(next) == Finished(gs) && Current(next) == Current(gs) + " " + w)
  {
    var gs, w := Group(words[..i], width), words[i];
    assert words[..i + 1][..i] == words[..i];
    GroupStep(words[..i + 1], width);
    var next := Group(words[..i + 1], width);
    assert Line([w]) == w;
    if |gs| > 0 && |Current(gs)| + |w| + 1 > width {
      assert next == gs + [[w]];
      assert next[..|next| - 1] == gs;
      assert gs == gs[..|gs| - 1] + [gs[|gs| - 1]];
    } else if |gs| > 0 {
      JoinAppend(gs[|gs| - 1], w, " ");
      assert next[..|next| - 1] == gs[..|gs| - 1];
    }
  }

  /** `_wrap`: walks the words, building `current` and appending finished lines. */
  method WrapLoop(text: string, width: nat) returns (lines: seq<string>)
    ensures lines == Wrap(text, width)
  {
    var words := Words(text);
    lines := [];
    var current := "";
    for i := 0 to |words|
      invariant lines == Finished(Group(words[..i], width)) && current == Current(Group(words[..i], width))
      invariant |Group(words[..i], width)| == 0 <==> current == ""
    {
      var word := words[i];
      WrapStep(words, i, width);
      if current != "" && |current| + |word| + 1 > width {
        lines := lines + [current];
        current := word;
      } else {
        if current != "" {
          current := current + " " + word;
        } else {
          current := word;
        }
      }
    }
    assert words[..|words|] == words;
    ghost var gs := Group(words, width);
    if current != "" {
      lines := lines + [current];
      assert gs == gs[..|gs| - 1] + [gs[|gs| - 1]];
    }
    if |lines| == 0 {
      lines := [""];
    }
  }

  /** One more word either extends the last line or opens a new one. */
  lemma GroupStep(words: seq<string>, width: nat)
    requires |words| > 0
    ensures var gs := Group(words[..|words| - 1], width);
            var w := words[|words| - 1];
            if |gs| > 0 && |Line(gs[|gs| - 1])| + |w| + 1 <= width
            then Group(words, width) == gs[..|gs| - 1] + [gs[|gs| - 1] + [w]]
            else Group(words, width) == gs + [[w]]
  {
  }

  lemma FlattenSnoc(gs: seq<seq<string>>, g: seq<string>)
    ensures Flatten(gs + [g]) == Flatten(gs) + g
  {
    assert (gs + [g])[..|gs|] == gs;
  }

  /** Regrouping: the words of the lines, read in order, are the words of the text. */
  lemma {:induction false} GroupKeepsWords(words: seq<string>, width: nat)
    ensures Flatten(Group(words, width)) == words
  {
    if |words| > 0 {
      var front := words[..|words| - 1];
      var gs := Group(front, width);
      var w := words[|words| - 1];
      GroupKeepsWords(front, width);
      GroupStep(words, width);
      assert words == front + [w];
      if |gs| > 0 && |Line(gs[|gs| - 1])| + |w| + 1 <= width {
        assert gs == gs[..|gs| - 1] + [gs[|gs| - 1]];
        FlattenExtendLast(gs[..|gs| - 1], gs[|gs| - 1], w);
      } else {
        FlattenSnoc(gs, [w]);
      }
    }
  }

  lemma FlattenExtendLast(init: seq<seq<string>>, last: seq<string>, w: string)
    ensures Flatten(init + [last + [w]]) == Flatten(init + [last]) + [w]
  {
    FlattenSnoc(init, last);
    FlattenSnoc(init, last + [w]);
  }

  /** Every line fits the width, or holds a single word. */
  predicate LinesFit(gs: seq<seq<string>>, width: nat)
  {
    forall k :: 0 <= k < |gs| ==> |Line(gs[k])| <= width || |gs[k]| == 1
  }

  predicate NonEmptyLines(gs: seq<seq<string>>)
  {
    forall k :: 0 <= k < |gs| ==> |gs[k]| > 0
  }

  /** Every line break was forced: the next line's first word did not fit. */
  predicate BreaksForced(gs: seq<seq<string>>, width: nat)
    requires NonEmptyLines(gs)
  {
    forall k :: 0 <= k < |gs| - 1 ==> |Line(gs[k])| + 1 + |gs[k + 1][0]| > width
  }

  /**
   * No line is longer than the width unless it is a single word, and each
   * line after the first starts with a word that did not fit on the line
   * before.
   */
  lemma {:induction false} GroupFitsGreedily(words: seq<string>, width: nat)
    ensures NonEmptyLines(Group(words, width))
    ensures LinesFit(Group(words, width), width) && BreaksForced(Group(words, width), width)
  {
    if |words| > 0 {
      var front := words[..|words| - 1];
      var gs := Group(front, width);
      var w := words[|words| - 1];
      GroupFitsGreedily(front, width);
      GroupStep(words, width);
      if |gs| > 0 && |Line(gs[|gs| - 1])| + |w| + 1 <= width {
        assert gs == gs[..|gs| - 1] + [gs[|gs| - 1]];
        FitsExtendingLast(gs[..|gs| - 1], gs[|gs| - 1], w, width);
      } else {
        FitsOpeningLine(gs, w, width);
      }
    }
  }

  /** A word that fits joins the last line; fit and forced breaks are kept. */
  lemma FitsExtendingLast(init: seq<seq<string>>, last: seq<string>, w: string, width: nat)
    requires |Line(last)| + |w| + 1 <= width
    requires NonEmptyLines(init + [last])
    requires LinesFit(init + [last], width) && BreaksForced(init + [last], width)
    ensures NonEmptyLines(init + [last + [w]])
    ensures LinesFit(init + [last + [w]], width) && BreaksForced(init + [last + [w]], width)
  {
    var gs, r := init + [last], init + [last + [w]];
    assert NonEmptyLines(r) by {
      forall k | 0 <= k < |r|
        ensures |r[k]| > 0
      {
        if k < |init| {
          assert r[k] == gs[k];
        }
      }
    }
    assert gs[|init|] == last;
    JoinAppend(last, w, " ");
    forall k | 0 <= k < |r|
      ensures |Line(r[k])| <= width || |r[k]| == 1
    {
      if k < |init| {
        assert r[k] == gs[k];
      }
    }
    forall k | 0 <= k < |r| - 1
      ensures |Line(r[k])| + 1 + |r[k + 1][0]| > width
    {
      assert r[k] == gs[k];
      assert r[k + 1][0] == gs[k + 1][0];
    }
  }

  /** A word that does not fit opens a new line; fit and forced breaks are kept. */
  lemma FitsOpeningLine(gs: seq<seq<string>>, w: string, width: nat)
    requires |gs| > 0 ==> |Line(gs[|gs| - 1])| + |w| + 1 > width
    requires NonEmptyLines(gs)
    requires LinesFit(gs, width) && BreaksForced(gs, width)
    ensures NonEmptyLines(gs + [[w]])
    ensures LinesFit(gs + [[w]], width) && BreaksForced(gs + [[w]], width)
  {
    var r := gs + [[w]];
    assert NonEmptyLines(r) by {
      forall k | 0 <= k < |r|
        ensures |r[k]| > 0
      {
        if k < |gs| {
          assert r[k] == gs[k];
        }
      }
    }
    forall k | 0 <= k < |r|
      ensures |Line(r[k])| <= width || |r[k]| == 1
    {
      if k < |gs| {
        assert r[k] == gs[k];
      }
    }
    forall k | 0 <= k < |r| - 1
      ensures |Line(r[k])| + 1 + |r[k + 1][0]| > width
    {
      assert r[k] == gs[k];
      if k + 1 < |gs| {
        assert r[k + 1] == gs[k + 1];
      }
    }
  }

  lemma {:induction false} JoinFlatten(gs: seq<seq<string>>)
    requires forall k :: 0 <= k < |gs| ==> |gs[k]| > 0
    ensures Join(Lines(gs), " ") == Join(Flatten(gs), " ")
  {
    if |gs| > 1 {
      var front := gs[..|gs| - 1];
      var last := gs[|gs| - 1];
      JoinFlatten(front);
      assert Lines(gs) == Lines(front) + [Line(last)];
      JoinAppend(Lines(front), Line(last), " ");
      FlattenNonEmpty(front);
      JoinConcat(Flatten(front), last);
      assert gs == front + [last];
      FlattenSnoc(front, last);
    } else if |gs| == 1 {
      assert Lines(gs) == [Line(gs[0])];
      assert Join(Lines(gs), " ") == Line(gs[0]);
      assert gs == [] + [gs[0]];
      FlattenSnoc([], gs[0]);
      assert Flatten(gs) == gs[0];
    }
  }

  lemma {:induction false} FlattenNonEmpty(gs: seq<seq<string>>)
    requires |gs| > 0 && forall k :: 0 <= k < |gs| ==> |gs[k]| > 0
    ensures |Flatten(gs)| > 0
  {
    assert gs == gs[..|gs| - 1] + [gs[|gs| - 1]];
    FlattenSnoc(gs[..|gs| - 1], gs[|gs| - 1]);
  }

  /** Joining two non-empty word lists puts one space between them. */
  lemma {:induction false} JoinConcat(a: seq<string>, b: seq<string>)
    requires |a| > 0 && |b| > 0
    ensures Join(a + b, " ") == Join(a, " ") + " " + Join(b, " ")
    decreases |b|
  {
    if |b| == 1 {
      JoinAppend(a, b[0], " ");
      assert a + b == a + [b[0]];
    } else {
      var front := b[..|b| - 1];
      JoinConcat(a, front);
      assert a + b == (a + front) + [b[|b| - 1]];
      JoinAppend(a + front, b[|b| - 1], " ");
      JoinAppend(front, b[|b| - 1], " ");
      assert b == front + [b[|b| - 1]];
    }
  }

  /**
   * The wrapped lines, joined by single spaces, give back the text's words
   * joined by single spaces; there is a single empty line exactly when the
   * text has no words.
   */
  lemma WrapKeepsWords(text: string, width: nat)
    ensures Wrap(text, width) == [""] <==> |Words(text)| == 0
    ensures |Words(text)| > 0 ==> Join(Wrap(text, width), " ") == Join(Words(text), " ")
  {
    var words := Words(text);
    var gs := Group(words, width);
    if |words| > 0 {
      GroupKeepsWords(words, width);
      JoinFlatten(gs);
      JoinNonEmpty(words);
    }
  }

  lemma {:induction false} JoinNonEmpty(g: seq<string>)
    requires |g| > 0 && |g[0]| > 0
    ensures |Join(g, " ")| > 0
  {
    if |g| > 1 {
      JoinNonEmpty(g[..|g| - 1]);
    }
  }

  // ---------------------------------------------------------------------------
  // _print_json_section

  /** A report field: absent (or NULL), a JSON text, or an already decoded value. */
  datatype Field<J> = Missing | Text(text: string) | Decoded(value: J)

  /**
   * The data a section prints, or `None` when it prints nothing: missing,
   * '' and '{}' fields, text that does not parse, and falsy values are
   * skipped. `truthy` is Python's truth value of a decoded value.
   */
  function SectionData<J>(field: Field<J>, loads: string -> Option<J>, truthy: J -> bool): (r: Option<J>)
    ensures r.Some? ==> truthy(r.value)
    ensures field.Missing? || field == Text("") || field == Text("{}") ==> r.None?
    ensures field.Text? && loads(field.text).None? ==> r.None?
    ensures field.Decoded? ==> (r.Some? <==> truthy(field.value))
  {
    match field
    case Missing => None
    case Text(t) =>
      if t == "" || t == "{}" then None
      else (match loads(t)
        case None => None
        case Some(v) => if truthy(v) then Some(v) else None)
    case Decoded(v) => if truthy(v) then Some(v) else None
  }
}
