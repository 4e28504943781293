/** The rewrite stages an evaluation passes through before it is shown:
    three literal-phrase substitutions, a grammar stage that is a parameter
    here, and a final polish that collapses all whitespace and trims. */
module Rewrite {
  import opened Text
  import opened Seqs

  // ---------------------------------------------------------------- phrase stages

  function ImproveContentStructure(text: string): string {
    ReplaceAll(ReplaceAll(text, "Looking ahead", "Building on these accomplishments"),
               "I have also contributed", "Additionally, I have demonstrated initiative")
  }

  function AddContentDepth(text: string): string {
    ReplaceAll(ReplaceAll(text, "demonstrated strong", "consistently demonstrated exceptional"),
               "technical leadership", "technical leadership and expertise")
  }

  function ImproveWritingQuality(text: string): string {
    ReplaceAll(ReplaceAll(text, "help shape stronger", "contribute more strategically to"),
               "it would be to", "to")
  }

  /** A text holding none of the six phrases goes through the three phrase
      stages unchanged. */
  lemma PhraseStagesKeepPlainText(text: string)
    requires !Contains(text, "Looking ahead") && !Contains(text, "I have also contributed")
    requires !Contains(text, "demonstrated strong") && !Contains(text, "technical leadership")
    requires !Contains(text, "help shape stronger") && !Contains(text, "it would be to")
    ensures ImproveWritingQuality(AddContentDepth(ImproveContentStructure(text))) == text
  {
    ReplaceAllNoMatch(text, "Looking ahead", "Building on these accomplishments");
    ReplaceAllNoMatch(text, "I have also contributed", "Additionally, I have demonstrated initiative");
    ReplaceAllNoMatch(text, "demonstrated strong", "consistently demonstrated exceptional");
    ReplaceAllNoMatch(text, "technical leadership", "technical leadership and expertise");
    ReplaceAllNoMatch(text, "help shape stronger", "contribute more strategically to");
    ReplaceAllNoMatch(text, "it would be to", "to");
  }

  // ---------------------------------------------------------------- final polish

  /** Length of the run of whitespace that `s` starts with. */
  function SpaceRun(s: string): (n: nat)
    ensures n <= |s|
    ensures forall i :: 0 <= i < n ==> IsJsSpace(s[i])
    ensures n < |s| ==> !IsJsSpace(s[n])
  {
    if s != [] && IsJsSpace(s[0]) then 1 + SpaceRun(s[1..]) else 0
  }

  predicate NotSpace(c: char) {
    !IsJsSpace(c)
  }

  /** Only plain spaces, never two in a row. */
  predicate Squeezed(r: string) {
    && (forall i :: 0 <= i < |r| ==> r[i] == ' ' || !IsJsSpace(r[i]))
    && (forall i, j :: 0 <= i < |r| && 0 <= j < |r| && j == i + 1 ==> !(r[i] == ' ' && r[j] == ' '))
  }

  /** `text.replace(/\s+/g, ' ')`: every maximal whitespace run becomes one
      space; the other characters stay, in order. */
  function CollapseWhitespace(s: string): (r: string)
    ensures Squeezed(r)
    ensures s == [] <==> r == []
    ensures s != [] ==> r[0] == (if IsJsSpace(s[0]) then ' ' else s[0])
    decreases |s|
  {
    if s == [] then []
    else if IsJsSpace(s[0]) then
      var n := SpaceRun(s);
      var rest := CollapseWhitespace(s[n..]);
      assert rest != [] ==> rest[0] != ' ';
      " " + rest
    else
      var rest := CollapseWhitespace(s[1..]);
      var r := [s[0]] + rest;
      assert forall i :: 1 <= i < |r| ==> r[i] == rest[i - 1];
      r
  }

  /** Collapsing keeps every non-space character, in order. */
  lemma {:induction false} CollapseKeepsWords(s: string)
    ensures Filter(CollapseWhitespace(s), NotSpace) == Filter(s, NotSpace)
    decreases |s|
  {
    if s != [] {
      var r := CollapseWhitespace(s);
      if IsJsSpace(s[0]) {
        var n := SpaceRun(s);
        CollapseKeepsWords(s[n..]);
        assert r[1..] == CollapseWhitespace(s[n..]);
        SpaceRunFiltered(s, n);
      } else {
        CollapseKeepsWords(s[1..]);
        assert r[1..] == CollapseWhitespace(s[1..]);
      }
    }
  }

  /** Dropping leading whitespace does not change what the filter keeps. */
  lemma {:induction false} SpaceRunFiltered(s: string, n: nat)
    requires n <= |s|
    requires forall i :: 0 <= i < n ==> IsJsSpace(s[i])
    ensures Filter(s, NotSpace) == Filter(s[n..], NotSpace)
    decreases n
  {
    if n > 0 {
      assert s[1..][n - 1..] == s[n..];
      SpaceRunFiltered(s[1..], n - 1);
    }
  }

  /** A squeezed text has nothing left to collapse. */
  lemma {:induction false} CollapseSqueezed(s: string)
    requires Squeezed(s)
    ensures CollapseWhitespace(s) == s
    decreases |s|
  {
    if s != [] {
      assert Squeezed(s[1..]) by {
        assert forall i :: 0 <= i < |s| - 1 ==> s[1..][i] == s[i + 1];
      }
      CollapseSqueezed(s[1..]);
      if IsJsSpace(s[0]) {
        assert SpaceRun(s) == 1 by {
          assert s[0] == ' ';
          if |s| > 1 {
            assert s[1] != ' ';
            assert !IsJsSpace(s[1]);
          }
        }
        assert [s[0]] + s[1..] == s;
      } else {
        assert [s[0]] + s[1..] == s;
      }
    }
  }

  // ---------------------------------------------------------------- one space between words

  /** Text after a piece that ends in a non-space character cannot lengthen
      the whitespace run the piece starts with. */
  lemma {:induction false} SpaceRunInPrefix(p: string, t: string)
    requires p != [] && !IsJsSpace(p[|p| - 1])
    ensures SpaceRun(p + t) == SpaceRun(p) < |p|
    decreases |p|
  {
    if IsJsSpace(p[0]) {
      assert (p + t)[1..] == p[1..] + t;
      SpaceRunInPrefix(p[1..], t);
    }
  }

  /** A whitespace run closed by a non-space character is measured whole. */
  lemma SpaceRunBefore(w: string, t: string)
    requires AllSpace(w, IsJsSpace) && t != [] && !IsJsSpace(t[0])
    ensures SpaceRun(w + t) == |w|
  {
    assert forall k :: 0 <= k < |w| ==> (w + t)[k] == w[k];
    assert (w + t)[|w|] == t[0];
  }

  /** Collapsing a text cut right after a non-space character collapses the
      two parts on their own. */
  lemma {:induction false} CollapseAppend(p: string, t: string)
    requires p == [] || !IsJsSpace(p[|p| - 1])
    ensures CollapseWhitespace(p + t) == CollapseWhitespace(p) + CollapseWhitespace(t)
    decreases |p|
  {
    if p == [] {
      assert p + t == t;
    } else if IsJsSpace(p[0]) {
      SpaceRunInPrefix(p, t);
      var n := SpaceRun(p);
      CollapseAppend(p[n..], t);
      CollapseAppendStep(p, t, n, " ");
    } else {
      CollapseAppend(p[1..], t);
      CollapseAppendStep(p, t, 1, [p[0]]);
    }
  }

  /** The step of the induction: the collapse of `p` and of `p + t` both
      start with `head` for their first `n` characters, and go on with the
      rest. */
  lemma CollapseAppendStep(p: string, t: string, n: nat, head: string)
    requires 0 < n <= |p|
    requires CollapseWhitespace(p) == head + CollapseWhitespace(p[n..])
    requires CollapseWhitespace(p + t) == head + CollapseWhitespace((p + t)[n..])
    requires CollapseWhitespace(p[n..] + t) == CollapseWhitespace(p[n..]) + CollapseWhitespace(t)
    ensures CollapseWhitespace(p + t) == CollapseWhitespace(p) + CollapseWhitespace(t)
  {
    DropAppend(p, t, n);
    Reassociate(head, CollapseWhitespace(p[n..]), CollapseWhitespace(t));
  }

  lemma DropAppend(p: string, t: string, n: nat)
    requires n <= |p|
    ensures (p + t)[n..] == p[n..] + t
  {
  }

  lemma Reassociate(a: string, b: string, c: string)
    ensures a + (b + c) == (a + b) + c
  {
  }

  /** The collapse of a text ending in a non-space character ends with that
      character. */
  lemma {:induction false} CollapseLast(p: string)
    requires p != [] && !IsJsSpace(p[|p| - 1])
    ensures CollapseWhitespace(p) != []
    ensures CollapseWhitespace(p)[|CollapseWhitespace(p)| - 1] == p[|p| - 1]
    decreases |p|
  {
    if IsJsSpace(p[0]) {
      CollapseLast(p[SpaceRun(p)..]);
    } else if |p| > 1 {
      CollapseLast(p[1..]);
    }
  }

  /** Two words with whitespace between them end up exactly one space
      apart. */
  lemma CollapseBetweenWords(a: string, x: char, w: string, y: char, b: string) returns (i: nat)
    requires !IsJsSpace(x) && !IsJsSpace(y) && w != [] && AllSpace(w, IsJsSpace)
    ensures OccursAt(CollapseWhitespace(a + [x] + w + [y] + b), [x, ' ', y], i)
    ensures Contains(CollapseWhitespace(a + [x] + w + [y] + b), [x, ' ', y])
  {
    var p := a + [x];
    assert a + [x] + w + [y] + b == p + (w + [y] + b);
    CollapseAppend(p, w + [y] + b);
    CollapseLast(p);
    CollapseAfterSpaces(w, y, b);
    i := |CollapseWhitespace(p)| - 1;
    LastThenSpace(CollapseWhitespace(p), x, y, CollapseWhitespace(b));
  }

  /** A whitespace run and then a word: one space, then the word. */
  lemma CollapseAfterSpaces(w: string, y: char, b: string)
    requires !IsJsSpace(y) && w != [] && AllSpace(w, IsJsSpace)
    ensures CollapseWhitespace(w + [y] + b) == " " + ([y] + CollapseWhitespace(b))
  {
    var t := w + [y] + b;
    SpaceRunBefore(w, [y] + b);
    assert t == w + ([y] + b) && t[|w|..] == [y] + b;
    assert ([y] + b)[1..] == b;
  }

  /** A text ending in `x`, then a space and `y`, holds `x ' ' y` there. */
  lemma LastThenSpace(l: string, x: char, y: char, rest: string)
    requires l != [] && l[|l| - 1] == x
    ensures OccursAt(l + (" " + ([y] + rest)), [x, ' ', y], |l| - 1)
  {
    var full := l + (" " + ([y] + rest));
    assert full[|l| - 1..|l| + 2] == [x, ' ', y];
  }

  /** Trimming keeps an occurrence that starts and ends with a non-space
      character. */
  lemma TrimKeepsInner(c: string, sub: string, i: nat)
    requires OccursAt(c, sub, i) && sub != []
    requires !IsJsSpace(sub[0]) && !IsJsSpace(sub[|sub| - 1])
    ensures Contains(Trim(c), sub)
  {
    StripKeepsInner(c, sub, i, IsJsSpace);
  }

  /** The same for stripping any set of characters. */
  lemma StripKeepsInner(c: string, sub: string, i: nat, space: char -> bool)
    requires OccursAt(c, sub, i) && sub != []
    requires !space(sub[0]) && !space(sub[|sub| - 1])
    ensures Contains(Strip(c, space), sub)
  {
    var j := StripAt(c, space);
    InnerFound(c, Strip(c, space), j, i, sub, space);
  }

  /** A slice that only leaves out characters of `space` at both ends
      keeps an occurrence that starts and ends outside `space`. */
  lemma InnerFound(c: string, r: string, j: nat, i: nat, sub: string, space: char -> bool)
    requires j + |r| <= |c| && r == c[j..j + |r|]
    requires AllSpace(c[..j], space) && AllSpace(c[j + |r|..], space)
    requires OccursAt(c, sub, i) && sub != []
    requires !space(sub[0]) && !space(sub[|sub| - 1])
    ensures Contains(r, sub)
  {
    InnerBounds(c, j, |r|, i, sub, space);
    var k := i - j;
    SliceOfSlice(c, r, j, k, sub);
    Found(r, sub, k);
  }

  /** An occurrence found is contained. */
  lemma Found(s: string, sub: string, k: nat)
    requires k + |sub| <= |s| && s[k..k + |sub|] == sub
    ensures Contains(s, sub)
  {
    assert OccursAt(s, sub, k);
  }

  /** An occurrence that starts and ends with characters outside `space`
      lies between a leading and a trailing run of them. */
  lemma InnerBounds(c: string, j: nat, m: nat, i: nat, sub: string, space: char -> bool)
    requires j + m <= |c| && AllSpace(c[..j], space) && AllSpace(c[j + m..], space)
    requires OccursAt(c, sub, i) && sub != []
    requires !space(sub[0]) && !space(sub[|sub| - 1])
    ensures j <= i && i + |sub| <= j + m
  {
    assert c[i] == c[i..i + |sub|][0];
    assert c[i + |sub| - 1] == c[i..i + |sub|][|sub| - 1];
    assert forall k :: 0 <= k < j ==> c[k] == c[..j][k];
    assert forall k :: j + m <= k < |c| ==> c[k] == c[j + m..][k - (j + m)];
  }

  /** What a slice holds at `k` the whole holds at `j + k`. */
  lemma SliceOfSlice(c: string, r: string, j: nat, k: nat, sub: string)
    requires j + |r| <= |c| && r == c[j..j + |r|]
    requires k + |sub| <= |r| && OccursAt(c, sub, j + k)
    ensures r[k..k + |sub|] == sub
  {
    forall t | 0 <= t < |sub|
      ensures r[k..k + |sub|][t] == sub[t]
    {
      assert r[k + t] == c[j + k + t] == c[j + k..j + k + |sub|][t];
    }
  }

  /** `text.replace(/\n\s+/g, '\n')`: a newline followed by whitespace
      keeps the newline and loses the rest of the run. */
  function TrimAfterNewlines(s: string): string
    decreases |s|
  {
    if s == [] then []
    else if s[0] == '\n' && |s| > 1 && IsJsSpace(s[1]) then
      "\n" + TrimAfterNewlines(s[1 + SpaceRun(s[1..])..])
    else [s[0]] + TrimAfterNewlines(s[1..])
  }

  /** `text.replace(/([^.!?])\n/g, '$1\n\n')`: a newline after anything but
      sentence punctuation is doubled. */
  function DoubleParagraphBreaks(s: string): string
    decreases |s|
  {
    if |s| >= 2 && s[0] != '.' && s[0] != '!' && s[0] != '?' && s[1] == '\n' then
      [s[0]] + "\n\n" + DoubleParagraphBreaks(s[2..])
    else if s == [] then []
    else [s[0]] + DoubleParagraphBreaks(s[1..])
  }

  /** Without newlines the second rule finds nothing. */
  lemma {:induction false} TrimAfterNewlinesNoop(s: string)
    requires '\n' !in s
    ensures TrimAfterNewlines(s) == s
  {
    if s != [] {
      assert '\n' !in s[1..];
      TrimAfterNewlinesNoop(s[1..]);
      assert [s[0]] + s[1..] == s;
    }
  }

  /** Without newlines the third rule finds nothing. */
  lemma {:induction false} DoubleParagraphBreaksNoop(s: string)
    requires '\n' !in s
    ensures DoubleParagraphBreaks(s) == s
  {
    if s != [] {
      assert '\n' !in s[1..];
      DoubleParagraphBreaksNoop(s[1..]);
      assert [s[0]] + s[1..] == s;
    }
  }

  /** A slice of a squeezed text is squeezed. */
  lemma SqueezedSlice(s: string, i: nat, j: nat)
    requires Squeezed(s) && i <= j <= |s|
    ensures Squeezed(s[i..j])
  {
    assert forall k :: 0 <= k < j - i ==> s[i..j][k] == s[i + k];
  }

  /** The final stage: whitespace collapsed, the two newline rules, then
      trimmed. Since the first rule leaves no newline, the result holds no
      newline, no two spaces in a row and no space at either end, and it
      keeps every other character of the text, in order. */
  function FinalPolish(text: string): (r: string)
    ensures Squeezed(r) && '\n' !in r
    ensures r == [] || (r[0] != ' ' && r[|r| - 1] != ' ')
    ensures Filter(r, NotSpace) == Filter(text, NotSpace)
  {
    var c := CollapseWhitespace(text);
    var d := DoubleParagraphBreaks(TrimAfterNewlines(c));
    NewlineRulesIdle(c);
    PolishedCollapse(text);
    Trim(d)
  }

  /** Two words with whitespace between them, newlines included, come out
      of the final polish exactly one space apart. */
  lemma FinalPolishBetweenWords(a: string, x: char, w: string, y: char, b: string)
    requires !IsJsSpace(x) && !IsJsSpace(y) && w != [] && AllSpace(w, IsJsSpace)
    ensures Contains(FinalPolish(a + [x] + w + [y] + b), [x, ' ', y])
  {
    var text := a + [x] + w + [y] + b;
    NewlineRulesIdle(CollapseWhitespace(text));
    var i := CollapseBetweenWords(a, x, w, y, b);
    TrimKeepsInner(CollapseWhitespace(text), [x, ' ', y], i);
  }

  /** The two newline rules have nothing to do after the collapse. */
  lemma NewlineRulesIdle(c: string)
    requires Squeezed(c)
    ensures DoubleParagraphBreaks(TrimAfterNewlines(c)) == c
  {
    SqueezedHasNoNewline(c);
    TrimAfterNewlinesNoop(c);
    DoubleParagraphBreaksNoop(c);
  }

  /** Trimming the collapsed text. */
  lemma PolishedCollapse(text: string)
    ensures var r := Trim(CollapseWhitespace(text));
      && Squeezed(r) && '\n' !in r
      && (r == [] || (r[0] != ' ' && r[|r| - 1] != ' '))
      && Filter(r, NotSpace) == Filter(text, NotSpace)
  {
    var c := CollapseWhitespace(text);
    TrimKeepsSqueezed(c);
    SqueezedHasNoNewline(Trim(c));
    TrimKeepsWords(c);
    TrimEnds(c);
    CollapseKeepsWords(text);
  }

  lemma SqueezedHasNoNewline(c: string)
    requires Squeezed(c)
    ensures '\n' !in c
  {
    if '\n' in c {
      var i :| 0 <= i < |c| && c[i] == '\n';
      assert IsJsSpace(c[i]);
    }
  }

  /** Trimming a squeezed text keeps it squeezed. */
  lemma TrimKeepsSqueezed(c: string)
    requires Squeezed(c)
    ensures Squeezed(Trim(c))
  {
    var i := StripSlice(c, IsJsSpace);
    SqueezedSlice(c, i, i + |Trim(c)|);
  }

  /** Trimming removes whitespace only. */
  lemma TrimKeepsWords(c: string)
    ensures Filter(Trim(c), NotSpace) == Filter(c, NotSpace)
  {
    var i := StripAt(c, IsJsSpace);
    var j := i + |Trim(c)|;
    SliceSplit(c, i, j);
    FilterFrame(c[..i], c[i..j], c[j..]);
  }

  /** A trimmed text neither starts nor ends with a space. */
  lemma TrimEnds(c: string)
    ensures Trim(c) == [] || (Trim(c)[0] != ' ' && Trim(c)[|Trim(c)| - 1] != ' ')
  {
    assert IsJsSpace(' ');
  }

  /** Whitespace around a text adds nothing to what the filter keeps. */
  lemma FilterFrame(a: string, r: string, b: string)
    requires AllSpace(a, IsJsSpace) && AllSpace(b, IsJsSpace)
    ensures Filter(a + r + b, NotSpace) == Filter(r, NotSpace)
  {
    FilterNoneKept(a, NotSpace);
    FilterNoneKept(b, NotSpace);
    FilterAppend(a + r, b, NotSpace);
    FilterAppend(a, r, NotSpace);
    assert [] + Filter(r, NotSpace) + [] == Filter(r, NotSpace);
  }

  /** Stripping a text that already starts and ends with a non-space
      character changes nothing. */
  lemma StripNoop(s: string)
    requires s == [] || (!IsJsSpace(s[0]) && !IsJsSpace(s[|s| - 1]))
    ensures Trim(s) == s
  {
  }

  /** Polishing a polished text changes nothing. */
  lemma FinalPolishIdempotent(text: string)
    ensures FinalPolish(FinalPolish(text)) == FinalPolish(text)
  {
    var r := FinalPolish(text);
    CollapseSqueezed(r);
    TrimAfterNewlinesNoop(r);
    DoubleParagraphBreaksNoop(r);
    assert r == [] || (!IsJsSpace(r[0]) && !IsJsSpace(r[|r| - 1]));
    StripNoop(r);
  }

  // ---------------------------------------------------------------- the stages

  /** One improvement stage as the progress display lists it. The wait
      after each stage is not modelled. */
  datatype Stage = Stage(name: string, detail: string, process: string -> string)

  /** The five stages in their order; the grammar stage is passed in. */
  function Stages(fixGrammarAndStyle: string -> string): (st: seq<Stage>)
    ensures |st| == 5
  {
    [ Stage("Analyzing Feedback Patterns", "Identifying key themes and relationships", ImproveContentStructure),
      Stage("Enhancing Content Depth", "Adding context and examples", AddContentDepth),
      Stage("Improving Writing Quality", "Refining language and transitions", ImproveWritingQuality),
      Stage("Grammar and Style Check", "Ensuring professional tone and correct grammar", fixGrammarAndStyle),
      Stage("Final Review", "Performing quality assurance checks", FinalPolish) ]
  }

  /** The text after the first `n` stages of `stages`. */
  function ApplyStages(stages: seq<Stage>, text: string): string
    decreases |stages|
  {
    if stages == [] then text
    else stages[|stages| - 1].process(ApplyStages(stages[..|stages| - 1], text))
  }

  /** One more stage applied. */
  lemma ApplyNext(stages: seq<Stage>, i: nat, text: string)
    requires i < |stages|
    ensures ApplyStages(stages[..i + 1], text) == stages[i].process(ApplyStages(stages[..i], text))
  {
    assert stages[..i + 1][..i] == stages[..i];
  }

  /** Five stages applied one after the other. */
  lemma ApplyFive(stages: seq<Stage>, text: string)
    requires |stages| == 5
    ensures ApplyStages(stages, text) == stages[4].process(stages[3].process(stages[2].process(
      stages[1].process(stages[0].process(text)))))
  {
    assert stages[..0] == [];
    ApplyNext(stages, 0, text);
    ApplyNext(stages, 1, text);
    ApplyNext(stages, 2, text);
    ApplyNext(stages, 3, text);
    ApplyNext(stages, 4, text);
    assert stages[..5] == stages;
  }

  /** The five stages compose to the four rewrites followed by the polish. */
  lemma StagesCompose(fixGrammarAndStyle: string -> string, text: string)
    ensures ApplyStages(Stages(fixGrammarAndStyle), text) == FinalPolish(fixGrammarAndStyle(
      ImproveWritingQuality(AddContentDepth(ImproveContentStructure(text)))))
  {
    var st := Stages(fixGrammarAndStyle);
    assert st[0].process == ImproveContentStructure && st[1].process == AddContentDepth;
    assert st[2].process == ImproveWritingQuality && st[3].process == fixGrammarAndStyle;
    assert st[4].process == FinalPolish;
    ApplyFive(st, text);
  }

  /** The stage loop: the evaluation goes through each stage in order, so
      what comes out is the final polish of the other four stages' result
      and carries the polish's guarantees whatever the grammar stage did. */
  method RunStages(rawEvaluation: string, fixGrammarAndStyle: string -> string)
    returns (processed: string)
    ensures processed == FinalPolish(fixGrammarAndStyle(ImproveWritingQuality(
      AddContentDepth(ImproveContentStructure(rawEvaluation)))))
    ensures Squeezed(processed) && '\n' !in processed
  {
    var stages := Stages(fixGrammarAndStyle);
    processed := rawEvaluation;
    for i := 0 to |stages|
      invariant processed == ApplyStages(stages[..i], rawEvaluation)
    {
      ApplyNext(stages, i, rawEvaluation);
      processed := stages[i].process(processed);
    }
    assert stages[..|stages|] == stages;
    StagesCompose(fixGrammarAndStyle, rawEvaluation);
  }
}
