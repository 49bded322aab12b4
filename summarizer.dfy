/** Refinement of the top sections into short summaries
    (src/summarizer.py): either the first two sentences of the section text,
    or the first three sentences of what the language model writes. */
module Summarizer {
  import opened Options
  import opened Text
  import opened Records

  // ---------------------------------------------------------------------
  // `re.split(r"(?<=[.!?]) +", s)`

  predicate IsSentenceEnd(c: char) {
    c == '.' || c == '!' || c == '?'
  }

  predicate IsBlank(c: char) {
    c == ' '
  }

  /** A split point: a space right after a sentence end. */
  predicate BreakAt(s: string, i: int) {
    1 <= i < |s| && IsSentenceEnd(s[i - 1]) && IsBlank(s[i])
  }

  /** The first split point at or after `from`. */
  function FindBreak(s: string, from: nat): (r: Option<nat>)
    ensures r.Some? ==> from <= r.value && BreakAt(s, r.value)
    ensures r.Some? ==> forall k :: from <= k < r.value ==> !BreakAt(s, k)
    ensures r.None? ==> forall k :: from <= k < |s| ==> !BreakAt(s, k)
    decreases |s| - from
  {
    if from >= |s| then None
    else if BreakAt(s, from) then Some(from)
    else FindBreak(s, from + 1)
  }

  /** The pieces of `s` between the runs of spaces that follow a sentence end;
      `[s]` when there is no such run, so `[""]` for the empty text. */
  function Sentences(s: string): (r: seq<string>)
    ensures |r| >= 1
    decreases |s|
  {
    match FindBreak(s, 0)
    case None => [s]
    case Some(i) =>
      var e := i + RunLength(s[i..], IsBlank);
      [s[..i]] + Sentences(s[e..])
  }

  lemma TakeCons<T>(x: T, rest: seq<T>, n: nat)
    requires n >= 1
    ensures Take([x] + rest, n) == [x] + Take(rest, n - 1)
  {
  }

  lemma JoinCons(x: string, ys: seq<string>)
    requires |ys| >= 1
    ensures Join(" ", [x] + ys) == x + " " + Join(" ", ys)
  {
    assert ([x] + ys)[1..] == ys;
  }

  /** One step of the split: the piece before the first split point, and the
      text after the run of spaces that follows it. */
  lemma SentencesStep(s: string) returns (i: nat, e: nat)
    requires FindBreak(s, 0).Some?
    ensures i == FindBreak(s, 0).value && i < e <= |s|
    ensures forall k :: i <= k < e ==> IsBlank(s[k])
    ensures e == |s| || !IsBlank(s[e])
    ensures Sentences(s) == [s[..i]] + Sentences(s[e..])
  {
    i := FindBreak(s, 0).value;
    e := i + RunLength(s[i..], IsBlank);
    RunLengthMaximal(s[i..], IsBlank);
    assert forall k :: i <= k < e ==> s[k] == s[i..][k - i];
  }

  /** Rejoining the first `n` pieces with single spaces never makes the text
      longer: each run of spaces at a split point becomes one space. */
  lemma {:induction false} JoinTakeLength(s: string, n: nat)
    ensures |Join(" ", Take(Sentences(s), n))| <= |s|
    decreases |s|
  {
    if n == 0 {
      assert Take(Sentences(s), 0) == [];
    } else if FindBreak(s, 0).None? {
      assert Take(Sentences(s), n) == [s];
    } else {
      var i, e := SentencesStep(s);
      var rest := Sentences(s[e..]);
      TakeCons(s[..i], rest, n);
      if n == 1 {
        assert Take(Sentences(s), 1) == [s[..i]];
      } else {
        JoinTakeLength(s[e..], n - 1);
        JoinCons(s[..i], Take(rest, n - 1));
      }
    }
  }

  /** Every split point is followed by exactly one space. */
  predicate SingleSpaced(s: string) {
    forall i :: 0 <= i < |s| && BreakAt(s, i) ==> i + 1 == |s| || !IsBlank(s[i + 1])
  }

  lemma SingleSpacedStep(s: string) returns (i: nat)
    requires SingleSpaced(s) && FindBreak(s, 0).Some?
    ensures i == FindBreak(s, 0).value && i < |s| && s[i] == ' '
    ensures SingleSpaced(s[i + 1..])
    ensures Sentences(s) == [s[..i]] + Sentences(s[i + 1..])
  {
    var e;
    i, e := SentencesStep(s);
    assert e == i + 1;
    forall k | BreakAt(s[e..], k)
      ensures k + 1 == |s[e..]| || !IsBlank(s[e..][k + 1])
    {
      assert BreakAt(s, e + k);
    }
  }

  predicate IsPrefixOf(a: string, b: string) {
    |a| <= |b| && a == b[..|a|]
  }

  lemma PrefixAfterSpace(s: string, i: nat, j: string)
    requires i < |s| && s[i] == ' ' && IsPrefixOf(j, s[i + 1..])
    ensures IsPrefixOf(s[..i] + " " + j, s)
  {
    assert s[..i + 1 + |j|] == s[..i] + [s[i]] + s[i + 1..][..|j|];
  }

  /** When every split point has a single space, the first `n` pieces joined
      with spaces are a prefix of the text. */
  lemma {:induction false} JoinTakePrefix(s: string, n: nat)
    requires SingleSpaced(s)
    ensures IsPrefixOf(Join(" ", Take(Sentences(s), n)), s)
    decreases |s|
  {
    if n == 0 {
      assert Take(Sentences(s), 0) == [];
    } else if FindBreak(s, 0).None? {
      assert Take(Sentences(s), n) == [s];
    } else {
      var i := SingleSpacedStep(s);
      var rest := Sentences(s[i + 1..]);
      TakeCons(s[..i], rest, n);
      if n == 1 {
        assert Take(Sentences(s), 1) == [s[..i]];
        assert s[..i] == s[..|s[..i]|];
      } else {
        JoinTakePrefix(s[i + 1..], n - 1);
        JoinCons(s[..i], Take(rest, n - 1));
        PrefixAfterSpace(s, i, Join(" ", Take(rest, n - 1)));
      }
    }
  }

  /** Splitting is undone by joining with one space when every split point has
      a single space. */
  lemma {:induction false} SentencesRoundTrip(s: string)
    requires SingleSpaced(s)
    ensures Join(" ", Sentences(s)) == s
    decreases |s|
  {
    if FindBreak(s, 0).Some? {
      var i := SingleSpacedStep(s);
      SentencesRoundTrip(s[i + 1..]);
      JoinAtSpace(s, i, Sentences(s[i + 1..]));
    }
  }

  /** Joining the text before the space at `i` with pieces that join back to
      the text after it gives the whole text. */
  lemma JoinAtSpace(s: string, i: nat, rest: seq<string>)
    requires i < |s| && s[i] == ' ' && |rest| >= 1
    requires Join(" ", rest) == s[i + 1..]
    ensures Join(" ", [s[..i]] + rest) == s
  {
    JoinCons(s[..i], rest);
    assert s == s[..i] + " " + s[i + 1..];
  }

  /** The text before the first split point holds no split point. */
  lemma HeadHasNoBreak(s: string)
    requires FindBreak(s, 0).Some?
    ensures forall j :: 0 <= j < FindBreak(s, 0).value ==> !BreakAt(s[..FindBreak(s, 0).value], j)
  {
    var i := FindBreak(s, 0).value;
    forall j | 0 <= j < i
      ensures !BreakAt(s[..i], j)
    {
      if BreakAt(s[..i], j) {
        assert BreakAt(s, j);
      }
    }
  }

  /** Every piece but the last ends with a sentence end. */
  lemma {:induction false} SentenceEnds(s: string)
    ensures forall k :: 0 <= k < |Sentences(s)| - 1 ==>
      Sentences(s)[k] != [] && IsSentenceEnd(Sentences(s)[k][|Sentences(s)[k]| - 1])
    decreases |s|
  {
    if FindBreak(s, 0).Some? {
      var i, e := SentencesStep(s);
      SentenceEnds(s[e..]);
      var r := Sentences(s);
      assert r[0] == s[..i];
      assert forall k :: 1 <= k < |r| ==> r[k] == Sentences(s[e..])[k - 1];
    }
  }

  /** No piece holds a split point. */
  lemma {:induction false} PiecesHaveNoBreak(s: string)
    ensures forall k, j :: 0 <= k < |Sentences(s)| && 0 <= j < |Sentences(s)[k]| ==> !BreakAt(Sentences(s)[k], j)
    decreases |s|
  {
    if FindBreak(s, 0).Some? {
      var i, e := SentencesStep(s);
      PiecesHaveNoBreak(s[e..]);
      HeadHasNoBreak(s);
      var r := Sentences(s);
      assert r[0] == s[..i];
      assert forall k :: 1 <= k < |r| ==> r[k] == Sentences(s[e..])[k - 1];
    }
  }

  // ---------------------------------------------------------------------
  // The two summaries

  /** `_extractive_summary`: the first two sentences, joined with a space and
      stripped, or the first 200 characters of the text when that is empty. */
  function ExtractiveSummary(text: string): (r: string)
    ensures text != [] ==> r != []
  {
    var summary := Strip(Join(" ", Take(Sentences(text), 2)));
    if summary != [] then summary else Prefix(text, 200)
  }

  /** The extractive summary of a non-empty text is not empty and is never
      longer than the text. */
  lemma ExtractiveSummaryBounds(text: string)
    ensures text != [] ==> ExtractiveSummary(text) != []
    ensures |ExtractiveSummary(text)| <= |text|
  {
    JoinTakeLength(text, 2);
  }

  /** A text with a single sentence is summarized by itself, stripped; a text
      of whitespace only by itself, cut at 200 characters. */
  lemma ExtractiveSummaryOneSentence(text: string)
    requires forall i :: 0 <= i < |text| ==> !BreakAt(text, i)
    ensures Strip(text) != [] ==> ExtractiveSummary(text) == Strip(text)
    ensures Strip(text) == [] ==> ExtractiveSummary(text) == Prefix(text, 200)
  {
    assert FindBreak(text, 0).None?;
    assert Take(Sentences(text), 2) == [text];
  }

  /** With single spaces at the split points, the extractive summary is a
      stretch of the text itself. */
  lemma ExtractiveSummaryFromText(text: string) returns (a: nat)
    requires SingleSpaced(text)
    ensures a + |ExtractiveSummary(text)| <= |text|
    ensures ExtractiveSummary(text) == text[a..a + |ExtractiveSummary(text)|]
  {
    var j := Join(" ", Take(Sentences(text), 2));
    JoinTakePrefix(text, 2);
    var summary := Strip(j);
    assert ExtractiveSummary(text) == if summary != [] then summary else Prefix(text, 200);
    if summary != [] {
      a := StripSlice(j);
      SliceOfPrefix(j, text, a, a + |summary|);
    } else {
      a := 0;
    }
  }

  lemma SliceOfPrefix(j: string, text: string, a: nat, b: nat)
    requires IsPrefixOf(j, text) && a <= b <= |j|
    ensures j[a..b] == text[a..b]
  {
  }

  /** `_ollama_summary` given what the model call produced: the first three
      sentences of the stripped output, joined with a space and cut at 400
      characters, or the first 200 characters of the text when the call
      raised. */
  function JudgeSummary(output: Option<string>, text: string): (r: string)
    ensures |r| <= 400
    ensures output.None? ==> |r| <= 200 && |r| <= |text| && r == text[..|r|]
  {
    match output
    case None => Prefix(text, 200)
    case Some(o) => Prefix(Join(" ", Take(Sentences(Strip(o)), 3)), 400)
  }

  /** A model summary has at most 400 characters and is no longer than the
      stripped output; after a failed call it is the first 200 characters of
      the text. */
  lemma JudgeSummaryBounds(output: Option<string>, text: string)
    ensures |JudgeSummary(output, text)| <= 400
    ensures output.Some? ==> |JudgeSummary(output, text)| <= |Strip(output.value)|
    ensures output.None? ==>
      var r := JudgeSummary(output, text); |r| == Min(200, |text|) && r == text[..|r|]
  {
    if output.Some? {
      JoinTakeLength(Strip(output.value), 3);
    }
  }

  /** An output of whitespace only gives an empty summary. */
  lemma JudgeSummaryMayBeEmpty(blank: string, text: string)
    requires forall i :: 0 <= i < |blank| ==> IsSpace(blank[i])
    ensures JudgeSummary(Some(blank), text) == []
  {
    var _ := StripSlice(blank);
    assert FindBreak([], 0).None?;
  }

  /** With single spaces at the split points, a model summary is a prefix of
      the stripped output. */
  lemma JudgeSummaryFromOutput(o: string, text: string)
    requires SingleSpaced(Strip(o))
    ensures var r := JudgeSummary(Some(o), text); |r| <= |Strip(o)| && r == Strip(o)[..|r|]
  {
    JoinTakePrefix(Strip(o), 3);
    assert JudgeSummary(Some(o), text) == Prefix(Join(" ", Take(Sentences(Strip(o)), 3)), 400);
  }

  // ---------------------------------------------------------------------
  // `summarize_sections`

  /** The `refined_text` of one section under an approach. Under `llm` it
      has at most 400 characters; otherwise it is no longer than the section
      text and not empty when that text is not. */
  function RefinedText(s: Section, persona: string, job: string, approach: string, services: Services): (r: string)
    ensures approach == "llm" ==> |r| <= 400
    ensures approach != "llm" ==> |r| <= |s.text| && (s.text != [] ==> r != [])
  {
    ExtractiveSummaryBounds(s.text);
    JudgeSummaryBounds(services.writeSummary(s.title, s.text, persona, job), s.text);
    if approach == "llm" then JudgeSummary(services.writeSummary(s.title, s.text, persona, job), s.text)
    else ExtractiveSummary(s.text)
  }

  /** One summary per section, in order, carrying the section's document and
      page and its refined text. */
  function Summaries(sections: seq<Section>, persona: string, job: string, approach: string, services: Services): seq<Summary> {
    seq(|sections|, i requires 0 <= i < |sections| => SummaryOf(sections[i], persona, job, approach, services))
  }

  /** The `subsection_analysis` entry of one section. */
  function SummaryOf(s: Section, persona: string, job: string, approach: string, services: Services): Summary {
    Summary(s.document, RefinedText(s, persona, job, approach, services), s.page)
  }

  /** `summarize_sections`. */
  method SummarizeSections(sections: seq<Section>, persona: string, job: string,
                           approach: string, services: Services)
    returns (results: seq<Summary>)
    ensures results == Summaries(sections, persona, job, approach, services)
  {
    results := [];
    for i := 0 to |sections|
      invariant results == Summaries(sections[..i], persona, job, approach, services)
    {
      var section := sections[i];
      var refined: string;
      if approach == "llm" {
        refined := JudgeSummary(services.writeSummary(section.title, section.text, persona, job), section.text);
      } else {
        refined := ExtractiveSummary(section.text);
      }
      assert Summary(section.document, refined, section.page) == SummaryOf(section, persona, job, approach, services);
      SummariesStep(sections, i, persona, job, approach, services);
      results := results + [Summary(section.document, refined, section.page)];
    }
    assert sections[..|sections|] == sections;
  }

  lemma SummariesStep(sections: seq<Section>, i: nat, persona: string, job: string, approach: string, services: Services)
    requires i < |sections|
    ensures Summaries(sections[..i + 1], persona, job, approach, services)
         == Summaries(sections[..i], persona, job, approach, services)
            + [SummaryOf(sections[i], persona, job, approach, services)]
  {
    var a := Summaries(sections[..i + 1], persona, job, approach, services);
    var b := Summaries(sections[..i], persona, job, approach, services);
    var c := b + [SummaryOf(sections[i], persona, job, approach, services)];
    assert |a| == |c| == i + 1;
    forall k | 0 <= k < i + 1
      ensures a[k] == c[k]
    {
      if k < i {
        assert sections[..i + 1][k] == sections[..i][k];
      }
    }
  }
}
