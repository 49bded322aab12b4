/** Relevance ranking of sections against a persona and a job-to-be-done
    (src/analyzer.py): every section gets a `relevance_score` from one of
    three scorers, the sections are sorted by that score, largest first, and
    numbered from 1 in that order. */
module Analyzer {
  import opened Options
  import opened Text
  import opened Records

  // ---------------------------------------------------------------------
  // The keyword-overlap scorer

  /** The distinct lower-cased word tokens of a text:
      `set(re.findall(r"\w+", s.lower()))`. */
  function Tokens(s: string): set<string> {
    set w | w in Words(Lower(s))
  }

  lemma IntersectionCard(a: set<string>, b: set<string>)
    ensures |a * b| <= |a| && |a * b| <= |b|
    ensures |a * b| == 0 <==> a !! b
  {
    assert a == (a * b) + (a - b);
    assert b == (a * b) + (b - a);
    if |a * b| == 0 {
      forall w | w in a
        ensures w !in b
      {
        assert w !in a * b;
      }
    }
  }

  /** `_nlp_score`: how many distinct lower-cased words the section (its title
      then its text) shares with the persona and job. It is bounded by the
      number of distinct words on either side and is zero exactly when the
      two sides have no word in common. */
  function KeywordScore(title: string, text: string, persona: string, job: string): (n: nat)
    ensures n <= |Tokens(title + " " + text)| && n <= |Tokens(persona + " " + job)|
    ensures n == 0 <==> Tokens(title + " " + text) !! Tokens(persona + " " + job)
  {
    var sectionWords := Tokens(title + " " + text);
    var personaJobWords := Tokens(persona + " " + job);
    IntersectionCard(sectionWords, personaJobWords);
    |sectionWords * personaJobWords|
  }

  /** Joining two texts with a space neither merges nor splits a word: the
      tokens of the join are the tokens of the parts. */
  lemma TokensJoined(a: string, b: string)
    ensures Tokens(a + " " + b) == Tokens(a) + Tokens(b)
  {
    LowerConcat(a + " ", b);
    LowerConcat(a, " ");
    assert Lower(" ") == " ";
    RunsSpaceJoined(Lower(a), Lower(b), IsWordChar);
    assert Lower(a + " " + b) == Lower(a) + " " + Lower(b);
  }

  /** The keyword score counts the words found in the title or the text that
      also occur in the persona or the job. */
  lemma KeywordScoreByParts(title: string, text: string, persona: string, job: string)
    ensures KeywordScore(title, text, persona, job)
         == |(Tokens(title) + Tokens(text)) * (Tokens(persona) + Tokens(job))|
  {
    TokensJoined(title, text);
    TokensJoined(persona, job);
  }

  /** Neither the order of title and text nor the order of persona and job
      changes the keyword score. */
  lemma KeywordScoreSymmetric(title: string, text: string, persona: string, job: string)
    ensures KeywordScore(title, text, persona, job) == KeywordScore(text, title, persona, job)
    ensures KeywordScore(title, text, persona, job) == KeywordScore(title, text, job, persona)
  {
    KeywordScoreByParts(title, text, persona, job);
    KeywordScoreByParts(text, title, persona, job);
    KeywordScoreByParts(title, text, job, persona);
    assert Tokens(title) + Tokens(text) == Tokens(text) + Tokens(title);
    assert Tokens(persona) + Tokens(job) == Tokens(job) + Tokens(persona);
  }

  lemma TokensOfUpper(s: string)
    ensures Tokens(Upper(s)) == Tokens(s)
  {
    LowerOfUpper(s);
  }

  /** The keyword score ignores letter case: upper-casing every input leaves
      it unchanged. */
  lemma KeywordScoreIgnoresCase(title: string, text: string, persona: string, job: string)
    ensures KeywordScore(Upper(title), Upper(text), Upper(persona), Upper(job))
         == KeywordScore(title, text, persona, job)
  {
    KeywordScoreByParts(title, text, persona, job);
    KeywordScoreByParts(Upper(title), Upper(text), Upper(persona), Upper(job));
    TokensOfUpper(title);
    TokensOfUpper(text);
    TokensOfUpper(persona);
    TokensOfUpper(job);
  }

  // ---------------------------------------------------------------------
  // The language-model scorer

  predicate IsRatingDigit(c: char) {
    '1' <= c <= '9'
  }

  /** What `re.search(r"([1-9]|10)", s)` captures: the first digit from 1 to
      9 anywhere in `s`. The alternative `10` never wins, because at the
      position of its `1` the first alternative already matches. */
  function FirstRatingDigit(s: string): (r: Option<char>)
    ensures r.Some? ==> IsRatingDigit(r.value)
  {
    if s == [] then None
    else if IsRatingDigit(s[0]) then Some(s[0])
    else FirstRatingDigit(s[1..])
  }

  /** `_ollama_score` given what the model call produced: its standard output,
      or `None` when the call raised. The rating is the first digit 1-9 of
      the stripped output, and 1 when there is none or the call failed. */
  function ParseRating(output: Option<string>): (r: int)
    ensures 1 <= r <= 9
  {
    match output
    case None => 1
    case Some(o) =>
      match FirstRatingDigit(Strip(o))
      case Some(c) => c as int - '0' as int
      case None => 1
  }

  lemma {:induction false} FirstRatingDigitConcat(a: string, b: string)
    ensures FirstRatingDigit(a + b)
         == if FirstRatingDigit(a).Some? then FirstRatingDigit(a) else FirstRatingDigit(b)
  {
    if a == [] {
      assert a + b == b;
    } else {
      assert (a + b)[1..] == a[1..] + b;
      FirstRatingDigitConcat(a[1..], b);
    }
  }

  lemma {:induction false} NoRatingDigitInSpaces(s: string)
    requires forall i :: 0 <= i < |s| ==> IsSpace(s[i])
    ensures FirstRatingDigit(s) == None
  {
    if s != [] {
      NoRatingDigitInSpaces(s[1..]);
    }
  }

  /** Stripping the output does not change which digit is found. */
  lemma RatingIgnoresStrip(o: string)
    ensures FirstRatingDigit(Strip(o)) == FirstRatingDigit(o)
  {
    var a := StripSlice(o);
    var t := Strip(o);
    var b := a + |t|;
    assert o == o[..a] + t + o[b..];
    NoRatingDigitInSpaces(o[..a]);
    NoRatingDigitInSpaces(o[b..]);
    FirstRatingDigitConcat(o[..a] + t, o[b..]);
    FirstRatingDigitConcat(o[..a], t);
  }

  lemma {:induction false} FirstRatingDigitAt(o: string, i: nat)
    requires i < |o| && IsRatingDigit(o[i])
    requires forall k :: 0 <= k < i ==> !IsRatingDigit(o[k])
    ensures FirstRatingDigit(o) == Some(o[i])
  {
    if i > 0 {
      FirstRatingDigitAt(o[1..], i - 1);
    }
  }

  lemma {:induction false} NoRatingDigit(o: string)
    requires forall k :: 0 <= k < |o| ==> !IsRatingDigit(o[k])
    ensures FirstRatingDigit(o) == None
  {
    if o != [] {
      NoRatingDigit(o[1..]);
    }
  }

  /** The rating is the value of the first digit 1-9 of the raw output,
      wherever it stands. */
  lemma RatingIsFirstDigit(o: string, i: nat)
    requires i < |o| && IsRatingDigit(o[i])
    requires forall k :: 0 <= k < i ==> !IsRatingDigit(o[k])
    ensures ParseRating(Some(o)) == o[i] as int - '0' as int
  {
    RatingIgnoresStrip(o);
    FirstRatingDigitAt(o, i);
  }

  /** An output without a digit 1-9 rates 1, as does a failed call. */
  lemma RatingWithoutDigit(o: string)
    requires forall k :: 0 <= k < |o| ==> !IsRatingDigit(o[k])
    ensures ParseRating(Some(o)) == 1
    ensures ParseRating(None) == 1
  {
    RatingIgnoresStrip(o);
    NoRatingDigit(o);
  }

  /** An answer of "10", the top of the scale the prompt asks for, rates 1. */
  lemma TenRatesOne(rest: string)
    ensures ParseRating(Some("10" + rest)) == 1
  {
    RatingIsFirstDigit("10" + rest, 0);
  }

  // ---------------------------------------------------------------------
  // Choice of scorer

  datatype Strategy = Judge | Embedding | Keyword

  /** The scorer `rank_sections_by_relevance` uses for an `approach` and a
      `method`. */
  function ChooseStrategy(approach: string, scoreMethod: string, hasEmbeddings: bool): (r: Strategy)
    ensures r == Judge <==> approach == "llm"
    ensures r == Embedding ==> scoreMethod == "embedding" || (scoreMethod == "auto" && hasEmbeddings)
  {
    if approach == "llm" then Judge
    else if scoreMethod == "embedding" || (scoreMethod == "auto" && hasEmbeddings) then Embedding
    else Keyword
  }

  /** The `actual_method` reported for a scorer. */
  function MethodLabel(strategy: Strategy): (name: string)
    ensures name in {"llm", "embedding", "keyword"}
    ensures name == "llm" <==> strategy == Judge
  {
    match strategy
    case Judge => "llm"
    case Embedding => "embedding"
    case Keyword => "keyword"
  }

  /** The approach `llm` always asks the language model, whatever the
      method. Otherwise `embedding` always takes the embedding path, `auto`
      takes it exactly when the model is loaded, and any other method
      (`keyword` among them) counts keyword overlap. */
  lemma StrategyChoice(approach: string, scoreMethod: string, hasEmbeddings: bool)
    ensures ChooseStrategy(approach, scoreMethod, hasEmbeddings) == Judge <==> approach == "llm"
    ensures approach != "llm" && scoreMethod == "embedding" ==>
      ChooseStrategy(approach, scoreMethod, hasEmbeddings) == Embedding
    ensures approach != "llm" && scoreMethod == "auto" ==>
      (ChooseStrategy(approach, scoreMethod, hasEmbeddings) == Embedding <==> hasEmbeddings)
    ensures approach != "llm" && scoreMethod != "embedding" && scoreMethod != "auto" ==>
      ChooseStrategy(approach, scoreMethod, hasEmbeddings) == Keyword
  {
  }

  /** The reported method names the scorer: no two scorers share a label. */
  lemma MethodLabelNamesStrategy(a: Strategy, b: Strategy)
    ensures MethodLabel(a) == MethodLabel(b) <==> a == b
  {
    assert "llm" != "embedding" && "llm" != "keyword" && "embedding" != "keyword" by {
      assert "llm"[0] != "embedding"[0] && "llm"[0] != "keyword"[0] && "embedding"[0] != "keyword"[0];
    }
  }

  // ---------------------------------------------------------------------
  // Scores

  /** `_embedding_score`: the cosine similarity of the persona and job to the
      section, each side joined with ". ", or the keyword score when the
      embedding model is missing. */
  function EmbeddingScore(s: Section, persona: string, job: string, services: Services): (r: real)
    ensures services.hasEmbeddings ==> r == services.similarity(persona + ". " + job, s.title + ". " + s.text)
    ensures !services.hasEmbeddings ==>
      0.0 <= r <= |Tokens(s.title + " " + s.text)| as real && r == r.Floor as real
  {
    if !services.hasEmbeddings then KeywordScore(s.title, s.text, persona, job) as real
    else services.similarity(persona + ". " + job, s.title + ". " + s.text)
  }

  /** The `relevance_score` a section gets under a scorer. */
  function Score(s: Section, persona: string, job: string, strategy: Strategy, services: Services): (r: real)
    ensures strategy == Judge ==> 1.0 <= r <= 9.0
    ensures strategy == Keyword || (strategy == Embedding && !services.hasEmbeddings) ==> 0.0 <= r
  {
    match strategy
    case Judge => ParseRating(services.rateRelevance(s.title, s.text, persona, job)) as real
    case Embedding => EmbeddingScore(s, persona, job, services)
    case Keyword => KeywordScore(s.title, s.text, persona, job) as real
  }

  /** A language-model score is a whole number from 1 to 9; a keyword score
      is a whole number no larger than the number of distinct words of the
      section. */
  lemma ScoreRange(s: Section, persona: string, job: string, strategy: Strategy, services: Services)
    ensures strategy == Judge ==>
      var r := Score(s, persona, job, strategy, services);
      1.0 <= r <= 9.0 && r == r.Floor as real
    ensures strategy == Keyword ==>
      var r := Score(s, persona, job, strategy, services);
      0.0 <= r <= |Tokens(s.title + " " + s.text)| as real && r == r.Floor as real
  {
  }

  /** When the embedding method is asked for but the embedding model is
      missing, every section is scored by keyword overlap, while the reported
      method still says "embedding". */
  lemma EmbeddingFallback(s: Section, persona: string, job: string, approach: string, services: Services)
    requires approach != "llm" && !services.hasEmbeddings
    ensures ChooseStrategy(approach, "embedding", services.hasEmbeddings) == Embedding
    ensures MethodLabel(ChooseStrategy(approach, "embedding", services.hasEmbeddings)) == "embedding"
    ensures Score(s, persona, job, Embedding, services) == Score(s, persona, job, Keyword, services)
  {
  }

  /** The keyword scorer depends on no outside service. */
  lemma KeywordNeedsNoService(s: Section, persona: string, job: string, a: Services, b: Services)
    ensures Score(s, persona, job, Keyword, a) == Score(s, persona, job, Keyword, b)
  {
  }

  /** Every section with its `relevance_score` written. */
  function Scored(sections: seq<Section>, persona: string, job: string, strategy: Strategy, services: Services): (r: seq<Section>)
    ensures |r| == |sections|
    ensures forall i :: 0 <= i < |r| ==>
      r[i].score == Some(Score(sections[i], persona, job, strategy, services)) &&
      r[i].(score := sections[i].score) == sections[i]
  {
    seq(|sections|, i requires 0 <= i < |sections| =>
      sections[i].(score := Some(Score(sections[i], persona, job, strategy, services))))
  }

  // ---------------------------------------------------------------------
  // `sorted(sections, key=lambda x: x["relevance_score"], reverse=True)`

  /** The sort key; every section is scored before it is sorted. */
  function Key(s: Section): real {
    s.score.GetOr(0.0)
  }

  predicate Descending(r: seq<Section>) {
    forall i, j :: 0 <= i < j < |r| ==> Key(r[i]) >= Key(r[j])
  }

  /** Puts `x` in front of the first element whose key is not larger. */
  function InsertByScore(x: Section, t: seq<Section>): (r: seq<Section>)
    ensures |r| == |t| + 1
    ensures multiset(r) == multiset(t) + multiset{x}
  {
    if t == [] || Key(t[0]) <= Key(x) then [x] + t
    else
      assert t == [t[0]] + t[1..];
      [t[0]] + InsertByScore(x, t[1..])
  }

  /** A stable sort by score, largest first: the order of Python's `sorted`
      with `reverse=True`, which keeps sections of equal score in their
      original order. */
  function SortByScore(s: seq<Section>): (r: seq<Section>)
    ensures |r| == |s|
  {
    if s == [] then [] else InsertByScore(s[0], SortByScore(s[1..]))
  }

  /** The sections of `s` whose score is `v`, in order. */
  function WithKey(s: seq<Section>, v: real): seq<Section> {
    if s == [] then []
    else (if Key(s[0]) == v then [s[0]] else []) + WithKey(s[1..], v)
  }

  /** No section of `r` scores above `b`. */
  predicate AtMost(r: seq<Section>, b: real) {
    forall k :: 0 <= k < |r| ==> Key(r[k]) <= b
  }

  lemma {:induction false} InsertAtMost(x: Section, t: seq<Section>, b: real)
    requires AtMost(t, b) && Key(x) <= b
    ensures AtMost(InsertByScore(x, t), b)
  {
    if t != [] && Key(t[0]) > Key(x) {
      InsertAtMost(x, t[1..], b);
      var r := InsertByScore(x, t);
      forall k | 0 <= k < |r|
        ensures Key(r[k]) <= b
      {
        if k > 0 {
          assert r[k] == InsertByScore(x, t[1..])[k - 1];
        }
      }
    }
  }

  lemma {:induction false} InsertDescending(x: Section, t: seq<Section>)
    requires Descending(t)
    ensures Descending(InsertByScore(x, t))
  {
    if t == [] || Key(t[0]) <= Key(x) {
      var r := [x] + t;
      forall i, j | 0 <= i < j < |r|
        ensures Key(r[i]) >= Key(r[j])
      {
        if i == 0 {
          assert Key(t[0]) >= Key(t[j - 1]);
        }
      }
    } else {
      var tail := t[1..];
      var rest := InsertByScore(x, tail);
      InsertDescending(x, tail);
      assert AtMost(tail, Key(t[0])) by {
        forall k | 0 <= k < |tail|
          ensures Key(tail[k]) <= Key(t[0])
        {
          assert tail[k] == t[k + 1];
        }
      }
      InsertAtMost(x, tail, Key(t[0]));
      var r := [t[0]] + rest;
      forall i, j | 0 <= i < j < |r|
        ensures Key(r[i]) >= Key(r[j])
      {
        assert r[j] == rest[j - 1];
        if i > 0 {
          assert r[i] == rest[i - 1];
        }
      }
    }
  }

  /** The sorted sections are in non-increasing order of score. */
  lemma {:induction false} SortDescending(s: seq<Section>)
    ensures Descending(SortByScore(s))
  {
    if s != [] {
      SortDescending(s[1..]);
      InsertDescending(s[0], SortByScore(s[1..]));
    }
  }

  /** Sorting neither loses nor adds a section. */
  lemma {:induction false} SortPermutes(s: seq<Section>)
    ensures multiset(SortByScore(s)) == multiset(s)
  {
    if s != [] {
      SortPermutes(s[1..]);
      assert s == [s[0]] + s[1..];
    }
  }

  lemma {:induction false} InsertWithKey(x: Section, t: seq<Section>, v: real)
    ensures WithKey(InsertByScore(x, t), v)
         == (if Key(x) == v then [x] else []) + WithKey(t, v)
  {
    if t == [] || Key(t[0]) <= Key(x) {
      assert ([x] + t)[1..] == t;
    } else {
      var rest := InsertByScore(x, t[1..]);
      assert ([t[0]] + rest)[1..] == rest;
      InsertWithKey(x, t[1..], v);
    }
  }

  /** The sort is stable: the sections of any one score come out in the order
      they went in. */
  lemma {:induction false} SortStable(s: seq<Section>, v: real)
    ensures WithKey(SortByScore(s), v) == WithKey(s, v)
  {
    if s != [] {
      SortStable(s[1..], v);
      InsertWithKey(s[0], SortByScore(s[1..]), v);
    }
  }

  /** The first `n` sections after sorting score at least as high as every
      section left out. */
  lemma TopIsBest(s: seq<Section>, n: nat, x: Section, y: Section)
    requires x in s && x !in Take(SortByScore(s), n)
    requires y in Take(SortByScore(s), n)
    ensures Key(x) <= Key(y)
  {
    var r := SortByScore(s);
    SortPermutes(s);
    SortDescending(s);
    assert x in multiset(r);
    LeftOutScoresLower(r, Min(n, |r|), x, y);
  }

  /** In a list sorted by descending score, a section outside the first `m`
      scores no higher than any section among them. */
  lemma LeftOutScoresLower(r: seq<Section>, m: nat, x: Section, y: Section)
    requires Descending(r) && m <= |r|
    requires x in r && x !in r[..m] && y in r[..m]
    ensures Key(x) <= Key(y)
  {
    var j :| 0 <= j < |r| && r[j] == x;
    var i :| 0 <= i < m && r[..m][i] == y;
    PrefixMembers(r, m);
    assert j >= m;
    assert r[i] == y;
  }

  lemma PrefixMembers(r: seq<Section>, m: nat)
    requires m <= |r|
    ensures forall j :: 0 <= j < m ==> r[j] in r[..m]
  {
    forall j | 0 <= j < m
      ensures r[j] in r[..m]
    {
      assert r[..m][j] == r[j];
    }
  }

  /** The ranked list: the sorted sections numbered 1, 2, ... in order. */
  function Ranked(scored: seq<Section>): seq<Section> {
    var sorted := SortByScore(scored);
    seq(|sorted|, i requires 0 <= i < |sorted| => sorted[i].(rank := Some(i + 1)))
  }

  /** Ranking numbers the sections consecutively from 1 in non-increasing
      order of score, and changes nothing but the rank of a sorted section. */
  lemma RankedFacts(scored: seq<Section>)
    ensures |Ranked(scored)| == |scored|
    ensures forall i :: 0 <= i < |scored| ==> Ranked(scored)[i].rank == Some(i + 1)
    ensures forall i, j :: 0 <= i < j < |scored| ==> Key(Ranked(scored)[i]) >= Key(Ranked(scored)[j])
    ensures forall i :: 0 <= i < |scored| ==> Ranked(scored)[i].(rank := None) == SortByScore(scored)[i].(rank := None)
  {
    SortDescending(scored);
  }

  // ---------------------------------------------------------------------
  // `rank_sections_by_relevance`

  /** Scores every section in place (the two scoring loops), then returns the
      sections sorted by score, largest first, with their ranks written, and
      the name of the scorer used. */
  method RankSections(sections: array<Section>, persona: string, job: string,
                      approach: string, scoreMethod: string, services: Services)
    returns (ranked: seq<Section>, actualMethod: string)
    modifies sections
    ensures sections[..] == Scored(old(sections[..]), persona, job,
                                   ChooseStrategy(approach, scoreMethod, services.hasEmbeddings), services)
    ensures ranked == Ranked(sections[..])
    ensures actualMethod == MethodLabel(ChooseStrategy(approach, scoreMethod, services.hasEmbeddings))
  {
    var strategy: Strategy;
    if approach == "llm" {
      strategy := Judge;
      actualMethod := "llm";
    } else {
      var useEmbedding := scoreMethod == "embedding" || (scoreMethod == "auto" && services.hasEmbeddings);
      strategy := if useEmbedding then Embedding else Keyword;
      actualMethod := if useEmbedding then "embedding" else "keyword";
    }
    ScoreAll(sections, persona, job, strategy, services);

    // sort by score descending
    var sorted := SortByScore(sections[..]);
    ranked := sorted;
    for i := 0 to |ranked|
      invariant |ranked| == |sorted|
      invariant forall k :: 0 <= k < i ==> ranked[k] == sorted[k].(rank := Some(k + 1))
      invariant forall k :: i <= k < |sorted| ==> ranked[k] == sorted[k]
    {
      ranked := ranked[i := ranked[i].(rank := Some(i + 1))];
    }
  }

  /** Writes the `relevance_score` of every section under one scorer. */
  method ScoreAll(sections: array<Section>, persona: string, job: string, strategy: Strategy, services: Services)
    modifies sections
    ensures sections[..] == Scored(old(sections[..]), persona, job, strategy, services)
  {
    for i := 0 to sections.Length
      invariant forall k :: 0 <= k < i ==>
        sections[k] == old(sections[k]).(score := Some(Score(old(sections[k]), persona, job, strategy, services)))
      invariant forall k :: i <= k < sections.Length ==> sections[k] == old(sections[k])
    {
      sections[i] := sections[i].(score := Some(Score(sections[i], persona, job, strategy, services)));
    }
  }
}
