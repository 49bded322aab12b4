/** The driver (main.py): flattens the persona and the job, extracts the
    headings of every PDF, ranks them all, keeps the top five, summarizes
    those, and assembles the report and the name of its file. */
module Pipeline {
  import opened Options
  import opened Text
  import opened Extractor
  import opened Records
  import opened Analyzer
  import opened Summarizer

  /** The value of `persona` or `job_to_be_done` in the persona file: a
      string, or an object whose values are strings. */
  datatype Field = Plain(text: string) | Mapping(values: seq<string>)

  /** An object is replaced by its values joined with single spaces. */
  function Flatten(f: Field): (r: string)
    ensures f.Plain? ==> r == f.text
    ensures f.Mapping? && f.values == [] ==> r == []
    ensures f.Mapping? && |f.values| == 1 ==> r == f.values[0]
  {
    match f
    case Plain(s) => s
    case Mapping(values) => Join(" ", values)
  }

  /** The values of an object, none of which holds a space, can be read back
      from the flattened string. */
  lemma FlattenKeepsValues(values: seq<string>)
    requires |values| >= 1
    requires forall k :: 0 <= k < |values| ==> ' ' !in values[k]
    ensures SplitOn(Flatten(Mapping(values)), ' ') == values
  {
    SplitJoinRoundTrip(values, ' ');
  }

  /** `os.path.basename`: what follows the last '/' of a path. */
  function Basename(path: string): (r: string)
    ensures '/' !in r
    ensures |r| <= |path|
    ensures |r| < |path| ==> path[|path| - |r| - 1] == '/'
  {
    if path == [] || path[|path| - 1] == '/' then []
    else Basename(path[..|path| - 1]) + [path[|path| - 1]]
  }

  /** The base name is the tail of the path. */
  lemma {:induction false} BasenameIsSuffix(path: string)
    ensures Basename(path) == path[|path| - |Basename(path)|..]
  {
    if path != [] && path[|path| - 1] != '/' {
      var init := path[..|path| - 1];
      BasenameIsSuffix(init);
      assert Basename(path) == init[|init| - |Basename(init)|..] + [path[|path| - 1]];
    }
  }

  /** The base name of a file in a directory is the file's own name. */
  lemma {:induction false} BasenameOfJoin(dir: string, name: string)
    requires '/' !in name
    ensures Basename(dir + "/" + name) == name
    decreases |name|
  {
    var path := dir + "/" + name;
    if name == [] {
      assert path[|path| - 1] == '/';
    } else {
      var init := name[..|name| - 1];
      assert path[..|path| - 1] == dir + "/" + init;
      BasenameOfJoin(dir, init);
      assert init + [name[|name| - 1]] == name;
    }
  }

  /** A PDF of the input directory: its path and the spans of its pages. */
  datatype PdfFile = PdfFile(path: string, pages: seq<Page>)

  /** An `extracted_sections` entry. */
  datatype ExtractedSection = ExtractedSection(document: string, title: string, rank: nat, page: int)

  /** The report, without its processing timestamp, and the name of the file
      it is written to. */
  datatype Output = Output(
    inputDocuments: seq<string>,
    persona: string,
    job: string,
    extracted: seq<ExtractedSection>,
    subsections: seq<Summary>,
    fileName: string)

  /** How many sections the report keeps. */
  const TopN: nat := 5

  // ---------------------------------------------------------------------
  // The report as a function of the inputs

  /** The base name of every input file, in file order. */
  function Documents(files: seq<PdfFile>): seq<string> {
    seq(|files|, i requires 0 <= i < |files| => Basename(files[i].path))
  }

  /** The headings `extract_sections_from_pdf` returns for every input file,
      in file order. */
  function FileHeadings(files: seq<PdfFile>): seq<seq<Heading>> {
    seq(|files|, i requires 0 <= i < |files| => ExtractSpec(files[i].pages))
  }

  function TagAll(headings: seq<Heading>, document: string): seq<Section> {
    seq(|headings|, i requires 0 <= i < |headings| => Tagged(headings[i], document))
  }

  /** The headings of every file, file after file, each tagged with the
      document name of its file. */
  function Gather(headings: seq<seq<Heading>>, documents: seq<string>): seq<Section>
    requires |documents| == |headings|
  {
    if headings == [] then []
    else
      var n := |headings| - 1;
      Gather(headings[..n], documents[..n]) + TagAll(headings[n], documents[n])
  }

  /** `all_sections`. */
  function AllSections(files: seq<PdfFile>): seq<Section> {
    Gather(FileHeadings(files), Documents(files))
  }

  /** The ranked sections the report keeps, out of all sections `all`. */
  function TopSections(all: seq<Section>, persona: string, job: string, strategy: Strategy, services: Services): seq<Section> {
    Take(Ranked(Scored(all, persona, job, strategy, services)), TopN)
  }

  function OutputFileName(approach: string, actualMethod: string): (name: string)
    ensures |name| >= 21 && name[..16] == "analysis_output_" && name[|name| - 5..] == ".json"
  {
    if approach == "llm" then "analysis_output_llm.json"
    else "analysis_output_" + approach + "_" + actualMethod + ".json"
  }

  function Extract(top: seq<Section>): seq<ExtractedSection> {
    seq(|top|, i requires 0 <= i < |top| => ExtractedSection(top[i].document, top[i].title, i + 1, top[i].page))
  }

  /** What `main` writes once the sections `all` of the files named
      `documents` are gathered. */
  function ReportFrom(documents: seq<string>, all: seq<Section>, personaField: Field, jobField: Field,
                      approach: string, scoreMethod: string, services: Services): Output {
    var persona := Flatten(personaField);
    var job := Flatten(jobField);
    var strategy := ChooseStrategy(approach, scoreMethod, services.hasEmbeddings);
    var top := TopSections(all, persona, job, strategy, services);
    Output(
      documents, persona, job,
      Extract(top),
      Take(Summaries(top, persona, job, approach, services), TopN),
      OutputFileName(approach, MethodLabel(strategy)))
  }

  /** What `main` writes, for the given files, persona file values, options
      and services. */
  function Report(files: seq<PdfFile>, personaField: Field, jobField: Field,
                  approach: string, scoreMethod: string, services: Services): Output {
    ReportFrom(Documents(files), AllSections(files), personaField, jobField, approach, scoreMethod, services)
  }

  // ---------------------------------------------------------------------
  // `main`

  /** The body of `main` once the options are parsed, the persona file is
      read and the PDF files are listed. */
  method Analyze(files: seq<PdfFile>, personaField: Field, jobField: Field,
                 approach: string, scoreMethod: string, services: Services)
    returns (out: Output)
    ensures out == Report(files, personaField, jobField, approach, scoreMethod, services)
  {
    var persona := Flatten(personaField);
    var job := Flatten(jobField);
    ghost var strategy := ChooseStrategy(approach, scoreMethod, services.hasEmbeddings);

    // load all PDFs
    var allSections := LoadSections(files);

    // rank sections by relevance
    var sectionList := new Section[|allSections|](i requires 0 <= i < |allSections| => allSections[i]);
    assert sectionList[..] == allSections;
    var rankedSections, actualMethod := RankSections(sectionList, persona, job, approach, scoreMethod, services);
    rankedSections := Take(rankedSections, TopN);
    assert rankedSections == TopSections(allSections, persona, job, strategy, services);

    // summarize top sections
    var subsectionAnalysis := SummarizeSections(rankedSections, persona, job, approach, services);
    subsectionAnalysis := Take(subsectionAnalysis, TopN);

    var extracted := Extract(rankedSections);
    var outputFile;
    if approach == "llm" {
      outputFile := "analysis_output_llm.json";
    } else {
      outputFile := "analysis_output_" + approach + "_" + actualMethod + ".json";
    }
    out := Output(Documents(files), persona, job, extracted, subsectionAnalysis, outputFile);
  }

  /** The loop over the PDF files: extract the headings of each and tag them
      with the file's base name. */
  method LoadSections(files: seq<PdfFile>) returns (allSections: seq<Section>)
    ensures allSections == AllSections(files)
  {
    allSections := [];
    for f := 0 to |files|
      invariant allSections == AllSections(files[..f])
    {
      var headings := ExtractSections(files[f].pages);
      var sections := TagSections(headings, Basename(files[f].path));
      AllSectionsStep(files, f);
      allSections := allSections + sections;
    }
    assert files[..|files|] == files;
  }

  lemma AllSectionsStep(files: seq<PdfFile>, f: nat)
    requires f < |files|
    ensures AllSections(files[..f + 1])
         == AllSections(files[..f]) + TagAll(ExtractSpec(files[f].pages), Basename(files[f].path))
  {
    var hs := FileHeadings(files[..f + 1]);
    var ds := Documents(files[..f + 1]);
    assert hs[..f] == FileHeadings(files[..f]);
    assert ds[..f] == Documents(files[..f]);
  }

  /** Writes the `document` key of every heading of one file. */
  method TagSections(headings: seq<Heading>, document: string) returns (sections: seq<Section>)
    ensures sections == TagAll(headings, document)
  {
    sections := [];
    for i := 0 to |headings|
      invariant sections == TagAll(headings[..i], document)
    {
      sections := sections + [Tagged(headings[i], document)];
    }
    assert headings[..|headings|] == headings;
  }

  // ---------------------------------------------------------------------
  // Properties of the report

  /** Every gathered section is heading `j` of the headings of a file `f`,
      tagged with that file's document name. */
  lemma {:induction false} GatherSource(headings: seq<seq<Heading>>, documents: seq<string>, m: nat)
    returns (f: nat, j: nat)
    requires |documents| == |headings| && m < |Gather(headings, documents)|
    ensures f < |headings| && j < |headings[f]|
    ensures Gather(headings, documents)[m] == Tagged(headings[f][j], documents[f])
  {
    var n := |headings| - 1;
    var init := Gather(headings[..n], documents[..n]);
    if m < |init| {
      f, j := GatherSource(headings[..n], documents[..n], m);
      assert headings[..n][f] == headings[f] && documents[..n][f] == documents[f];
    } else {
      f := n;
      j := m - |init|;
    }
  }

  /** Every section comes from heading `j` detected in a file `f`, and
      carries the base name of that file. */
  lemma AllSectionsSource(files: seq<PdfFile>, m: nat) returns (f: nat, j: nat)
    requires m < |AllSections(files)|
    ensures f < |files| && j < |ExtractSpec(files[f].pages)|
    ensures AllSections(files)[m] == Tagged(ExtractSpec(files[f].pages)[j], Basename(files[f].path))
  {
    f, j := GatherSource(FileHeadings(files), Documents(files), m);
  }

  /** The report lists the documents it is given, keeps at most five
      sections, ranks them 1, 2, ... in order, and gives one summary per kept
      section with the same document and page. */
  lemma ReportFromShape(documents: seq<string>, all: seq<Section>, personaField: Field, jobField: Field,
                        approach: string, scoreMethod: string, services: Services)
    ensures var out := ReportFrom(documents, all, personaField, jobField, approach, scoreMethod, services);
      && out.inputDocuments == documents
      && |out.extracted| == Min(TopN, |all|)
      && |out.subsections| == |out.extracted|
      && (forall k :: 0 <= k < |out.extracted| ==> out.extracted[k].rank == k + 1)
      && (forall k :: 0 <= k < |out.extracted| ==>
            out.subsections[k].document == out.extracted[k].document &&
            out.subsections[k].page == out.extracted[k].page)
  {
    var persona := Flatten(personaField);
    var job := Flatten(jobField);
    var strategy := ChooseStrategy(approach, scoreMethod, services.hasEmbeddings);
    RankedFacts(Scored(all, persona, job, strategy, services));
  }

  /** The report lists the base name of every input file, in file order,
      keeps at most five sections, ranks them 1, 2, ... in order, and gives
      one summary per kept section with the same document and page. */
  lemma ReportShape(files: seq<PdfFile>, personaField: Field, jobField: Field,
                    approach: string, scoreMethod: string, services: Services)
    ensures var out := Report(files, personaField, jobField, approach, scoreMethod, services);
      && out.inputDocuments == Documents(files) && |out.inputDocuments| == |files|
      && |out.extracted| == Min(TopN, |AllSections(files)|)
      && |out.subsections| == |out.extracted|
      && (forall k :: 0 <= k < |out.extracted| ==> out.extracted[k].rank == k + 1)
      && (forall k :: 0 <= k < |out.extracted| ==>
            out.subsections[k].document == out.extracted[k].document &&
            out.subsections[k].page == out.extracted[k].page)
  {
    ReportFromShape(Documents(files), AllSections(files), personaField, jobField, approach, scoreMethod, services);
  }

  /** Each kept section is one of the sections `all`, reported with its
      document, title and page. */
  lemma ReportFromSource(documents: seq<string>, all: seq<Section>, personaField: Field, jobField: Field,
                         approach: string, scoreMethod: string, services: Services, k: nat)
    returns (m: nat)
    requires k < |ReportFrom(documents, all, personaField, jobField, approach, scoreMethod, services).extracted|
    ensures m < |all|
    ensures ReportFrom(documents, all, personaField, jobField, approach, scoreMethod, services).extracted[k]
         == ExtractedSection(all[m].document, all[m].title, k + 1, all[m].page)
  {
    var persona := Flatten(personaField);
    var job := Flatten(jobField);
    var strategy := ChooseStrategy(approach, scoreMethod, services.hasEmbeddings);
    var scored := Scored(all, persona, job, strategy, services);
    var sorted := SortByScore(scored);
    SortPermutes(scored);
    assert sorted[k] in multiset(scored);
    m :| 0 <= m < |scored| && scored[m] == sorted[k];
  }

  /** Each kept section comes from heading `j` detected in an input file `f`:
      the report names the file's base name, the heading's title and the
      heading's page. */
  lemma ReportedSource(files: seq<PdfFile>, personaField: Field, jobField: Field,
                       approach: string, scoreMethod: string, services: Services, k: nat)
    returns (f: nat, j: nat)
    requires k < |Report(files, personaField, jobField, approach, scoreMethod, services).extracted|
    ensures f < |files| && j < |ExtractSpec(files[f].pages)|
    ensures Report(files, personaField, jobField, approach, scoreMethod, services).extracted[k]
         == ExtractedSection(Basename(files[f].path), ExtractSpec(files[f].pages)[j].title, k + 1,
                             ExtractSpec(files[f].pages)[j].page)
  {
    var m := ReportFromSource(Documents(files), AllSections(files), personaField, jobField,
                              approach, scoreMethod, services, k);
    f, j := AllSectionsSource(files, m);
  }

  /** The kept sections score at least as high as every section left out. */
  lemma TopSectionsAreBest(all: seq<Section>, persona: string, job: string,
                           strategy: Strategy, services: Services, x: Section)
    requires x in Scored(all, persona, job, strategy, services)
    requires x !in Take(SortByScore(Scored(all, persona, job, strategy, services)), TopN)
    ensures forall k :: 0 <= k < |TopSections(all, persona, job, strategy, services)| ==>
      Key(x) <= Key(TopSections(all, persona, job, strategy, services)[k])
  {
    var scored := Scored(all, persona, job, strategy, services);
    var sorted := SortByScore(scored);
    forall k | 0 <= k < |TopSections(all, persona, job, strategy, services)|
      ensures Key(x) <= Key(TopSections(all, persona, job, strategy, services)[k])
    {
      assert Take(sorted, TopN)[k] == sorted[k];
      TopIsBest(scored, TopN, x, sorted[k]);
    }
  }

  /** The kept sections are in non-increasing order of score. */
  lemma TopSectionsDescending(all: seq<Section>, persona: string, job: string,
                              strategy: Strategy, services: Services)
    ensures Descending(TopSections(all, persona, job, strategy, services))
  {
    RankedFacts(Scored(all, persona, job, strategy, services));
  }

  /** The report file is "analysis_output_llm.json" exactly for the approach
      `llm`. */
  lemma OutputFileForLlm(approach: string, actualMethod: string)
    requires |actualMethod| >= 3
    ensures OutputFileName(approach, actualMethod) == "analysis_output_llm.json" <==> approach == "llm"
  {
    if approach != "llm" {
      assert |OutputFileName(approach, actualMethod)| > |"analysis_output_llm.json"|;
    }
  }

  /** Under any other approach, the file name tells the scorers apart. */
  lemma OutputFileNamesScorer(approach: string, a: Strategy, b: Strategy)
    requires approach != "llm"
    ensures OutputFileName(approach, MethodLabel(a)) == OutputFileName(approach, MethodLabel(b)) <==> a == b
  {
    var prefix := "analysis_output_" + approach + "_";
    var na := OutputFileName(approach, MethodLabel(a));
    var nb := OutputFileName(approach, MethodLabel(b));
    if na == nb {
      assert na == prefix + MethodLabel(a) + ".json";
      assert nb == prefix + MethodLabel(b) + ".json";
      assert MethodLabel(a) == na[|prefix|..|na| - 5];
      assert MethodLabel(b) == nb[|prefix|..|nb| - 5];
      MethodLabelNamesStrategy(a, b);
    }
  }
}
