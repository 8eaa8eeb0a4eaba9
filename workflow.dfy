/**
 * The pipeline driver and what the web page shows: research, then use case
 * generation, then resource collection; blank use cases and blank dataset
 * entries are not displayed, and an empty industry is refused before any of
 * it runs.
 */
module Workflow {
  import opened Wrappers
  import opened Text
  import opened Files
  import opened Research
  import opened UseCases
  import opened Resources

  const EmptyIndustryMessage := "Please enter a valid industry or company name."
  const ErrorMessagePrefix := "An error occurred: "

  /** The use case lines the page writes: non-blank entries, stripped, as bullets. */
  function ShownUseCases(useCases: seq<string>): (lines: seq<string>)
    ensures |lines| <= |useCases|
    ensures forall l :: l in lines ==> |l| > 2 && l[..2] == "- " && !IsSpace(l[2])
  {
    if useCases == [] then []
    else
      var last := useCases[|useCases| - 1];
      ShownUseCases(useCases[..|useCases| - 1]) + (if IsBlank(last) then [] else ["- " + Strip(last)])
  }

  /** The shown lines are the non-blank use cases, each stripped and bulleted. */
  lemma {:induction false} ShownUseCasesOfKept(useCases: seq<string>)
    ensures |ShownUseCases(useCases)| == |KeepNonBlank(useCases)|
    ensures forall i :: 0 <= i < |ShownUseCases(useCases)| ==>
      ShownUseCases(useCases)[i] == "- " + Strip(KeepNonBlank(useCases)[i])
  {
    if useCases != [] {
      var init, last := useCases[..|useCases| - 1], useCases[|useCases| - 1];
      ShownUseCasesOfKept(init);
      var shown, kept := ShownUseCases(useCases), KeepNonBlank(useCases);
      var shownInit, keptInit := ShownUseCases(init), KeepNonBlank(init);
      assert shown == shownInit + (if IsBlank(last) then [] else ["- " + Strip(last)]);
      assert kept == keptInit + (if IsBlank(last) then [] else [last]);
      forall i | 0 <= i < |shown| ensures shown[i] == "- " + Strip(kept[i]) {
        if i < |shownInit| {
          assert shown[i] == shownInit[i] && kept[i] == keptInit[i];
        }
      }
    }
  }

  /** The dataset entries the page renders: the non-blank ones, unchanged. */
  function ShownDatasets(datasets: seq<string>): (shown: seq<string>)
    ensures forall d :: d in shown <==> d in datasets && !IsBlank(d)
  {
    assert forall d :: d in datasets && !IsBlank(d) ==> d in KeepNonBlank(datasets) by {
      forall d | d in datasets && !IsBlank(d) ensures d in KeepNonBlank(datasets) {
        KeepNonBlankComplete(datasets, d);
      }
    }
    forall d | d in KeepNonBlank(datasets) ensures d in datasets && !IsBlank(d) {
      KeepNonBlankSound(datasets, d);
    }
    KeepNonBlank(datasets)
  }

  /** The display loop over the use cases: one bullet per non-blank entry, in order. */
  method RenderUseCases(useCases: seq<string>) returns (lines: seq<string>)
    ensures lines == ShownUseCases(useCases)
  {
    lines := [];
    for i := 0 to |useCases|
      invariant lines == ShownUseCases(useCases[..i])
    {
      assert useCases[..i + 1][..i] == useCases[..i];
      if !IsBlank(useCases[i]) {
        lines := lines + ["- " + Strip(useCases[i])];
      }
    }
    assert useCases[..|useCases|] == useCases;
  }

  /** Every shown use case is a bullet over a non-empty text without surrounding whitespace. */
  lemma ShownUseCasesWellFormed(useCases: seq<string>)
    ensures |ShownUseCases(useCases)| <= |useCases|
    ensures forall i :: 0 <= i < |ShownUseCases(useCases)| ==>
      exists u :: u in useCases && ShownUseCases(useCases)[i] == "- " + Strip(u) && Strip(u) != []
  {
    ShownUseCasesOfKept(useCases);
    var kept := KeepNonBlank(useCases);
    forall i | 0 <= i < |kept|
      ensures exists u :: u in useCases && ShownUseCases(useCases)[i] == "- " + Strip(u) && Strip(u) != []
    {
      var u := kept[i];
      assert u in kept;
      KeepNonBlankSound(useCases, u);
      assert ShownUseCases(useCases)[i] == "- " + Strip(u) && Strip(u) != [];
    }
  }

  /** Every non-blank use case is shown. */
  lemma NonBlankUseCaseShown(useCases: seq<string>, u: string)
    requires u in useCases && !IsBlank(u)
    ensures "- " + Strip(u) in ShownUseCases(useCases)
  {
    KeepNonBlankComplete(useCases, u);
    ShownUseCasesOfKept(useCases);
    var kept := KeepNonBlank(useCases);
    var i :| 0 <= i < |kept| && kept[i] == u;
    assert ShownUseCases(useCases)[i] == "- " + Strip(u);
  }

  lemma AnswerLines()
    ensures SplitUseCases("A\n\nB\n") == ["A", "", "B"]
  {
    AnswerStripped();
    AnswerSplit();
  }

  lemma AnswerStripped()
    ensures Strip("A\n\nB\n") == "A\n\nB"
  {
    var text := "A\n\nB\n";
    assert LeadingSpaces(text) == 0;
    assert text[0..] == text;
    assert text[..4] == "A\n\nB";
    assert TrimEnd(text[..4]) == "A\n\nB";
  }

  lemma AnswerSplit()
    ensures Split("A\n\nB", '\n') == ["A", "", "B"]
  {
    SplitNoSep("B", '\n');
    SplitAtFirst("", '\n', "B");
    assert "" + "\n" + "B" == "\nB";
    SplitAtFirst("A", '\n', "\nB");
    assert "A" + "\n" + "\nB" == "A\n\nB";
  }

  lemma SingleLetterShown(c: char)
    requires !IsSpace(c)
    ensures !IsBlank([c]) && Strip([c]) == [c]
  {
    NotBlankIfFirstNotSpace([c]);
    assert LeadingSpaces([c]) == 0;
    assert [c][0..] == [c];
  }

  /** Filtering the answer "A\n\nB\n" drops its empty middle line. */
  lemma BlankLineFiltered()
    ensures KeepNonBlank(SplitUseCases("A\n\nB\n")) == ["A", "B"]
  {
    AnswerLines();
    SingleLetterShown('A');
    SingleLetterShown('B');
    KeepMiddleBlank("A", "", "B");
  }

  lemma KeepMiddleBlank(a: string, b: string, c: string)
    requires !IsBlank(a) && IsBlank(b) && !IsBlank(c)
    ensures KeepNonBlank([a, b, c]) == [a, c]
  {
    var ab := [a, b];
    assert ab[..1] == [a] && ab[..1][..0] == [];
    assert KeepNonBlank(ab) == [a];
    var abc := [a, b, c];
    assert abc[..2] == ab;
    assert KeepNonBlank(abc) == KeepNonBlank(ab) + [c];
  }

  lemma ShownMiddleBlank(a: string, b: string, c: string)
    requires !IsBlank(a) && IsBlank(b) && !IsBlank(c)
    ensures ShownUseCases([a, b, c]) == ["- " + Strip(a), "- " + Strip(c)]
  {
    var abc := [a, b, c];
    assert abc[..2] == [a, b] && abc[..2][..1] == [a] && abc[..2][..1][..0] == [];
    assert ShownUseCases([a]) == ["- " + Strip(a)];
    assert ShownUseCases([a, b]) == ["- " + Strip(a)];
    assert ShownUseCases(abc) == ShownUseCases([a, b]) + ["- " + Strip(c)];
  }

  /** The answer "A\n\nB\n" shows as exactly two use cases. */
  lemma BlankLineNotShown()
    ensures ShownUseCases(SplitUseCases("A\n\nB\n")) == ["- A", "- B"]
  {
    AnswerLines();
    SingleLetterShown('A');
    SingleLetterShown('B');
    ShownMiddleBlank("A", "", "B");
    TwoBullets();
  }

  lemma TwoBullets()
    ensures ["- " + Strip("A"), "- " + Strip("B")] == ["- A", "- B"]
  {
    SingleLetterShown('A');
    SingleLetterShown('B');
    assert "- " + "A" == "- A" && "- " + "B" == "- B";
  }

  /** Every collected resource link is displayed: none of them is blank. */
  lemma AllResourcesShown(resp: HfResponse, run: KaggleRun)
    ensures ShownDatasets(HuggingFaceLinks(resp) + KaggleLinks(run)) == HuggingFaceLinks(resp) + KaggleLinks(run)
  {
    var links := HuggingFaceLinks(resp) + KaggleLinks(run);
    ResourceLinksNonBlank(resp, run);
    assert forall i :: 0 <= i < |links| ==> links[i] in links;
    KeepNonBlankNoBlanks(links);
  }

  /** What the page shows after the button is pressed. */
  datatype Screen =
    | Rejected(error: string)
    | Failed(error: string)
    | Results(useCases: seq<string>, datasets: seq<string>)

  /**
   * `main_workflow`: the research snippets feed the generation request; the
   * resources are collected for the industry alone and saved.
   * `generate` stands for the hosted model. `error` is the exception raised
   * by opening the resource file, in which case the Python call raises.
   */
  method MainWorkflow(fs: FileSystem, industry: string, search: SearchResponse,
                      generate: GenerationRequest -> string, resp: HfResponse, run: KaggleRun)
    returns (useCases: seq<string>, datasets: seq<string>, error: Option<string>)
    modifies fs
    ensures useCases == SplitUseCases(generate(Request(ResearchIndustry(search))))
    ensures datasets == HuggingFaceLinks(resp) + KaggleLinks(run)
    ensures fs.refused == old(fs.refused)
    ensures ResourceFileName(industry) in old(fs.refused) ==>
      error == Some(old(fs.refused)[ResourceFileName(industry)]) && fs.files == old(fs.files)
    ensures ResourceFileName(industry) !in old(fs.refused) ==>
      error == None && fs.files == old(fs.files)[ResourceFileName(industry) := MarkdownDocument(industry, datasets)]
  {
    var analysis := ResearchIndustry(search);
    useCases := SplitUseCases(generate(Request(analysis)));
    datasets, error := CollectAllResources(fs, industry, resp, run);
  }

  /**
   * The button handler: refuses an empty industry without running anything,
   * and shows the error message when the workflow raised.
   */
  method Submit(fs: FileSystem, industry: string, search: SearchResponse,
                generate: GenerationRequest -> string, resp: HfResponse, run: KaggleRun)
    returns (screen: Screen)
    modifies fs
    ensures fs.refused == old(fs.refused)
    ensures industry == [] ==> screen == Rejected(EmptyIndustryMessage) && fs.files == old(fs.files)
    ensures industry != [] && ResourceFileName(industry) in old(fs.refused) ==>
      screen == Failed(ErrorMessagePrefix + old(fs.refused)[ResourceFileName(industry)]) &&
      fs.files == old(fs.files)
    ensures industry != [] && ResourceFileName(industry) !in old(fs.refused) ==>
      screen == Results(ShownUseCases(SplitUseCases(generate(Request(ResearchIndustry(search))))),
                        HuggingFaceLinks(resp) + KaggleLinks(run)) &&
      fs.files == old(fs.files)[ResourceFileName(industry) := MarkdownDocument(industry, HuggingFaceLinks(resp) + KaggleLinks(run))]
  {
    if industry == [] {
      return Rejected(EmptyIndustryMessage);
    }
    var useCases, datasets, error := MainWorkflow(fs, industry, search, generate, resp, run);
    if error.Some? {
      return Failed(ErrorMessagePrefix + error.value);
    }
    var shown := RenderUseCases(useCases);
    AllResourcesShown(resp, run);
    screen := Results(shown, ShownDatasets(datasets));
  }
}
