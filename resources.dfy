/**
 * The resource collector: formats the dataset search results of Hugging Face
 * and Kaggle as markdown links, concatenates them and saves them as a
 * markdown file. The HTTP response and the outcome of running the `kaggle`
 * command are inputs.
 */
module Resources {
  import opened Text
  import opened Wrappers
  import opened Files

  /** One object of the JSON array the Hugging Face dataset search returns. */
  datatype HfDataset = HfDataset(id: Option<string>)

  /** The HTTP status code and the decoded JSON array of the search response. */
  datatype HfResponse = HfResponse(status: int, datasets: seq<HfDataset>)

  /** How `kaggle datasets list --search <query> --csv` ended. */
  datatype KaggleRun =
    | Exited(code: int, stdout: string)  // the process ran; exit code and captured stdout
    | Raised(message: string)            // subprocess.run raised; the text of the exception

  const MaxPerSource: nat := 5
  const HfBase := "https://huggingface.co/datasets/"
  const KaggleBase := "https://www.kaggle.com/datasets/"
  const HfFailure := "Failed to fetch Hugging Face data."
  const KaggleFailure := "Kaggle API request failed."
  const ErrorPrefix := "Error: "

  /** `dataset.get('id', 'Unknown')`: the placeholder stands for a missing id or the id "Unknown" itself. */
  function DatasetId(d: HfDataset): (id: string)
    ensures d.id.Some? ==> id == d.id.value
    ensures id == "Unknown" <==> d.id == None || d.id == Some("Unknown")
  {
    match d.id
    case Some(x) => x
    case None => "Unknown"
  }

  /** The markdown link `[id](base id)` whose label is also the last part of its URL. */
  function SelfLink(base: string, id: string): (link: string)
    ensures |link| == 2 * |id| + |base| + 4
    ensures link[0] == '[' && link[|link| - 1] == ')'
    ensures link[1..1 + |id|] == id
    ensures link[1 + |id|..3 + |id|] == "]("
    ensures link[|link| - 1 - |id|..|link| - 1] == id
    ensures link[|link| - 1 - |id| - |base|..|link| - 1 - |id|] == base
  {
    "[" + id + "](" + base + id + ")"
  }

  /** Reads the label back out of a self link; the label's length follows from the link's. */
  function SelfLinkId(base: string, link: string): string {
    if |link| < |base| + 4 then []
    else link[1..1 + (|link| - |base| - 4) / 2]
  }

  /** Reads the identifier back out of the end of a self link's URL. */
  function SelfLinkUrlId(base: string, link: string): string {
    if |link| < |base| + 4 then []
    else link[|link| - 1 - (|link| - |base| - 4) / 2..|link| - 1]
  }

  /** A self link determines its label and the end of its URL: no two identifiers share a link. */
  lemma SelfLinkRoundTrip(base: string, id: string)
    ensures SelfLinkId(base, SelfLink(base, id)) == id
    ensures SelfLinkUrlId(base, SelfLink(base, id)) == id
  {
    var link := SelfLink(base, id);
    assert (|link| - |base| - 4) / 2 == |id|;
  }

  /** `collect_huggingface_datasets` once the HTTP request has been answered. */
  function HuggingFaceLinks(resp: HfResponse): (links: seq<string>)
    ensures resp.status != 200 ==> links == [HfFailure]
    ensures resp.status == 200 ==> |links| == Min(MaxPerSource, |resp.datasets|)
    ensures resp.status == 200 ==>
      forall i :: 0 <= i < |links| ==> links[i] == SelfLink(HfBase, DatasetId(resp.datasets[i]))
  {
    if resp.status == 200 then
      var top := Take(resp.datasets, MaxPerSource);
      seq(|top|, i requires 0 <= i < |top| => SelfLink(HfBase, DatasetId(top[i])))
    else
      [HfFailure]
  }

  /** On success, the links name the first five datasets, in the order received, in label and URL. */
  lemma HuggingFaceIds(resp: HfResponse)
    requires resp.status == 200
    ensures |HuggingFaceLinks(resp)| <= |resp.datasets|
    ensures forall i :: 0 <= i < |HuggingFaceLinks(resp)| ==>
      SelfLinkId(HfBase, HuggingFaceLinks(resp)[i]) == DatasetId(resp.datasets[i]) &&
      SelfLinkUrlId(HfBase, HuggingFaceLinks(resp)[i]) == DatasetId(resp.datasets[i])
  {
    var links := HuggingFaceLinks(resp);
    forall i | 0 <= i < |links|
      ensures SelfLinkId(HfBase, links[i]) == DatasetId(resp.datasets[i])
      ensures SelfLinkUrlId(HfBase, links[i]) == DatasetId(resp.datasets[i])
    {
      SelfLinkRoundTrip(HfBase, DatasetId(resp.datasets[i]));
    }
  }

  /** The failure sentinel comes back exactly when the status is not 200. */
  lemma HuggingFaceFailureIff(resp: HfResponse)
    ensures HuggingFaceLinks(resp) == [HfFailure] <==> resp.status != 200
  {
    var links := HuggingFaceLinks(resp);
    if resp.status == 200 && |links| == 1 {
      assert links[0][0] != HfFailure[0];
    }
  }

  /** `line.split(',')[0]`: the text before the first comma, or the whole line. */
  function KaggleRef(line: string): (r: string)
    ensures r <= line && ',' !in r
    ensures |r| < |line| ==> line[|r|] == ','
  {
    var parts := Split(line, ',');
    assert parts[0] in parts;
    parts[0]
  }

  /** `stdout.split('\n')[1:6]` without the lines whose strip() is empty. */
  function KaggleRows(stdout: string): (rows: seq<string>)
    ensures |rows| <= MaxPerSource
    ensures forall r :: r in rows ==> !IsBlank(r) && '\n' !in r
    ensures forall r :: r in rows ==> r in Split(stdout, '\n')[1..]
  {
    var lines := Split(stdout, '\n');
    var window := Take(lines[1..], MaxPerSource);
    assert forall r :: r in window ==> r in lines && r in lines[1..];
    forall r | r in KeepNonBlank(window) ensures !IsBlank(r) && r in window {
      KeepNonBlankSound(window, r);
    }
    KeepNonBlank(window)
  }

  /** `collect_kaggle_datasets` once the `kaggle` command has run (or failed to start). */
  function KaggleLinks(run: KaggleRun): (links: seq<string>)
    ensures |links| <= MaxPerSource
    ensures run.Raised? ==> links == [ErrorPrefix + run.message]
    ensures run.Exited? && run.code != 0 ==> links == [KaggleFailure]
    ensures run.Exited? && run.code == 0 ==>
      |links| == |KaggleRows(run.stdout)| &&
      forall i :: 0 <= i < |links| ==>
        links[i] == SelfLink(KaggleBase, KaggleRef(KaggleRows(run.stdout)[i]))
  {
    match run
    case Raised(message) => [ErrorPrefix + message]
    case Exited(code, stdout) =>
      if code == 0 then
        var rows := KaggleRows(stdout);
        seq(|rows|, i requires 0 <= i < |rows| => SelfLink(KaggleBase, KaggleRef(rows[i])))
      else
        [KaggleFailure]
  }

  /** For output given as lines: the rows are lines 2 to 6, blank ones dropped. */
  lemma KaggleRowsOfLines(lines: seq<string>)
    requires |lines| >= 1
    requires forall l :: l in lines ==> '\n' !in l
    ensures KaggleRows(Join(lines, "\n")) == KeepNonBlank(Take(lines[1..], MaxPerSource))
  {
    SplitJoin(lines, '\n');
  }

  /** The header line never contributes a link. */
  lemma KaggleHeaderIgnored(header1: string, header2: string, body: string)
    requires '\n' !in header1 && '\n' !in header2
    ensures KaggleLinks(Exited(0, header1 + "\n" + body)) == KaggleLinks(Exited(0, header2 + "\n" + body))
  {
    SplitAtFirst(header1, '\n', body);
    SplitAtFirst(header2, '\n', body);
    assert KaggleRows(header1 + "\n" + body) == KaggleRows(header2 + "\n" + body);
  }

  /** Output that is a header alone yields no links at all. */
  lemma KaggleHeaderOnly(stdout: string)
    requires '\n' !in stdout
    ensures KaggleLinks(Exited(0, stdout)) == []
  {
    SplitNoSep(stdout, '\n');
  }

  /** On success each link names the first CSV field of its row, read back from its label and its URL. */
  lemma KaggleRefs(stdout: string)
    ensures forall i :: 0 <= i < |KaggleLinks(Exited(0, stdout))| ==>
      SelfLinkId(KaggleBase, KaggleLinks(Exited(0, stdout))[i]) == KaggleRef(KaggleRows(stdout)[i]) &&
      SelfLinkUrlId(KaggleBase, KaggleLinks(Exited(0, stdout))[i]) == KaggleRef(KaggleRows(stdout)[i])
  {
    var links := KaggleLinks(Exited(0, stdout));
    forall i | 0 <= i < |links|
      ensures SelfLinkId(KaggleBase, links[i]) == KaggleRef(KaggleRows(stdout)[i])
      ensures SelfLinkUrlId(KaggleBase, links[i]) == KaggleRef(KaggleRows(stdout)[i])
    {
      SelfLinkRoundTrip(KaggleBase, KaggleRef(KaggleRows(stdout)[i]));
    }
  }

  /** The sentinel comes back exactly on a non-zero exit code, never from an exception or a success. */
  lemma KaggleFailureIff(run: KaggleRun)
    ensures KaggleLinks(run) == [KaggleFailure] <==> run.Exited? && run.code != 0
  {
    var links := KaggleLinks(run);
    if run.Raised? {
      assert links[0][0] == ErrorPrefix[0] != KaggleFailure[0];
    } else if run.code == 0 && |links| == 1 {
      assert links[0][0] != KaggleFailure[0];
    }
  }

  /** No entry either source produces is blank. */
  lemma ResourceLinksNonBlank(resp: HfResponse, run: KaggleRun)
    ensures forall l :: l in HuggingFaceLinks(resp) + KaggleLinks(run) ==> !IsBlank(l)
  {
    var hf, kg := HuggingFaceLinks(resp), KaggleLinks(run);
    forall i | 0 <= i < |hf| ensures !IsBlank(hf[i]) {
      NotBlankIfFirstNotSpace(hf[i]);
    }
    forall i | 0 <= i < |kg| ensures !IsBlank(kg[i]) {
      NotBlankIfFirstNotSpace(kg[i]);
    }
  }

  function ResourceFileName(industry: string): string {
    industry + "_resources.md"
  }

  function HeadingLine(industry: string): string {
    "# Resource Links for " + industry
  }

  function BulletLine(link: string): string {
    "- " + link
  }

  /** The text `f.write(f"- {link}\n")` adds for each link, in order. */
  function Bullets(links: seq<string>): (text: string)
    ensures |text| >= 3 * |links|
    ensures text == [] <==> links == []
    ensures links != [] ==> text[..2] == "- " && text[|text| - 1] == '\n'
  {
    if links == [] then []
    else Bullets(links[..|links| - 1]) + BulletLine(links[|links| - 1]) + "\n"
  }

  /** What `save_to_markdown` leaves in the file: the heading, a blank line, then the bullets. */
  function MarkdownDocument(industry: string, links: seq<string>): (doc: string)
    ensures |doc| >= |HeadingLine(industry)| + 2 + 3 * |links|
    ensures doc[..|HeadingLine(industry)| + 2] == HeadingLine(industry) + "\n\n"
    ensures doc[|doc| - 1] == '\n'
  {
    HeadingLine(industry) + "\n\n" + Bullets(links)
  }

  lemma {:induction false} BulletsCons(link: string, links: seq<string>)
    ensures Bullets([link] + links) == BulletLine(link) + "\n" + Bullets(links)
    decreases |links|
  {
    if links != [] {
      var init := links[..|links| - 1];
      assert ([link] + links)[..|links|] == [link] + init;
      BulletsCons(link, init);
    }
  }

  /** Writing the next link's bullet after a prefix of the bullets extends that prefix by one link. */
  lemma BulletsGrow(heading: string, links: seq<string>, i: nat)
    requires i < |links|
    ensures heading + Bullets(links[..i]) + ("- " + links[i] + "\n") == heading + Bullets(links[..i + 1])
  {
    assert links[..i + 1][..i] == links[..i];
    AppendAssoc(heading, Bullets(links[..i]), BulletLine(links[i]) + "\n");
    AppendAssoc(Bullets(links[..i]), BulletLine(links[i]), "\n");
  }

  /** Read line by line, the bullets are one line per link, in order, then an empty tail. */
  lemma {:induction false} BulletsLines(links: seq<string>)
    requires forall l :: l in links ==> '\n' !in l
    ensures Split(Bullets(links), '\n') == BulletLines(links) + [[]]
  {
    if links != [] {
      var first, rest := links[0], links[1..];
      assert forall l :: l in rest ==> l in links;
      BulletsLines(rest);
      assert first in links;
      calc {
        Split(Bullets(links), '\n');
        { assert links == [first] + rest; BulletsCons(first, rest); }
        Split(BulletLine(first) + "\n" + Bullets(rest), '\n');
        { SplitAtFirst(BulletLine(first), '\n', Bullets(rest)); }
        [BulletLine(first)] + (BulletLines(rest) + [[]]);
        { AppendAssoc([BulletLine(first)], BulletLines(rest), [[]]); }
        [BulletLine(first)] + BulletLines(rest) + [[]];
        { BulletLinesCons(links); }
        BulletLines(links) + [[]];
      }
    }
  }

  /** One bullet line per link, in list order. */
  function BulletLines(links: seq<string>): (lines: seq<string>)
    ensures |lines| == |links|
    ensures forall i :: 0 <= i < |links| ==> lines[i] == BulletLine(links[i])
  {
    seq(|links|, i requires 0 <= i < |links| => BulletLine(links[i]))
  }

  lemma BulletLinesCons(links: seq<string>)
    requires links != []
    ensures BulletLines(links) == [BulletLine(links[0])] + BulletLines(links[1..])
  {
  }

  /**
   * The saved file, read line by line: the heading, an empty line, one bullet
   * per link in list order, and nothing after the final newline.
   */
  lemma MarkdownLines(industry: string, links: seq<string>)
    requires '\n' !in industry
    requires forall l :: l in links ==> '\n' !in l
    ensures Split(MarkdownDocument(industry, links), '\n') ==
      [HeadingLine(industry), []] + BulletLines(links) + [[]]
  {
    var heading, bullets := HeadingLine(industry), Bullets(links);
    HeadingSingleLine(industry);
    SplitAfterHeading(heading, bullets);
    BulletsLines(links);
    AppendAssoc([heading, []], BulletLines(links), [[]]);
  }

  lemma HeadingSingleLine(industry: string)
    requires '\n' !in industry
    ensures '\n' !in HeadingLine(industry)
  {
  }

  /** A heading line followed by an empty line splits off as its two lines. */
  lemma SplitAfterHeading(heading: string, rest: string)
    requires '\n' !in heading
    ensures Split(heading + "\n\n" + rest, '\n') == [heading, []] + Split(rest, '\n')
  {
    assert heading + "\n\n" + rest == heading + "\n" + ([] + "\n" + rest);
    SplitAtFirst([], '\n', rest);
    SplitAtFirst(heading, '\n', [] + "\n" + rest);
    PrependTwo(heading, [], Split(rest, '\n'));
  }

  lemma PrependTwo<T>(a: T, b: T, xs: seq<T>)
    ensures [a] + ([b] + xs) == [a, b] + xs
  {
  }

  /**
   * `save_to_markdown`: truncates the file, writes the heading, then one bullet
   * per link. When `open` raises, nothing is written and the error is returned.
   */
  method SaveToMarkdown(fs: FileSystem, industry: string, links: seq<string>)
    returns (filename: string, error: Option<string>)
    modifies fs
    ensures filename == ResourceFileName(industry)
    ensures fs.refused == old(fs.refused)
    ensures filename in old(fs.refused) ==> error == Some(old(fs.refused)[filename]) && fs.files == old(fs.files)
    ensures filename !in old(fs.refused) ==>
      error == None && fs.files == old(fs.files)[filename := MarkdownDocument(industry, links)]
  {
    filename := industry + "_resources.md";
    error := fs.OpenForWrite(filename);
    if error.Some? {
      return;
    }
    fs.Write(filename, "# Resource Links for " + industry + "\n\n");
    assert links[..0] == [];
    assert fs.files[filename] == HeadingLine(industry) + "\n\n" + Bullets(links[..0]);
    for i := 0 to |links|
      invariant fs.refused == old(fs.refused)
      invariant fs.files == old(fs.files)[filename := HeadingLine(industry) + "\n\n" + Bullets(links[..i])]
    {
      fs.Write(filename, "- " + links[i] + "\n");
      BulletsGrow(HeadingLine(industry) + "\n\n", links, i);
    }
    assert links[..|links|] == links;
  }

  /**
   * `collect_all_resources`: Hugging Face links, then Kaggle links, saved and
   * returned. `error` is the exception raised by opening the file, in which
   * case the Python call raises instead of returning the links.
   */
  method CollectAllResources(fs: FileSystem, industry: string, resp: HfResponse, run: KaggleRun)
    returns (links: seq<string>, error: Option<string>)
    modifies fs
    ensures links == HuggingFaceLinks(resp) + KaggleLinks(run)
    ensures fs.refused == old(fs.refused)
    ensures ResourceFileName(industry) in old(fs.refused) ==>
      error == Some(old(fs.refused)[ResourceFileName(industry)]) && fs.files == old(fs.files)
    ensures ResourceFileName(industry) !in old(fs.refused) ==>
      error == None && fs.files == old(fs.files)[ResourceFileName(industry) := MarkdownDocument(industry, links)]
  {
    var hfLinks := HuggingFaceLinks(resp);
    var kaggleLinks := KaggleLinks(run);
    links := hfLinks + kaggleLinks;
    var _, saveError := SaveToMarkdown(fs, industry, links);
    error := saveError;
  }
}
