/**
 * The research agent: keeps the first snippets of a web search. The search
 * request and the HTML parsing are outside the model; their result, the
 * status code and the texts of the page's `span` elements, is the input.
 */
module Research {
  import opened Text

  const MaxSnippets: nat := 5
  const WebFailure := "Failed to fetch data from the web."

  /** The status code of the search response and the texts of its `span` elements, in page order. */
  datatype SearchResponse = SearchResponse(status: int, spanTexts: seq<string>)

  /** `research_industry` once the page has been fetched and parsed. */
  function ResearchIndustry(resp: SearchResponse): (snippets: seq<string>)
    ensures |snippets| <= MaxSnippets
    ensures resp.status == 200 ==>
      snippets <= resp.spanTexts && |snippets| == Min(MaxSnippets, |resp.spanTexts|)
    ensures resp.status != 200 ==> snippets == [WebFailure]
  {
    if resp.status == 200 then Take(resp.spanTexts, MaxSnippets) else [WebFailure]
  }

  /** Spans after the fifth never reach the snippets. */
  lemma LaterSpansIgnored(first: seq<string>, later: seq<string>)
    requires |first| >= MaxSnippets
    ensures ResearchIndustry(SearchResponse(200, first + later)) == ResearchIndustry(SearchResponse(200, first))
  {
    var a := ResearchIndustry(SearchResponse(200, first + later));
    var b := ResearchIndustry(SearchResponse(200, first));
    assert |a| == |b| == MaxSnippets;
    forall i | 0 <= i < MaxSnippets ensures a[i] == b[i] {
      assert a[i] == (first + later)[i];
    }
  }
}
