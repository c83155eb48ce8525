/**
 * The resume-links content script of the vacancy-responses page
 * (content-get-resume-links.js): `extractLinksFromPage` with its selector
 * fallback, href filter, origin prefixing and Map-based de-duplication by
 * URL; the page tagging and error reporting of `extractVacancyResumeLinks`;
 * and the GO_TO_NEXT_PAGE reply.
 */
module ResumeLinks {
  import opened Wrappers
  import opened Text
  import opened Dom
  import opened HhUrls
  import ResumeUtils

  const Selectors: seq<string> := [
    "a[data-qa=\"serp-item__title\"]",
    "a[href*=\"/resume/\"]",
    ".resume-search-item__name a",
    ".bloko-link[href*=\"/resume/\"]",
    "h3 a[href*=\"/resume/\"]"
  ]

  /** A link as `extractLinksFromPage` collects it. */
  datatype RawLink = RawLink(url: string, title: string)

  // ---------------------------------------------------------------------
  // extractLinksFromPage

  /** `href && href.includes('/resume/')`. */
  predicate IsResumeHref(e: Node) {
    e.href.Some? && e.href.value != "" && Contains(e.href.value, "/resume/")
  }

  function RawLinkFor(e: Node): RawLink
    requires IsResumeHref(e)
  {
    RawLink(AbsoluteUrl(e.href.value), Trim(e.text))
  }

  /** The `forEach` over one selector's elements: a link for each element whose href mentions "/resume/". */
  function SelectorLinks(elements: seq<Node>): (r: seq<RawLink>)
    ensures |r| <= |elements|
  {
    if elements == [] then []
    else
      var e := elements[|elements| - 1];
      SelectorLinks(elements[..|elements| - 1]) + (if IsResumeHref(e) then [RawLinkFor(e)] else [])
  }

  /** A selector contributes exactly the links of its elements with a "/resume/" href. */
  lemma {:induction false} SelectorLinksIff(elements: seq<Node>)
    ensures forall e :: e in elements && IsResumeHref(e) ==> RawLinkFor(e) in SelectorLinks(elements)
    ensures forall l :: l in SelectorLinks(elements) ==> exists e :: e in elements && IsResumeHref(e) && l == RawLinkFor(e)
  {
    if elements != [] {
      var init := elements[..|elements| - 1];
      SelectorLinksIff(init);
      assert forall x :: x in elements <==> x == elements[|elements| - 1] || x in init;
    }
  }

  /** Index of the first selector, from `i` on, that contributes a link; the number of selectors when none does. */
  function FirstContributing(doc: Node, i: nat): (k: nat)
    requires i <= |Selectors|
    ensures i <= k <= |Selectors|
    ensures forall j :: i <= j < k ==> SelectorLinks(QueryAll(doc, Selectors[j])) == []
    ensures k < |Selectors| ==> SelectorLinks(QueryAll(doc, Selectors[k])) != []
    decreases |Selectors| - i
  {
    if i == |Selectors| || SelectorLinks(QueryAll(doc, Selectors[i])) != [] then i
    else FirstContributing(doc, i + 1)
  }

  /** The links collected before de-duplication: those of the first selector that contributes any. */
  function CollectedLinks(doc: Node): seq<RawLink> {
    var k := FirstContributing(doc, 0);
    if k < |Selectors| then SelectorLinks(QueryAll(doc, Selectors[k])) else []
  }

  function Urls(links: seq<RawLink>): (r: seq<string>)
    ensures |r| == |links| && forall i :: 0 <= i < |links| ==> r[i] == links[i].url
  {
    seq(|links|, i requires 0 <= i < |links| => links[i].url)
  }

  /** Index of the first link with this url, or the number of links when there is none. */
  function UrlIndex(links: seq<RawLink>, url: string): (k: nat)
    ensures k <= |links|
    ensures k < |links| ==> links[k].url == url
    ensures forall j :: 0 <= j < k ==> links[j].url != url
  {
    if links == [] then 0
    else if links[0].url == url then 0
    else 1 + UrlIndex(links[1..], url)
  }

  /**
   * `Array.from(new Map(links.map(link => [link.url, link])).values())`: a key
   * keeps the position of its first insertion; a later link with the same
   * key overwrites the value.
   */
  function UniqueByUrl(links: seq<RawLink>): (r: seq<RawLink>)
    ensures Urls(r) == ResumeUtils.Distinct(Urls(links))
  {
    if links == [] then []
    else
      var init := links[..|links| - 1];
      var last := links[|links| - 1];
      var m := UniqueByUrl(init);
      var k := UrlIndex(m, last.url);
      assert Urls(links) == Urls(init) + [last.url];
      assert Urls(links)[..|Urls(links)| - 1] == Urls(init);
      if k < |m| then
        assert Urls(m[k := last]) == Urls(m);
        m[k := last]
      else
        assert last.url !in Urls(m);
        assert Urls(m + [last]) == Urls(m) + [last.url];
        m + [last]
  }

  /** Index of the last link with this url. */
  function LastUrlIndex(links: seq<RawLink>, url: string): (k: nat)
    requires url in Urls(links)
    ensures k < |links| && links[k].url == url
    ensures forall j :: k < j < |links| ==> links[j].url != url
  {
    if links[|links| - 1].url == url then |links| - 1
    else
      assert url in Urls(links[..|links| - 1]) by {
        var j :| 0 <= j < |links| && Urls(links)[j] == url;
        assert Urls(links[..|links| - 1])[j] == url;
      }
      LastUrlIndex(links[..|links| - 1], url)
  }

  /**
   * Each de-duplicated link is a collected one, and the last collected link
   * with its URL: the Map keeps the latest value set for a key.
   */
  lemma {:induction false} UniqueByUrlKeepsLast(links: seq<RawLink>, i: nat)
    requires i < |UniqueByUrl(links)|
    ensures var r := UniqueByUrl(links);
      r[i].url in Urls(links) && r[i] == links[LastUrlIndex(links, r[i].url)]
  {
    var r := UniqueByUrl(links);
    var init := links[..|links| - 1];
    var last := links[|links| - 1];
    var m := UniqueByUrl(init);
    var k := UrlIndex(m, last.url);
    assert Urls(links)[|links| - 1] == last.url;
    if (k < |m| && i == k) || (k == |m| && i == |m|) {
      assert r[i] == last;
    } else {
      assert i < |m| && r[i] == m[i];
      assert Urls(m)[i] == m[i].url;
      if k < |m| {
        assert Urls(m)[k] == last.url;
      }
      assert m[i].url != last.url;
      UniqueByUrlKeepsLast(init, i);
      var j := LastUrlIndex(init, m[i].url);
      assert Urls(init)[j] == m[i].url;
      assert Urls(links)[j] == m[i].url;
      assert LastUrlIndex(links, m[i].url) == j;
    }
  }

  /** `extractLinksFromPage`: the selector loop, then the Map-based de-duplication. */
  method ExtractLinksFromPage(doc: Node) returns (uniqueLinks: seq<RawLink>)
    ensures uniqueLinks == UniqueByUrl(CollectedLinks(doc))
  {
    var links: seq<RawLink> := [];
    var s := 0;
    while s < |Selectors|
      invariant s <= |Selectors|
      invariant links == [] && FirstContributing(doc, 0) == FirstContributing(doc, s)
    {
      var elements := QueryAll(doc, Selectors[s]);
      if |elements| > 0 {
        var k := 0;
        while k < |elements|
          invariant k <= |elements|
          invariant links == SelectorLinks(elements[..k])
        {
          var element := elements[k];
          if element.href.Some? && element.href.value != "" && Contains(element.href.value, "/resume/") {
            var fullUrl := if StartsWith(element.href.value, "http") then element.href.value else Origin + element.href.value;
            links := links + [RawLink(fullUrl, Trim(element.text))];
          }
          assert elements[..k + 1][..k] == elements[..k];
          k := k + 1;
        }
        assert elements[..k] == elements;
        if |links| > 0 {
          assert FirstContributing(doc, s) == s;
          break;
        }
      }
      s := s + 1;
    }
    uniqueLinks := UniqueByUrl(links);
  }

  // ---------------------------------------------------------------------
  // extractVacancyResumeLinks and the message listener

  datatype ResumeLink = ResumeLink(url: string, title: string, page: int)

  /** The `results` object; `totalPages` is never updated. */
  datatype Extraction = Extraction(vacancyId: Option<string>, vacancyUrl: string, resumeLinks: seq<ResumeLink>,
                                   totalPages: nat, error: Option<string>)

  /** The `map` that adds the page number to each link. */
  function TagPage(links: seq<RawLink>, page: int): (r: seq<ResumeLink>)
    ensures |r| == |links|
    ensures forall i :: 0 <= i < |links| ==> r[i].url == links[i].url && r[i].title == links[i].title && r[i].page == page
  {
    seq(|links|, i requires 0 <= i < |links| => ResumeLink(links[i].url, links[i].title, page))
  }

  const NoVacancyId: string := "Vacancy ID not found in URL"

  /**
   * `extractVacancyResumeLinks` on the page at `href`, whose `vacancyId` and
   * `page` query parameters are `vacancyParam` and `pageParam`.
   */
  method ExtractVacancyResumeLinks(href: string, vacancyParam: Option<string>, pageParam: Option<int>, doc: Node)
    returns (r: Extraction)
    ensures vacancyParam.None? || vacancyParam == Some("") ==>
      r == Extraction(vacancyParam, href, [], 0, Some(NoVacancyId))
    ensures vacancyParam.Some? && vacancyParam.value != "" ==>
      r == Extraction(vacancyParam, href, TagPage(UniqueByUrl(CollectedLinks(doc)), PageNumber(pageParam)), 0, None)
  {
    r := Extraction(None, href, [], 0, None);
    r := r.(vacancyId := vacancyParam);
    if vacancyParam.None? || vacancyParam.value == "" {
      r := r.(error := Some(NoVacancyId));
      return;
    }
    var currentPageLinks := ExtractLinksFromPage(doc);
    var currentPage := PageNumber(pageParam);
    r := r.(resumeLinks := TagPage(currentPageLinks, currentPage));
  }

  /** What a successful extraction returns: distinct absolute resume URLs, all tagged with the page. */
  lemma ExtractionFacts(doc: Node, pageParam: Option<int>)
    ensures var links := TagPage(UniqueByUrl(CollectedLinks(doc)), PageNumber(pageParam));
      && (forall i :: 0 <= i < |links| ==> links[i].page == PageNumber(pageParam))
      && (forall i :: 0 <= i < |links| ==> StartsWith(links[i].url, "http"))
      && (forall i, j :: 0 <= i < j < |links| ==> links[i].url != links[j].url)
  {
    var c := CollectedLinks(doc);
    var u := UniqueByUrl(c);
    assert ResumeUtils.NoDuplicates(Urls(u));
    forall i | 0 <= i < |u| ensures StartsWith(u[i].url, "http") {
      UniqueByUrlKeepsLast(c, i);
      var k := FirstContributing(doc, 0);
      if k < |Selectors| {
        SelectorLinksIff(QueryAll(doc, Selectors[k]));
      }
      var j := LastUrlIndex(c, u[i].url);
      assert c[j] in c;
    }
    forall i, j | 0 <= i < j < |u| ensures u[i].url != u[j].url {
      assert Urls(u)[i] == u[i].url && Urls(u)[j] == u[j].url;
    }
  }

  datatype Message = ExtractVacancyResumes | GoToNextPage | OtherMessage(kind: string)

  datatype Reply = ExtractionReply(extraction: Extraction) | Navigating(navigating: bool, nextPage: int)

  /**
   * The listener on the page at `href`. It answers EXTRACT_VACANCY_RESUMES
   * with the extraction, and GO_TO_NEXT_PAGE with the next page number,
   * which is also the page the tab is sent to. Any other message gets no reply.
   */
  method OnMessage(msg: Message, href: string, vacancyParam: Option<string>, pageParam: Option<int>, doc: Node)
    returns (reply: Option<Reply>, navigateToPage: Option<int>)
    ensures msg.GoToNextPage? ==>
      reply == Some(Navigating(true, PageNumber(pageParam) + 1)) && navigateToPage == Some(PageNumber(pageParam) + 1)
    ensures msg.GoToNextPage? && pageParam.None? ==> reply.value.nextPage == 2
    ensures msg.ExtractVacancyResumes? ==>
      (reply.Some? && reply.value.ExtractionReply? && navigateToPage.None?
       && reply.value.extraction.vacancyUrl == href && reply.value.extraction.vacancyId == vacancyParam
       && (reply.value.extraction.error.Some? <==> vacancyParam.None? || vacancyParam == Some("")))
    ensures msg.ExtractVacancyResumes? && vacancyParam.Some? && vacancyParam.value != "" ==>
      reply == Some(ExtractionReply(Extraction(vacancyParam, href,
        TagPage(UniqueByUrl(CollectedLinks(doc)), PageNumber(pageParam)), 0, None)))
    ensures msg.ExtractVacancyResumes? && (vacancyParam.None? || vacancyParam == Some("")) ==>
      reply == Some(ExtractionReply(Extraction(vacancyParam, href, [], 0, Some(NoVacancyId))))
    ensures msg.OtherMessage? ==> reply.None? && navigateToPage.None?
  {
    match msg
    case ExtractVacancyResumes =>
      var results := ExtractVacancyResumeLinks(href, vacancyParam, pageParam, doc);
      return Some(ExtractionReply(results)), None;
    case GoToNextPage =>
      var currentPage := PageNumber(pageParam);
      var nextPage := currentPage + 1;
      return Some(Navigating(true, nextPage)), Some(nextPage);
    case OtherMessage(_) =>
      return None, None;
  }

  /** On a vacancy-responses page the script announces itself to the background with the page's address. */
  function ReadyNotice(href: string): (r: Option<string>)
    ensures r.Some? <==> Contains(href, "/employer/vacancyresponses")
    ensures r.Some? ==> r.value == href
  {
    if Contains(href, "/employer/vacancyresponses") then Some(href) else None
  }
}
