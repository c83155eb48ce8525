/**
 * The popup of the resume-links extractor (popup/popup.js): the page script
 * `extractResumeLinks`, the single-page and multi-page extraction handlers,
 * the save handler, the one-at-a-time resume extraction loop with its
 * processed/successful/failed counters, and the page script
 * `extractResumeContent`. Browser calls, page loads and HTTP replies are
 * passed in as values; the requests each handler issues are returned in order.
 */
module Popup {
  import opened Wrappers
  import opened Text
  import opened Seqs
  import opened Dom
  import opened HhUrls

  // ---------------------------------------------------------------------
  // extractResumeLinks: the links of the responses page the tab shows

  const LinkSelectors: seq<string> := [
    "h3.title--Z9FeLyEY3sZrwn2k a[data-qa=\"serp-item__title\"]",
    "a[data-qa=\"serp-item__title\"]",
    ".bloko-link[href*=\"/resume/\"]",
    "a[href*=\"/resume/\"]"
  ]

  /** The query of the fallback branch: the same as the last selector above. */
  const ResumeAnchors: string := "a[href*=\"/resume/\"]"

  datatype PageLink = PageLink(url: string, title: string, page: int)

  /** What the page script returns; `error` is set only by its `catch`. */
  datatype PageReply = PageReply(vacancyId: Option<string>, links: seq<PageLink>, error: Option<string>)

  /** Index of the first selector that finds any element, or the number of selectors when none does. */
  function FirstFoundIndex(doc: Node, selectors: seq<string>): (i: nat)
    ensures i <= |selectors|
    ensures forall j :: 0 <= j < i ==> QueryAll(doc, selectors[j]) == []
    ensures i < |selectors| ==> QueryAll(doc, selectors[i]) != []
  {
    if selectors == [] then 0
    else if QueryAll(doc, selectors[0]) != [] then 0
    else 1 + FirstFoundIndex(doc, selectors[1..])
  }

  /** `href && href.match(/\/resume\/[a-f0-9]{32}/)`. */
  predicate HasResumeIdHref(e: Node) {
    e.href.Some? && e.href.value != "" && ResumeId32(e.href.value).Some?
  }

  /** The fallback's `filter`. */
  function ResumeIdAnchors(es: seq<Node>): (r: seq<Node>)
    ensures forall e :: e in r <==> e in es && HasResumeIdHref(e)
  {
    if es == [] then []
    else
      var rest := ResumeIdAnchors(es[1..]);
      assert forall e :: e in es <==> e == es[0] || e in es[1..];
      if HasResumeIdHref(es[0]) then [es[0]] + rest else rest
  }

  /** The elements the script settles on: those of the first selector that finds any, else the fallback's. */
  function ChosenElements(doc: Node): seq<Node> {
    var i := FirstFoundIndex(doc, LinkSelectors);
    if i < |LinkSelectors| then QueryAll(doc, LinkSelectors[i])
    else ResumeIdAnchors(QueryAll(doc, ResumeAnchors))
  }

  /** The fallback can never contribute: it queries the last selector, which has just found nothing. */
  lemma FallbackFindsNothing(doc: Node)
    ensures FirstFoundIndex(doc, LinkSelectors) == |LinkSelectors| ==> ChosenElements(doc) == []
  {
    assert LinkSelectors[3] == ResumeAnchors;
  }

  /** `if (href)`: a present, non-empty href. */
  predicate HasHref(e: Node) {
    e.href.Some? && e.href.value != ""
  }

  /** `element.textContent.trim() || 'No title'`. */
  function LinkTitle(text: string): string {
    if Trim(text) != "" then Trim(text) else "No title"
  }

  function LinkFor(e: Node, page: int): PageLink
    requires HasHref(e)
  {
    PageLink(AbsoluteUrl(e.href.value), LinkTitle(e.text), page)
  }

  /**
   * The `forEach` over the chosen elements: one link per element with an
   * href, absolute, titled and tagged with the page, and nothing else.
   */
  function LinksOf(elements: seq<Node>, page: int): (r: seq<PageLink>)
    ensures |r| <= |elements|
    ensures forall l :: l in r ==> l.page == page && StartsWith(l.url, "http") && l.title != ""
  {
    if elements == [] then []
    else
      var e := elements[|elements| - 1];
      LinksOf(elements[..|elements| - 1], page) + (if HasHref(e) then [LinkFor(e, page)] else [])
  }

  /** Every element with an href gives its link, and every link comes from such an element. */
  lemma {:induction false} LinksOfIff(elements: seq<Node>, page: int)
    ensures forall e :: e in elements && HasHref(e) ==> LinkFor(e, page) in LinksOf(elements, page)
    ensures forall l :: l in LinksOf(elements, page) ==> exists e :: e in elements && HasHref(e) && l == LinkFor(e, page)
  {
    if elements != [] {
      var init := elements[..|elements| - 1];
      LinksOfIff(init, page);
      assert forall x :: x in elements <==> x == elements[|elements| - 1] || x in init;
    }
  }

  /** A link whose href is relative gets the hh.ru origin; an empty title becomes 'No title'. */
  lemma LinkForFields(e: Node, page: int)
    requires HasHref(e)
    ensures !StartsWith(e.href.value, "http") ==> LinkFor(e, page).url == Origin + e.href.value
    ensures StartsWith(e.href.value, "http") ==> LinkFor(e, page).url == e.href.value
    ensures Trim(e.text) == "" ==> LinkFor(e, page).title == "No title"
    ensures Trim(e.text) != "" ==> LinkFor(e, page).title == Trim(e.text)
  {
    AbsoluteUrlCases(e.href.value);
  }

  /** The selector loop with its `break`, then the fallback: the elements the script settles on. */
  method ChooseResumeElements(doc: Node) returns (resumeElements: seq<Node>)
    ensures resumeElements == ChosenElements(doc)
  {
    resumeElements := [];
    var s := 0;
    while s < |LinkSelectors|
      invariant s <= |LinkSelectors|
      invariant forall j :: 0 <= j < s ==> QueryAll(doc, LinkSelectors[j]) == []
      invariant resumeElements == []
    {
      resumeElements := QueryAll(doc, LinkSelectors[s]);
      if |resumeElements| > 0 {
        break;
      }
      s := s + 1;
    }
    if |resumeElements| == 0 {
      resumeElements := ResumeIdAnchors(QueryAll(doc, ResumeAnchors));
    }
  }

  /** The `forEach` that pushes one link per element with an href. */
  method CollectPageLinks(resumeElements: seq<Node>, currentPage: int) returns (links: seq<PageLink>)
    ensures links == LinksOf(resumeElements, currentPage)
  {
    links := [];
    var k := 0;
    while k < |resumeElements|
      invariant k <= |resumeElements|
      invariant links == LinksOf(resumeElements[..k], currentPage)
    {
      var element := resumeElements[k];
      if element.href.Some? && element.href.value != "" {
        var title := Trim(element.text);
        if title == "" {
          title := "No title";
        }
        var fullUrl := if StartsWith(element.href.value, "http") then element.href.value else Origin + element.href.value;
        links := links + [PageLink(fullUrl, title, currentPage)];
      }
      assert resumeElements[..k + 1][..k] == resumeElements[..k];
      k := k + 1;
    }
    assert resumeElements[..k] == resumeElements;
  }

  /**
   * `extractResumeLinks`, run in the page; `vacancyParam` and `pageParam`
   * are the `vacancyId` and `page` query parameters of the page's URL.
   */
  method ExtractResumeLinks(doc: Node, vacancyParam: Option<string>, pageParam: Option<int>) returns (reply: PageReply)
    ensures reply == PageReply(vacancyParam, LinksOf(ChosenElements(doc), PageNumber(pageParam)), None)
  {
    var currentPage := PageNumber(pageParam);
    var resumeElements := ChooseResumeElements(doc);
    var links := CollectPageLinks(resumeElements, currentPage);
    reply := PageReply(vacancyParam, links, None);
  }

  // ---------------------------------------------------------------------
  // The "Extract" and "Extract all pages" handlers

  const VacancyResponsesPath: string := "/employer/vacancyresponses"
  const NotOnResponsesPage: string := "Please navigate to a vacancy response page first"

  /** `if (result.result.error)`: an error message that is not empty. */
  predicate HasError(reply: PageReply) {
    reply.error.Some? && reply.error.value != ""
  }

  /** The links shown and the vacancy id kept for saving. */
  datatype Found = Found(links: seq<PageLink>, vacancyId: Option<string>)

  /** The "Extract" handler: the links of the page the tab shows, or the message shown instead. */
  function ExtractCurrentPage(tabUrl: string, reply: PageReply): (r: Result<Found>)
    ensures r.Err? <==> !Contains(tabUrl, VacancyResponsesPath) || HasError(reply)
    ensures !Contains(tabUrl, VacancyResponsesPath) ==> r == Err(NotOnResponsesPage)
    ensures r.Ok? ==> r.value == Found(reply.links, reply.vacancyId)
  {
    if !Contains(tabUrl, VacancyResponsesPath) then Err(NotOnResponsesPage)
    else if HasError(reply) then Err(reply.error.value)
    else Ok(Found(reply.links, reply.vacancyId))
  }

  /** The links, the vacancy id of the last page read, and the number of pages that gave links. */
  datatype Harvest = Harvest(links: seq<PageLink>, vacancyId: Option<string>, pageCount: nat)

  /**
   * What the page script reports while the tab shows page `page` (counted
   * from 1); pages past the listed replies have no links.
   */
  function ReplyOn(pages: seq<PageReply>, page: int): PageReply {
    if 1 <= page <= |pages| then pages[page - 1] else PageReply(None, [], None)
  }

  /** The first listed page, from index `k` on, that ends the loop: an error or no links. */
  function StopIndex(pages: seq<PageReply>, k: nat): (n: nat)
    requires k <= |pages|
    ensures k <= n <= |pages|
    ensures forall j :: k <= j < n ==> !HasError(pages[j]) && pages[j].links != []
    ensures n < |pages| ==> HasError(pages[n]) || pages[n].links == []
    decreases |pages| - k
  {
    if k == |pages| || HasError(pages[k]) || pages[k].links == [] then k
    else StopIndex(pages, k + 1)
  }

  function PageLinks(pages: seq<PageReply>): (r: seq<seq<PageLink>>)
    ensures |r| == |pages|
    ensures forall k :: 0 <= k < |pages| ==> r[k] == pages[k].links
  {
    seq(|pages|, k requires 0 <= k < |pages| => pages[k].links)
  }

  /** What the "Extract all pages" handler should end with when every page is read once, in order. */
  function AllPages(tabUrl: string, pages: seq<PageReply>): Result<Harvest> {
    if !Contains(tabUrl, VacancyResponsesPath) then Err(NotOnResponsesPage)
    else
      var n := StopIndex(pages, 0);
      var last := ReplyOn(pages, n + 1);
      if HasError(last) then Err(last.error.value)
      else Ok(Harvest(Flatten(PageLinks(pages[..n])), last.vacancyId, n))
  }

  /**
   * The harvest stops at the first page without links: every page counted
   * gave links, the page after them gave none, and every link of a counted
   * page is kept. An error on the page that would be read next fails the
   * whole run.
   */
  lemma {:induction false} AllPagesFacts(tabUrl: string, pages: seq<PageReply>)
    requires Contains(tabUrl, VacancyResponsesPath)
    ensures var r := AllPages(tabUrl, pages);
      && (r.Err? <==> HasError(ReplyOn(pages, StopIndex(pages, 0) + 1)))
      && (r.Ok? ==>
            && r.value.pageCount <= |pages|
            && (forall k :: 0 <= k < r.value.pageCount ==> pages[k].links != [])
            && ReplyOn(pages, r.value.pageCount + 1).links == []
            && |r.value.links| >= r.value.pageCount
            && (forall k, l :: 0 <= k < r.value.pageCount && l in pages[k].links ==> l in r.value.links))
  {
    var n := StopIndex(pages, 0);
    if !HasError(ReplyOn(pages, n + 1)) {
      FlattenKeepsAll(PageLinks(pages[..n]));
    }
  }

  /** Every inner sequence's elements appear in the concatenation, which is at least as long as the number of non-empty ones. */
  lemma {:induction false} FlattenKeepsAll<T>(xss: seq<seq<T>>)
    requires forall k :: 0 <= k < |xss| ==> xss[k] != []
    ensures |Flatten(xss)| >= |xss|
    ensures forall k, x :: 0 <= k < |xss| && x in xss[k] ==> x in Flatten(xss)
  {
    if xss != [] {
      FlattenKeepsAll(xss[1..]);
      forall k, x | 0 <= k < |xss| && x in xss[k] ensures x in Flatten(xss) {
        if k > 0 {
          assert xss[1..][k - 1] == xss[k];
        }
      }
    }
  }

  /** The width of the progress bar while page `currentPage` is read, in percent. */
  function ProgressWidth(currentPage: int): int {
    Min(currentPage * 10, 90)
  }

  /** The bar grows by a tenth per page and stops at 90% until the run ends. */
  lemma ProgressWidthBounds(currentPage: int)
    requires currentPage >= 1
    ensures 10 <= ProgressWidth(currentPage) <= 90
    ensures ProgressWidth(currentPage) <= ProgressWidth(currentPage + 1)
    ensures currentPage <= 9 ==> ProgressWidth(currentPage) == currentPage * 10
    ensures currentPage >= 9 ==> ProgressWidth(currentPage) == 90
  {
  }

  /**
   * The navigation step, corrected: the tab is sent to `currentPage`
   * unless it already shows it, so it always shows `currentPage` afterwards.
   */
  function NavigateTo(shownPage: int, currentPage: int): (r: int)
    ensures r == currentPage
  {
    if shownPage != currentPage then currentPage else shownPage
  }

  /**
   * The navigation step as written: it compares with the page of the tab
   * URL read before the loop (`urlPage`), which never changes, rather than
   * the page the tab now shows.
   */
  function NavigateAsWritten(urlPage: int, shownPage: int, currentPage: int): int {
    if urlPage != currentPage then currentPage else shownPage
  }

  /** The page the tab shows when the links of iteration `currentPage` are read, as written, starting on `startPage`. */
  function ShownAsWritten(startPage: int, currentPage: nat): int
    requires currentPage >= 1
  {
    if currentPage == 1 then NavigateAsWritten(startPage, startPage, 1)
    else NavigateAsWritten(startPage, ShownAsWritten(startPage, currentPage - 1), currentPage)
  }

  /** As written, every iteration reads its own page except the one for the start page, which re-reads the page before. */
  lemma {:induction false} ShownAsWrittenIs(startPage: int, currentPage: nat)
    requires currentPage >= 1
    ensures ShownAsWritten(startPage, currentPage) ==
      (if currentPage == startPage && currentPage > 1 then currentPage - 1 else currentPage)
  {
    if currentPage > 1 {
      ShownAsWrittenIs(startPage, currentPage - 1);
    }
  }

  /**
   * Started from a tab on page `startPage` > 1, the code as written reads
   * page `startPage - 1` twice and never reads page `startPage`.
   */
  lemma StaleTabUrlSkipsStartPage(startPage: nat)
    requires startPage >= 2
    ensures ShownAsWritten(startPage, startPage - 1) == startPage - 1
    ensures ShownAsWritten(startPage, startPage) == startPage - 1
    ensures forall c: nat :: 1 <= c ==> ShownAsWritten(startPage, c) != startPage
  {
    ShownAsWrittenIs(startPage, startPage - 1);
    ShownAsWrittenIs(startPage, startPage);
    forall c: nat | 1 <= c ensures ShownAsWritten(startPage, c) != startPage {
      ShownAsWrittenIs(startPage, c);
    }
  }

  /**
   * The "Extract all pages" handler with the corrected navigation step.
   * `tabPage` is the page the tab shows at the start; `widths` are the
   * progress-bar widths set and `read` the pages the tab showed when the
   * script ran, one per iteration.
   */
  method ExtractAllPages(tabUrl: string, tabPage: int, pages: seq<PageReply>)
    returns (r: Result<Harvest>, widths: seq<int>, read: seq<int>)
    ensures r == AllPages(tabUrl, pages)
    ensures !Contains(tabUrl, VacancyResponsesPath) ==> widths == [] && read == []
    ensures Contains(tabUrl, VacancyResponsesPath) ==>
      && |widths| == |read| == StopIndex(pages, 0) + 1
      && forall k :: 0 <= k < |read| ==> widths[k] == ProgressWidth(k + 1) && read[k] == k + 1
  {
    widths, read := [], [];
    if !Contains(tabUrl, VacancyResponsesPath) {
      return Err(NotOnResponsesPage), widths, read;
    }
    var extractedLinks: seq<PageLink> := [];
    var currentPage: nat := 1;
    var hasMorePages := true;
    var vacancyId: Option<string> := None;
    var shownPage := tabPage;
    ghost var n := StopIndex(pages, 0);
    while hasMorePages
      invariant 1 <= currentPage <= n + 1
      invariant extractedLinks == Flatten(PageLinks(pages[..currentPage - 1]))
      invariant |widths| == |read| == (if hasMorePages then currentPage - 1 else currentPage)
      invariant forall k :: 0 <= k < |read| ==> widths[k] == ProgressWidth(k + 1) && read[k] == k + 1
      invariant !hasMorePages ==>
        currentPage == n + 1 && !HasError(ReplyOn(pages, n + 1)) && vacancyId == ReplyOn(pages, n + 1).vacancyId
      decreases n + 1 - currentPage, hasMorePages
    {
      widths := widths + [ProgressWidth(currentPage)];
      shownPage := NavigateTo(shownPage, currentPage);
      var reply := ReplyOn(pages, shownPage);
      read := read + [shownPage];
      if HasError(reply) {
        return Err(reply.error.value), widths, read;
      }
      var pageLinks := reply.links;
      vacancyId := reply.vacancyId;
      if |pageLinks| == 0 {
        hasMorePages := false;
      } else {
        assert currentPage - 1 < n;
        assert pages[..currentPage] == pages[..currentPage - 1] + [pages[currentPage - 1]];
        assert PageLinks(pages[..currentPage]) == PageLinks(pages[..currentPage - 1]) + [pageLinks];
        FlattenSnoc(PageLinks(pages[..currentPage - 1]), pageLinks);
        extractedLinks := extractedLinks + pageLinks;
        currentPage := currentPage + 1;
      }
    }
    r := Ok(Harvest(extractedLinks, vacancyId, currentPage - 1));
  }

  // ---------------------------------------------------------------------
  // The save handler

  /** How the POST of the links ends: a JSON reply, a non-ok status with the `error` field of its body, or a rejected fetch. */
  datatype SaveReply = Stored(message: Option<string>, inserted: nat) | ServerError(status: nat, error: Option<string>) | Rejected(reason: string)

  datatype LinksPost = LinksPost(endpoint: string, vacancyId: Option<string>, links: seq<PageLink>)

  datatype StatusLine = StatusLine(isError: bool, text: string)

  datatype SaveOutcome = SaveOutcome(request: Option<LinksPost>, status: StatusLine)

  const NoApiUrl: string := "Please enter API URL"

  /** The `catch` of the save handler: a failed connection gets its own explanation. */
  function SaveErrorText(message: string, apiUrl: string): string {
    if Contains(message, "Failed to fetch") then "Cannot connect to API server. Make sure it's running at " + apiUrl
    else message
  }

  /** The save handler: nothing is sent without an API URL; otherwise the links are posted and the reply reported. */
  function SaveLinks(apiUrl: string, vacancyId: Option<string>, links: seq<PageLink>, reply: SaveReply): (r: SaveOutcome)
    ensures r.request.None? <==> apiUrl == ""
    ensures apiUrl == "" ==> r.status == StatusLine(true, NoApiUrl)
    ensures r.request.Some? ==> r.request.value == LinksPost(apiUrl + "/vacancy/resume-links", vacancyId, links)
    ensures !r.status.isError <==> apiUrl != "" && reply.Stored?
  {
    if apiUrl == "" then
      assert !Contains(NoApiUrl, "Failed to fetch") by {
        NotContainsWithoutFirstChar(NoApiUrl, "Failed to fetch");
      }
      SaveOutcome(None, StatusLine(true, SaveErrorText(NoApiUrl, apiUrl)))
    else
      var post := Some(LinksPost(apiUrl + "/vacancy/resume-links", vacancyId, links));
      match reply
      case Stored(message, inserted) =>
        var text := if message.Some? && message.value != "" then message.value
                    else "Saved " + NatToString(inserted) + " links to database";
        SaveOutcome(post, StatusLine(false, text))
      case ServerError(status, error) =>
        var message := if error.Some? && error.value != "" then error.value
                       else "Server error (" + NatToString(status) + ")";
        SaveOutcome(post, StatusLine(true, SaveErrorText(message, apiUrl)))
      case Rejected(reason) =>
        SaveOutcome(post, StatusLine(true, SaveErrorText(reason, apiUrl)))
  }

  // ---------------------------------------------------------------------
  // The resume extraction loop

  const TargetCount: nat := 50

  /** A row of the unprocessed-links reply. */
  datatype UnprocessedLink = UnprocessedLink(id: string, url: string, title: string)

  /** An HTTP reply: an ok response with its body, a non-ok status, or a rejected fetch. */
  datatype Response<T> = Answered(body: T) | NotOk | Failed(message: string)

  /**
   * How opening the link in the active tab goes: the tab is found and
   * navigated; the tab lookup rejects or finds no tab (reading `tab.id`
   * throws), so no navigation is requested; or the requested navigation
   * rejects. Either failure goes to the `catch` with its message.
   */
  datatype OpenOutcome = Opened | TabLookupFailed(message: string) | NavigationFailed(message: string)

  /**
   * What the calls of one iteration produce: the unprocessed-links query,
   * opening the link, the content script run on the opened resume (its HTML,
   * or the error it reported), the save request, and the processed-mark
   * (None = it resolved; its status is not checked).
   */
  datatype ResumeIo = ResumeIo(listing: Response<seq<UnprocessedLink>>, open: OpenOutcome, extract: Attempt<string>,
                               save: Response<()>, mark: Option<string>)

  /** Iterations past the listed ones find no unprocessed link. */
  function ResumeIoAt(ios: seq<ResumeIo>, k: nat): ResumeIo {
    if k < |ios| then ios[k] else ResumeIo(Answered([]), Opened, Done(""), Answered(()), None)
  }

  /** The requests the loop issues, in order. */
  datatype Request =
    | FetchUnprocessed
    | OpenResume(url: string)
    | ExtractContent
    | SaveContent(url: string, content: string, linkId: string)
    | MarkProcessed(linkId: string)
    | MarkProcessedWithError(linkId: string, error: string)

  /** How one iteration ends: the `break`, the end of the `try`, or the `catch` with the error's message. */
  datatype Step = NoMoreLinks | Extracted(requests: seq<Request>) | Errored(message: string, requests: seq<Request>)

  /** The `catch` once a link has been obtained: the link is marked with the error (a failure of that mark is ignored). */
  function WithErrorMark(link: UnprocessedLink, message: string, requests: seq<Request>): Step {
    Errored(message, requests + [MarkProcessedWithError(link.id, message)])
  }

  /** One iteration of the loop. */
  function StepOf(io: ResumeIo): Step {
    match io.listing
    case NotOk => Errored("Failed to get unprocessed links", [FetchUnprocessed])
    case Failed(m) => Errored(m, [FetchUnprocessed])
    case Answered(rows) =>
      if rows == [] then NoMoreLinks
      else
        var link := rows[0];
        match io.open
        case TabLookupFailed(m) => WithErrorMark(link, m, [FetchUnprocessed])
        case NavigationFailed(m) => WithErrorMark(link, m, [FetchUnprocessed, OpenResume(link.url)])
        case Opened =>
        var started := [FetchUnprocessed, OpenResume(link.url), ExtractContent];
        match io.extract
        case Threw(m) => WithErrorMark(link, m, started)
        case Done(html) =>
          var saved := started + [SaveContent(link.url, html, link.id)];
          match io.save
          case NotOk => WithErrorMark(link, "Failed to save HTML content", saved)
          case Failed(m) => WithErrorMark(link, m, saved)
          case Answered(_) =>
            var marked := saved + [MarkProcessed(link.id)];
            if io.mark.Some? then WithErrorMark(link, io.mark.value, marked) else Extracted(marked)
  }

  /**
   * Every iteration starts with the unprocessed-links query; an empty reply
   * is the only way to stop early; a failure marks the link with its error
   * exactly when a link was obtained; the tab is navigated unless its lookup
   * failed, and the content script is run only in a tab navigated without
   * error; a success saves the content and marks the link processed.
   */
  lemma StepFacts(io: ResumeIo)
    ensures var s := StepOf(io);
      && (s == NoMoreLinks <==> io.listing == Answered([]))
      && (!s.NoMoreLinks? ==> |s.requests| >= 1 && s.requests[0] == FetchUnprocessed)
      && (s.Errored? && !io.listing.Answered? ==> s.requests == [FetchUnprocessed])
      && (s.Errored? && io.listing.Answered? ==>
            s.requests[|s.requests| - 1] == MarkProcessedWithError(io.listing.body[0].id, s.message))
      && (s.Extracted? ==>
            var link := io.listing.body[0];
            s.requests == [FetchUnprocessed, OpenResume(link.url), ExtractContent,
                           SaveContent(link.url, io.extract.value, link.id), MarkProcessed(link.id)])
      && (s.Extracted? ==> io.open == Opened)
      && (io.listing.Answered? && io.listing.body != [] ==>
            && (OpenResume(io.listing.body[0].url) in s.requests <==> !io.open.TabLookupFailed?)
            && (ExtractContent in s.requests <==> io.open == Opened))
  {
  }

  /** The counters and the requests so far; `exhausted` once the loop has met an empty reply. */
  datatype Progress = Progress(processed: nat, successful: nat, failed: nat, requests: seq<Request>, exhausted: bool)

  /** The counter updates of one iteration. */
  function Record(p: Progress, s: Step): Progress {
    match s
    case NoMoreLinks => p.(requests := p.requests + [FetchUnprocessed], exhausted := true)
    case Extracted(reqs) =>
      p.(processed := p.processed + 1, successful := p.successful + 1, requests := p.requests + reqs)
    case Errored(_, reqs) =>
      p.(processed := p.processed + 1, failed := p.failed + 1, requests := p.requests + reqs)
  }

  /** The state after `n` iterations of the loop, or at its `break`. */
  function Run(ios: seq<ResumeIo>, n: nat): Progress {
    if n == 0 then Progress(0, 0, 0, [], false)
    else
      var p := Run(ios, n - 1);
      if p.exhausted then p else Record(p, StepOf(ResumeIoAt(ios, n - 1)))
  }

  /** The first iteration from `k` on whose unprocessed-links reply is empty. */
  function EmptyListingIndex(ios: seq<ResumeIo>, k: nat): (e: nat)
    ensures k <= e
    ensures forall j :: k <= j < e ==> ResumeIoAt(ios, j).listing != Answered([])
    ensures ResumeIoAt(ios, e).listing == Answered([])
    decreases |ios| - k
  {
    if k >= |ios| || ios[k].listing == Answered([]) then k else EmptyListingIndex(ios, k + 1)
  }

  /** How many of the first `n` iterations succeed. */
  function Successes(ios: seq<ResumeIo>, n: nat): nat {
    if n == 0 then 0
    else Successes(ios, n - 1) + (if StepOf(ResumeIoAt(ios, n - 1)).Extracted? then 1 else 0)
  }

  /**
   * After `n` iterations: one resume is counted per iteration before the
   * first empty reply, as exactly one of successful or failed, and the
   * successful ones are the iterations whose calls all succeeded.
   */
  lemma {:induction false} RunCounters(ios: seq<ResumeIo>, n: nat)
    ensures var p := Run(ios, n); var e := EmptyListingIndex(ios, 0);
      && p.processed == Min(n, e)
      && p.exhausted == (e < n)
      && p.successful == Successes(ios, p.processed)
      && p.processed == p.successful + p.failed
  {
    if n > 0 {
      RunCounters(ios, n - 1);
      var e := EmptyListingIndex(ios, 0);
      if n - 1 < e {
        StepFacts(ResumeIoAt(ios, n - 1));
      }
    }
  }

  /** Once the loop has stopped, further iterations change nothing. */
  lemma {:induction false} RunStaysExhausted(ios: seq<ResumeIo>, m: nat, n: nat)
    requires m <= n && Run(ios, m).exhausted
    ensures Run(ios, n) == Run(ios, m)
    decreases n - m
  {
    if m < n {
      RunStaysExhausted(ios, m, n - 1);
    }
  }

  /** The loop stops after at most 50 resumes, counting each as exactly one of successful or failed. */
  lemma RunBounded(ios: seq<ResumeIo>)
    ensures var p := Run(ios, TargetCount);
      && p.processed <= TargetCount
      && p.processed == p.successful + p.failed
      && (p.processed < TargetCount <==> p.exhausted)
  {
    RunCounters(ios, TargetCount);
  }

  /** The "Extract resumes" handler: nothing is requested without an API URL; otherwise up to 50 iterations. */
  method ExtractResumes(apiUrl: string, ios: seq<ResumeIo>) returns (r: Result<Progress>)
    ensures apiUrl == "" ==> r == Err(NoApiUrl)
    ensures apiUrl != "" ==> r == Ok(Run(ios, TargetCount))
  {
    if apiUrl == "" {
      return Err(NoApiUrl);
    }
    var processed: nat := 0;
    var successful: nat := 0;
    var failed: nat := 0;
    var requests: seq<Request> := [];
    while processed < TargetCount
      invariant processed <= TargetCount
      invariant Run(ios, processed) == Progress(processed, successful, failed, requests, false)
      decreases TargetCount - processed
    {
      var step := StepOf(ResumeIoAt(ios, processed));
      match step
      case NoMoreLinks =>
        requests := requests + [FetchUnprocessed];
        RunStaysExhausted(ios, processed + 1, TargetCount);
        return Ok(Progress(processed, successful, failed, requests, true));
      case Extracted(reqs) =>
        requests := requests + reqs;
        successful := successful + 1;
        processed := processed + 1;
      case Errored(_, reqs) =>
        requests := requests + reqs;
        failed := failed + 1;
        processed := processed + 1;
    }
    r := Ok(Progress(processed, successful, failed, requests, false));
  }

  // ---------------------------------------------------------------------
  // extractResumeContent: the HTML of the resume the tab shows

  function PrintPageUrl(id: string): string {
    "https://hh.ru/resume/" + id + "?print=true&hhtmFrom=resume"
  }

  datatype ResumeContent = ResumeContent(html: string, url: string, printRequest: Option<string>)

  /**
   * `extractResumeContent`: the print version of the resume when the URL
   * holds a 32-digit id and its fetch succeeds (`printFetch`, a non-ok status
   * counting as thrown), else the page's own HTML; never an error.
   */
  function ExtractResumeContent(href: string, printFetch: Attempt<string>, outerHtml: string): (r: ResumeContent)
    ensures r.url == href
    ensures r.printRequest.None? <==> ResumeId32(href).None?
    ensures r.printRequest.Some? ==> r.printRequest.value == PrintPageUrl(ResumeId32(href).value)
    ensures ResumeId32(href).Some? && printFetch.Done? ==> r.html == printFetch.value
    ensures ResumeId32(href).None? || printFetch.Threw? ==> r.html == outerHtml
  {
    match ResumeId32(href)
    case None => ResumeContent(outerHtml, href, None)
    case Some(id) =>
      var html := if printFetch.Done? then printFetch.value else outerHtml;
      ResumeContent(html, href, Some(PrintPageUrl(id)))
  }
}
