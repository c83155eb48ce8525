/**
 * The resume HTML extractor (util/extract-resumes.js): the resume-id and
 * print-URL helpers, the whitespace normalisation of `cleanHTML`, and the
 * batch loop of `extractResumes` with its processed/successful/failed
 * counters. The database and HTTP calls are outcomes passed in per link; the
 * statements the loop issues are returned in order.
 */
module ExtractResumes {
  import opened Wrappers
  import opened Text
  import opened Capture
  import opened Seqs
  import ResumeUtils

  const BatchSize: nat := 10

  /** This file's own `extractResumeId`, which has no guard for an empty URL. */
  function ExtractResumeId(url: string): (r: Option<string>)
    ensures r.None? <==> forall k :: !CaptureAt(url, "/resume/", IsHexLower, k)
    ensures r.Some? ==> exists k :: IsLeftmostCapture(url, "/resume/", IsHexLower, k)
                                      && r.value == CaptureRun(url, "/resume/", IsHexLower, k)
  {
    FirstCapture(url, "/resume/", IsHexLower)
  }

  /** The missing guard makes no difference: both copies agree on every URL. */
  lemma ExtractResumeIdCopiesAgree(url: string)
    ensures ExtractResumeId(url) == ResumeUtils.ExtractResumeId(url)
  {
    if url == "" {
      assert forall k :: !CaptureAt(url, "/resume/", IsHexLower, k);
    }
  }

  /** The print version of a resume page: one query parameter more. */
  function PrintUrl(url: string): (r: string)
    ensures |r| == |url| + |"?print=true"| && r[..|url|] == url
    ensures r[|url| + 1..] == "print=true"
    ensures r[|url|] == (if Contains(url, "?") then '&' else '?')
  {
    var r := url + [if Contains(url, "?") then '&' else '?'] + "print=true";
    assert r[..|url|] == url && r[|url| + 1..] == "print=true";
    r
  }

  /** The result keeps exactly one '?' when the URL had none, and adds none when it had one. */
  lemma PrintUrlQuery(url: string)
    ensures Contains(PrintUrl(url), "?")
    ensures Contains(url, "?") ==> forall i :: |url| <= i < |PrintUrl(url)| ==> PrintUrl(url)[i] != '?'
  {
    var r := PrintUrl(url);
    ContainsIff(url, "?");
    ContainsIff(r, "?");
    if Contains(url, "?") {
      var i :| OccursAt(url, "?", i);
      assert OccursAt(r, "?", i) by { assert r[i..i + 1] == url[i..i + 1]; }
      assert r[|url| + 1..] == "print=true";
    } else {
      assert OccursAt(r, "?", |url|) by { assert r[|url|..|url| + 1] == [r[|url|]]; }
    }
  }

  // ---------------------------------------------------------------------
  // cleanHTML, step 7 and the sizes

  /** Whitespace at `k` and at `k + 1`. */
  predicate DoubleSpaceAt(s: string, k: nat)
    requires k + 1 < |s|
  {
    IsSpace(s[k]) && IsSpace(s[k + 1])
  }

  /** No two whitespace characters are adjacent in `s` from index `i` on. */
  predicate NoDoubleSpaceFrom(s: string, i: int) {
    forall k: nat :: i <= k && k + 1 < |s| ==> !DoubleSpaceAt(s, k)
  }

  /** '>', one whitespace character and '<' start at `k`. */
  predicate SpacedTagsAt(s: string, k: nat)
    requires k + 2 < |s|
  {
    s[k] == '>' && IsSpace(s[k + 1]) && s[k + 2] == '<'
  }

  /** No '>' whitespace '<' in `s`. */
  predicate NoTagGap(s: string) {
    forall k: nat :: k + 2 < |s| ==> !SpacedTagsAt(s, k)
  }

  /** A '>' followed by whitespace and then a '<' starts at `i`. */
  predicate TagGapAt(s: string, i: nat)
    requires i < |s|
  {
    s[i] == '>' && i + 1 < |s| && IsSpace(s[i + 1])
    && RunEnd(s, IsSpace, i + 1) < |s| && s[RunEnd(s, IsSpace, i + 1)] == '<'
  }

  /** `html.replace(/\s+/g, ' ')`, from index `i` on. */
  function CollapseSpaces(s: string, i: nat): (r: string)
    requires i <= |s|
    ensures |r| <= |s| - i
    ensures i < |s| ==> |r| >= 1 && r[0] == (if IsSpace(s[i]) then ' ' else s[i])
    ensures forall k :: 0 <= k < |r| && IsSpace(r[k]) ==> r[k] == ' '
    decreases |s| - i
  {
    if i == |s| then []
    else if IsSpace(s[i]) then
      var e := RunEnd(s, IsSpace, i);
      [' '] + CollapseSpaces(s, e)
    else [s[i]] + CollapseSpaces(s, i + 1)
  }

  /** `html.replace(/>\s+</g, '><')`, from index `i` on; a match consumes its '<'. */
  function JoinTags(s: string, i: nat): (r: string)
    requires i <= |s|
    ensures |r| <= |s| - i
    ensures i < |s| ==> |r| >= 1 && r[0] == s[i]
    ensures i + 1 < |s| && s[i] != '>' ==> |r| >= 2 && r[1] == s[i + 1]
    decreases |s| - i
  {
    if i == |s| then []
    else if TagGapAt(s, i) then
      ['>'] + (['<'] + JoinTags(s, RunEnd(s, IsSpace, i + 1) + 1))
    else
      [s[i]] + JoinTags(s, i + 1)
  }

  /** Putting `c` in front keeps `t` free of adjacent whitespace unless both `c` and `t[0]` are whitespace. */
  lemma NoDoubleSpaceCons(c: char, t: string)
    requires NoDoubleSpaceFrom(t, 0) && !(IsSpace(c) && |t| >= 1 && IsSpace(t[0]))
    ensures NoDoubleSpaceFrom([c] + t, 0)
  {
    var r := [c] + t;
    forall k: nat | 1 <= k && k + 1 < |r| ensures !DoubleSpaceAt(r, k) {
      assert !DoubleSpaceAt(t, k - 1);
      assert r[k] == t[k - 1] && r[k + 1] == t[k];
    }
  }

  /** Putting `c` in front keeps `t` free of '>' whitespace '<' unless `c` is '>' and `t` starts with whitespace and '<'. */
  lemma NoTagGapCons(c: char, t: string)
    requires NoTagGap(t) && !(c == '>' && |t| >= 2 && IsSpace(t[0]) && t[1] == '<')
    ensures NoTagGap([c] + t)
  {
    var r := [c] + t;
    forall k: nat | 1 <= k && k + 2 < |r| ensures !SpacedTagsAt(r, k) {
      assert !SpacedTagsAt(t, k - 1);
      assert r[k] == t[k - 1] && r[k + 1] == t[k] && r[k + 2] == t[k + 1];
    }
  }

  /** Every whitespace run becomes one space: no two whitespace characters remain adjacent. */
  lemma {:induction false} CollapseSpacesNormalised(s: string, i: nat)
    requires i <= |s|
    ensures NoDoubleSpaceFrom(CollapseSpaces(s, i), 0)
    decreases |s| - i
  {
    if i < |s| {
      var next := if IsSpace(s[i]) then RunEnd(s, IsSpace, i) else i + 1;
      var t := CollapseSpaces(s, next);
      CollapseSpacesNormalised(s, next);
      assert CollapseSpaces(s, i) == [CollapseSpaces(s, i)[0]] + t;
      NoDoubleSpaceCons(CollapseSpaces(s, i)[0], t);
    }
  }

  /** Joining tags leaves no '>' whitespace '<'. */
  lemma {:induction false} JoinTagsNoTagGap(s: string, i: nat)
    requires i <= |s|
    ensures NoTagGap(JoinTags(s, i))
    decreases |s| - i
  {
    if i < |s| {
      if TagGapAt(s, i) {
        var t := JoinTags(s, RunEnd(s, IsSpace, i + 1) + 1);
        JoinTagsNoTagGap(s, RunEnd(s, IsSpace, i + 1) + 1);
        NoTagGapCons('<', t);
        NoTagGapCons('>', ['<'] + t);
      } else {
        var t := JoinTags(s, i + 1);
        JoinTagsNoTagGap(s, i + 1);
        if s[i] == '>' && |t| >= 2 && IsSpace(t[0]) {
          assert RunEnd(s, IsSpace, i + 1) == RunEnd(s, IsSpace, i + 2);
        }
        NoTagGapCons(s[i], t);
      }
    }
  }

  /** Joining tags keeps collapsed spacing collapsed. */
  lemma {:induction false} JoinTagsKeepsCollapsed(s: string, i: nat)
    requires i <= |s| && NoDoubleSpaceFrom(s, i)
    ensures NoDoubleSpaceFrom(JoinTags(s, i), 0)
    decreases |s| - i
  {
    if i < |s| {
      if TagGapAt(s, i) {
        var t := JoinTags(s, RunEnd(s, IsSpace, i + 1) + 1);
        JoinTagsKeepsCollapsed(s, RunEnd(s, IsSpace, i + 1) + 1);
        NoDoubleSpaceCons('<', t);
        NoDoubleSpaceCons('>', ['<'] + t);
      } else {
        var t := JoinTags(s, i + 1);
        JoinTagsKeepsCollapsed(s, i + 1);
        if i + 1 < |s| {
          assert !DoubleSpaceAt(s, i);
        }
        NoDoubleSpaceCons(s[i], t);
      }
    }
  }

  /** The parts of `cleanHTML`'s result the model keeps; `reduction` is left out. */
  datatype CleanResult = CleanResult(cleaned: string, originalSize: nat, cleanedSize: nat)

  /** `cleanHTML` on text the tag-stripping steps leave unchanged: step 7, the sizes and the trim. */
  function CleanHtml(html: string): (c: CleanResult)
    ensures c.originalSize == |html| && c.cleanedSize <= c.originalSize && |c.cleaned| <= c.cleanedSize
    ensures c.cleaned == [] || (!IsSpace(c.cleaned[0]) && !IsSpace(c.cleaned[|c.cleaned| - 1]))
  {
    var collapsed := CollapseSpaces(html, 0);
    var joined := JoinTags(collapsed, 0);
    TrimFacts(joined);
    CleanResult(Trim(joined), |html|, |joined|)
  }

  lemma SliceKeepsNormalised(s: string, a: nat, b: nat)
    requires a <= b <= |s| && NoDoubleSpaceFrom(s, 0) && NoTagGap(s)
    ensures NoDoubleSpaceFrom(s[a..b], 0) && NoTagGap(s[a..b])
  {
    var r := s[a..b];
    forall k: nat | k + 1 < |r| ensures !DoubleSpaceAt(r, k) {
      assert !DoubleSpaceAt(s, a + k);
      assert r[k] == s[a + k] && r[k + 1] == s[a + k + 1];
    }
    forall k: nat | k + 2 < |r| ensures !SpacedTagsAt(r, k) {
      assert !SpacedTagsAt(s, a + k);
      assert r[k] == s[a + k] && r[k + 1] == s[a + k + 1] && r[k + 2] == s[a + k + 2];
    }
  }

  /** The cleaned text has no two adjacent whitespace characters and no '>' whitespace '<'. */
  lemma CleanHtmlNormalised(html: string)
    ensures NoDoubleSpaceFrom(CleanHtml(html).cleaned, 0)
    ensures NoTagGap(CleanHtml(html).cleaned)
  {
    var collapsed := CollapseSpaces(html, 0);
    CollapseSpacesNormalised(html, 0);
    var joined := JoinTags(collapsed, 0);
    JoinTagsNoTagGap(collapsed, 0);
    JoinTagsKeepsCollapsed(collapsed, 0);
    var off := TrimOffset(joined);
    var r := Trim(joined);
    TrimFacts(joined);
    SliceKeepsNormalised(joined, off, off + |r|);
    assert CleanHtml(html).cleaned == r;
  }

  /** The text with every whitespace character removed: what the cleaning steps must not change. */
  function NonSpace(s: string): string {
    if s == [] then [] else (if IsSpace(s[0]) then [] else [s[0]]) + NonSpace(s[1..])
  }

  lemma {:induction false} NonSpaceAppend(a: string, b: string)
    ensures NonSpace(a + b) == NonSpace(a) + NonSpace(b)
  {
    if a != [] {
      assert a + b == [a[0]] + (a[1..] + b);
      assert a == [a[0]] + a[1..];
      NonSpaceCons(a[0], a[1..] + b);
      NonSpaceCons(a[0], a[1..]);
      NonSpaceAppend(a[1..], b);
    } else {
      assert a + b == b;
    }
  }

  lemma {:induction false} NonSpaceOfSpaces(s: string)
    requires forall k :: 0 <= k < |s| ==> IsSpace(s[k])
    ensures NonSpace(s) == []
  {
    if s != [] {
      NonSpaceOfSpaces(s[1..]);
    }
  }

  /** `NonSpace` of a text that starts with `c`. */
  lemma NonSpaceCons(c: char, s: string)
    ensures NonSpace([c] + s) == (if IsSpace(c) then [] else [c]) + NonSpace(s)
  {
    assert ([c] + s)[1..] == s;
  }

  /** Collapsing whitespace keeps every other character, in order. */
  lemma {:induction false} CollapseSpacesKeepsText(s: string, i: nat)
    requires i <= |s|
    ensures NonSpace(CollapseSpaces(s, i)) == NonSpace(s[i..])
    decreases |s| - i
  {
    if i < |s| {
      if IsSpace(s[i]) {
        var e := RunEnd(s, IsSpace, i);
        CollapseSpacesKeepsText(s, e);
        NonSpaceCons(' ', CollapseSpaces(s, e));
        assert s[i..] == s[i..e] + s[e..];
        NonSpaceAppend(s[i..e], s[e..]);
        NonSpaceOfSpaces(s[i..e]);
      } else {
        CollapseSpacesKeepsText(s, i + 1);
        NonSpaceCons(s[i], CollapseSpaces(s, i + 1));
        NonSpaceSuffix(s, i);
      }
    }
  }

  /** A tag gap `>` whitespace `<` contributes just its two brackets to `NonSpace`. */
  lemma NonSpaceOfGap(s: string, i: nat)
    requires i < |s| && TagGapAt(s, i)
    ensures NonSpace(s[i..]) == ['>'] + (['<'] + NonSpace(s[JoinNext(s, i)..]))
  {
    var j := RunEnd(s, IsSpace, i + 1);
    NonSpaceSuffix(s, i);
    NonSpaceSkipSpaces(s, i + 1, j);
    NonSpaceSuffix(s, j);
  }

  /** A run of whitespace adds nothing to `NonSpace`. */
  lemma {:induction false} NonSpaceSkipSpaces(s: string, a: nat, b: nat)
    requires a <= b <= |s|
    requires forall k :: a <= k < b ==> IsSpace(s[k])
    ensures NonSpace(s[a..]) == NonSpace(s[b..])
    decreases b - a
  {
    if a < b {
      NonSpaceSuffix(s, a);
      NonSpaceSkipSpaces(s, a + 1, b);
    }
  }

  /** The "><" a tag gap becomes is kept by `NonSpace`. */
  lemma NonSpaceOfBrackets(t: string)
    ensures NonSpace(['>'] + (['<'] + t)) == ['>'] + (['<'] + NonSpace(t))
  {
    NonSpaceCons('>', ['<'] + t);
    NonSpaceCons('<', t);
  }

  /** `NonSpace` of a suffix, one character at a time. */
  lemma NonSpaceSuffix(s: string, i: nat)
    requires i < |s|
    ensures NonSpace(s[i..]) == (if IsSpace(s[i]) then [] else [s[i]]) + NonSpace(s[i + 1..])
  {
    assert s[i..] == [s[i]] + s[i + 1..];
    NonSpaceCons(s[i], s[i + 1..]);
  }

  /** Where `JoinTags` resumes after the character at `i`. */
  function JoinNext(s: string, i: nat): (n: nat)
    requires i < |s|
    ensures i < n <= |s|
  {
    if TagGapAt(s, i) then
      RunEnd(s, IsSpace, i + 1) + 1
    else
      i + 1
  }

  /** A '>' whitespace '<' step of `JoinTags` drops only the whitespace. */
  lemma JoinTagsGapKeepsText(s: string, i: nat)
    requires i < |s| && TagGapAt(s, i)
    requires NonSpace(JoinTags(s, JoinNext(s, i))) == NonSpace(s[JoinNext(s, i)..])
    ensures NonSpace(JoinTags(s, i)) == NonSpace(s[i..])
  {
    var t := JoinTags(s, JoinNext(s, i));
    assert JoinTags(s, i) == ['>'] + (['<'] + t);
    NonSpaceOfBrackets(t);
    NonSpaceOfGap(s, i);
  }

  /** Any other step of `JoinTags` keeps its character. */
  lemma JoinTagsCopyKeepsText(s: string, i: nat)
    requires i < |s| && !TagGapAt(s, i)
    requires NonSpace(JoinTags(s, JoinNext(s, i))) == NonSpace(s[JoinNext(s, i)..])
    ensures NonSpace(JoinTags(s, i)) == NonSpace(s[i..])
  {
    assert JoinTags(s, i) == [s[i]] + JoinTags(s, i + 1);
    NonSpaceCons(s[i], JoinTags(s, i + 1));
    NonSpaceSuffix(s, i);
  }

  /** Joining tags removes only whitespace: every other character is kept, in order. */
  lemma {:induction false} JoinTagsKeepsText(s: string, i: nat)
    requires i <= |s|
    ensures NonSpace(JoinTags(s, i)) == NonSpace(s[i..])
    decreases |s| - i
  {
    if i == |s| {
      assert s[i..] == [];
    } else {
      JoinTagsKeepsText(s, JoinNext(s, i));
      if TagGapAt(s, i) {
        JoinTagsGapKeepsText(s, i);
      } else {
        JoinTagsCopyKeepsText(s, i);
      }
    }
  }

  /** Trimming removes only whitespace. */
  lemma NonSpaceOfTrim(s: string)
    ensures NonSpace(Trim(s)) == NonSpace(s)
  {
    var off := TrimOffset(s);
    var r := Trim(s);
    TrimFacts(s);
    NonSpaceSkipSpaces(s, 0, off);
    assert s[0..] == s;
    assert s[off..] == r + s[off + |r|..];
    NonSpaceAppend(r, s[off + |r|..]);
    NonSpaceSkipSpaces(s, off + |r|, |s|);
    assert s[|s|..] == [];
  }

  /** The cleaned text differs from the input only in whitespace. */
  lemma CleanHtmlKeepsText(html: string)
    ensures NonSpace(CleanHtml(html).cleaned) == NonSpace(html)
  {
    var collapsed := CollapseSpaces(html, 0);
    CollapseSpacesKeepsText(html, 0);
    var joined := JoinTags(collapsed, 0);
    JoinTagsKeepsText(collapsed, 0);
    NonSpaceOfTrim(joined);
    assert html[0..] == html && collapsed[0..] == collapsed;
    assert CleanHtml(html).cleaned == Trim(joined);
  }

  // ---------------------------------------------------------------------
  // The batch loop

  /** A row of the unprocessed-links query. */
  datatype ResumeLink = ResumeLink(url: string, vacancyId: string)

  /**
   * What the calls made for one link produce: the existence check (true when
   * a row exists), the page fetch, the insert, the processed-mark, and the
   * error-mark in the catch block (None = succeeded, Some = the error's message).
   */
  datatype LinkIo = LinkIo(lookup: Attempt<bool>, fetch: Attempt<string>,
                           insert: Option<string>, mark: Option<string>, errorMark: Option<string>)

  function IoAt(ios: seq<LinkIo>, k: nat): LinkIo {
    if k < |ios| then ios[k] else LinkIo(Done(false), Done(""), None, None, None)
  }

  /** The statements and requests issued for a link. */
  datatype Action =
    | SelectExisting(resumeId: string)
    | FetchPage(printUrl: string)
    // the cleaned text and both sizes of the fetched page
    | InsertHtml(resumeId: string, sourceUrl: string, content: CleanResult, vacancyId: string)
    | MarkProcessed(url: string)
    | MarkError(url: string, error: string)

  datatype Outcome = InvalidUrl | AlreadyExtracted | Saved | Failed(message: string) | Aborted(message: string)

  /** How one link ended and what was issued for it, in order. */
  datatype LinkResult = LinkResult(outcome: Outcome, actions: seq<Action>)

  /** The `try` block for a link with resume id `id`. */
  function TryLink(link: ResumeLink, id: string, io: LinkIo): (r: LinkResult)
    ensures |r.actions| >= 1 && r.actions[0] == SelectExisting(id)
    ensures r.outcome == AlreadyExtracted || r.outcome == Saved || r.outcome.Failed?
    ensures r.outcome == AlreadyExtracted ==> r.actions == [SelectExisting(id), MarkProcessed(link.url)]
    ensures r.outcome == AlreadyExtracted <==> io.lookup == Done(true) && io.mark.None?
    ensures r.outcome == Saved <==> io.lookup == Done(false) && io.fetch.Done? && io.insert.None? && io.mark.None?
    ensures r.outcome == Saved ==>
      |r.actions| == 4 && r.actions[1] == FetchPage(PrintUrl(link.url))
      && r.actions[2] == InsertHtml(id, link.url, CleanHtml(io.fetch.value), link.vacancyId)
      && r.actions[3] == MarkProcessed(link.url)
  {
    var checked := [SelectExisting(id)];
    match io.lookup
    case Threw(m) => LinkResult(Failed(m), checked)
    case Done(true) =>
      var marked := checked + [MarkProcessed(link.url)];
      if io.mark.Some? then LinkResult(Failed(io.mark.value), marked) else LinkResult(AlreadyExtracted, marked)
    case Done(false) =>
      var fetched := checked + [FetchPage(PrintUrl(link.url))];
      match io.fetch
      case Threw(m) => LinkResult(Failed(m), fetched)
      case Done(html) =>
        var inserted := fetched + [InsertHtml(id, link.url, CleanHtml(html), link.vacancyId)];
        if io.insert.Some? then LinkResult(Failed(io.insert.value), inserted)
        else
          var marked := inserted + [MarkProcessed(link.url)];
          if io.mark.Some? then LinkResult(Failed(io.mark.value), marked) else LinkResult(Saved, marked)
  }

  /**
   * One iteration of the inner loop: the id check, the `try` block, and the
   * `catch` block that marks the link with the error; an error thrown by that
   * mark escapes to the fatal handler. A link without a resume id issues
   * nothing; an already extracted one is looked up and marked; every failure
   * ends with the error mark; a saved one is inserted and then marked.
   */
  function LinkRun(link: ResumeLink, io: LinkIo): LinkResult {
    match ExtractResumeId(link.url)
    case None => LinkResult(InvalidUrl, [])
    case Some(id) =>
      var tried := TryLink(link, id, io);
      if tried.outcome.Failed? then
        var withMark := tried.actions + [MarkError(link.url, tried.outcome.message)];
        if io.errorMark.Some? then LinkResult(Aborted(io.errorMark.value), withMark)
        else LinkResult(tried.outcome, withMark)
      else tried
  }

  /** What `LinkRun` issues for each kind of outcome. */
  lemma LinkRunActions(link: ResumeLink, io: LinkIo)
    ensures var r := LinkRun(link, io);
      && (r.outcome == InvalidUrl <==> ExtractResumeId(link.url).None?)
      && (r.outcome == InvalidUrl ==> r.actions == [])
      && (r.outcome == AlreadyExtracted ==>
            r.actions == [SelectExisting(ExtractResumeId(link.url).value), MarkProcessed(link.url)])
      && (r.outcome.Failed? ==> |r.actions| >= 2 && r.actions[|r.actions| - 1] == MarkError(link.url, r.outcome.message))
      && (r.outcome == Saved ==> |r.actions| == 4 && r.actions[2].InsertHtml? && r.actions[3] == MarkProcessed(link.url))
  {
  }

  /** The counters after some links; `aborted` holds the error that ended the run. */
  datatype Tally = Tally(processed: nat, successful: nat, failed: nat, actions: seq<Action>, aborted: Option<string>)

  /** The counter updates of one iteration. */
  function Count(t: Tally, r: LinkResult): Tally {
    var t1 := t.(processed := t.processed + 1, actions := t.actions + r.actions);
    match r.outcome
    case InvalidUrl => t1.(failed := t.failed + 1)
    case AlreadyExtracted => t1
    case Saved => t1.(successful := t.successful + 1)
    case Failed(_) => t1.(failed := t.failed + 1)
    case Aborted(m) => t1.(aborted := Some(m))
  }

  /** The result of every link, each computed from that link and its own call outcomes only. */
  function LinkResults(links: seq<ResumeLink>, ios: seq<LinkIo>): (rs: seq<LinkResult>)
    ensures |rs| == |links|
  {
    if links == [] then []
    else LinkResults(links[..|links| - 1], ios) + [LinkRun(links[|links| - 1], IoAt(ios, |links| - 1))]
  }

  /** The `k`-th result depends on the `k`-th link and its call outcomes, and on nothing else. */
  lemma {:induction false} LinkResultsAt(links: seq<ResumeLink>, ios: seq<LinkIo>, k: nat)
    requires k < |links|
    ensures LinkResults(links, ios)[k] == LinkRun(links[k], IoAt(ios, k))
  {
    if k < |links| - 1 {
      LinkResultsAt(links[..|links| - 1], ios, k);
    }
  }

  /** The tally after the inner loop has seen the first `n` results of `rs`; nothing counts after an abort. */
  function Tallied(rs: seq<LinkResult>, n: nat): Tally
    requires n <= |rs|
  {
    if n == 0 then Tally(0, 0, 0, [], None)
    else
      var t := Tallied(rs, n - 1);
      if t.aborted.Some? then t else Count(t, rs[n - 1])
  }

  datatype OutcomeKind = SavedKind | FailedKind | AlreadyExtractedKind

  predicate OfKind(o: Outcome, kind: OutcomeKind) {
    match kind
    case SavedKind => o == Saved
    case FailedKind => o == InvalidUrl || o.Failed?
    case AlreadyExtractedKind => o == AlreadyExtracted
  }

  /** How many of the first `n` results have an outcome of `kind`. */
  function CountOutcomes(rs: seq<LinkResult>, n: nat, kind: OutcomeKind): nat
    requires n <= |rs|
  {
    if n == 0 then 0
    else CountOutcomes(rs, n - 1, kind) + (if OfKind(rs[n - 1].outcome, kind) then 1 else 0)
  }

  /**
   * Unless the run aborted: every link was processed once, `successful`
   * counts the saved links, `failed` the invalid and failed ones, and the
   * rest, `processed - successful - failed`, are exactly the links that were
   * already extracted.
   */
  lemma {:induction false} TalliedCounters(rs: seq<LinkResult>, n: nat)
    requires n <= |rs|
    ensures var t := Tallied(rs, n);
      t.aborted.None? ==>
        && t.processed == n
        && t.successful == CountOutcomes(rs, n, SavedKind)
        && t.failed == CountOutcomes(rs, n, FailedKind)
        && t.processed - t.successful - t.failed == CountOutcomes(rs, n, AlreadyExtractedKind)
  {
    if n > 0 {
      TalliedCounters(rs, n - 1);
    }
  }

  /** Once a run aborts, later links change nothing. */
  lemma {:induction false} TalliedStaysAborted(rs: seq<LinkResult>, m: nat, n: nat)
    requires m <= n <= |rs| && Tallied(rs, m).aborted.Some?
    ensures Tallied(rs, n) == Tallied(rs, m)
  {
    if n > m {
      TalliedStaysAborted(rs, m, n - 1);
    }
  }

  /** How the run ends: nothing to do, the summary, or a fatal error. */
  datatype Report = NoLinks | Summary(processed: nat, successful: nat, failed: nat, alreadyExtracted: int) | Fatal(message: string)

  function ReportOf(t: Tally): Report {
    if t.aborted.Some? then Fatal(t.aborted.value)
    else Summary(t.processed, t.successful, t.failed, t.processed - t.successful - t.failed)
  }

  /** The batches the outer loop takes: `xs.slice(i, i + 10)` for i = 0, 10, 20, ... */
  function Batches<T>(xs: seq<T>): (bs: seq<seq<T>>)
    ensures |bs| == (|xs| + BatchSize - 1) / BatchSize
    ensures forall b :: 0 <= b < |bs| ==> bs[b] == xs[BatchSize * b..Min(BatchSize * b + BatchSize, |xs|)]
    decreases |xs|
  {
    if xs == [] then []
    else if |xs| <= BatchSize then [xs]
    else [xs[..BatchSize]] + Batches(xs[BatchSize..])
  }

  /** The batches cover every link once, in order, and none is empty or longer than ten. */
  lemma {:induction false} BatchesCover<T>(xs: seq<T>)
    ensures Flatten(Batches(xs)) == xs
    ensures forall b :: b in Batches(xs) ==> 1 <= |b| <= BatchSize
    decreases |xs|
  {
    if xs != [] && |xs| > BatchSize {
      BatchesCover(xs[BatchSize..]);
      assert [xs[..BatchSize]] + Batches(xs[BatchSize..]) == Batches(xs);
      assert xs[..BatchSize] + xs[BatchSize..] == xs;
    } else if xs != [] {
      assert Batches(xs) == [xs];
      assert [xs][1..] == [];
    }
  }

  /**
   * `extractResumes` after the unprocessed links were fetched: batches of
   * ten, one iteration per link, counters, and the summary; an error thrown
   * while marking a failure ends the run through the fatal handler.
   */
  method ExtractResumesLoop(links: seq<ResumeLink>, ios: seq<LinkIo>) returns (report: Report, actions: seq<Action>)
    ensures links == [] ==> report == NoLinks && actions == []
    ensures links != [] ==> report == ReportOf(Tallied(LinkResults(links, ios), |links|))
    ensures links != [] ==> actions == Tallied(LinkResults(links, ios), |links|).actions
  {
    if |links| == 0 {
      return NoLinks, [];
    }
    ghost var rs := LinkResults(links, ios);
    var processed, successful, failed := 0, 0, 0;
    actions := [];
    var i := 0;
    ghost var b := 0;
    while i < |links|
      invariant i == BatchSize * b && (i > |links| ==> i < |links| + BatchSize)
      invariant Tallied(rs, Min(i, |links|)) == Tally(processed, successful, failed, actions, None)
      decreases |links| - i
    {
      var batch := links[i..Min(i + BatchSize, |links|)];
      assert b < |Batches(links)| && batch == Batches(links)[b];
      var aborted;
      processed, successful, failed, actions, aborted := RunBatch(links, ios, i, batch, processed, successful, failed, actions);
      if aborted.Some? {
        return Fatal(aborted.value), actions;
      }
      i := i + BatchSize;
      b := b + 1;
    }
    assert Min(i, |links|) == |links|;
    report := Summary(processed, successful, failed, processed as int - successful - failed);
  }

  /** The inner `for (const link of batch)` loop over the links from `start` on. */
  method RunBatch(links: seq<ResumeLink>, ios: seq<LinkIo>, start: nat, batch: seq<ResumeLink>,
                  processed0: nat, successful0: nat, failed0: nat, actions0: seq<Action>)
    returns (processed: nat, successful: nat, failed: nat, actions: seq<Action>, aborted: Option<string>)
    requires start + |batch| <= |links| && batch == links[start..start + |batch|]
    requires Tallied(LinkResults(links, ios), start) == Tally(processed0, successful0, failed0, actions0, None)
    ensures aborted.None? ==>
      Tallied(LinkResults(links, ios), start + |batch|) == Tally(processed, successful, failed, actions, None)
    ensures aborted.Some? ==>
      Tallied(LinkResults(links, ios), |links|) == Tally(processed, successful, failed, actions, aborted)
  {
    ghost var rs := LinkResults(links, ios);
    processed, successful, failed, actions := processed0, successful0, failed0, actions0;
    for j := 0 to |batch|
      invariant Tallied(rs, start + j) == Tally(processed, successful, failed, actions, None)
    {
      var result := ProcessLink(links, ios, start + j);
      processed, successful, failed, actions, aborted := CountLink(processed, successful, failed, actions, result);
      if aborted.Some? {
        TalliedStaysAborted(rs, start + j + 1, |links|);
        return;
      }
    }
    aborted := None;
  }

  /** The body of the inner loop for the `k`-th link, up to the counter updates. */
  method ProcessLink(links: seq<ResumeLink>, ios: seq<LinkIo>, k: nat) returns (result: LinkResult)
    requires k < |links|
    ensures result == LinkResults(links, ios)[k]
  {
    result := LinkRun(links[k], IoAt(ios, k));
    LinkResultsAt(links, ios, k);
  }

  /** The counter updates after one link; `Aborted` leaves the loop with its error. */
  method CountLink(processed0: nat, successful0: nat, failed0: nat, actions0: seq<Action>, result: LinkResult)
    returns (processed: nat, successful: nat, failed: nat, actions: seq<Action>, aborted: Option<string>)
    ensures Tally(processed, successful, failed, actions, aborted)
      == Count(Tally(processed0, successful0, failed0, actions0, None), result)
  {
    processed, successful, failed := processed0 + 1, successful0, failed0;
    actions := actions0 + result.actions;
    aborted := None;
    match result.outcome {
      case InvalidUrl => failed := failed + 1;
      case AlreadyExtracted =>
      case Saved => successful := successful + 1;
      case Failed(_) => failed := failed + 1;
      case Aborted(m) => aborted := Some(m);
    }
  }
}
