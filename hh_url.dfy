/**
 * hh.ru addresses as the extension's page scripts build and read them: the
 * absolute form of a link's href, the 32-digit resume id that
 * `/\/resume\/[a-f0-9]{32}/` finds, and the `page` query parameter.
 */
module HhUrls {
  import opened Wrappers
  import opened Text

  const Origin: string := "https://hh.ru"

  /** `href.startsWith('http') ? href : `https://hh.ru${href}``. */
  function AbsoluteUrl(href: string): (r: string)
    ensures StartsWith(r, "http")
    ensures |href| <= |r| && r[|r| - |href|..] == href
    ensures r == href || r == Origin + href
  {
    if StartsWith(href, "http") then href else Origin + href
  }

  /** An href is kept exactly when it already starts with "http"; any other gains the origin in front. */
  lemma AbsoluteUrlCases(href: string)
    ensures AbsoluteUrl(href) == href <==> StartsWith(href, "http")
    ensures !StartsWith(href, "http") ==> AbsoluteUrl(href) == Origin + href
  {
    if AbsoluteUrl(href) == href {
      assert StartsWith(href, "http");
    }
  }

  /** Making a URL absolute twice changes nothing more. */
  lemma AbsoluteUrlIdempotent(href: string)
    ensures AbsoluteUrl(AbsoluteUrl(href)) == AbsoluteUrl(href)
  {
    AbsoluteUrlCases(AbsoluteUrl(href));
  }

  /** `/\/resume\/[a-f0-9]{32}/` matches at index `i`. */
  predicate ResumeId32At(s: string, i: int) {
    OccursAt(s, "/resume/", i) && i + 40 <= |s| && AllChars(s[i + 8..i + 40], IsHexLower)
  }

  /** The leftmost index at or after `i` where that pattern matches. */
  function LeftmostResumeId32(s: string, i: nat): (r: Option<nat>)
    ensures r.None? <==> forall k :: i <= k ==> !ResumeId32At(s, k)
    ensures r.Some? ==> i <= r.value && ResumeId32At(s, r.value)
    ensures r.Some? ==> forall k :: i <= k < r.value ==> !ResumeId32At(s, k)
    decreases |s| - i
  {
    if i + 40 > |s| then None
    else if ResumeId32At(s, i) then Some(i)
    else LeftmostResumeId32(s, i + 1)
  }

  /** The 32 hex digits captured by `url.match(/\/resume\/([a-f0-9]{32})/)`, or null. */
  function ResumeId32(url: string): (r: Option<string>)
    ensures r.None? <==> forall k :: !ResumeId32At(url, k)
    ensures r.Some? ==> |r.value| == 32 && AllChars(r.value, IsHexLower)
    ensures r.Some? ==> exists k ::
      && ResumeId32At(url, k)
      && (forall j :: 0 <= j < k ==> !ResumeId32At(url, j))
      && r.value == url[k + 8..k + 40]
  {
    match LeftmostResumeId32(url, 0)
    case None => None
    case Some(k) => Some(url[k + 8..k + 40])
  }

  /** `parseInt(params.get('page') || '1')`: `param` is the number given, None when absent or empty. */
  function PageNumber(param: Option<int>): int {
    param.GetOr(1)
  }
}
