/**
 * The parsing helpers of util/resume-parser.js with the document abstracted
 * to `Dom.Node`: selector fallback (`getTextBySelectors`), text collection
 * (`getTextArrayBySelectors`), `parseDateRange`, contact aggregation with
 * masking (`parseContacts`), the item filters of `parseExperience` and
 * `parseEducation`, and the id check and primary fields of `parseResume`.
 */
module ResumeParser {
  import opened Wrappers
  import opened Text
  import opened Capture
  import opened Dom
  import opened ResumeUtils

  // ---------------------------------------------------------------------
  // getTextBySelectors

  /** The trimmed text of the first element `selector` finds, or "" when it finds none. */
  function SelectorText(container: Node, selector: string): string {
    match Query(container, selector)
    case None => ""
    case Some(e) => Trim(e.text)
  }

  /** Where the selector scan stops: the first selector with a non-empty text, or `|selectors|`. */
  function FirstTextIndex(container: Node, selectors: seq<string>): (k: nat)
    ensures k <= |selectors|
    ensures k < |selectors| ==> SelectorText(container, selectors[k]) != ""
    ensures forall j :: 0 <= j < k ==> SelectorText(container, selectors[j]) == ""
  {
    if selectors == [] then 0
    else if SelectorText(container, selectors[0]) != "" then 0
    else 1 + FirstTextIndex(container, selectors[1..])
  }

  /** What `getTextBySelectors` returns. */
  function FirstText(container: Node, selectors: seq<string>): Option<string> {
    var k := FirstTextIndex(container, selectors);
    if k < |selectors| then Some(SelectorText(container, selectors[k])) else None
  }

  /**
   * `getTextBySelectors`: the selectors in order, returning the trimmed text
   * of the first one whose first element has a non-empty trimmed text; null
   * exactly when no selector has one.
   */
  method GetTextBySelectors(container: Node, selectors: seq<string>) returns (r: Option<string>)
    ensures r == FirstText(container, selectors)
    ensures r.None? <==> forall i :: 0 <= i < |selectors| ==> SelectorText(container, selectors[i]) == ""
    ensures r.Some? ==> exists i :: 0 <= i < |selectors| && r.value == SelectorText(container, selectors[i])
    ensures r.Some? ==> r.value != "" && r.value == Trim(r.value)
  {
    for i := 0 to |selectors|
      invariant forall j :: 0 <= j < i ==> SelectorText(container, selectors[j]) == ""
    {
      var element := Query(container, selectors[i]);
      if element.Some? {
        var text := Trim(element.value.text);
        if text != "" {
          TrimIdempotent(element.value.text);
          assert SelectorText(container, selectors[i]) == text;
          return Some(text);
        }
      }
    }
    return None;
  }

  lemma TrimIdempotent(s: string)
    ensures Trim(Trim(s)) == Trim(s)
  {
    var t := Trim(s);
    TrimFacts(s);
    TrimStartFacts(t);
    TrimEndFacts(TrimStart(t));
  }

  // ---------------------------------------------------------------------
  // getTextArrayBySelectors

  /** The non-empty trimmed texts of `elements`, in order. */
  function NonEmptyTexts(elements: seq<Node>): (r: seq<string>)
    ensures |r| <= |elements|
  {
    if elements == [] then []
    else
      var text := Trim(elements[|elements| - 1].text);
      NonEmptyTexts(elements[..|elements| - 1]) + (if text != "" then [text] else [])
  }

  /** A text is collected exactly when it is the non-empty trimmed text of one of the elements. */
  lemma {:induction false} NonEmptyTextsIff(elements: seq<Node>)
    ensures forall t :: t in NonEmptyTexts(elements) <==> exists e :: e in elements && t == Trim(e.text) && t != ""
  {
    if elements != [] {
      var init := elements[..|elements| - 1];
      NonEmptyTextsIff(init);
      assert forall e :: e in elements <==> e in init || e == elements[|elements| - 1];
    }
  }

  /** Every non-empty trimmed text each selector finds, selector after selector. */
  function TextsFound(container: Node, selectors: seq<string>): seq<string> {
    if selectors == [] then []
    else TextsFound(container, selectors[..|selectors| - 1]) + NonEmptyTexts(QueryAll(container, selectors[|selectors| - 1]))
  }

  /** A text is collected exactly when some selector's elements yield it. */
  lemma {:induction false} TextsFoundIff(container: Node, selectors: seq<string>)
    ensures forall t :: t in TextsFound(container, selectors) <==>
      exists i :: 0 <= i < |selectors| && t in NonEmptyTexts(QueryAll(container, selectors[i]))
  {
    if selectors != [] {
      var init := selectors[..|selectors| - 1];
      var found := NonEmptyTexts(QueryAll(container, selectors[|selectors| - 1]));
      TextsFoundIff(container, init);
      var r := TextsFound(container, selectors);
      assert r == TextsFound(container, init) + found;
      forall t | t in r ensures exists i :: 0 <= i < |selectors| && t in NonEmptyTexts(QueryAll(container, selectors[i])) {
        if t in found {
          assert t in NonEmptyTexts(QueryAll(container, selectors[|selectors| - 1]));
        } else {
          var i :| 0 <= i < |init| && t in NonEmptyTexts(QueryAll(container, init[i]));
          assert selectors[i] == init[i];
        }
      }
      forall t, i | 0 <= i < |selectors| && t in NonEmptyTexts(QueryAll(container, selectors[i])) ensures t in r {
        if i < |init| {
          assert init[i] == selectors[i];
        }
      }
    }
  }

  lemma NonEmptyTextsSnoc(elements: seq<Node>, i: nat)
    requires i < |elements|
    ensures NonEmptyTexts(elements[..i + 1]) ==
      NonEmptyTexts(elements[..i]) + (if Trim(elements[i].text) != "" then [Trim(elements[i].text)] else [])
  {
    assert elements[..i + 1][..i] == elements[..i];
  }

  lemma TextsFoundSnoc(container: Node, selectors: seq<string>, i: nat)
    requires i < |selectors|
    ensures TextsFound(container, selectors[..i + 1]) ==
      TextsFound(container, selectors[..i]) + NonEmptyTexts(QueryAll(container, selectors[i]))
  {
    assert selectors[..i + 1][..i] == selectors[..i];
  }

  /** `getTextArrayBySelectors`: collects across all selectors, then `dedupe`s. */
  method GetTextArrayBySelectors(container: Node, selectors: seq<string>) returns (r: seq<string>)
    ensures r == Dedupe(TextsFound(container, selectors))
  {
    var results: seq<string> := [];
    for i := 0 to |selectors|
      invariant results == TextsFound(container, selectors[..i])
    {
      TextsFoundSnoc(container, selectors, i);
      var texts := CollectTexts(QueryAll(container, selectors[i]));
      results := results + texts;
    }
    assert selectors[..|selectors|] == selectors;
    r := Dedupe(results);
  }

  /** The inner `forEach` of `getTextArrayBySelectors`: push each element's non-empty trimmed text. */
  method CollectTexts(elements: seq<Node>) returns (texts: seq<string>)
    ensures texts == NonEmptyTexts(elements)
  {
    texts := [];
    for k := 0 to |elements|
      invariant texts == NonEmptyTexts(elements[..k])
    {
      NonEmptyTextsSnoc(elements, k);
      var text := Trim(elements[k].text);
      if text != "" {
        texts := texts + [text];
      }
    }
    assert elements[..|elements|] == elements;
  }

  /** The collected texts: each once, non-empty, exactly those some selector's elements carry. */
  lemma TextArrayContents(container: Node, selectors: seq<string>)
    ensures var r := Dedupe(TextsFound(container, selectors));
      && NoDuplicates(r)
      && forall t :: t in r <==>
           t != "" && exists i, e :: 0 <= i < |selectors| && e in QueryAll(container, selectors[i]) && t == Trim(e.text)
  {
    var r := Dedupe(TextsFound(container, selectors));
    TextsFoundIff(container, selectors);
    forall i | 0 <= i < |selectors| {
      NonEmptyTextsIff(QueryAll(container, selectors[i]));
    }
    forall t | t != "" && exists i, e :: 0 <= i < |selectors| && e in QueryAll(container, selectors[i]) && t == Trim(e.text)
      ensures t in r
    {
      var i, e :| 0 <= i < |selectors| && e in QueryAll(container, selectors[i]) && t == Trim(e.text);
      assert t in NonEmptyTexts(QueryAll(container, selectors[i]));
    }
  }

  // ---------------------------------------------------------------------
  // parseDateRange

  datatype DateRange = DateRange(from: Option<string>, to: Option<string>, isCurrent: bool)

  /** End of the match of `/—|–|-|\s+по\s+/` that starts at `p`, if one does. */
  function SeparatorAt(s: string, p: nat): (e: Option<nat>)
    ensures e.Some? ==> p < e.value <= |s|
  {
    if p >= |s| then None
    else if s[p] == '—' || s[p] == '–' || s[p] == '-' then Some(p + 1)
    else if IsSpace(s[p]) then
      var q := RunEnd(s, IsSpace, p);
      if q + 2 < |s| && s[q] == 'п' && s[q + 1] == 'о' && IsSpace(s[q + 2]) then Some(RunEnd(s, IsSpace, q + 2))
      else None
    else None
  }

  /** The leftmost separator that starts at or after `p`: its start and its end. */
  function NextSeparator(s: string, p: nat): (r: Option<(nat, nat)>)
    ensures r.Some? ==> p <= r.value.0 && SeparatorAt(s, r.value.0) == Some(r.value.1)
    ensures r.Some? ==> forall q :: p <= q < r.value.0 ==> SeparatorAt(s, q).None?
    ensures r.None? ==> forall q :: p <= q ==> SeparatorAt(s, q).None?
    decreases |s| - p
  {
    if p >= |s| then None
    else
      match SeparatorAt(s, p)
      case Some(e) => Some((p, e))
      case None => NextSeparator(s, p + 1)
  }

  /** `s.split(separator)[0]`, and `[1]` when there is one. */
  function FirstTwoParts(s: string): (string, Option<string>) {
    match NextSeparator(s, 0)
    case None => (s, None)
    case Some((a, b)) =>
      match NextSeparator(s, b)
      case None => (s[..a], Some(s[b..]))
      case Some((c, _)) => (s[..a], Some(s[b..c]))
  }

  /** `parseDateRange`. */
  function ParseDateRange(dateText: string): (r: DateRange)
    ensures dateText == "" ==> r == DateRange(None, None, false)
    ensures r.from.Some? ==> IsIsoMonthStart(r.from.value) || IsInheritedMonthStart(r.from.value)
    ensures r.to.Some? ==> IsIsoMonthStart(r.to.value) || IsInheritedMonthStart(r.to.value)
  {
    if dateText == "" then DateRange(None, None, false)
    else
      var isCurrent := Contains(dateText, "по настоящее время") || Contains(dateText, "н.в.");
      var parts := FirstTwoParts(dateText);
      var from := if parts.0 != "" then RussianDate(Trim(parts.0)) else None;
      var to := if parts.1.Some? && parts.1.value != "" && !isCurrent then RussianDate(Trim(parts.1.value)) else None;
      RussianDateShape(Trim(parts.0));
      RussianDateShape(if parts.1.Some? then Trim(parts.1.value) else "");
      DateRange(from, to, isCurrent)
  }

  /** `isCurrent` holds exactly when either marker occurs, and then no end date is read. */
  lemma ParseDateRangeCurrent(dateText: string)
    ensures var r := ParseDateRange(dateText);
      && (r.isCurrent <==> exists i :: OccursAt(dateText, "по настоящее время", i) || OccursAt(dateText, "н.в.", i))
      && (r.isCurrent ==> r.to.None?)
  {
    ContainsIff(dateText, "по настоящее время");
    ContainsIff(dateText, "н.в.");
  }

  /**
   * `from` is read from the text before the first separator: whatever `k`
   * is the start of the leftmost separator (or the end of the text).
   */
  lemma ParseDateRangeFrom(dateText: string, k: nat)
    requires dateText != "" && k <= |dateText|
    requires forall q :: 0 <= q < k ==> SeparatorAt(dateText, q).None?
    requires k == |dateText| || SeparatorAt(dateText, k).Some?
    ensures ParseDateRange(dateText).from == if k > 0 then RussianDate(Trim(dateText[..k])) else None
  {
    match NextSeparator(dateText, 0)
    case None =>
      assert k == |dateText|;
      assert dateText[..k] == dateText;
    case Some((a, _)) =>
      assert a == k;
  }

  /**
   * `to` is read from the text between the first separator, which spans
   * `[a, b)`, and the start `c` of the next one (or the end of the text): it
   * is that text's date when the text is not empty and the range is not
   * current. The spaces around a dash belong to the parts and are trimmed.
   */
  lemma ParseDateRangeTo(dateText: string, a: nat, b: nat, c: nat)
    requires dateText != "" && b <= c <= |dateText|
    requires forall q :: 0 <= q < a ==> SeparatorAt(dateText, q).None?
    requires SeparatorAt(dateText, a) == Some(b)
    requires forall q :: b <= q < c ==> SeparatorAt(dateText, q).None?
    requires c == |dateText| || SeparatorAt(dateText, c).Some?
    ensures var r := ParseDateRange(dateText);
      r.to == if b < c && !r.isCurrent then RussianDate(Trim(dateText[b..c])) else None
  {
    var first := NextSeparator(dateText, 0);
    assert first == Some((a, b));
    var second := NextSeparator(dateText, b);
    if second.None? {
      assert c == |dateText| && dateText[b..] == dateText[b..c];
    } else {
      var (c', _) := second.value;
      assert c' == c;
      assert FirstTwoParts(dateText) == (dateText[..a], Some(dateText[b..c']));
    }
  }

  /** With no separator in the text there is no second part, so no end date. */
  lemma ParseDateRangeNoEnd(dateText: string)
    requires forall q :: 0 <= q < |dateText| ==> SeparatorAt(dateText, q).None?
    ensures ParseDateRange(dateText).to.None?
  {
    if dateText != "" && NextSeparator(dateText, 0).Some? {
      assert false;
    }
  }

  predicate IsDash(c: char) { c == '—' || c == '–' || c == '-' }

  /** Text in which no separator can start. */
  predicate PlainDatePart(s: string) {
    forall i :: 0 <= i < |s| ==> !IsDash(s[i]) && !IsSpace(s[i])
  }

  /** "A — B", the usual form with a space on each side of the dash: the spaces are trimmed off both parts. */
  lemma ParseDateRangeOfSpacedPair(a: string, dash: char, b: string)
    requires a != "" && b != "" && PlainDatePart(a) && PlainDatePart(b) && IsDash(dash)
    ensures var r := ParseDateRange(a + " " + [dash] + " " + b);
      && r.from == RussianDate(a)
      && (!r.isCurrent ==> r.to == RussianDate(b))
  {
    var s := a + " " + [dash] + " " + b;
    SpacedPairSeparators(s, a, dash, b);
    ParseDateRangeFrom(s, |a| + 1);
    ParseDateRangeTo(s, |a| + 1, |a| + 2, |s|);
    SpacedPairParts(s, a, dash, b);
  }

  /** In "A — B" the only separator is the dash itself. */
  lemma SpacedPairSeparators(s: string, a: string, dash: char, b: string)
    requires s == a + " " + [dash] + " " + b
    requires PlainDatePart(a) && PlainDatePart(b) && IsDash(dash)
    ensures forall q :: 0 <= q < |a| + 1 ==> SeparatorAt(s, q).None?
    ensures SeparatorAt(s, |a| + 1) == Some(|a| + 2)
    ensures forall q :: |a| + 2 <= q < |s| ==> SeparatorAt(s, q).None?
  {
    var n := |a|;
    assert forall q :: 0 <= q < n ==> s[q] == a[q];
    assert forall q :: n + 3 <= q < |s| ==> s[q] == b[q - n - 3];
    assert RunEnd(s, IsSpace, n + 1) == n + 1;
    assert RunEnd(s, IsSpace, n + 3) == n + 3;
  }

  /** The two parts of "A — B" trim to A and B. */
  lemma SpacedPairParts(s: string, a: string, dash: char, b: string)
    requires s == a + " " + [dash] + " " + b
    requires a != "" && b != "" && NoSpace(a) && NoSpace(b)
    ensures Trim(s[..|a| + 1]) == a && Trim(s[|a| + 2..|s|]) == b
  {
    assert s[..|a| + 1] == "" + a + " ";
    assert s[|a| + 2..|s|] == " " + b + "";
    TrimPadded("", a, " ");
    TrimPadded(" ", b, "");
  }


  /** "A—B" with no dash or space inside A and B: `from` comes from A and, unless current, `to` from B. */
  lemma ParseDateRangeOfPair(a: string, b: string)
    requires PlainDatePart(a) && PlainDatePart(b)
    ensures var r := ParseDateRange(a + "—" + b);
      && r.from == (if a != "" then RussianDate(a) else None)
      && (!r.isCurrent ==> r.to == (if b != "" then RussianDate(b) else None))
  {
    var s := a + "—" + b;
    assert forall q :: 0 <= q < |a| ==> s[q] == a[q];
    assert forall q :: |a| < q < |s| ==> s[q] == b[q - |a| - 1];
    assert forall q :: 0 <= q < |a| ==> SeparatorAt(s, q).None?;
    assert forall q :: |a| + 1 <= q ==> SeparatorAt(s, q).None?;
    assert SeparatorAt(s, |a|) == Some(|a| + 1);
    assert NextSeparator(s, 0) == Some((|a|, |a| + 1));
    assert NextSeparator(s, |a| + 1) == None;
    assert s[..|a|] == a && s[|a| + 1..] == b;
    TrimNoSpace(a);
    TrimNoSpace(b);
  }

  // ---------------------------------------------------------------------
  // parseContacts

  datatype ContactKind = EmailContact | PhoneContact | TelegramContact

  /** A row for the contacts child table. */
  datatype Contact = Contact(kind: ContactKind, valueRaw: string, valueNormalized: Option<string>)

  datatype ContactsData = ContactsData(emails: seq<string>, phonesRaw: seq<string>, phonesE164: seq<string>,
                                       telegrams: seq<string>, masked: bool, contacts: seq<Contact>)

  const NoContacts := ContactsData([], [], [], [], false, [])

  /** The selector group `doc.querySelector` uses to find the contacts section. */
  const ContactsSection := "[data-qa=\"resume-contacts\"], .resume-block-container:has([data-qa*=\"contact\"]), .bloko-column:has-text(\"Контакты\")"

  /** The emails pushed while scanning `ms`: the matches `normalizeEmail` accepts, normalised. */
  function NormalizedEmails(ms: seq<string>): seq<string> {
    if ms == [] then []
    else
      var n := NormalizeEmail(ms[|ms| - 1]);
      NormalizedEmails(ms[..|ms| - 1]) + (if n.Some? then [n.value] else [])
  }

  function EmailContacts(ms: seq<string>): seq<Contact> {
    if ms == [] then []
    else
      var n := NormalizeEmail(ms[|ms| - 1]);
      EmailContacts(ms[..|ms| - 1]) + (if n.Some? then [Contact(EmailContact, ms[|ms| - 1], n)] else [])
  }

  /** Some value in `vs` looks masked. */
  function AnyMasked(vs: seq<string>): bool {
    if vs == [] then false else AnyMasked(vs[..|vs| - 1]) || IsMasked(vs[|vs| - 1])
  }

  function E164Of(ps: seq<string>): seq<string> {
    if ps == [] then []
    else
      var n := NormalizeRussianPhone(ps[|ps| - 1]);
      E164Of(ps[..|ps| - 1]) + (if n.Some? then [n.value] else [])
  }

  function PhoneContacts(ps: seq<string>): seq<Contact> {
    if ps == [] then []
    else PhoneContacts(ps[..|ps| - 1]) + [Contact(PhoneContact, ps[|ps| - 1], NormalizeRussianPhone(ps[|ps| - 1]))]
  }

  function TelegramContacts(hs: seq<string>): seq<Contact> {
    if hs == [] then []
    else TelegramContacts(hs[..|hs| - 1]) + [Contact(TelegramContact, "@" + hs[|hs| - 1], Some(hs[|hs| - 1]))]
  }

  /** The contacts gathered from the email matches, the phones and the telegram handles of a section. */
  function ContactsFrom(ems: seq<string>, ps: seq<string>, hs: seq<string>): ContactsData {
    ContactsData(Dedupe(NormalizedEmails(ems)), Dedupe(ps), Dedupe(E164Of(ps)), Dedupe(hs),
                 AnyMasked(ems) || AnyMasked(ps),
                 EmailContacts(ems) + PhoneContacts(ps) + TelegramContacts(hs))
  }

  /** What `parseContacts` returns for the section it found (or null). */
  function ContactsOf(section: Option<Node>): ContactsData {
    match section
    case None => NoContacts
    case Some(node) =>
      ContactsFrom(GlobalMatches(EmailPattern, node.text, 0), ExtractPhones(node.text), TelegramHandles(node.text))
  }

  /** `parseContacts`: the section's text scanned for emails, phones and telegram handles. */
  method ParseContacts(section: Option<Node>) returns (data: ContactsData)
    ensures data == ContactsOf(section)
    ensures section.None? ==> data == NoContacts
  {
    if section.None? {
      return NoContacts;
    }
    var text := section.value.text;
    var emailMatches := GlobalMatches(EmailPattern, text, 0);
    var phoneMatches := ExtractPhones(text);
    var handles := ExtractTelegram(text);
    data := CollectContacts(emailMatches, phoneMatches, handles);
  }

  /** The three forEach loops of `parseContacts` and the final `dedupe` of each list. */
  method CollectContacts(emailMatches: seq<string>, phoneMatches: seq<string>, handles: seq<string>)
    returns (data: ContactsData)
    ensures data == ContactsFrom(emailMatches, phoneMatches, handles)
  {
    var emails, contacts, masked := CollectEmails(emailMatches);
    var phonesRaw, phonesE164, withPhones, phonesMasked := CollectPhones(phoneMatches, contacts);
    var telegrams, allContacts := CollectTelegrams(handles, withPhones);
    data := ContactsData(Dedupe(emails), Dedupe(phonesRaw), Dedupe(phonesE164), Dedupe(telegrams),
                         masked || phonesMasked, allContacts);
  }

  /** `emailMatches.forEach`: push the emails `normalizeEmail` accepts; note any that looks masked. */
  method CollectEmails(emailMatches: seq<string>) returns (emails: seq<string>, contacts: seq<Contact>, masked: bool)
    ensures emails == NormalizedEmails(emailMatches)
    ensures contacts == EmailContacts(emailMatches)
    ensures masked == AnyMasked(emailMatches)
  {
    emails, contacts, masked := [], [], false;
    for i := 0 to |emailMatches|
      invariant emails == NormalizedEmails(emailMatches[..i])
      invariant contacts == EmailContacts(emailMatches[..i])
      invariant masked == AnyMasked(emailMatches[..i])
    {
      assert emailMatches[..i + 1][..i] == emailMatches[..i];
      var email := emailMatches[i];
      var normalized := NormalizeEmail(email);
      if normalized.Some? {
        emails := emails + [normalized.value];
        contacts := contacts + [Contact(EmailContact, email, normalized)];
      }
      if IsMasked(email) {
        masked := true;
      }
    }
    assert emailMatches[..|emailMatches|] == emailMatches;
  }

  /** `phoneMatches.forEach`: every phone is pushed raw and gets a contact row; its E.164 form when there is one. */
  method CollectPhones(phoneMatches: seq<string>, contacts0: seq<Contact>)
    returns (phonesRaw: seq<string>, phonesE164: seq<string>, contacts: seq<Contact>, masked: bool)
    ensures phonesRaw == phoneMatches
    ensures phonesE164 == E164Of(phoneMatches)
    ensures contacts == contacts0 + PhoneContacts(phoneMatches)
    ensures masked == AnyMasked(phoneMatches)
  {
    phonesRaw, phonesE164, contacts, masked := [], [], contacts0, false;
    for i := 0 to |phoneMatches|
      invariant phonesRaw == phoneMatches[..i]
      invariant phonesE164 == E164Of(phoneMatches[..i])
      invariant contacts == contacts0 + PhoneContacts(phoneMatches[..i])
      invariant masked == AnyMasked(phoneMatches[..i])
    {
      PhoneScanSnoc(phoneMatches, i);
      var phone := phoneMatches[i];
      phonesRaw := phonesRaw + [phone];
      var normalized := NormalizeRussianPhone(phone);
      if normalized.Some? {
        phonesE164 := phonesE164 + [normalized.value];
      }
      var contact := Contact(PhoneContact, phone, normalized);
      assert contacts + [contact] == contacts0 + (PhoneContacts(phoneMatches[..i]) + [contact]);
      contacts := contacts + [contact];
      if IsMasked(phone) {
        masked := true;
      }
    }
    assert phoneMatches[..|phoneMatches|] == phoneMatches;
  }

  /** One more phone: the three scans of `phoneMatches.forEach` each take one step. */
  lemma PhoneScanSnoc(ps: seq<string>, i: nat)
    requires i < |ps|
    ensures var n := NormalizeRussianPhone(ps[i]);
      && E164Of(ps[..i + 1]) == E164Of(ps[..i]) + (if n.Some? then [n.value] else [])
      && PhoneContacts(ps[..i + 1]) == PhoneContacts(ps[..i]) + [Contact(PhoneContact, ps[i], n)]
      && AnyMasked(ps[..i + 1]) == (AnyMasked(ps[..i]) || IsMasked(ps[i]))
  {
    assert ps[..i + 1][..i] == ps[..i];
  }

  /** `telegramHandles.forEach`: every handle is pushed and gets a contact row with raw value "@handle". */
  method CollectTelegrams(handles: seq<string>, contacts0: seq<Contact>) returns (telegrams: seq<string>, contacts: seq<Contact>)
    ensures telegrams == handles
    ensures contacts == contacts0 + TelegramContacts(handles)
  {
    telegrams, contacts := [], contacts0;
    for i := 0 to |handles|
      invariant telegrams == handles[..i]
      invariant contacts == contacts0 + TelegramContacts(handles[..i])
    {
      assert handles[..i + 1][..i] == handles[..i];
      var handle := handles[i];
      telegrams := telegrams + [handle];
      var contact := Contact(TelegramContact, "@" + handle, Some(handle));
      assert contacts + [contact] == contacts0 + (TelegramContacts(handles[..i]) + [contact]);
      contacts := contacts + [contact];
    }
    assert handles[..|handles|] == handles;
  }

  lemma {:induction false} NormalizedEmailsIff(ms: seq<string>)
    ensures forall e :: e in NormalizedEmails(ms) <==> exists m :: m in ms && NormalizeEmail(m) == Some(e)
  {
    if ms != [] {
      NormalizedEmailsIff(ms[..|ms| - 1]);
      assert forall m :: m in ms <==> m in ms[..|ms| - 1] || m == ms[|ms| - 1];
    }
  }

  lemma {:induction false} EmailContactsAreNormalized(ms: seq<string>)
    ensures forall c :: c in EmailContacts(ms) ==>
      c.kind == EmailContact && c.valueRaw in ms && c.valueNormalized.Some? && c.valueNormalized == NormalizeEmail(c.valueRaw)
  {
    if ms != [] {
      EmailContactsAreNormalized(ms[..|ms| - 1]);
    }
  }

  lemma {:induction false} PhoneContactsCoverAll(ps: seq<string>)
    ensures forall p :: p in ps ==> Contact(PhoneContact, p, NormalizeRussianPhone(p)) in PhoneContacts(ps)
  {
    if ps != [] {
      PhoneContactsCoverAll(ps[..|ps| - 1]);
      assert forall p :: p in ps ==> p in ps[..|ps| - 1] || p == ps[|ps| - 1];
    }
  }

  lemma {:induction false} AnyMaskedIff(vs: seq<string>)
    ensures AnyMasked(vs) <==> exists v :: v in vs && IsMasked(v)
  {
    if vs != [] {
      AnyMaskedIff(vs[..|vs| - 1]);
      assert forall v :: v in vs <==> v in vs[..|vs| - 1] || v == vs[|vs| - 1];
    }
  }

  lemma {:induction false} PhoneContactKinds(ps: seq<string>)
    ensures forall c :: c in PhoneContacts(ps) ==> c.kind == PhoneContact
  {
    if ps != [] {
      PhoneContactKinds(ps[..|ps| - 1]);
    }
  }

  lemma {:induction false} TelegramContactKinds(hs: seq<string>)
    ensures forall c :: c in TelegramContacts(hs) ==> c.kind == TelegramContact
  {
    if hs != [] {
      TelegramContactKinds(hs[..|hs| - 1]);
    }
  }

  /** `dedupe` leaves a list without duplicates and without "" as it is. */
  lemma {:induction false} DedupeOfDistinct(xs: seq<string>)
    requires NoDuplicates(xs) && (forall x :: x in xs ==> x != "")
    ensures Dedupe(xs) == xs
  {
    if xs != [] {
      var init := xs[..|xs| - 1];
      var last := xs[|xs| - 1];
      assert forall x :: x in init ==> x in xs;
      assert NoDuplicates(init) by {
        forall i, j | 0 <= i < j < |init| ensures init[i] != init[j] {
          assert init[i] == xs[i] && init[j] == xs[j];
        }
      }
      DedupeOfDistinct(init);
      assert last !in init by {
        forall i | 0 <= i < |init| ensures init[i] != last {
          assert init[i] == xs[i];
        }
      }
      assert last in xs;
      assert Dedupe(xs) == Dedupe(init) + [last];
      assert init + [last] == xs;
    }
  }

  /**
   * The aggregation of `parseContacts`: an email is listed exactly when
   * `normalizeEmail` accepts one of the matches, and its contact row carries
   * that normalised value; the contact rows come in the order emails, phones,
   * telegrams; `contacts_masked` holds exactly when some matched email or
   * phone looks masked.
   */
  lemma ContactsFromFacts(ems: seq<string>, ps: seq<string>, hs: seq<string>)
    ensures var data := ContactsFrom(ems, ps, hs);
      && (forall e :: e in data.emails <==> exists m :: m in ems && NormalizeEmail(m) == Some(e))
      && (forall c :: c in data.contacts && c.kind == EmailContact ==>
            c.valueRaw in ems && c.valueNormalized.Some? && c.valueNormalized == NormalizeEmail(c.valueRaw))
      && (forall p :: p in ps ==> Contact(PhoneContact, p, NormalizeRussianPhone(p)) in data.contacts)
      && (data.masked <==> exists v :: (v in ems || v in ps) && IsMasked(v))
  {
    var data := ContactsFrom(ems, ps, hs);
    assert data.emails == Dedupe(NormalizedEmails(ems));
    ListedEmailsIff(ems);
    assert data.contacts == EmailContacts(ems) + (PhoneContacts(ps) + TelegramContacts(hs));
    EmailRowsNormalized(ems, PhoneContacts(ps) + TelegramContacts(hs), ps, hs);
    PhoneContactsCoverAll(ps);
    assert data.masked == (AnyMasked(ems) || AnyMasked(ps));
    AnyMaskedIff(ems);
    AnyMaskedIff(ps);
  }

  /** `dedupe(emails)` holds exactly the values `normalizeEmail` accepts from the matches. */
  lemma ListedEmailsIff(ems: seq<string>)
    ensures forall e :: e in Dedupe(NormalizedEmails(ems)) <==> exists m :: m in ems && NormalizeEmail(m) == Some(e)
  {
    NormalizedEmailsIff(ems);
    forall e | e in NormalizedEmails(ems) ensures e != "" {
      var m :| m in ems && NormalizeEmail(m) == Some(e);
      NormalizeEmailNonEmpty(m);
    }
  }

  /** Among the rows `emails, phones, telegrams`, the email rows are exactly those of the email scan. */
  lemma EmailRowsNormalized(ems: seq<string>, rest: seq<Contact>, ps: seq<string>, hs: seq<string>)
    requires rest == PhoneContacts(ps) + TelegramContacts(hs)
    ensures forall c :: c in EmailContacts(ems) + rest && c.kind == EmailContact ==>
      c.valueRaw in ems && c.valueNormalized.Some? && c.valueNormalized == NormalizeEmail(c.valueRaw)
  {
    EmailContactsAreNormalized(ems);
    PhoneContactKinds(ps);
    TelegramContactKinds(hs);
  }

  /** Every match of the email regex is accepted by `normalizeEmail`, lower-cased, and listed. */
  lemma EmailMatchesAccepted(ems: seq<string>)
    requires forall m :: m in ems ==> IsEmail(m)
    ensures forall m :: m in ems ==> NormalizeEmail(m) == Some(ToLower(m)) && ToLower(m) in Dedupe(NormalizedEmails(ems))
  {
    NormalizedEmailsIff(ems);
    forall m | m in ems ensures NormalizeEmail(m) == Some(ToLower(m)) {
      NormalizeEmailOfMatch(m);
    }
  }

  /** The contacts built from accepted email matches and distinct phones cover every match. */
  lemma ContactsFromCover(ems: seq<string>, ps: seq<string>, hs: seq<string>)
    requires forall m :: m in ems ==> IsEmail(m)
    requires NoDuplicates(ps) && forall p :: p in ps ==> p != ""
    ensures var data := ContactsFrom(ems, ps, hs);
      && (forall m :: m in ems ==> NormalizeEmail(m) == Some(ToLower(m)) && ToLower(m) in data.emails)
      && data.phonesRaw == ps
      && (forall p :: p in ps ==> Contact(PhoneContact, p, NormalizeRussianPhone(p)) in data.contacts)
  {
    EmailMatchesAccepted(ems);
    DedupeOfDistinct(ps);
    PhoneContactsCoverAll(ps);
  }

  /**
   * For a section that was found: every match of the email regex is accepted
   * by `normalizeEmail` (lower-cased), and every extracted phone is listed
   * raw, once, and has its own contact row even when it has no E.164 form.
   */
  lemma ContactsOfSection(node: Node)
    ensures var data := ContactsOf(Some(node));
      var ems := GlobalMatches(EmailPattern, node.text, 0);
      var ps := ExtractPhones(node.text);
      && (forall m :: m in ems ==> NormalizeEmail(m) == Some(ToLower(m)) && ToLower(m) in data.emails)
      && data.phonesRaw == ps
      && (forall p :: p in ps ==> Contact(PhoneContact, p, NormalizeRussianPhone(p)) in data.contacts)
  {
    var ems := GlobalMatches(EmailPattern, node.text, 0);
    var ps := ExtractPhones(node.text);
    assert forall p :: p in ps ==> p in GlobalMatches(PhonePattern, node.text, 0);
    ContactsFromCover(ems, ps, TelegramHandles(node.text));
    assert ContactsOf(Some(node)) == ContactsFrom(ems, ps, TelegramHandles(node.text));
  }

  /** Every list of `parseContacts` is free of duplicates and of empty strings. */
  lemma ContactListsDistinct(ems: seq<string>, ps: seq<string>, hs: seq<string>)
    ensures var data := ContactsFrom(ems, ps, hs);
      && NoDuplicates(data.emails) && NoDuplicates(data.phonesRaw) && NoDuplicates(data.phonesE164) && NoDuplicates(data.telegrams)
      && (forall x :: x in data.emails + data.phonesRaw + data.phonesE164 + data.telegrams ==> x != "")
  {
  }

  /** The same for whatever section `parseContacts` is given. */
  lemma ContactsOfDistinct(section: Option<Node>)
    ensures var data := ContactsOf(section);
      && NoDuplicates(data.emails) && NoDuplicates(data.phonesRaw) && NoDuplicates(data.phonesE164) && NoDuplicates(data.telegrams)
      && (forall x :: x in data.emails + data.phonesRaw + data.phonesE164 + data.telegrams ==> x != "")
  {
    if section.Some? {
      var text := section.value.text;
      ContactListsDistinct(GlobalMatches(EmailPattern, text, 0), ExtractPhones(text), TelegramHandles(text));
    }
  }

  // ---------------------------------------------------------------------
  // parseExperience and parseEducation

  const ExperienceSection := "[data-qa=\"resume-block-experience\"], .resume-block-container:has([data-qa*=\"experience\"]), .bloko-column:has-text(\"Опыт работы\")"
  const ExperienceItems := ".resume-block-item-gap, .bloko-column-row, [data-qa*=\"experience-item\"]"
  const CompanySelectors := [".bloko-text_strong", ".resume-block__sub-title", "a[data-qa*=\"company\"]"]
  const PositionSelectors := [".bloko-header-section-3", ".resume-block__title-text", "[data-qa*=\"position\"]"]
  const ExperienceDateSelectors := [".bloko-column-row .bloko-text", ".resume-block__date", ".bloko-text:has-text(\"—\")"]
  const DescriptionSelectors := [".bloko-text:not(.bloko-text_strong)", ".resume-block__text", "p"]

  datatype Experience = Experience(company: Option<string>, position: Option<string>,
                                   dates: Option<DateRange>, description: Option<string>)

  /** `parseExperienceItem`; `dates` is absent when no date text was found. */
  function ExperienceItem(item: Node): Experience {
    var dateText := FirstText(item, ExperienceDateSelectors);
    Experience(FirstText(item, CompanySelectors), FirstText(item, PositionSelectors),
               if dateText.Some? then Some(ParseDateRange(dateText.value)) else None,
               FirstText(item, DescriptionSelectors))
  }

  predicate KeepExperience(e: Experience) { e.company.Some? || e.position.Some? }

  /** The items `parseExperience` keeps, in order. */
  function KeptExperience(items: seq<Node>): (r: seq<Experience>)
    ensures |r| <= |items|
  {
    if items == [] then []
    else
      var e := ExperienceItem(items[|items| - 1]);
      KeptExperience(items[..|items| - 1]) + (if KeepExperience(e) then [e] else [])
  }

  /** An entry is kept exactly when some item yields it and it passes the filter. */
  lemma {:induction false} KeptExperienceIff(items: seq<Node>)
    ensures forall e :: e in KeptExperience(items) <==> exists item :: item in items && e == ExperienceItem(item) && KeepExperience(e)
  {
    if items != [] {
      var init := items[..|items| - 1];
      KeptExperienceIff(init);
      assert forall item :: item in items <==> item in init || item == items[|items| - 1];
    }
  }

  lemma KeptExperienceSnoc(items: seq<Node>, i: nat)
    requires i < |items|
    ensures KeptExperience(items[..i + 1]) ==
      KeptExperience(items[..i]) + (if KeepExperience(ExperienceItem(items[i])) then [ExperienceItem(items[i])] else [])
  {
    assert items[..i + 1][..i] == items[..i];
  }

  function ExperienceOf(doc: Node): seq<Experience> {
    match Query(doc, ExperienceSection)
    case None => []
    case Some(section) => KeptExperience(QueryAll(section, ExperienceItems))
  }

  /** `parseExperience`: no section gives no entries; an entry is kept when it names a company or a position. */
  method ParseExperience(doc: Node) returns (experience: seq<Experience>)
    ensures experience == ExperienceOf(doc)
    ensures Query(doc, ExperienceSection).None? ==> experience == []
    ensures forall e :: e in experience ==> e.company.Some? || e.position.Some?
  {
    experience := [];
    var section := Query(doc, ExperienceSection);
    if section.None? {
      return;
    }
    var items := QueryAll(section.value, ExperienceItems);
    for i := 0 to |items|
      invariant experience == KeptExperience(items[..i])
      invariant forall e :: e in experience ==> KeepExperience(e)
    {
      KeptExperienceSnoc(items, i);
      var exp := ExperienceItem(items[i]);
      if KeepExperience(exp) {
        experience := experience + [exp];
      } else {
        assert experience + [] == experience;
      }
    }
    assert items[..|items|] == items;
  }

  const EducationSection := "[data-qa=\"resume-block-education\"], .resume-block-container:has([data-qa*=\"education\"]), .bloko-column:has-text(\"Образование\")"
  const EducationItems := ".resume-block-item-gap, .bloko-column-row, [data-qa*=\"education-item\"]"
  const LevelSelectors := [".bloko-header-section-3", ".resume-block__title-text"]
  const InstitutionSelectors := [".bloko-text_strong", "a[data-qa*=\"education\"]"]
  const SpecialtySelectors := [".bloko-text:not(.bloko-text_strong)", ".resume-block__text"]

  /** An education entry; the source stores the specialty text under both `faculty` and `specialty`. */
  datatype Education = Education(level: Option<string>, institution: Option<string>, specialty: Option<string>)

  function EducationItem(item: Node): Education {
    Education(FirstText(item, LevelSelectors), FirstText(item, InstitutionSelectors), FirstText(item, SpecialtySelectors))
  }

  predicate KeepEducation(e: Education) { e.institution.Some? || e.level.Some? }

  function KeptEducation(items: seq<Node>): (r: seq<Education>)
    ensures |r| <= |items|
  {
    if items == [] then []
    else
      var e := EducationItem(items[|items| - 1]);
      KeptEducation(items[..|items| - 1]) + (if KeepEducation(e) then [e] else [])
  }

  /** An entry is kept exactly when some item yields it and it passes the filter. */
  lemma {:induction false} KeptEducationIff(items: seq<Node>)
    ensures forall e :: e in KeptEducation(items) <==> exists item :: item in items && e == EducationItem(item) && KeepEducation(e)
  {
    if items != [] {
      var init := items[..|items| - 1];
      KeptEducationIff(init);
      assert forall item :: item in items <==> item in init || item == items[|items| - 1];
    }
  }

  lemma KeptEducationSnoc(items: seq<Node>, i: nat)
    requires i < |items|
    ensures KeptEducation(items[..i + 1]) ==
      KeptEducation(items[..i]) + (if KeepEducation(EducationItem(items[i])) then [EducationItem(items[i])] else [])
  {
    assert items[..i + 1][..i] == items[..i];
  }

  function EducationOf(doc: Node): seq<Education> {
    match Query(doc, EducationSection)
    case None => []
    case Some(section) => KeptEducation(QueryAll(section, EducationItems))
  }

  /** `parseEducation`: no section gives no entries; an entry is kept when it names an institution or a level. */
  method ParseEducation(doc: Node) returns (education: seq<Education>)
    ensures education == EducationOf(doc)
    ensures Query(doc, EducationSection).None? ==> education == []
    ensures forall e :: e in education ==> e.institution.Some? || e.level.Some?
  {
    education := [];
    var section := Query(doc, EducationSection);
    if section.None? {
      return;
    }
    var items := QueryAll(section.value, EducationItems);
    for i := 0 to |items|
      invariant education == KeptEducation(items[..i])
      invariant forall e :: e in education ==> KeepEducation(e)
    {
      KeptEducationSnoc(items, i);
      var edu := EducationItem(items[i]);
      if KeepEducation(edu) {
        education := education + [edu];
      } else {
        assert education + [] == education;
      }
    }
    assert items[..|items|] == items;
  }

  // ---------------------------------------------------------------------
  // parseResume

  datatype Resume = Resume(
    resumeId: string, sourceUrl: string,
    emailPrimary: Option<string>, phonePrimaryE164: Option<string>, telegramPrimary: Option<string>,
    contactsMasked: bool, emails: seq<string>, phonesRaw: seq<string>, phonesE164: seq<string>, telegrams: seq<string>,
    experience: seq<Experience>, education: seq<Education>, contacts: seq<Contact>)

  /** `list[0] || null`. */
  function Primary(xs: seq<string>): Option<string> {
    if xs != [] && xs[0] != "" then Some(xs[0]) else None
  }

  /** On a list without empty strings, `list[0] || null` is the first element, or null for an empty list. */
  lemma PrimaryIsFirst(xs: seq<string>)
    requires forall x :: x in xs ==> x != ""
    ensures Primary(xs).Some? <==> xs != []
    ensures xs != [] ==> Primary(xs).value == xs[0]
  {
    if xs != [] {
      assert xs[0] in xs;
    }
  }

  /** `value` is null exactly when `list` is empty, and otherwise its first element. */
  predicate IsFirstOf(value: Option<string>, list: seq<string>) {
    (value.Some? <==> list != []) && (list != [] ==> value.value == list[0])
  }

  /** Each primary field is the first element of its list, or null for an empty list. */
  predicate PrimariesAreFirst(res: Resume) {
    && IsFirstOf(res.emailPrimary, res.emails)
    && IsFirstOf(res.phonePrimaryE164, res.phonesE164)
    && IsFirstOf(res.telegramPrimary, res.telegrams)
  }

  /**
   * `parseResume` for the fields this model covers: it throws when the URL
   * has no resume id; otherwise the primary email, phone and telegram are
   * the first of their (deduplicated) lists, or null when a list is empty.
   */
  method ParseResume(doc: Node, sourceUrl: string) returns (r: Result<Resume>)
    ensures r.Err? <==> ExtractResumeId(sourceUrl).None?
    ensures r.Err? ==> r.message == "Could not extract resume ID from URL"
    ensures r.Ok? ==> r.value.resumeId == ExtractResumeId(sourceUrl).value && r.value.sourceUrl == sourceUrl
    ensures r.Ok? ==> var c := ContactsOf(Query(doc, ContactsSection));
      && r.value.emails == c.emails && r.value.phonesE164 == c.phonesE164 && r.value.telegrams == c.telegrams
      && r.value.phonesRaw == c.phonesRaw && r.value.contacts == c.contacts && r.value.contactsMasked == c.masked
    ensures r.Ok? ==> r.value.experience == ExperienceOf(doc) && r.value.education == EducationOf(doc)
    ensures r.Ok? ==> PrimariesAreFirst(r.value)
  {
    var resumeId := ExtractResumeId(sourceUrl);
    if resumeId.None? {
      return Err("Could not extract resume ID from URL");
    }
    var experience := ParseExperience(doc);
    var education := ParseEducation(doc);
    var contactsData := ParseContacts(Query(doc, ContactsSection));
    ContactsOfDistinct(Query(doc, ContactsSection));
    PrimaryIsFirst(contactsData.emails);
    PrimaryIsFirst(contactsData.phonesE164);
    PrimaryIsFirst(contactsData.telegrams);
    var resume := Resume(
      resumeId.value, sourceUrl,
      Primary(contactsData.emails), Primary(contactsData.phonesE164), Primary(contactsData.telegrams),
      contactsData.masked, contactsData.emails, contactsData.phonesRaw, contactsData.phonesE164, contactsData.telegrams,
      experience, education, contactsData.contacts);
    return Ok(resume);
  }
}
