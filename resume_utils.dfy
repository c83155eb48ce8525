/**
 * Contact normalisers, identifier extractors and small helpers of the resume
 * parser (util/resume-utils.js): `dedupe`, `normalizeEmail`, `extractPhones`,
 * `normalizePhoneE164`, `extractTelegram`, `isMasked`, `parseRussianDate` and
 * `extractResumeId`. The global regular expressions are modelled as scanners
 * that follow JavaScript's leftmost, greedy, backtracking matching.
 */
module ResumeUtils {
  import opened Wrappers
  import opened Text
  import opened Capture

  // ---------------------------------------------------------------------
  // Sets in insertion order: `[...new Set(xs)]` and `dedupe`

  predicate NoDuplicates<T(==)>(xs: seq<T>) {
    forall i, j :: 0 <= i < j < |xs| ==> xs[i] != xs[j]
  }

  /** Position of the first occurrence of `x` in `xs`. */
  function FirstIndex<T(==)>(xs: seq<T>, x: T): (k: nat)
    requires x in xs
    ensures k < |xs| && xs[k] == x
    ensures forall j :: 0 <= j < k ==> xs[j] != x
  {
    if xs[0] == x then 0 else 1 + FirstIndex(xs[1..], x)
  }

  /** `[...new Set(xs)]`: each element once, in the order in which it was first added. */
  function Distinct(xs: seq<string>): (r: seq<string>)
    ensures forall x :: x in r <==> x in xs
    ensures NoDuplicates(r)
  {
    if xs == [] then []
    else
      var init := xs[..|xs| - 1];
      var r := Distinct(init);
      assert forall x :: x in xs <==> x in init || x == xs[|xs| - 1];
      if xs[|xs| - 1] in r then r else r + [xs[|xs| - 1]]
  }

  /** `dedupe(arr)` = `[...new Set(arr.filter(Boolean))]`; for strings, the falsy value is "". */
  function Dedupe(xs: seq<string>): (r: seq<string>)
    ensures forall x :: x in r <==> x in xs && x != ""
    ensures NoDuplicates(r)
  {
    if xs == [] then []
    else
      var init := xs[..|xs| - 1];
      var last := xs[|xs| - 1];
      var r := Dedupe(init);
      assert forall x :: x in xs <==> x in init || x == last;
      if last == "" || last in r then r else r + [last]
  }

  /** `dedupe` keeps the order of first occurrence. */
  lemma {:induction false} DedupeKeepsFirstOccurrenceOrder(xs: seq<string>)
    ensures forall i, j :: 0 <= i < j < |Dedupe(xs)| ==> FirstIndex(xs, Dedupe(xs)[i]) < FirstIndex(xs, Dedupe(xs)[j])
  {
    if xs != [] {
      var init := xs[..|xs| - 1];
      var last := xs[|xs| - 1];
      DedupeKeepsFirstOccurrenceOrder(init);
      var r0 := Dedupe(init);
      forall y | y in init ensures FirstIndex(xs, y) == FirstIndex(init, y) {
        var k := FirstIndex(init, y);
        assert xs[k] == y;
        assert forall j :: 0 <= j < k ==> xs[j] == init[j];
      }
      if !(last == "" || last in r0) {
        assert last !in init;
        assert FirstIndex(xs, last) == |xs| - 1;
      }
    }
  }

  // ---------------------------------------------------------------------
  // Email: `normalizeEmail` and the unanchored global email regex

  predicate IsLocalChar(c: char) {
    IsAsciiLetter(c) || IsDigit(c) || c == '.' || c == '_' || c == '%' || c == '+' || c == '-'
  }

  predicate IsDomainChar(c: char) {
    IsAsciiLetter(c) || IsDigit(c) || c == '.' || c == '-'
  }

  /**
   * `s` matches `/^[A-Za-z0-9._%+-]+@[A-Za-z0-9.-]+\.[A-Za-z]{2,}$/` with its
   * '@' at `at` and the dot before the top-level domain at `dot`.
   */
  predicate EmailSplit(s: string, at: int, dot: int) {
    && 0 < at && at + 1 < dot && dot + 2 < |s|
    && s[at] == '@' && s[dot] == '.'
    && (forall i :: 0 <= i < at ==> IsLocalChar(s[i]))
    && (forall i :: at < i < dot ==> IsDomainChar(s[i]))
    && (forall i :: dot < i < |s| ==> IsAsciiLetter(s[i]))
  }

  /** local@domain.tld with a top-level domain of at least two ASCII letters. */
  predicate IsEmail(s: string) {
    exists at, dot | 0 <= at < |s| && 0 <= dot < |s| :: EmailSplit(s, at, dot)
  }

  /** `normalizeEmail`: the trimmed, lower-cased text when it is an address, else null. */
  function NormalizeEmail(email: string): (r: Option<string>)
    ensures email == "" ==> r.None?
    ensures r.Some? ==> r.value == ToLower(Trim(email)) && IsEmail(r.value)
    ensures email != "" && IsEmail(ToLower(Trim(email))) ==> r.Some?
  {
    if email == "" then None
    else
      var cleaned := ToLower(Trim(email));
      if IsEmail(cleaned) then Some(cleaned) else None
  }

  /** An accepted address is never the empty string. */
  lemma NormalizeEmailNonEmpty(email: string)
    requires NormalizeEmail(email).Some?
    ensures NormalizeEmail(email).value != ""
  {
    var at, dot :| 0 <= at < |NormalizeEmail(email).value| && 0 <= dot < |NormalizeEmail(email).value| &&
      EmailSplit(NormalizeEmail(email).value, at, dot);
  }

  lemma EmailHasNoSpace(s: string)
    requires IsEmail(s)
    ensures NoSpace(s)
  {
    var at, dot :| 0 <= at < |s| && 0 <= dot < |s| && EmailSplit(s, at, dot);
    forall i | 0 <= i < |s| ensures !IsSpace(s[i]) {
      if i < at { assert IsLocalChar(s[i]); }
      else if i == at || i == dot { }
      else if i < dot { assert IsDomainChar(s[i]); }
      else { assert IsAsciiLetter(s[i]); }
    }
  }

  lemma LowerKeepsEmail(s: string)
    requires IsEmail(s)
    ensures IsEmail(ToLower(s))
  {
    var at, dot :| 0 <= at < |s| && 0 <= dot < |s| && EmailSplit(s, at, dot);
    assert EmailSplit(ToLower(s), at, dot);
  }

  /** A normalised address normalises to itself. */
  lemma NormalizeEmailIdempotent(email: string)
    requires NormalizeEmail(email).Some?
    ensures NormalizeEmail(NormalizeEmail(email).value) == NormalizeEmail(email)
  {
    var r := NormalizeEmail(email).value;
    EmailHasNoSpace(r);
    TrimNoSpace(r);
    ToLowerIdempotent(Trim(email));
  }

  /** Every text the unanchored email regex matches survives `normalizeEmail`, lower-cased. */
  lemma NormalizeEmailOfMatch(m: string)
    requires IsEmail(m)
    ensures NormalizeEmail(m) == Some(ToLower(m))
  {
    EmailHasNoSpace(m);
    TrimNoSpace(m);
    LowerKeepsEmail(m);
  }

  /** `.` at `k` followed by two ASCII letters: where `\.[A-Za-z]{2,}` can start. */
  predicate TldDotAt(s: string, k: int) {
    0 <= k && k + 2 < |s| && s[k] == '.' && IsAsciiLetter(s[k + 1]) && IsAsciiLetter(s[k + 2])
  }

  /** The dot backtracking settles on: the largest `k` in [lo, hi) with `TldDotAt`. */
  function LastTldDot(s: string, lo: nat, hi: nat): (k: Option<nat>)
    requires hi <= |s|
    ensures k.Some? ==> lo <= k.value < hi && TldDotAt(s, k.value)
    ensures k.Some? ==> forall j :: k.value < j < hi ==> !TldDotAt(s, j)
    ensures k.None? ==> forall j :: lo <= j < hi ==> !TldDotAt(s, j)
    decreases hi
  {
    if hi <= lo then None
    else if TldDotAt(s, hi - 1) then Some(hi - 1)
    else LastTldDot(s, lo, hi - 1)
  }

  predicate IsPhoneChar(c: char) {
    IsDigit(c) || IsSpace(c) || c == '(' || c == ')' || c == '.' || c == '-'
  }

  /** A text `/\+?\d[\d\s().-]{7,}\d/` matches as a whole. */
  predicate IsPhoneMatch(m: string) {
    var t := if |m| > 0 && m[0] == '+' then 1 else 0;
    && |m| >= t + 9
    && IsDigit(m[t]) && IsDigit(m[|m| - 1])
    && forall i :: t < i < |m| - 1 ==> IsPhoneChar(m[i])
  }

  /** The largest `j` in [lo, hi) with a digit at `j`. */
  function LastDigit(s: string, lo: nat, hi: nat): (j: Option<nat>)
    requires hi <= |s|
    ensures j.Some? ==> lo <= j.value < hi && IsDigit(s[j.value])
    decreases hi
  {
    if hi <= lo then None
    else if IsDigit(s[hi - 1]) then Some(hi - 1)
    else LastDigit(s, lo, hi - 1)
  }

  /** The global regular expressions of the contact extractors. */
  datatype Pattern =
    | EmailPattern      // /[A-Za-z0-9._%+-]+@[A-Za-z0-9.-]+\.[A-Za-z]{2,}/g
    | PhonePattern      // /\+?\d[\d\s().-]{7,}\d/g
    | AtMentionPattern  // /(?:^|[\s:])@([A-Za-z0-9_]{5,32})/g
    | TMeLinkPattern    // /t\.me\/([A-Za-z0-9_]{5,32})/g

  /** At least five handle characters follow `marker` at `i`. */
  predicate HandleAt(s: string, marker: string, i: int) {
    OccursAt(s, marker, i) && RunEnd(s, IsWordChar, i + |marker|) - (i + |marker|) >= 5
  }

  /** Where the greedy `([A-Za-z0-9_]{5,32})` after the marker at `i` stops. */
  function HandleEnd(s: string, marker: string, i: int): (e: nat)
    requires HandleAt(s, marker, i)
    ensures i + |marker| + 5 <= e <= i + |marker| + 32 && e <= |s|
    ensures forall k :: i + |marker| <= k < e ==> IsWordChar(s[k])
  {
    var j := i + |marker|;
    var run := RunEnd(s, IsWordChar, j) - j;
    j + (if run < 32 then run else 32)
  }

  /** End of the match of the email regex that starts exactly at `q`, if there is one. */
  function EmailMatchEnd(s: string, q: nat): (e: Option<nat>)
    requires q < |s|
    ensures e.Some? ==> q < e.value <= |s| && IsEmail(s[q..e.value])
  {
    // [local]+ is greedy and '@' is not a local character, so it ends at its run's end
    var a := RunEnd(s, IsLocalChar, q);
    if a == q || a == |s| || s[a] != '@' then None
    else
      var d := RunEnd(s, IsDomainChar, a + 1);
      match LastTldDot(s, a + 2, d)
      case None => None
      case Some(k) =>
        var e := RunEnd(s, IsAsciiLetter, k + 1);
        EmailSplitOfRuns(s, q, a, k, e);
        Some(e)
  }

  /** Three runs (local part, '@' and domain, '.' and letters) make an address. */
  lemma EmailSplitOfRuns(s: string, q: nat, a: nat, k: nat, e: nat)
    requires q < a && a + 1 < k && k + 2 < e <= |s|
    requires s[a] == '@' && s[k] == '.'
    requires forall i :: q <= i < a ==> IsLocalChar(s[i])
    requires forall i :: a < i < k ==> IsDomainChar(s[i])
    requires forall i :: k < i < e ==> IsAsciiLetter(s[i])
    ensures IsEmail(s[q..e])
  {
    var t := s[q..e];
    assert forall i :: 0 <= i < |t| ==> t[i] == s[q + i];
    assert EmailSplit(t, a - q, k - q);
  }

  /** End of the match of the phone regex that starts exactly at `q`, if there is one. */
  function PhoneMatchEnd(s: string, q: nat): (e: Option<nat>)
    requires q < |s|
    ensures e.Some? ==> q < e.value <= |s| && IsPhoneMatch(s[q..e.value])
  {
    var t := if s[q] == '+' then q + 1 else q;
    if t >= |s| || !IsDigit(s[t]) then None
    else
      var c := RunEnd(s, IsPhoneChar, t + 1);
      match LastDigit(s, t + 8, c)
      case None => None
      case Some(j) =>
        var m := s[q..j + 1];
        assert (if |m| > 0 && m[0] == '+' then 1 else 0) == t - q;
        Some(j + 1)
  }

  /** End of the match of `/(?:^|[\s:])@([A-Za-z0-9_]{5,32})/` that starts exactly at `q`. */
  function AtMentionEnd(s: string, q: nat): (e: Option<nat>)
    requires q < |s|
    ensures e.Some? ==> q < e.value <= |s|
  {
    if q == 0 && HandleAt(s, "@", 0) then Some(HandleEnd(s, "@", 0))
    else if (IsSpace(s[q]) || s[q] == ':') && HandleAt(s, "@", q + 1) then Some(HandleEnd(s, "@", q + 1))
    else None
  }

  /** End of the match of `pat` that starts exactly at `q`, if there is one. */
  function MatchEnd(pat: Pattern, s: string, q: nat): (e: Option<nat>)
    requires q < |s|
    ensures e.Some? ==> q < e.value <= |s|
    ensures e.Some? && pat == EmailPattern ==> IsEmail(s[q..e.value])
    ensures e.Some? && pat == PhonePattern ==> IsPhoneMatch(s[q..e.value])
  {
    match pat
    case EmailPattern => EmailMatchEnd(s, q)
    case PhonePattern => PhoneMatchEnd(s, q)
    case AtMentionPattern => AtMentionEnd(s, q)
    case TMeLinkPattern => if HandleAt(s, "t.me/", q) then Some(HandleEnd(s, "t.me/", q)) else None
  }

  /** `s.match(re) || []` for the global `re` of `pat`, scanning from `p`. */
  function GlobalMatches(pat: Pattern, s: string, p: nat): (ms: seq<string>)
    ensures forall m :: m in ms ==> |m| > 0
    ensures pat == EmailPattern ==> forall m :: m in ms ==> IsEmail(m)
    ensures pat == PhonePattern ==> forall m :: m in ms ==> IsPhoneMatch(m)
    decreases |s| - p
  {
    if p >= |s| then []
    else
      match MatchEnd(pat, s, p)
      case Some(e) => [s[p..e]] + GlobalMatches(pat, s, e)
      case None => GlobalMatches(pat, s, p + 1)
  }

  // ---------------------------------------------------------------------
  // Phones

  /** `extractPhones`: the distinct phone-looking fragments of `text`, in order. */
  function ExtractPhones(text: string): (r: seq<string>)
    ensures NoDuplicates(r)
    ensures forall m :: m in r ==> IsPhoneMatch(m)
    ensures forall m :: m in r <==> m in GlobalMatches(PhonePattern, text, 0)
  {
    if text == "" then [] else Distinct(GlobalMatches(PhonePattern, text, 0))
  }

  predicate IsDigitOrPlus(c: char) { IsDigit(c) || c == '+' }

  /** `rawPhone.replace(/[^\d+]/g, '')`. */
  function StripToDigitsPlus(s: string): (r: string)
    ensures |r| <= |s| && AllChars(r, IsDigitOrPlus)
    ensures (forall i :: 0 <= i < |s| ==> !IsDigitOrPlus(s[i])) ==> r == ""
  {
    if s == [] then []
    else (if IsDigitOrPlus(s[0]) then [s[0]] else []) + StripToDigitsPlus(s[1..])
  }

  /** `COUNTRY_CODES`, entry by entry: region and calling code. */
  const CountryCodes: seq<(string, string)> := [
    ("RU", "+7"), ("BY", "+375"), ("UA", "+380"), ("KZ", "+7"),
    ("UZ", "+998"), ("KG", "+996"), ("TJ", "+992"), ("AM", "+374")]

  /**
   * The properties every object literal inherits from Object.prototype:
   * indexing `COUNTRY_CODES` or `RU_MONTHS` with one of these names finds the
   * inherited value.
   */
  const ObjectPrototypeNames: seq<string> := [
    "constructor", "__proto__", "__defineGetter__", "__defineSetter__",
    "__lookupGetter__", "__lookupSetter__", "hasOwnProperty", "isPrototypeOf",
    "propertyIsEnumerable", "toString", "valueOf", "toLocaleString"]

  /**
   * The text `String()` makes of an inherited property's value: V8's rendering
   * of a native function, and "[object Object]" for `__proto__`, which is
   * Object.prototype itself.
   */
  function InheritedText(name: string): string {
    if name == "constructor" then "function Object() { [native code] }"
    else if name == "__proto__" then "[object Object]"
    else "function " + name + "() { [native code] }"
  }

  /** '+' followed by at least one digit. */
  predicate IsCallingCode(cc: string) {
    |cc| >= 2 && cc[0] == '+' && AllChars(cc[1..], IsDigit)
  }

  /** The value listed first for `key` in `table`, if any. */
  function LookupEntry(table: seq<(string, string)>, key: string): Option<string> {
    if table == [] then None
    else if table[0].0 == key then Some(table[0].1)
    else LookupEntry(table[1..], key)
  }

  /** A value is found exactly when the table lists the key, and the found pair is in the table. */
  lemma {:induction false} LookupEntryListed(table: seq<(string, string)>, key: string)
    ensures LookupEntry(table, key).Some? ==> (key, LookupEntry(table, key).value) in table
    ensures LookupEntry(table, key).None? <==> forall entry :: entry in table ==> entry.0 != key
  {
    if table != [] {
      LookupEntryListed(table[1..], key);
      assert forall entry :: entry in table <==> entry == table[0] || entry in table[1..];
    }
  }

  /** What `COUNTRY_CODES[defaultRegion] || '+7'` holds: a calling code, or an inherited non-string value. */
  datatype CodeValue = Code(code: string) | InheritedCode(text: string)

  lemma CountryCodesAreCallingCodes()
    ensures forall entry :: entry in CountryCodes ==> IsCallingCode(entry.1) && |entry.0| == 2
  {
  }

  /** `COUNTRY_CODES[defaultRegion] || '+7'`: own entries first, then Object.prototype, then '+7'. */
  function CountryCode(region: string): (v: CodeValue)
    ensures v.Code? ==> IsCallingCode(v.code)
  {
    LookupEntryListed(CountryCodes, region);
    CountryCodesAreCallingCodes();
    match LookupEntry(CountryCodes, region)
    case Some(cc) => Code(cc)
    case None =>
      if region in ObjectPrototypeNames then InheritedCode(InheritedText(region)) else Code("+7")
  }

  /**
   * A listed region gets its code; a name Object.prototype answers gets the
   * inherited value; any other region the Russian default.
   */
  lemma CountryCodeListed(region: string)
    ensures (CountryCode(region).Code? && (region, CountryCode(region).code) in CountryCodes)
      || (CountryCode(region) == InheritedCode(InheritedText(region)) && region in ObjectPrototypeNames
          && forall entry :: entry in CountryCodes ==> entry.0 != region)
      || (CountryCode(region) == Code("+7") && region !in ObjectPrototypeNames
          && forall entry :: entry in CountryCodes ==> entry.0 != region)
  {
    LookupEntryListed(CountryCodes, region);
  }

  /** RU gives +7, BY gives +375, and "toString" finds the inherited method. */
  lemma CountryCodeExamples()
    ensures CountryCode("RU") == Code("+7") && CountryCode("BY") == Code("+375")
    ensures CountryCode("toString") == InheritedCode("function " + "toString" + "() { [native code] }")
  {
    LookupEntryListed(CountryCodes, "toString");
    CountryCodesAreCallingCodes();
  }

  /** The TypeError `countryCode.slice(1)` raises when `countryCode` is not a string. */
  const SliceNotAFunction := "countryCode.slice is not a function"

  /**
   * `normalizePhoneE164`: keep digits and every '+'; a leading '+' means the
   * number is taken as it is; otherwise a Russian trunk '8' becomes '7' and the
   * region's country code is prepended unless already present. Between 8 and
   * 17 characters must follow the '+'. A region that names an inherited
   * property makes `countryCode.slice(1)` throw.
   */
  function NormalizePhoneE164(rawPhone: string, region: string): (r: Result<Option<string>>)
    ensures rawPhone == "" ==> r == Ok(None)
    ensures r.Err? <==> rawPhone != "" && !StartsWith(StripToDigitsPlus(rawPhone), "+") && CountryCode(region).InheritedCode?
    ensures r.Ok? && r.value.Some? ==> |r.value.value| >= 1 && r.value.value[0] == '+' && AllChars(r.value.value, IsDigitOrPlus)
    ensures r.Ok? && r.value.Some? ==> 8 <= |r.value.value| - 1 <= 17
    ensures r.Ok? && r.value.Some? && StartsWith(StripToDigitsPlus(rawPhone), "+") ==> r.value.value == StripToDigitsPlus(rawPhone)
    ensures r.Ok? && r.value.Some? && !StartsWith(StripToDigitsPlus(rawPhone), "+") ==>
      CountryCode(region).Code? && StartsWith(r.value.value, CountryCode(region).code)
  {
    if rawPhone == "" then Ok(None)
    else
      var digits := StripToDigitsPlus(rawPhone);
      if StartsWith(digits, "+") then
        Ok(if 8 <= |digits| - 1 <= 17 then Some(digits) else None)
      else
        match CountryCode(region)
        case InheritedCode(_) => Err(SliceNotAFunction)
        case Code(cc) =>
          var code := cc[1..];
          var digits1 := if StartsWith(digits, "8") && region == "RU" then "7" + digits[1..] else digits;
          var digits2 := if !StartsWith(digits1, code) then code + digits1 else digits1;
          Ok(if 8 <= |digits2| <= 17 then Some("+" + digits2) else None)
  }

  /** `normalizePhoneE164(phone, 'RU')`, the only call the resume parser makes; RU is listed, so it never throws. */
  function NormalizeRussianPhone(rawPhone: string): (r: Option<string>)
    ensures NormalizePhoneE164(rawPhone, "RU") == Ok(r)
  {
    assert CountryCode("RU") == Code("+7");
    NormalizePhoneE164(rawPhone, "RU").value
  }

  /** For Russia, a number written with the trunk prefix 8 comes out as +7 and the rest. */
  lemma NormalizePhoneRussianTrunk(rawPhone: string)
    requires StartsWith(StripToDigitsPlus(rawPhone), "8")
    requires NormalizeRussianPhone(rawPhone).Some?
    ensures NormalizeRussianPhone(rawPhone).value == "+7" + StripToDigitsPlus(rawPhone)[1..]
  {
    var digits := StripToDigitsPlus(rawPhone);
    assert CountryCode("RU") == Code("+7");
    assert !StartsWith(digits, "+") && rawPhone != "";
    var digits1 := "7" + digits[1..];
    assert StartsWith(digits1, "7");
    assert NormalizePhoneE164(rawPhone, "RU") == Ok(Some("+" + digits1));
    assert "+" + digits1 == "+7" + digits[1..];
  }

  /** Without a leading '+', a number in the accepted length range gets the region's code. */
  lemma NormalizePhoneAddsCode(rawPhone: string, region: string, cc: string)
    requires rawPhone != "" && !StartsWith(StripToDigitsPlus(rawPhone), "+")
    requires CountryCode(region) == Code(cc)
    requires !StartsWith(StripToDigitsPlus(rawPhone), "8") || region != "RU"
    requires !StartsWith(StripToDigitsPlus(rawPhone), cc[1..])
    requires 8 <= |cc| - 1 + |StripToDigitsPlus(rawPhone)| <= 17
    ensures NormalizePhoneE164(rawPhone, region) == Ok(Some(cc + StripToDigitsPlus(rawPhone)))
  {
    assert "+" + (cc[1..] + StripToDigitsPlus(rawPhone)) == cc + StripToDigitsPlus(rawPhone);
  }

  /** Without a leading '+', a region that names an Object.prototype property makes the call throw. */
  lemma NormalizePhoneInheritedRegionThrows(rawPhone: string, region: string)
    requires rawPhone != "" && !StartsWith(StripToDigitsPlus(rawPhone), "+")
    requires forall entry :: entry in CountryCodes ==> entry.0 != region
    requires region in ObjectPrototypeNames
    ensures NormalizePhoneE164(rawPhone, region) == Err(SliceNotAFunction)
  {
    LookupEntryListed(CountryCodes, region);
  }

  lemma {:induction false} StripKeepsDigitsPlus(s: string)
    requires AllChars(s, IsDigitOrPlus)
    ensures StripToDigitsPlus(s) == s
  {
    if s != [] {
      StripKeepsDigitsPlus(s[1..]);
      assert [s[0]] + s[1..] == s;
    }
  }

  /** With a leading '+', the stripped text is the result, further '+' signs included, whatever the region. */
  lemma NormalizePhoneLeadingPlus(rawPhone: string, region: string)
    requires StartsWith(StripToDigitsPlus(rawPhone), "+")
    requires 9 <= |StripToDigitsPlus(rawPhone)| <= 18
    ensures NormalizePhoneE164(rawPhone, region) == Ok(Some(StripToDigitsPlus(rawPhone)))
  {
  }

  /**
   * A '+' in the middle of the number is kept: a text of digits and '+'
   * signs that starts with '+' and has 8 to 17 characters after it comes out
   * unchanged, whatever other '+' signs it holds.
   */
  lemma NormalizePhoneKeepsInnerPlus(rawPhone: string, region: string)
    requires StartsWith(rawPhone, "+") && AllChars(rawPhone, IsDigitOrPlus)
    requires 9 <= |rawPhone| <= 18
    ensures NormalizePhoneE164(rawPhone, region) == Ok(Some(rawPhone))
  {
    StripKeepsDigitsPlus(rawPhone);
    NormalizePhoneLeadingPlus(rawPhone, region);
  }

  // ---------------------------------------------------------------------
  // Telegram

  /** The group of `m.match(/marker([A-Za-z0-9_]{5,32})/)`: leftmost, greedy. */
  function FirstHandle(m: string, marker: string, i: nat): (h: Option<string>)
    ensures h.Some? ==> 5 <= |h.value| <= 32 && AllChars(h.value, IsWordChar)
    decreases |m| - i
  {
    if i >= |m| then None
    else if HandleAt(m, marker, i) then Some(m[i + |marker|..HandleEnd(m, marker, i)])
    else FirstHandle(m, marker, i + 1)
  }

  /** The handles found in `matches`, skipping a match whose inner search fails. */
  function HandlesOf(matches: seq<string>, marker: string): (hs: seq<string>)
    ensures forall h :: h in hs ==> 5 <= |h| <= 32 && AllChars(h, IsWordChar)
  {
    if matches == [] then []
    else
      var h := FirstHandle(matches[|matches| - 1], marker, 0);
      HandlesOf(matches[..|matches| - 1], marker) + (if h.Some? then [h.value] else [])
  }

  /** What `extractTelegram` returns: @-mentions first, then t.me links, each handle once. */
  function TelegramHandles(text: string): (r: seq<string>)
    ensures NoDuplicates(r)
    ensures forall h :: h in r ==> 5 <= |h| <= 32 && AllChars(h, IsWordChar)
  {
    if text == "" then []
    else
      Distinct(HandlesOf(GlobalMatches(AtMentionPattern, text, 0), "@")
               + HandlesOf(GlobalMatches(TMeLinkPattern, text, 0), "t.me/"))
  }

  /** Adding `x` to an insertion-ordered set. */
  lemma DistinctSnoc(xs: seq<string>, x: string)
    ensures Distinct(xs + [x]) == if x in Distinct(xs) then Distinct(xs) else Distinct(xs) + [x]
  {
    assert (xs + [x])[..|xs + [x]| - 1] == xs;
  }

  /** The handles seen after one more match: those before, then that match's handle if any. */
  lemma HandlesOfSnoc(seen: seq<string>, ms: seq<string>, i: nat, marker: string)
    requires i < |ms|
    ensures seen + HandlesOf(ms[..i + 1], marker) == seen + HandlesOf(ms[..i], marker)
      + (var h := FirstHandle(ms[i], marker, 0); if h.Some? then [h.value] else [])
  {
    assert ms[..i + 1][..i] == ms[..i];
  }

  /** One `for (const m of matches)` loop of `extractTelegram`, adding to the set `handles`. */
  method AddHandles(matches: seq<string>, marker: string, handles0: seq<string>, ghost seen: seq<string>)
    returns (handles: seq<string>)
    requires handles0 == Distinct(seen)
    ensures handles == Distinct(seen + HandlesOf(matches, marker))
  {
    handles := handles0;
    assert seen + HandlesOf(matches[..0], marker) == seen;
    for i := 0 to |matches|
      invariant handles == Distinct(seen + HandlesOf(matches[..i], marker))
    {
      var handle := FirstHandle(matches[i], marker, 0);
      ghost var before := seen + HandlesOf(matches[..i], marker);
      HandlesOfSnoc(seen, matches, i, marker);
      if handle.Some? {
        DistinctSnoc(before, handle.value);
        if handle.value !in handles {
          handles := handles + [handle.value];
        }
      } else {
        assert before + [] == before;
      }
    }
    assert matches[..|matches|] == matches;
  }

  /** `extractTelegram`: the handles of the @-mentions, then of the t.me links, each once. */
  method ExtractTelegram(text: string) returns (handles: seq<string>)
    ensures handles == TelegramHandles(text)
    ensures NoDuplicates(handles)
  {
    if text == "" {
      return [];
    }
    var atMatches := GlobalMatches(AtMentionPattern, text, 0);
    handles := AddHandles(atMatches, "@", [], []);
    assert [] + HandlesOf(atMatches, "@") == HandlesOf(atMatches, "@");
    var urlMatches := GlobalMatches(TMeLinkPattern, text, 0);
    handles := AddHandles(urlMatches, "t.me/", handles, HandlesOf(atMatches, "@"));
  }

  // ---------------------------------------------------------------------
  // Masking

  /** Some digit is directly followed by "..." or '…': `/\d+\.{3,}|\d+…/`. */
  function HasTruncation(v: string, i: nat): (b: bool)
    ensures b ==> exists k :: i <= k && k + 1 < |v| && IsDigit(v[k]) && (OccursAt(v, "...", k + 1) || v[k + 1] == '…')
    decreases |v| - i
  {
    if i + 1 >= |v| then false
    else (IsDigit(v[i]) && (OccursAt(v, "...", i + 1) || v[i + 1] == '…')) || HasTruncation(v, i + 1)
  }

  /** `isMasked`: the three regex tests of the source, in order. */
  function IsMasked(value: string): bool {
    if value == "" then false
    else
      var maskingChars := '*' in value || '•' in value || '…' in value;
      var ellipsis := Contains(value, "...") || '…' in value;
      var truncated := HasTruncation(value, 0);
      maskingChars || ellipsis || truncated
  }

  /** `isMasked(v)` holds exactly when `v` is non-empty and shows '*', '•', '…' or "...". */
  lemma IsMaskedIff(value: string)
    ensures IsMasked(value) <==>
      value != "" && ('*' in value || '•' in value || '…' in value || exists i :: OccursAt(value, "...", i))
  {
    ContainsIff(value, "...");
    if value != "" && HasTruncation(value, 0) {
      var k :| 0 <= k && k + 1 < |value| && IsDigit(value[k]) && (OccursAt(value, "...", k + 1) || value[k + 1] == '…');
      if value[k + 1] == '…' { assert '…' in value; }
    }
  }

  // ---------------------------------------------------------------------
  // Dates

  const RuMonths: map<string, nat> := map[
    "январь" := 1, "января" := 1, "янв" := 1,
    "февраль" := 2, "февраля" := 2, "фев" := 2,
    "март" := 3, "марта" := 3, "мар" := 3,
    "апрель" := 4, "апреля" := 4, "апр" := 4,
    "май" := 5, "мая" := 5,
    "июнь" := 6, "июня" := 6, "июн" := 6,
    "июль" := 7, "июля" := 7, "июл" := 7,
    "август" := 8, "августа" := 8, "авг" := 8,
    "сентябрь" := 9, "сентября" := 9, "сен" := 9,
    "октябрь" := 10, "октября" := 10, "окт" := 10,
    "ноябрь" := 11, "ноября" := 11, "ноя" := 11,
    "декабрь" := 12, "декабря" := 12, "дек" := 12]

  /** What `RU_MONTHS[monthName]` finds: a month number, or a value inherited from Object.prototype. */
  datatype MonthValue = MonthNumber(n: nat) | InheritedMonth(text: string)

  /** `RU_MONTHS[key]`: an own key first, then the properties of Object.prototype. */
  function MonthLookup(key: string): Option<MonthValue> {
    if key in RuMonths then Some(MonthNumber(RuMonths[key]))
    else if key in ObjectPrototypeNames then Some(InheritedMonth(InheritedText(key)))
    else None
  }

  /** JavaScript truthiness of what was found: the number 0 is falsy, a function or an object is not. */
  predicate IsTruthy(v: MonthValue) {
    v.MonthNumber? ==> v.n != 0
  }

  /** `monthNum.toString()`. */
  function MonthText(v: MonthValue): string {
    match v
    case MonthNumber(n) => NatToString(n)
    case InheritedMonth(text) => text
  }

  /** The three patterns `parseRussianDate` tries, in order. */
  datatype DatePattern =
    | MonthNameYear  // /(\w+)\s+(\d{4})/
    | MonthDotYear   // /(\d{1,2})\.(\d{4})/
    | YearOnly       // /^(\d{4})$/

  const DatePatterns: seq<DatePattern> := [MonthNameYear, MonthDotYear, YearOnly]

  /** `/(\w+)\s+(\d{4})/` can match at `q`; both runs are greedy. */
  predicate MonthNameAt(s: string, q: int) {
    0 <= q < |s| && IsWordChar(s[q]) &&
    var w := RunEnd(s, IsWordChar, q);
    w < |s| && IsSpace(s[w]) &&
    var x := RunEnd(s, IsSpace, w);
    x + 4 <= |s| && AllChars(s[x..x + 4], IsDigit)
  }

  /** The groups (name, year) of the leftmost match of `/(\w+)\s+(\d{4})/` at or after `q`. */
  function MonthNameMatch(s: string, q: nat): (r: Option<(string, string)>)
    ensures r.Some? ==> |r.value.0| > 0 && AllChars(r.value.0, IsWordChar) && r.value.0[0] in s
    ensures r.Some? ==> |r.value.1| == 4 && AllChars(r.value.1, IsDigit)
    decreases |s| - q
  {
    if q >= |s| then None
    else if MonthNameAt(s, q) then
      var w := RunEnd(s, IsWordChar, q);
      var x := RunEnd(s, IsSpace, w);
      Some((s[q..w], s[x..x + 4]))
    else MonthNameMatch(s, q + 1)
  }

  /** The groups (month, year) of a match of `/(\d{1,2})\.(\d{4})/` at `q`; `\d{1,2}` tries two digits first. */
  function MonthDotAt(s: string, q: nat): (r: Option<(string, string)>)
    ensures r.Some? ==> 1 <= |r.value.0| <= 2 && AllChars(r.value.0, IsDigit)
    ensures r.Some? ==> |r.value.1| == 4 && AllChars(r.value.1, IsDigit)
    ensures r.Some? ==> q + |r.value.0| < |s| && s[q + |r.value.0|] == '.'
  {
    if q + 7 <= |s| && IsDigit(s[q]) && IsDigit(s[q + 1]) && s[q + 2] == '.' && AllChars(s[q + 3..q + 7], IsDigit) then
      Some((s[q..q + 2], s[q + 3..q + 7]))
    else if q + 6 <= |s| && IsDigit(s[q]) && s[q + 1] == '.' && AllChars(s[q + 2..q + 6], IsDigit) then
      Some((s[q..q + 1], s[q + 2..q + 6]))
    else None
  }

  /** The leftmost match of `/(\d{1,2})\.(\d{4})/` at or after `q`. */
  function MonthDotMatch(s: string, q: nat): (r: Option<(string, string)>)
    ensures r.Some? ==> 1 <= |r.value.0| <= 2 && AllChars(r.value.0, IsDigit)
    ensures r.Some? ==> |r.value.1| == 4 && AllChars(r.value.1, IsDigit)
    ensures r.Some? ==> q < |s| && '.' in s[q..]
    decreases |s| - q
  {
    if q >= |s| then None
    else
      match MonthDotAt(s, q)
      case Some(g) => assert s[q..][|g.0|] == '.'; Some(g)
      case None =>
        var r := MonthDotMatch(s, q + 1);
        assert r.Some? ==> s[q + 1..] == s[q..][1..];
        r
  }

  /** `str.padStart(2, '0')`. */
  function PadStart2(s: string): (r: string)
    ensures |s| <= 2 ==> |r| == 2
    ensures |s| <= 2 && AllChars(s, IsDigit) ==> AllChars(r, IsDigit)
    ensures |s| >= 2 ==> r == s
  {
    if |s| >= 2 then s else if |s| == 1 then "0" + s else "00"
  }

  /** The value one pattern of `parseRussianDate` contributes, or None to go on to the next. */
  function PatternResult(p: DatePattern, s: string): Option<string> {
    match p
    case MonthNameYear =>
      (match MonthNameMatch(s, 0)
       case Some((name, year)) =>
         (match MonthLookup(ToLower(name))
          case Some(v) => if IsTruthy(v) then Some(year + "-" + PadStart2(MonthText(v)) + "-01") else None
          case None => None)
       case None => None)
    case MonthDotYear =>
      (match MonthDotMatch(s, 0)
       case Some((month, year)) => Some(year + "-" + PadStart2(month) + "-01")
       case None => None)
    case YearOnly =>
      if |s| == 4 && AllChars(s, IsDigit) then Some(s + "-01-01") else None
  }

  /** The first pattern of `ps` that yields a value. */
  function FirstPatternResult(ps: seq<DatePattern>, s: string): Option<string> {
    if ps == [] then None
    else if PatternResult(ps[0], s).Some? then PatternResult(ps[0], s)
    else FirstPatternResult(ps[1..], s)
  }

  /** What `parseRussianDate` returns. */
  function RussianDate(s: string): Option<string> {
    if s == "" then None else FirstPatternResult(DatePatterns, s)
  }

  /** `parseRussianDate`: tries the patterns in order and returns the first value one yields. */
  method ParseRussianDate(dateStr: string) returns (r: Option<string>)
    ensures r == RussianDate(dateStr)
    ensures r.Some? && !InheritedMonthName(dateStr) ==> IsIsoMonthStart(r.value)
    ensures InheritedMonthName(dateStr) ==> r.Some? && IsInheritedMonthStart(r.value)
  {
    if dateStr == "" {
      return None;
    }
    RussianDateShape(dateStr);
    var patterns := DatePatterns;
    for i := 0 to |patterns|
      invariant FirstPatternResult(patterns, dateStr) == FirstPatternResult(patterns[i..], dateStr)
    {
      assert patterns[i..][1..] == patterns[i + 1..];
      match patterns[i]
      case YearOnly =>
        if |dateStr| == 4 && AllChars(dateStr, IsDigit) {
          return Some(dateStr + "-01-01");
        }
      case MonthDotYear =>
        var m := MonthDotMatch(dateStr, 0);
        if m.Some? {
          return Some(m.value.1 + "-" + PadStart2(m.value.0) + "-01");
        }
      case MonthNameYear =>
        var m := MonthNameMatch(dateStr, 0);
        if m.Some? {
          var monthNum := MonthLookup(ToLower(m.value.0));
          if monthNum.Some? && IsTruthy(monthNum.value) {
            return Some(m.value.1 + "-" + PadStart2(MonthText(monthNum.value)) + "-01");
          }
        }
    }
    return None;
  }

  /** YYYY-MM-01 with four digits, '-', two digits and "-01". */
  predicate IsIsoMonthStart(r: string) {
    |r| == 10 && AllChars(r[..4], IsDigit) && r[4] == '-' && AllChars(r[5..7], IsDigit) && r[7..] == "-01"
  }

  /** The month-name pattern matches, and its word lower-cases to "constructor" or "__proto__". */
  predicate InheritedMonthName(s: string) {
    match MonthNameMatch(s, 0)
    case Some((name, _)) => ToLower(name) == "constructor" || ToLower(name) == "__proto__"
    case None => false
  }

  /** The text an inherited month value leaves where the month should be. */
  predicate IsInheritedMonthText(t: string) {
    t == "function Object() { [native code] }" || t == "[object Object]"
  }

  /** YYYY-<text>-01 with the text of an inherited value in the month's place. */
  predicate IsInheritedMonthStart(r: string) {
    |r| >= 8 && AllChars(r[..4], IsDigit) && r[4] == '-' && IsInheritedMonthText(r[5..|r| - 3]) && r[|r| - 3..] == "-01"
  }

  lemma RuMonthKeysStartCyrillic()
    ensures forall k :: k in RuMonths ==> |k| > 0 && !IsWordChar(k[0])
  {
  }

  /** A text with no ASCII capital letter, as `toLowerCase` leaves it. */
  predicate IsLowerName(k: string) {
    forall j :: 0 <= j < |k| ==> !IsAsciiUpper(k[j])
  }

  /** Of the names Object.prototype answers, only "constructor" and "__proto__" have no capital letter. */
  lemma InheritedLowerNames()
    ensures forall name :: name in ObjectPrototypeNames && IsLowerName(name) ==>
      name == "constructor" || name == "__proto__"
  {
    assert IsAsciiUpper("__defineGetter__"[8]) && IsAsciiUpper("__defineSetter__"[8]);
    assert IsAsciiUpper("__lookupGetter__"[8]) && IsAsciiUpper("__lookupSetter__"[8]);
    assert IsAsciiUpper("hasOwnProperty"[3]) && IsAsciiUpper("isPrototypeOf"[2]);
    assert IsAsciiUpper("propertyIsEnumerable"[8]) && IsAsciiUpper("toString"[2]);
    assert IsAsciiUpper("valueOf"[5]) && IsAsciiUpper("toLocaleString"[2]);
  }

  /** No month key starts with an ASCII word character. */
  lemma WordKeyNotMonth(key: string)
    requires |key| > 0 && IsWordChar(key[0])
    ensures key !in RuMonths
  {
    RuMonthKeysStartCyrillic();
  }

  /**
   * `RU_MONTHS` indexed by a lower-cased `\w` word: no month key starts with an
   * ASCII word character, so only the two lower-case inherited names find anything.
   */
  lemma WordKeyLookup(name: string)
    requires |name| > 0 && IsWordChar(name[0])
    ensures MonthLookup(ToLower(name)) ==
      if ToLower(name) == "constructor" then Some(InheritedMonth("function Object() { [native code] }"))
      else if ToLower(name) == "__proto__" then Some(InheritedMonth("[object Object]"))
      else None
  {
    var key := ToLower(name);
    assert key[0] == LowerChar(name[0]);
    WordKeyNotMonth(key);
    assert IsLowerName(key);
    InheritedLowerNames();
    assert key in ObjectPrototypeNames <==> key == "constructor" || key == "__proto__";
  }

  /**
   * JavaScript's `\w` is ASCII-only, so the month-name pattern yields a value
   * only for a word that lower-cases to an inherited name, and then the text of
   * that value stands where the month should.
   */
  lemma MonthNameBranch(s: string)
    ensures PatternResult(MonthNameYear, s).Some? <==> InheritedMonthName(s)
    ensures InheritedMonthName(s) ==>
      var m := MonthNameMatch(s, 0).value;
      PatternResult(MonthNameYear, s) == Some(m.1 + "-" +
        (if ToLower(m.0) == "constructor" then "function Object() { [native code] }" else "[object Object]") + "-01")
  {
    var m := MonthNameMatch(s, 0);
    if m.Some? {
      WordKeyLookup(m.value.0);
    }
  }

  /** The result is the inherited-name value, else the M.YYYY match, else the YYYY match. */
  lemma RussianDateCases(s: string)
    requires s != ""
    ensures RussianDate(s) ==
      if InheritedMonthName(s) then PatternResult(MonthNameYear, s)
      else if PatternResult(MonthDotYear, s).Some? then PatternResult(MonthDotYear, s)
      else PatternResult(YearOnly, s)
  {
    MonthNameBranch(s);
    var ps := DatePatterns;
    assert ps[0] == MonthNameYear && ps[1..] == [MonthDotYear, YearOnly];
    if !InheritedMonthName(s) {
      assert FirstPatternResult(ps, s) == FirstPatternResult(ps[1..], s);
    }
    assert [MonthDotYear, YearOnly][1..] == [YearOnly];
    assert [YearOnly][1..] == [];
    assert FirstPatternResult([YearOnly], s) == PatternResult(YearOnly, s);
  }

  /** A value is YYYY-MM-01, unless the month-name word is an inherited name, and then it is YYYY-<text>-01. */
  lemma RussianDateShape(s: string)
    ensures RussianDate(s).Some? && !InheritedMonthName(s) ==> IsIsoMonthStart(RussianDate(s).value)
    ensures InheritedMonthName(s) ==> RussianDate(s).Some? && IsInheritedMonthStart(RussianDate(s).value)
  {
    if s != "" {
      RussianDateCases(s);
      if InheritedMonthName(s) {
        MonthNameBranch(s);
        var m := MonthNameMatch(s, 0).value;
        var t := if ToLower(m.0) == "constructor" then "function Object() { [native code] }" else "[object Object]";
        var r := m.1 + "-" + t + "-01";
        assert r[..4] == m.1 && r[5..|r| - 3] == t && r[|r| - 3..] == "-01";
      } else {
        match MonthDotMatch(s, 0)
        case Some((month, year)) =>
          var r := year + "-" + PadStart2(month) + "-01";
          assert r[..4] == year && r[5..7] == PadStart2(month) && r[7..] == "-01";
        case None =>
          if |s| == 4 && AllChars(s, IsDigit) {
            var r := s + "-01-01";
            assert r[..4] == s && r[5..7] == "01" && r[7..] == "-01";
          }
      }
    }
  }

  /** Text whose ASCII word characters are all digits has no inherited month name. */
  lemma NoInheritedNameWithoutLetters(s: string)
    requires forall i :: 0 <= i < |s| && IsWordChar(s[i]) ==> IsDigit(s[i])
    ensures !InheritedMonthName(s)
  {
    match MonthNameMatch(s, 0)
    case Some((name, _)) =>
      var i :| 0 <= i < |s| && s[i] == name[0];
      assert ToLower(name)[0] == LowerChar(name[0]);
    case None =>
  }

  /** "YYYY" becomes "YYYY-01-01". */
  lemma RussianDateOfYear(s: string)
    requires |s| == 4 && AllChars(s, IsDigit)
    ensures RussianDate(s) == Some(s + "-01-01")
  {
    RussianDateCases(s);
    assert s[0..] == s;
    assert '.' !in s;
    assert MonthDotMatch(s, 0) == None;
    NoInheritedNameWithoutLetters(s);
  }

  /** "M.YYYY" and "MM.YYYY" become "YYYY-MM-01" with the month zero-padded. */
  lemma RussianDateOfMonthYear(month: string, year: string)
    requires 1 <= |month| <= 2 && AllChars(month, IsDigit)
    requires |year| == 4 && AllChars(year, IsDigit)
    ensures RussianDate(month + "." + year) == Some(year + "-" + PadStart2(month) + "-01")
  {
    var s := month + "." + year;
    RussianDateCases(s);
    if |month| == 2 {
      assert s[..2] == month && s[2] == '.' && s[3..7] == year;
    } else {
      assert s[..1] == month && s[1] == '.' && s[2..6] == year;
    }
    assert MonthDotAt(s, 0) == Some((month, year));
    assert forall i :: 0 <= i < |s| ==> IsDigit(s[i]) || s[i] == '.';
    NoInheritedNameWithoutLetters(s);
  }

  /** Text without a dot that is not four characters long yields a value only through an inherited name. */
  lemma RussianDateWithoutDot(s: string)
    requires '.' !in s && |s| != 4
    ensures RussianDate(s).Some? <==> InheritedMonthName(s)
  {
    if s != "" {
      RussianDateCases(s);
      MonthNameBranch(s);
      assert s[0..] == s;
    }
  }

  /**
   * Text whose ASCII word characters are all digits (a month written in
   * Cyrillic, say), without a dot and not four characters long, yields null.
   */
  lemma RussianDateOfNonLatinIsNull(s: string)
    requires '.' !in s && |s| != 4
    requires forall i :: 0 <= i < |s| && IsWordChar(s[i]) ==> IsDigit(s[i])
    ensures RussianDate(s) == None
  {
    NoInheritedNameWithoutLetters(s);
    RussianDateWithoutDot(s);
  }

  /** The source comment's own example "январь 2020" yields null. */
  lemma RussianDateOfMonthNameIsNull()
    ensures RussianDate("январь 2020") == None
  {
    var s := "январь 2020";
    assert forall i :: 0 <= i < |s| ==> s[i] != '.' && (IsWordChar(s[i]) ==> IsDigit(s[i]));
    RussianDateOfNonLatinIsNull(s);
  }

  /** A word, one space and four digits: the month-name pattern takes the word and the year. */
  lemma MonthNameMatchOfWord(name: string, year: string)
    requires |name| > 0 && AllChars(name, IsWordChar)
    requires |year| == 4 && AllChars(year, IsDigit)
    ensures MonthNameMatch(name + " " + year, 0) == Some((name, year))
  {
    var s := name + " " + year;
    var w := |name|;
    assert s[..w] == name && s[w] == ' ' && s[w + 1..w + 5] == year;
    assert forall k :: 0 <= k < w ==> IsWordChar(s[k]);
    assert RunEnd(s, IsWordChar, 0) == w;
    assert RunEnd(s, IsSpace, w) == w + 1;
    assert MonthNameAt(s, 0);
  }

  /** "Constructor YYYY" puts the text of the Object function in the month's place. */
  lemma RussianDateOfConstructor(year: string)
    requires |year| == 4 && AllChars(year, IsDigit)
    ensures RussianDate("Constructor" + " " + year) == Some(year + "-" + "function Object() { [native code] }" + "-01")
  {
    var name := "Constructor";
    MonthNameMatchOfWord(name, year);
    assert ToLower(name) == "constructor";
    assert InheritedMonthName(name + " " + year);
    RussianDateCases(name + " " + year);
    MonthNameBranch(name + " " + year);
  }

  // ---------------------------------------------------------------------
  // Resume ids

  /**
   * `extractResumeId`: null for an empty URL; otherwise the maximal non-empty
   * run of [a-f0-9] after the leftmost "/resume/" that is followed by one.
   */
  function ExtractResumeId(url: string): (r: Option<string>)
    ensures r.None? <==> forall k :: !CaptureAt(url, "/resume/", IsHexLower, k)
    ensures r.Some? ==> exists k :: IsLeftmostCapture(url, "/resume/", IsHexLower, k)
                                      && r.value == CaptureRun(url, "/resume/", IsHexLower, k)
  {
    if url == "" then None else FirstCapture(url, "/resume/", IsHexLower)
  }
}
