# HH chat and resume extension — a Dafny model of its core

The extension helps a recruiter on hh.ru. It has four parts:

- A popup harvests the resume links of a vacancy's response pages and posts them to an API. It then opens the resumes one by one and stores their print HTML.
- A background service worker queues chat messages and delivers each one through a tab, using a `pending_<tabId>` entry in extension storage.
- Content scripts list the open chats, type and send a message, and read the resume links of a response page.
- Node utilities normalise contacts and dates, parse a resume page, and run a batch job that fetches and cleans resume HTML.

This project models the logic under that glue, one module per source file:

| module | file | source |
|---|---|---|
| `ResumeUtils` | `resume_utils.dfy` | `util/resume-utils.js` |
| `Background` | `background.dfy` | `background.js` |
| `ExtractResumes` | `extract_resumes.dfy` | `util/extract-resumes.js` |
| `ResumeParser` | `resume_parser.dfy` | `util/resume-parser.js` |
| `Popup` | `popup.dfy` | `popup/popup.js` |
| `Content` | `content.dfy` | `content.js` |
| `ResumeLinks` | `resume_links.dfy` | `content-get-resume-links.js` |

Shared vocabulary lives in five small modules:

- `Wrappers`: `Option`, `Result`, and `Attempt` (a value, or the message of what was thrown).
- `Text`: characters, `trim`, ASCII `toLowerCase`, `includes`, `startsWith`, and decimal printing.
- `Capture`: "literal followed by a maximal character run", the shape of every capturing regex used here.
- `Seqs`: flattening, plus `Min`.
- `Dom`: a page node carries its text, its `href` attribute as written, the `href` property the browser resolves from it, and what each selector finds under it.
- `HhUrls` (in `hh_url.dfy`): the `https://hh.ru` prefixing of hrefs, the 32-digit resume id, and the `page` query parameter.

How the source's form carries over into the model:

- Code that works by pushing into arrays, counting in loops or mutating module state becomes a method proved against a specification function. Examples are the selector loops, `getChatList`, `parseContacts`, the popup's loops and the batch loop of `extractResumes`.
- The background worker is a class. Its fields are the queue, the `isProcessing` flag, the storage map and the log of Chrome requests.
- Pure expressions become functions with lemmas.
- Everything the code awaits from Chrome, the network or the database is an outcome passed in as a parameter (per link, per page, per iteration). What the code asks of them is returned or logged as a sequence of requests, in order.
- `COUNTRY_CODES` and `RU_MONTHS` are object literals, so indexing them also finds what every object inherits from Object.prototype (`constructor`, `__proto__`, `toString`, …). The model keeps that. A month word that lower-cases to "constructor" or "__proto__" puts the text of the inherited value in the month's place ("2020-function Object() { [native code] }-01"). A region naming an inherited property makes `countryCode.slice` throw for a number without a leading '+'.

## Model

| member | source | states |
|---|---|---|
| ResumeUtils.NormalizeEmail | util/resume-utils.js:77-84 | empty input gives null; a result is the trimmed, lower-cased input and has the local@domain.tld shape with a TLD of two or more letters; every input whose trimmed lower-cased form has that shape gets a result |
| ResumeUtils.NormalizeEmailIdempotent | util/resume-utils.js:80-83 | normalising a normalised email gives it back |
| ResumeUtils.NormalizeEmailOfMatch | util/resume-utils.js:60 | a match of the global email regex normalises to its lower-case form |
| ResumeUtils.GlobalMatches | util/resume-utils.js:59-63 | every match of the global email or phone regex is non-empty and matches the pattern |
| ResumeUtils.ExtractPhones | util/resume-utils.js:91-96 | the distinct phone-regex matches of the text: no duplicates, each a phone match, exactly the matches found |
| ResumeUtils.StripToDigitsPlus | util/resume-utils.js:108 | the stripped text keeps only digits and '+'; text with neither becomes empty |
| ResumeUtils.StripKeepsDigitsPlus | util/resume-utils.js:108 | text made only of digits and '+' is left unchanged |
| ResumeUtils.CountryCode | util/resume-utils.js:120 | every calling code it yields, a listed one or the '+7' default, is '+' followed by digits |
| ResumeUtils.LookupEntryListed | util/resume-utils.js:67-70 | a region's code is found exactly when the table lists the region, and the found pair is in the table |
| ResumeUtils.CountryCodeListed | util/resume-utils.js:120 | a listed region gets its listed code; an unlisted name of an Object.prototype property gets the inherited value; any other region gets '+7' |
| ResumeUtils.CountryCodesAreCallingCodes | util/resume-utils.js:67-70 | every listed region has two letters and a code of '+' and digits |
| ResumeUtils.CountryCodeExamples | util/resume-utils.js:67-70 | RU gives +7, BY gives +375, and "toString" finds the method inherited from Object.prototype |
| ResumeUtils.NormalizePhoneE164 | util/resume-utils.js:104-140 | empty gives null; it throws exactly when a number without a leading '+' meets a region that names an inherited property; a result starts with '+', holds only digits and '+', and has 8 to 17 characters after the first; a '+'-led stripped input is returned as is; otherwise the result starts with the region code |
| ResumeUtils.NormalizeRussianPhone | util/resume-parser.js:447 | the parser's call with 'RU' never throws: it is the E.164 result for RU |
| ResumeUtils.NormalizePhoneInheritedRegionThrows | util/resume-utils.js:120-131 | a number without a leading '+' and an unlisted region that names an Object.prototype property raise "countryCode.slice is not a function" |
| ResumeUtils.NormalizePhoneRussianTrunk | util/resume-utils.js:122-125 | for RU, a leading 8 is replaced by 7: the result is "+7" and the rest of the digits |
| ResumeUtils.NormalizePhoneAddsCode | util/resume-utils.js:127-137 | digits that lack the region code get it in front, when the length fits |
| ResumeUtils.NormalizePhoneLeadingPlus | util/resume-utils.js:111-117 | a '+'-led number with 8 to 17 following characters is kept whatever the region |
| ResumeUtils.NormalizePhoneKeepsInnerPlus | util/resume-utils.js:108-114 | a text of digits and '+' signs led by '+', of 9 to 18 characters, comes out unchanged: a '+' in the middle survives |
| ResumeUtils.FirstHandle | util/resume-utils.js:155 | an extracted handle has 5 to 32 word characters |
| ResumeUtils.HandlesOf | util/resume-utils.js:153-164 | every handle taken from the matches has 5 to 32 word characters |
| ResumeUtils.TelegramHandles | util/resume-utils.js:147-167 | the handle list has no duplicates and every entry has 5 to 32 word characters |
| ResumeUtils.DistinctSnoc | util/resume-utils.js:150-166 | adding to an insertion-ordered Set appends exactly the new values |
| ResumeUtils.AddHandles | util/resume-utils.js:154-157 | the forEach over matches leaves the Set equal to the distinct handles of everything seen, in insertion order |
| ResumeUtils.ExtractTelegram | util/resume-utils.js:147-167 | returns the distinct @-mention handles, then the t.me handles, in first-insertion order and without duplicates |
| ResumeUtils.HasTruncation | util/resume-utils.js:180 | a hit is a digit followed by "..." or '…' |
| ResumeUtils.IsMaskedIff | util/resume-utils.js:174-183 | masked exactly when the value is non-empty and contains '*', '•', '…' or "..." |
| ResumeUtils.MonthNameMatch | util/resume-utils.js:196 | a match of the first date pattern is a run of ASCII word characters and four digits |
| ResumeUtils.MonthDotMatch | util/resume-utils.js:198 | a match of the second pattern is a one- or two-digit month, a dot and four digits |
| ResumeUtils.PadStart2 | util/resume-utils.js:211 | a month of up to two digits is padded to exactly two digits |
| ResumeUtils.ParseRussianDate | util/resume-utils.js:190-226 | the pattern loop with its early return computes the reference result; every result has the YYYY-MM-01 shape, except that a month word lower-casing to an inherited name always gives YYYY-<inherited text>-01 |
| ResumeUtils.RuMonthKeysStartCyrillic | util/resume-utils.js:43-56 | no key of the month table starts with an ASCII word character |
| ResumeUtils.WordKeyNotMonth | util/resume-utils.js:216 | a word that starts with an ASCII word character is not a month key |
| ResumeUtils.InheritedLowerNames | util/resume-utils.js:215-216 | of the names Object.prototype answers, only "constructor" and "__proto__" have no capital letter, so only they survive `toLowerCase` |
| ResumeUtils.WordKeyLookup | util/resume-utils.js:215-216 | a lower-cased `\w` word finds the Object function for "constructor", Object.prototype for "__proto__", and nothing otherwise |
| ResumeUtils.MonthNameBranch | util/resume-utils.js:213-220 | the month-name branch yields a date exactly when the word lower-cases to "constructor" or "__proto__", and then the inherited value's text stands in the month's place |
| ResumeUtils.RussianDateCases | util/resume-utils.js:203-225 | on non-empty text the result is the inherited-name result if there is one, else the month.year result, else the year-only result |
| ResumeUtils.RussianDateShape | util/resume-utils.js:190-226 | every date has the shape YYYY-MM-01, except that an inherited month name always gives YYYY-<inherited text>-01 |
| ResumeUtils.NoInheritedNameWithoutLetters | util/resume-utils.js:196 | text whose `\w` characters are all digits has no inherited month name |
| ResumeUtils.RussianDateOfYear | util/resume-utils.js:199-208 | "YYYY" maps to "YYYY-01-01" |
| ResumeUtils.RussianDateOfMonthYear | util/resume-utils.js:197-212 | "M.YYYY" and "MM.YYYY" map to "YYYY-MM-01", with the month zero-padded |
| ResumeUtils.RussianDateWithoutDot | util/resume-utils.js:190-226 | text without a dot that is not four characters long gives a date exactly when its month-name word is an inherited name |
| ResumeUtils.RussianDateOfNonLatinIsNull | util/resume-utils.js:195-221 | text whose `\w` characters are all digits (a month written in Cyrillic, say), without a dot and not four characters long, gives null |
| ResumeUtils.RussianDateOfMonthNameIsNull | util/resume-utils.js:195-221 | "январь 2020" gives null, because `\w` is ASCII-only |
| ResumeUtils.MonthNameMatchOfWord | util/resume-utils.js:196 | a word, one space and four digits match with the word and the year as the groups |
| ResumeUtils.RussianDateOfConstructor | util/resume-utils.js:213-220 | "Constructor YYYY" gives "YYYY-function Object() { [native code] }-01" |
| ResumeUtils.ExtractResumeId | util/resume-utils.js:233-239 | null exactly when no "/resume/" is followed by a hex digit; otherwise the maximal hex run after the leftmost such "/resume/" |
| ResumeUtils.Distinct | util/resume-utils.js:95 | `[...new Set(xs)]` holds exactly the elements of xs, once each |
| ResumeUtils.Dedupe | util/resume-utils.js:246-248 | holds exactly the non-empty inputs, without duplicates |
| ResumeUtils.DedupeKeepsFirstOccurrenceOrder | util/resume-utils.js:246-248 | the output is ordered by each value's first occurrence in the input |
| Background.ChatUrl | background.js:94 | the chat URL is the ufa.hh.ru chat prefix followed by the chat id |
| Background.PendingKey | background.js:107 | the storage key of a tab starts with "pending_" |
| Background.PendingKeyInjective | background.js:107 | distinct tabs have distinct pending keys |
| Background.WritePendingOverwrites | background.js:106-157 | unless the `set` rejects, the tab's entry is overwritten with {chatId, messageText, tabId, created} and other keys are untouched; a rejected `set` leaves the store as it was |
| Background.WritePendingKeepsValid | background.js:106-113 | every stored pending entry sits under the key of its own tab, before and after the write |
| Background.TaskRouteByMode | background.js:73-176 | only mode 'background' opens a new tab, and it never navigates an existing one; any other mode navigates the current tab to the chat exactly when the entry was stored, and does so first; the content script is injected into a tab exactly when its entry was stored and, outside mode 'background', the navigation did not reject |
| Background.StoreAfterKeepsValid | background.js:68-84 | the consumer loop keeps every pending entry under its own tab's key |
| Background.StoreAfterUntouched | background.js:68-84 | a key that no handled task's tab maps to is neither added nor changed by the loop |
| Background.FifoStep | background.js:68-69 | taking the head of a non-empty queue and adding the iteration's arrivals keeps "handled + queue = initial + arrived", and records that this iteration found the queue non-empty |
| Background.Worker.constructor | background.js:5-6 | the worker starts with an empty queue and no consumer running |
| Background.Worker.Enqueue | background.js:44-50 | appends exactly the given job at the tail and changes nothing else |
| Background.Worker.RunTask | background.js:72-176 | one task writes its pending entry and logs its route's Chrome requests, stopping at the first call that throws (no tab, a rejected `set`, a rejected `tabs.update`); queue and flag unchanged |
| Background.Worker.ProcessMessageQueue | background.js:60-88 | does nothing when the queue is empty or a consumer is running; otherwise handles the queue plus every arrival in FIFO order, stopping at the first empty queue, and leaves the queue empty and the flag false |
| Background.Worker.Drain | background.js:68-84 | the while loop empties the queue and stops at the first empty queue (every iteration taken found it non-empty); what it handled is the old queue followed by the arrivals, and storage and log are the result of running exactly those tasks |
| Background.Worker.DrainRound | background.js:69-83 | one iteration: the head task leaves the queue, the iteration's arrivals join it, and storage and log gain that task's effects |
| Background.Worker.HandleSendRequest | background.js:38-58 | while a consumer runs, the request is only appended; otherwise it is appended and the whole queue is drained in order, up to the first empty queue |
| Background.Worker.HandleContentScriptReady | background.js:199-246 | storage and log change as the readiness function says; the queue is untouched |
| Background.ReadinessContract | background.js:199-246 | with no entry nothing is sent; the entry's own chat and text are sent; the entry is removed exactly on a success reply; the tab is closed exactly on success with an inactive tab; other keys are untouched |
| Background.Worker.StartupSweep | background.js:249-262 | storage becomes the swept map; queue, flag and log are unchanged |
| Background.SweptContract | background.js:252-260 | no pending entry older than one hour survives and every younger one survives unchanged; every non-pending key is kept as is; no key is added; sweeping twice equals sweeping once |
| Background.SweptKeepsValid | background.js:256-260 | the sweep keeps every pending entry under its own tab's key |
| Background.Worker.OnMessage | background.js:9-36 | the reply is the dispatcher's; PING and unknown types change no state; SEND_MESSAGE_BACKGROUND appends the request and, unless a consumer is running, drains the queue in FIFO order up to the first empty queue, with storage and log those of the handled tasks; CONTENT_SCRIPT_READY changes storage and log as the readiness function says for the sender's tab, and leaves the queue and flag alone |
| Background.ReplyTo | background.js:9-36 | success for every known type, and an error of "Unknown message type" for the rest; SEND_MESSAGE_BACKGROUND is acknowledged as queued whatever happens later; only PING carries a timestamp |
| ExtractResumes.ExtractResumeId | util/extract-resumes.js:99-102 | null exactly when no "/resume/" is followed by a hex digit; otherwise the maximal hex run after the leftmost one |
| ExtractResumes.ExtractResumeIdCopiesAgree | util/extract-resumes.js:99-102 | this copy agrees with the one in util/resume-utils.js on every URL, the empty one included |
| ExtractResumes.PrintUrl | util/extract-resumes.js:76 | the URL followed by '&' when it already has a '?', otherwise by '?', and then "print=true" |
| ExtractResumes.PrintUrlQuery | util/extract-resumes.js:76 | the print URL always has a query, and never gains a second '?' |
| ExtractResumes.CollapseSpaces | util/extract-resumes.js:56 | no longer than the input; it starts with the input's first character, a space if that was whitespace; every whitespace character left is a space |
| ExtractResumes.CollapseSpacesNormalised | util/extract-resumes.js:56 | every whitespace run becomes one space: no two whitespace characters remain adjacent |
| ExtractResumes.CollapseSpacesKeepsText | util/extract-resumes.js:56 | only whitespace changes: the other characters are kept, in order |
| ExtractResumes.JoinTags | util/extract-resumes.js:57 | no longer than the input; it starts with the input's first character, and with the first two when the first is not '>' |
| ExtractResumes.JoinTagsNoTagGap | util/extract-resumes.js:57 | no '>' whitespace '<' remains |
| ExtractResumes.JoinTagsKeepsCollapsed | util/extract-resumes.js:56-57 | text with no adjacent whitespace keeps none after the join |
| ExtractResumes.JoinTagsKeepsText | util/extract-resumes.js:57 | only whitespace is removed: the other characters are kept, in order |
| ExtractResumes.CleanHtml | util/extract-resumes.js:32-68 | originalSize is the input length, cleanedSize is at most that, and the cleaned text is trimmed |
| ExtractResumes.CleanHtmlNormalised | util/extract-resumes.js:55-63 | the cleaned text has no two adjacent whitespace characters and no '>' whitespace '<' |
| ExtractResumes.NonSpaceOfTrim | util/extract-resumes.js:63 | trimming removes only whitespace |
| ExtractResumes.CleanHtmlKeepsText | util/extract-resumes.js:55-63 | the cleaned text has exactly the input's non-whitespace characters, in order |
| ExtractResumes.TryLink | util/extract-resumes.js:170-234 | the existence check comes first; already extracted exactly when the check finds the row and the mark succeeds, and then only the mark follows; saved exactly when the check finds none and the fetch, insert and mark succeed, and then the print URL is fetched, the cleaned page is inserted under its id, URL and vacancy, and the link is marked |
| ExtractResumes.LinkRunActions | util/extract-resumes.js:160-247 | no resume id means failure with no statement; every other failure ends with the error mark; already-extracted links issue the check and the mark |
| ExtractResumes.LinkResultsAt | util/extract-resumes.js:160-162 | each link's result depends only on that link and its own call outcomes |
| ExtractResumes.TalliedCounters | util/extract-resumes.js:151-260 | without a fatal error, processed is the number of links seen, successful counts saves, failed counts failures, and processed − successful − failed counts already-extracted links |
| ExtractResumes.TalliedStaysAborted | util/extract-resumes.js:266-269 | once a failing error mark has aborted the run, no later link changes the tally |
| ExtractResumes.Batches | util/extract-resumes.js:156-157 | there are ceil(n/10) batches, and batch b is the slice from 10·b to min(10·b + 10, n) |
| ExtractResumes.BatchesCover | util/extract-resumes.js:156-160 | concatenating the batches gives the links back in order; each batch has 1 to 10 links |
| ExtractResumes.ExtractResumesLoop | util/extract-resumes.js:107-270 | no links gives the no-links report and no statements; otherwise the nested batch loops produce the tally of all link results and their statements in order |
| ExtractResumes.RunBatch | util/extract-resumes.js:160-248 | the inner loop advances the tally over the batch, or stops with the fatal error's final tally |
| ExtractResumes.ProcessLink | util/extract-resumes.js:161-247 | one iteration yields that link's result |
| ExtractResumes.CountLink | util/extract-resumes.js:161-247 | the counter updates of one iteration |
| ResumeParser.FirstTextIndex | util/resume-parser.js:495-501 | the first selector whose first element has non-empty trimmed text; every earlier one has none |
| ResumeParser.GetTextBySelectors | util/resume-parser.js:494-503 | null exactly when no selector yields text; otherwise the trimmed, non-empty text of the first selector that does |
| ResumeParser.TrimIdempotent | util/resume-parser.js:498 | trimmed text is unchanged by trimming again |
| ResumeParser.NonEmptyTexts | util/resume-parser.js:513-516 | at most one text per element |
| ResumeParser.NonEmptyTextsIff | util/resume-parser.js:513-516 | a text is collected exactly when it is the non-empty trimmed text of one of the elements |
| ResumeParser.TextsFoundIff | util/resume-parser.js:511-517 | a text is collected exactly when the elements of some selector yield it |
| ResumeParser.GetTextArrayBySelectors | util/resume-parser.js:508-520 | the accumulation loops followed by dedupe give the deduplicated in-order texts |
| ResumeParser.CollectTexts | util/resume-parser.js:513-516 | the inner forEach pushes the non-empty trimmed texts of the elements, in order |
| ResumeParser.TextArrayContents | util/resume-parser.js:508-520 | no duplicates, and a text is listed exactly when it is a non-empty trimmed text of an element of some selector |
| ResumeParser.SeparatorAt | util/resume-parser.js:540 | a separator ('—', '–', '-' or "по" between whitespace) found at a position ends after it |
| ResumeParser.NextSeparator | util/resume-parser.js:540 | the leftmost separator at or after a position, or none |
| ResumeParser.ParseDateRange | util/resume-parser.js:525-551 | empty text gives {null, null, false}; both dates, when present, have the YYYY-MM-01 shape, or YYYY-<inherited text>-01 for an inherited month name |
| ResumeParser.ParseDateRangeCurrent | util/resume-parser.js:535-548 | isCurrent exactly when the text contains "по настоящее время" or "н.в."; a current range has no end date |
| ResumeParser.ParseDateRangeFrom | util/resume-parser.js:540-544 | `from` is the date of the trimmed text before the first separator, and null when that text is empty |
| ResumeParser.ParseDateRangeOfPair | util/resume-parser.js:540-548 | for parts a and b with no dash or whitespace in them, "a—b" gives the date of a, and the date of b unless the range is current |
| ResumeParser.ParseDateRangeTo | util/resume-parser.js:540-548 | for every text: `to` is the date of the trimmed text between the first separator and the next one (or the end), null when that text is empty or the range is current |
| ResumeParser.ParseDateRangeNoEnd | util/resume-parser.js:540-548 | a text with no separator has no end date |
| ResumeParser.ParseDateRangeOfSpacedPair | util/resume-parser.js:540-548 | for non-empty parts a and b with no dash or whitespace in them, "a — b" with a space on each side of any of the three dashes (the hh.ru form "01.2020 — 05.2021"): `from` is the date of a, and `to` the date of b unless the range is current |
| ResumeParser.ParseContacts | util/resume-parser.js:401-489 | no section gives empty lists and no mask; a section gives the record its three scans and the dedupes define |
| ResumeParser.CollectContacts | util/resume-parser.js:423-478 | the three forEach loops and the dedupes give the reference contacts record |
| ResumeParser.CollectEmails | util/resume-parser.js:426-441 | the normalised emails, their contact records, and whether any match is masked |
| ResumeParser.CollectPhones | util/resume-parser.js:444-461 | every phone is listed raw, its E.164 form when there is one, a contact record for each, and the mask flag |
| ResumeParser.CollectTelegrams | util/resume-parser.js:464-472 | every handle is listed, with an '@' contact record |
| ResumeParser.NormalizedEmailsIff | util/resume-parser.js:427-430 | an email is listed exactly when some match normalises to it |
| ResumeParser.EmailContactsAreNormalized | util/resume-parser.js:427-436 | an email contact is recorded only for a match that normalises, with that value |
| ResumeParser.PhoneContactsCoverAll | util/resume-parser.js:445-457 | every phone gets a contact record, even one with no E.164 form |
| ResumeParser.AnyMaskedIff | util/resume-parser.js:438-460 | the mask flag is set exactly when some value is masked |
| ResumeParser.PhoneContactKinds | util/resume-parser.js:452-456 | phone records are of kind phone |
| ResumeParser.TelegramContactKinds | util/resume-parser.js:467-471 | telegram records are of kind telegram |
| ResumeParser.DedupeOfDistinct | util/resume-parser.js:474-478 | dedupe leaves a list that is already distinct and has no empty element unchanged |
| ResumeParser.ContactsFromFacts | util/resume-parser.js:423-478 | emails are exactly the normalisable matches; each email record is normalised; each phone has a record; masked exactly when an email or phone match is masked |
| ResumeParser.EmailMatchesAccepted | util/resume-parser.js:426-430 | every email-regex match is accepted by normalizeEmail and listed in lower case |
| ResumeParser.ContactsFromCover | util/resume-parser.js:423-478 | given valid email matches and distinct non-empty phones, every email is listed in lower case, phones_raw are the phones, and each phone has a record with its RU normal form |
| ResumeParser.ContactsOfSection | util/resume-parser.js:412-478 | on a contacts section, every email match is listed in lower case, phones_raw are the extracted phones, and each phone has a record |
| ResumeParser.ContactListsDistinct | util/resume-parser.js:474-478 | all four lists are free of duplicates and empty strings |
| ResumeParser.ContactsOfDistinct | util/resume-parser.js:401-489 | whatever section is given, every listed email, phone and handle is non-empty and listed once |
| ResumeParser.ListedEmailsIff | util/resume-parser.js:427-430 | after dedupe, an email is listed exactly when some match normalises to it |
| ResumeParser.EmailRowsNormalized | util/resume-parser.js:427-472 | among all contact rows, the email rows come from matches that normalise, carrying that value |
| ResumeParser.KeptExperience | util/resume-parser.js:260-269 | at most one entry per item |
| ResumeParser.KeptExperienceIff | util/resume-parser.js:260-269 | an entry is listed exactly when some item yields it and it names a company or a position |
| ResumeParser.ParseExperience | util/resume-parser.js:238-316 | no section gives no entries; every entry names a company or a position; the loop computes the reference list |
| ResumeParser.KeptEducation | util/resume-parser.js:341-350 | at most one entry per item |
| ResumeParser.KeptEducationIff | util/resume-parser.js:341-350 | an entry is listed exactly when some item yields it and it names an institution or a level |
| ResumeParser.ParseEducation | util/resume-parser.js:321-384 | no section gives no entries; every entry names an institution or a level; the loop computes the reference list |
| ResumeParser.PrimaryIsFirst | util/resume-parser.js:74-76 | the primary value is the first element of its list, or null when the list is empty |
| ResumeParser.ParseResume | util/resume-parser.js:25-105 | throws "Could not extract resume ID from URL" exactly when the id is missing; otherwise carries the id and URL, the contact lists, experience and education, and each primary field is its list's first element |
| HhUrls.AbsoluteUrl | popup/popup.js:477 | the URL starts with "http" and ends with the href: the href itself or "https://hh.ru" + href |
| HhUrls.AbsoluteUrlCases | content-get-resume-links.js:47 | an href is kept exactly when it starts with "http"; any other gains the origin in front |
| HhUrls.AbsoluteUrlIdempotent | content-get-resume-links.js:47 | prefixing an already absolute URL changes nothing |
| HhUrls.LeftmostResumeId32 | popup/popup.js:508 | the leftmost position where "/resume/" is followed by 32 lower-case hex digits, or none |
| HhUrls.ResumeId32 | popup/popup.js:508-512 | null exactly when no "/resume/" is followed by 32 hex digits; otherwise the 32 digits of the leftmost match |
| Popup.FirstFoundIndex | popup/popup.js:456-462 | the first selector with any element; every earlier one finds nothing |
| Popup.ResumeIdAnchors | popup/popup.js:466-470 | exactly the anchors whose href has a 32-digit resume id |
| Popup.FallbackFindsNothing | popup/popup.js:464-471 | when no selector finds anything, the fallback, which repeats the last selector, finds nothing either |
| Popup.LinksOf | popup/popup.js:473-485 | at most one link per element; every link has the page tag, an "http" URL and a non-empty title |
| Popup.LinksOfIff | popup/popup.js:473-485 | every element with an href yields its link, and every link comes from such an element |
| Popup.LinkForFields | popup/popup.js:474-483 | a relative href gains "https://hh.ru"; an empty title becomes 'No title'; otherwise the trimmed text |
| Popup.ExtractResumeLinks | popup/popup.js:439-500 | the selector loop and the forEach return the vacancy id and the links of the chosen elements, tagged with the page parameter (1 by default) |
| Popup.ChooseResumeElements | popup/popup.js:455-471 | the selector loop stops at the first selector that finds elements, and otherwise falls back to the resume-id anchors |
| Popup.CollectPageLinks | popup/popup.js:473-485 | the forEach pushes exactly the reference links of the elements, in order |
| Popup.ExtractCurrentPage | popup/popup.js:29-83 | an error exactly off the responses page or when the page script reports one; otherwise that page's links and vacancy id |
| Popup.StopIndex | popup/popup.js:107-146 | the first page, from a given one on, that reports an error or yields no links |
| Popup.PageLinks | popup/popup.js:133 | each page's links |
| Popup.AllPagesFacts | popup/popup.js:102-154 | an error exactly when the stopping page reports one; otherwise every counted page had links, the page after the last counted one had none, and every link of every counted page is in the result |
| Popup.FlattenKeepsAll | popup/popup.js:139 | pushing every page's links keeps all of them |
| Popup.ProgressWidthBounds | popup/popup.js:110 | the width is 10·page for pages up to 9, and 90 from then on; it never decreases |
| Popup.NavigateTo | popup/popup.js:113-121 | corrected: the tab ends up showing the page being read |
| Popup.ShownAsWrittenIs | popup/popup.js:113-121 | as written: the page shown when page c is read is c, except that the start page is shown as the page before it |
| Popup.StaleTabUrlSkipsStartPage | popup/popup.js:113-121 | as written, from a start page ≥ 2: the page before it is read twice, and the start page is never read |
| Popup.ExtractAllPages | popup/popup.js:86-186 | the while loop gives the reference harvest; one progress width and one page read per iteration, for pages 1, 2, … up to the stopping page |
| Popup.SaveLinks | popup/popup.js:189-241 | no request without an API URL, and then the status is "Please enter API URL"; otherwise the links are posted to apiUrl + "/vacancy/resume-links"; the status is a success exactly when the server stored them |
| Popup.StepFacts | popup/popup.js:271-393 | an iteration ends the loop exactly on an empty listing; it always starts with the listing request; a failure before a link was obtained issues nothing more; a later failure ends with the error mark; the tab is navigated to the link unless the tab lookup failed, and the content is extracted exactly when the navigation succeeded; a success opens, extracts, saves and marks that link |
| Popup.EmptyListingIndex | popup/popup.js:288-292 | the first iteration whose listing is empty |
| Popup.RunCounters | popup/popup.js:263-397 | processed is the smaller of the limit and the first empty listing; the loop ended early exactly when an empty listing came first; successful counts the successful iterations; processed == successful + failed |
| Popup.RunStaysExhausted | popup/popup.js:288-292 | after an empty listing, no further iteration changes the outcome |
| Popup.RunBounded | popup/popup.js:266-271 | at most 50 iterations; processed == successful + failed; fewer than 50 exactly when an empty listing ended the loop |
| Popup.ExtractResumes | popup/popup.js:250-397 | "Please enter API URL" without an API URL; otherwise the loop gives the reference progress |
| Popup.ExtractResumeContent | popup/popup.js:503-553 | the print URL is requested exactly when the address has a 32-digit resume id; a successful print fetch's HTML is what comes back; otherwise the page's own HTML |
| Content.ParseChatId | content.js:4-7 | a chat id is a non-empty run of digits |
| Content.ParseChatIdMatches | content.js:4-7 | null exactly when no "/chat/" is followed by a digit; otherwise the maximal digit run after the leftmost such "/chat/" |
| Content.ParseChatUrl | content.js:34 | a chat's target URL parses back to its id |
| Content.LinkChatIds | content.js:13-14 | the chat id of each link, in document order |
| Content.IdsOf | content.js:18-20 | each chat's id, in order |
| Content.FirstWith | content.js:15 | the first link carrying an id; no earlier link carries it |
| Content.PresentIds | content.js:14-15 | an id is present exactly when some link carries it |
| Content.ChatIdsAreDistinctLinkIds | content.js:13-16 | the listed ids are the links' ids with nulls skipped, each once, in order of first occurrence |
| Content.ChatListIds | content.js:13-16 | no id is listed twice, and an id is listed exactly when some link carries it |
| Content.ChatFromFirstLink | content.js:13-27 | every chat is built from the first link that carries its id |
| Content.ChatFields | content.js:17-26 | id == chatId; the url is the link's resolved `href` property; the name is the trimmed text or "Chat <id>"; active exactly when the location contains "/chat/<id>" |
| Content.GetChatList | content.js:9-29 | the seen-set loop returns success and the reference chat list |
| Content.SendMessageToChat | content.js:31-56 | errors for a missing chatId, input or button, and success otherwise; a navigation only when the location lacks the chat; typing before the button check; a click only on success |
| Content.NavigationReachesChat | content.js:34-35 | the navigation target contains the chat path the check looks for |
| Content.SendReplyOf | content.js:67-75 | the reply succeeds exactly when sending did, and otherwise carries the error message |
| Content.OnMessage | content.js:58-78 | GET_CHAT_LIST is answered with the chat list; SEND_MESSAGE with the send reply and its page effects; other messages get no reply |
| Content.SendFailureMessages | content.js:33-51 | a failed send reports one of the three error messages |
| ResumeLinks.SelectorLinks | content-get-resume-links.js:44-53 | at most one link per element |
| ResumeLinks.SelectorLinksIff | content-get-resume-links.js:44-53 | a link for every element whose href contains "/resume/", and every link comes from such an element |
| ResumeLinks.FirstContributing | content-get-resume-links.js:39-59 | the first selector that contributes a link; every earlier one contributes none, even if it found elements |
| ResumeLinks.UrlIndex | content-get-resume-links.js:63 | the first entry with a URL; no earlier entry has it |
| ResumeLinks.UniqueByUrl | content-get-resume-links.js:63 | the URLs are those of the collected links, each once, in order of first appearance |
| ResumeLinks.LastUrlIndex | content-get-resume-links.js:63 | the last collected link with a URL |
| ResumeLinks.UniqueByUrlKeepsLast | content-get-resume-links.js:63 | each entry is the last collected link with its URL (the Map overwrites values) |
| ResumeLinks.ExtractLinksFromPage | content-get-resume-links.js:25-66 | the selector loop with its break, followed by the Map, returns the de-duplicated links of the first contributing selector |
| ResumeLinks.TagPage | content-get-resume-links.js:89-92 | every link keeps its URL and title and gets the page number |
| ResumeLinks.ExtractVacancyResumeLinks | content-get-resume-links.js:4-104 | without a vacancyId, the error "Vacancy ID not found in URL" and no links; otherwise the de-duplicated links tagged with the page (1 by default), with no error |
| ResumeLinks.ExtractionFacts | content-get-resume-links.js:45-92 | every returned link has the page tag and an "http" URL, and no URL appears twice |
| ResumeLinks.OnMessage | content-get-resume-links.js:107-128 | GO_TO_NEXT_PAGE replies and navigates with the current page + 1 (2 when there is no page parameter); EXTRACT_VACANCY_RESUMES replies with the extraction: the error "Vacancy ID not found in URL" and no links without a vacancyId, otherwise the page's de-duplicated resume links tagged with the page number; other messages get no reply |
| ResumeLinks.ReadyNotice | content-get-resume-links.js:131-139 | the ready notice is sent, with the page address, exactly on a vacancy-responses page |

## Left out

- Chrome APIs (`tabs`, `scripting`, `storage`, `runtime` messaging), `fetch`, axios and the database. Each is an outcome passed in as a parameter; what the code requests is returned or logged in order. For a queued send, the outcomes are the tab and the first later call that rejects (`storage.local.set`, `tabs.update` or `scripting.executeScript`). A rejected injection is the last step, so it changes nothing the model records.
- Background.Worker.HandleContentScriptReady: a rejection of `storage.local.get`, `storage.local.remove` or `tabs.query` (background.js:203, 223, 226) is not modelled. Those calls are taken to succeed; only the reply of `tabs.sendMessage` is an outcome.
- Background.Worker.StartupSweep: a rejected `storage.local.remove` (background.js:258) would end the sweep early. The model takes every removal to succeed.
- Timers and `waitForTabToLoad` (background.js:178-197). Their completion is assumed; `Date.now()` is an integer parameter.
- The random task ids of background.js:49.
- Async interleaving of event handlers. A request that arrives while the consumer loop runs is supplied per iteration, and it sees `isProcessing` set.
- The DOM. A node carries its text, its optional `href` attribute, the resolved `href` property and what each selector finds under it. Selectors are opaque keys, so `:has(...)` and `:has-text(...)` are not interpreted, and neither are JSDOM and `textContent`.
- Content.GetChatList: resolving an href against the page's address is the browser's work. The model takes the resolved `href` property as given with the node and does not compute it from the attribute.
- ResumeParser.ParseExperience: the section selector group at util/resume-parser.js:242-246 contains `:has-text(...)`, which is not CSS. So does the last date selector at line 298. A standard selector engine (a browser's or JSDOM's) rejects such a selector with a SyntaxError. For the section that error escapes the function; at line 298 the item's try/catch would drop the item. The model assumes an engine that accepts these selectors, so `querySelector` never throws here.
- ResumeParser.ParseEducation: the same holds for the selector group at util/resume-parser.js:324-328. The model assumes it is accepted.
- ResumeParser.ParseContacts: the same holds for the selector group at util/resume-parser.js:412-416. The model assumes it is accepted.
- ResumeParser.ParseResume: for the same reason, the model does not capture that `parseResume` rethrows (util/resume-parser.js:101-104) the SyntaxError a standard engine raises. With an id in the URL, the model returns a record. Under such an engine the first throw comes before `parseExperience`. `getTextBySelectors` tries its selectors in order and stops at the first one that yields text, so the first `:has-text` selector reached throws. That is line 131 in `parseBasicInfo` when `[data-qa="resume-personal-address"]` yields no text. Otherwise it is line 147 or 159 in `parsePersonalDetails`, or line 195 or 210 in `parseEmploymentPreferences`, when the `data-qa` selector before it yields no text. Only when all five of those yield text does `parseExperience` at line 242 throw, and it always does.
- Logging: `log` (util/resume-utils.js:256-280) and every `console.*` call.
- The DOM work of the popup: status lines, lists, button states and progress display. The multi-page status text "across N pages" is kept as the page count of the harvest.
- `toLowerCase` works on ASCII letters only. Other case mappings are not modelled.
- `String.trim` and `\s` use one whitespace set. It is the ECMAScript WhiteSpace and LineTerminator characters.
- ExtractResumes.CleanHtml: steps 1–6 of `cleanHTML` (util/extract-resumes.js:36-53) are not modelled. These are the lookahead regexes that remove scripts, styles, comments, meta tags and attributes. The model applies step 7 and the trim to the text those steps produce. The floating-point `reduction` percentage (line 60) is not modelled either.
- util/extract-resumes.js:4 imports `sql`, and util/database.js does not export it, so the script cannot reach its database. The loop logic is modelled with the database calls as outcomes. The table and index creation (lines 110-131) and `process.exit` are left out.
- `parseBasicInfo`, `parsePersonalDetails`, `parseEmploymentPreferences` and `parseSkills` (util/resume-parser.js:110-235) are not part of this model. Neither are the `fetched_at` timestamp, `raw_print_html`, the `revealAttempted` option (it is only logged) or the education graduation year (lines 384-393).
- `parseInt` of a `page` parameter that is not a number gives NaN. The model takes the parameter as an optional integer, so it cannot express NaN.
- Popup.ExtractResumes: the floating-point progress width (popup/popup.js:276) and the database statistics requests (355-365, 406-420) are not modelled. Neither is the unused save reply, nor the `link.title || 'Resume'` status text.
- Popup.SaveLinks: the fallback from a body that is not JSON to `response.text()` (popup/popup.js:218-221) is not modelled. The error text is taken as given.
- Popup.ExtractAllPages uses the corrected navigation (see Findings). The as-written navigation is modelled separately by the function `ShownAsWritten`, whose contract is the lemma `Popup.ShownAsWrittenIs`. Pages past the replies supplied are taken to be empty.
- Popup.ExtractCurrentPage: storing the vacancy id in `dataset` turns a null into the string "null". The model keeps the optional value.
- The page that `GO_TO_NEXT_PAGE` or `sendMessageToChat` navigates away from is unloaded by that navigation. The model does not capture this, and keeps working on the same document.
- `goToPage` (content-get-resume-links.js:69-83) is never called. `totalPages` stays 0.
- Other copies of the same logic (popup/vacancy-extractor.js, content-vacancy-extractor.js, util/extract-vacancy-resumes.js) and the maintenance scripts are not part of this model.

## Findings

| source | as written | input that shows it | evidently intended | confidence | as-written member | corrected member |
|---|---|---|---|---|---|---|
| popup/popup.js:113-121 | the multi-page loop reads the page number from `tab.url`, which was captured once before the loop and never refreshed, so the check "is the tab already on this page?" always compares with the start page | start on a response page whose URL has `page=2`: page 1 is loaded and read; when page 2 is due, the stale URL says 2, no navigation happens, and page 1 is read again; page 2 is never read | navigate whenever the tab is not showing the page about to be read, so pages 1, 2, 3, … are each read once | not executed | Popup.StaleTabUrlSkipsStartPage | Popup.ExtractAllPages |
