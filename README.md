# Candidate discovery in an ElizaOS recruiting agent

This Dafny project models the candidate-discovery core of the `andromeda` recruiting agent, an
ElizaOS plugin. The core has two parts:

- **`src/telegram-jobs-plugin.ts`**: a `TelegramJobsService` that keeps a cache of resumes read from a
  Telegram channel, and the `SEARCH_TELEGRAM_JOBS` chat action. The service parses each channel
  message into a `CandidateResume` with a set of field extractors, refreshes the cache when it is
  more than an hour old, and serves searches:
  - three AND-combined filters: profession, level and location;
  - results sorted newest first.

  The action decides from a user's message whether it is a request to search the channel. It then
  derives the filters from the message and answers with the ten newest matches.
- **`src/plugin.ts`**: the `SEARCH_CANDIDATES` action. It reads labelled criteria out of a request,
  builds up to four web-search queries, visits at most three of them in a loop, and echoes the criteria it found.

Layout, one module per file:

| file | module | models |
|---|---|---|
| `wrappers.dfy` | `Wrappers` | `Option` (a field that may be absent, TypeScript's `undefined` / `null`) |
| `text.dfy` | `Text` | `trim`, `toLowerCase`, `includes`, `split` on a character class, `join`, decimal rendering of a message id |
| `seqs.dfy` | `Seqs` | `filter`, `map`, concatenation of a sequence of strings |
| `resume_extractor.dfy` | `ResumeExtractor` | `parseResumeFromMessage` and its eight `extract*` helpers |
| `channel_cache.dfy` | `ChannelCache` | the search filters, the date sort, and the class `TelegramJobsService` (`start`, `stop`, `fetchChannelMessages`, `searchResumes`) |
| `telegram_action.dfy` | `TelegramAction` | `searchTelegramJobsAction`: `validate`, filter derivation, the reply listing the top ten |
| `candidate_search.dfy` | `CandidateSearch` | `searchCandidatesAction`: `validate`, criteria extraction, search queries, the three-query loop, the reply |

The two files work differently, so they are modelled differently:

- **The resume extractors use JavaScript regular expressions.** Each one is a constructor of the
  datatype `Regex`, and the regular-expression engine is a parameter, `Matcher`, which maps a
  pattern and a text to the first match, if any: the whole match and the first capture group. What
  the model proves about the extractors therefore holds for every engine. For example:
  - the extractors try the patterns in the source's order;
  - they trim the capture;
  - they fall back to the source's defaults.
- **The criteria regexes of `src/plugin.ts` are simple enough to model in full.** Each is a label,
  a colon, optional white space and the text up to the next comma. `CandidateSearch.Criterion`
  implements that search directly.

The service's mutable state lives in a class:

- `cachedResumes` and `lastUpdateTime` are fields of the class `ChannelCache.TelegramJobsService`.
- Its methods reassign the fields under `modifies this`.
- The Telegram client, the clock and the channel's reply become parameters:
  - `hasClient` says whether a client was created;
  - `now` is the current time in milliseconds;
  - a `ChannelReply` is either the messages read or a read error.
- Dates are integer milliseconds since the epoch.

The reply texts are built by `+=` in the source:

- **The methods:** `TelegramAction.BuildResponseText` builds the reply the same way. It returns the
  sequence of appended pieces, whose concatenation (`Seqs.Flatten`) is the text sent (see
  `TelegramAction.HandleTelegramSearch`).
- **The reference:** the reply is also described as a sequence of `ReplyBlock` values
  (`TelegramAction.ReplyBlocks`). `TelegramAction.ReplyPartsRender` proves that the method's pieces
  are those blocks, rendered in order.

## Model

| member | source | states |
|---|---|---|
| `ResumeExtractor.FirstMatch` | src/telegram-jobs-plugin.ts:296-301 | The `for … of patterns` loop picks the first pattern that matches. There is no result exactly when no pattern matches. Otherwise the result is the match of some pattern, and every earlier pattern fails. |
| `ResumeExtractor.FirstMatchOfThree` | src/telegram-jobs-plugin.ts:362-367 | With three patterns, the first match is the first pattern's match if it has one, else the second's, else the third's. |
| `ResumeExtractor.ExtractName` | src/telegram-jobs-plugin.ts:289-304 | The name is the trimmed capture of the label pattern. Failing that, it is the trimmed capture of the two-capitalised-words line. When neither matches, it is "Не указано". |
| `ResumeExtractor.PositionOf` | src/telegram-jobs-plugin.ts:318 | The trimmed capture group unless that is empty; otherwise the trimmed whole match. |
| `ResumeExtractor.ExtractPosition` | src/telegram-jobs-plugin.ts:309-323 | The labelled pattern is tried first, then the profession keyword. The position is taken from the first that matches; with no match it is "Не указано". |
| `ResumeExtractor.ExtractLevel` | src/telegram-jobs-plugin.ts:328-331 | A level is present exactly when the level word matches. It is the untrimmed capture. |
| `ResumeExtractor.ExtractLocation` | src/telegram-jobs-plugin.ts:336-350 | The trimmed capture of the labelled pattern, else of the city keyword; absent when neither matches. |
| `ResumeExtractor.ExtractSalary` | src/telegram-jobs-plugin.ts:355-369 | The trimmed capture of the first of the label, "от …" and range patterns that matches, in that order; absent when none matches. |
| `ResumeExtractor.ExtractExperience` | src/telegram-jobs-plugin.ts:394-408 | The trimmed capture of the labelled pattern, else of the "N лет" pattern; absent when neither matches. |
| `ResumeExtractor.SectionSkills` | src/telegram-jobs-plugin.ts:380-383 | Every skill kept from a section is trimmed, non-empty and shorter than 50 characters. |
| `ResumeExtractor.SectionSkillsMembership` | src/telegram-jobs-plugin.ts:380-383 | A string is a skill of the section exactly when it is one of the trimmed pieces between the `[,;•\n]` delimiters and its length is in 1..49. |
| `ResumeExtractor.SectionSkillsInOrder` | src/telegram-jobs-plugin.ts:380-383 | For a section split at one delimiter, the skills are those of the part before it followed by those of the part after it. Order is kept and nothing crosses a delimiter. |
| `ResumeExtractor.ExtractSkills` | src/telegram-jobs-plugin.ts:375-389 | Skills are absent when the section pattern does not match, and also when the section yields no skill. Otherwise they are the section's skills, a non-empty list of well-formed skills. |
| `ResumeExtractor.ContactsOf` | src/telegram-jobs-plugin.ts:413-429 | Contacts are absent exactly when none of the Telegram, e-mail and phone patterns matches. Otherwise they are the trimmed whole matches of those that match, in that order, joined by ", ". |
| `ResumeExtractor.ContactPartsOfThree` | src/telegram-jobs-plugin.ts:420-425 | The pieces the loop gathers are the Telegram piece, then the e-mail piece, then the phone piece. |
| `ResumeExtractor.ExtractContacts` | src/telegram-jobs-plugin.ts:413-429 | The loop that pushes each pattern's trimmed match and joins the list computes `ContactsOf`. |
| `ResumeExtractor.MessageText` | src/telegram-jobs-plugin.ts:226 | `message.text \|\| message.message \|\| ''`: a non-empty `text` wins. Otherwise it is the `message` field, or the empty string. |
| `ResumeExtractor.ResumeMarkersSpelled` | src/telegram-jobs-plugin.ts:234-239 | `IsResumeText`: the lower-cased text contains "резюме", "ищу работу", "рассмотрю предложения", "опыт работы" or "навыки:". |
| `ResumeExtractor.VacancyMarkersSpelled` | src/telegram-jobs-plugin.ts:242-246 | `IsVacancyText`: the lower-cased text contains "вакансия", "требуется", "ищем" or "vacancy". |
| `ResumeExtractor.MessageLink` | src/telegram-jobs-plugin.ts:263-265 | The link always starts with the channel URL. It is `https://t.me/javascript_jobs/<id>` for a non-zero id, and the bare channel URL when the id is missing or 0. |
| `ResumeExtractor.CapturedAt` | src/telegram-jobs-plugin.ts:277 | A non-zero message date, in seconds, becomes that date in milliseconds. A missing or zero date becomes the current time. |
| `ResumeExtractor.ParseResume` | src/telegram-jobs-plugin.ts:224-283 | A message yields a resume exactly when its text has at least 50 characters and is not a vacancy without a resume marker. The resume is well formed, keeps the raw text, and carries the message's link and date. |
| `ResumeExtractor.ParseResumeFields` | src/telegram-jobs-plugin.ts:253-279 | Each field of a parsed resume is what its extractor returns for the message text. |
| `ResumeExtractor.ParseDeterministic` | src/telegram-jobs-plugin.ts:224-283 | Two messages with the same text, id and date parse to the same result. |
| `ResumeExtractor.MixedMarkersKept` | src/telegram-jobs-plugin.ts:234-250 | A long enough message that says both "резюме" and "вакансия" is kept as a resume. |
| `ResumeExtractor.ParseAll` | src/telegram-jobs-plugin.ts:181-184 | Mapping the parser over the messages and dropping the nulls yields no more resumes than messages, each one well formed. |
| `ResumeExtractor.ParseAllConcat` | src/telegram-jobs-plugin.ts:181-184 | Parsing a concatenation of message lists parses each list, in order. |
| `ResumeExtractor.ParseAllMembership` | src/telegram-jobs-plugin.ts:181-184 | A resume is in the parsed list exactly when some message parses to it. |
| `Text.TrimEmptyIff` | src/telegram-jobs-plugin.ts:383 | A piece trims to the empty string exactly when it is all white space: those are the empty pieces the skill filter drops. |
| `Text.SplitWeave` | src/telegram-jobs-plugin.ts:381 | Splitting at a character class yields one more piece than there are delimiters. Interleaving the pieces with the delimiters gives back the original text. |
| `Text.SplitPiecesFree` | src/telegram-jobs-plugin.ts:381 | No piece of a split contains a delimiter. |
| `ChannelCache.NeedsRefresh` | src/telegram-jobs-plugin.ts:456-457 | The cache is refreshed when a refresh is forced, when it was never loaded, and otherwise exactly when it is more than an hour old. |
| `ChannelCache.InsertByDate` | src/telegram-jobs-plugin.ts:492-494 | Inserting into a newest-first list keeps it newest first and adds exactly the one element. |
| `ChannelCache.SortByDateDesc` | src/telegram-jobs-plugin.ts:492-494 | The sort orders by date, newest first; a missing date counts as 0. The result is a permutation of the input. |
| `ChannelCache.Select` | src/telegram-jobs-plugin.ts:462-496 | After filtering and sorting, the results are newest first. Every resume that passes all active filters occurs as often as in the cache, and no other resume occurs. |
| `ChannelCache.ProfessionFilterRule` | src/telegram-jobs-plugin.ts:469-475 | `ProfessionMatches`: a record matches when its position, or any one of its skills, contains the profession, ignoring case. Without skills, only the position counts. The case of the profession does not matter. |
| `ChannelCache.LevelFilterRule` | src/telegram-jobs-plugin.ts:477-482 | `LevelMatches`: equality ignoring case, not containment. A record without a level never matches, and one whose level is the one asked for always does. |
| `ChannelCache.LocationFilterRule` | src/telegram-jobs-plugin.ts:484-489 | `LocationMatches`: containment ignoring case. A record without a location never matches, and one whose location is the one asked for always does. |
| `ChannelCache.PassesRule` | src/telegram-jobs-plugin.ts:469-489 | `Passes`: the three filters are AND-combined, each applied only when its criterion is truthy. An empty-string criterion filters nothing, exactly like a missing one. |
| `ChannelCache.AddingFilterNeverIncreases` | src/telegram-jobs-plugin.ts:465-490 | The filters are AND-combined, so making the filters stricter never gives more results. |
| `ChannelCache.TelegramJobsService.constructor` | src/telegram-jobs-plugin.ts:61-69 | A new service has an empty cache and no update time. |
| `ChannelCache.TelegramJobsService.Start` | src/telegram-jobs-plugin.ts:72-87 | Starting loads the cache once. With a client and a readable channel, the cache is the parsed messages and the update time is now. Otherwise the cache stays empty and never updated. |
| `ChannelCache.TelegramJobsService.Stop` | src/telegram-jobs-plugin.ts:154-159 | Stopping empties the cache and forgets the update time. |
| `ChannelCache.TelegramJobsService.FetchChannelMessages` | src/telegram-jobs-plugin.ts:164-219 | With a client and a readable channel, the cache becomes the parsed messages, the update time becomes now and those resumes are returned. Without a client, or when reading fails, the state is unchanged and the old cache is returned. |
| `ChannelCache.TelegramJobsService.SearchResumes` | src/telegram-jobs-plugin.ts:434-496 | A refresh happens exactly when `NeedsRefresh` holds. The results are `Select` of the cache after the possible refresh: the filtered cache, newest first. |
| `TelegramAction.ValidateTelegramSearch` | src/telegram-jobs-plugin.ts:534-564 | The lower-cased request mentions the channel, and either resumes or a search verb. |
| `TelegramAction.EmptyRequestRejected` | src/telegram-jobs-plugin.ts:535 | A message without text, or with empty text, is not a search request. |
| `TelegramAction.Keyword` | src/telegram-jobs-plugin.ts:585-587 | `match?.[0] \|\| default`: a keyword is found exactly when the pattern matches with a non-empty whole match. It is that whole match. |
| `TelegramAction.DeriveFilters` | src/telegram-jobs-plugin.ts:577-589 | Profession, level and location keywords are looked for in the lower-cased request. The profession defaults to "frontend", so the profession filter is always active. Level and location are absent when not found. A refresh is forced exactly when "обновить" or "refresh" occurs. |
| `TelegramAction.ResultsMatchProfession` | src/telegram-jobs-plugin.ts:465-470 | Every result of an action search comes from the cache and matches the derived profession, in its position or in one of its skills. |
| `TelegramAction.EntryKindsSelect` | src/telegram-jobs-plugin.ts:651-660 | A line of an entry is printed exactly when its value is truthy: title, position and link always, the optional fields only when present and non-empty, skills only when the list is non-empty. |
| `TelegramAction.EntryKindsListed` | src/telegram-jobs-plugin.ts:651-660 | The lines of an entry are title, position, then level, location, salary, experience, skills and contacts, each only if printed, then the link. |
| `TelegramAction.EntryKindsShape` | src/telegram-jobs-plugin.ts:651-660 | Every entry has at least three lines: it starts with the title and the position and ends with the link. |
| `TelegramAction.PrintedLineShowsValue` | src/telegram-jobs-plugin.ts:651-660 | `RenderLine`: each printed line is its emoji prefix and the field's value, never a stand-in for a missing one. The title is "**<rank>. <name>**" with the rank in decimal. Every line ends in a newline, and the link line in two. |
| `TelegramAction.SkillsTextIgnoresTail` | src/telegram-jobs-plugin.ts:658 | `SkillsText` applies `slice(0, 5)`: skills after the fifth never change the skills line. |
| `TelegramAction.EntryLinesInOrder` | src/telegram-jobs-plugin.ts:650-661 | The rendered lines of an entry are its printed line kinds, each rendered, in the source's order. |
| `TelegramAction.Shown` | src/telegram-jobs-plugin.ts:650 | `slice(0, 10)`: the number listed is the whole count when at most ten, and ten otherwise. |
| `TelegramAction.EntryBlocks` | src/telegram-jobs-plugin.ts:650-661 | One entry per listed resume, numbered from 1 in list order. |
| `TelegramAction.ReplyBlocks` | src/telegram-jobs-plugin.ts:637-688 | No results give the not-found text alone. Otherwise the reply has a header with the count, then the first (at most ten) results numbered from 1, then the footer. A "… and N more" note comes just before the footer exactly when there are more than ten. |
| `TelegramAction.AtMostTenListed` | src/telegram-jobs-plugin.ts:650 | The reply never lists an entry numbered above ten. |
| `TelegramAction.ReplyPartsRender` | src/telegram-jobs-plugin.ts:637-688 | The pieces the reply is assembled from are the reply's blocks, rendered in order. |
| `TelegramAction.AppendListed` | src/telegram-jobs-plugin.ts:646-661 | The header followed by one appended entry text per listed resume. |
| `TelegramAction.AppendTail` | src/telegram-jobs-plugin.ts:683-687 | The "… and N more" note is appended exactly when there are more than ten results; the footer is always appended. |
| `TelegramAction.BuildResponseText` | src/telegram-jobs-plugin.ts:629-688 | The pieces appended to the reply are `ReplyParts` of the results. |
| `TelegramAction.HandleTelegramSearch` | src/telegram-jobs-plugin.ts:566-711 | Without the service the action reports it unavailable. Otherwise it searches through the service with the derived filters. The channel is read again exactly when the cache is due (`NeedsRefresh`, which a request saying "обновить" or "refresh" forces) and the read succeeds; otherwise the cache and its update time are left as they were. The results are `Select` of that cache, with their count and the first ten listed, and the reply is the concatenated reply pieces. |
| `CandidateSearch.ValidateCandidateSearch` | src/plugin.ts:143-155 | A request to search the web for candidates: the lower-cased text contains one of the eight phrases. |
| `CandidateSearch.ValidateIgnoresCase` | src/plugin.ts:144 | Lower-casing a request first does not change whether it is accepted. |
| `CandidateSearch.EmptyRequestIgnored` | src/plugin.ts:144 | A message without text, or with empty text, is not a request. |
| `CandidateSearch.SegmentStartMeaning` | src/plugin.ts:172-175 | The pattern matches at position i exactly when a label and a colon start there (compared lower-case) and the next character is not a comma. The segment then starts right after that label's colon. |
| `CandidateSearch.SegmentStartFirst` | src/plugin.ts:172-175 | When several labels fit at the same position, the first label in the alternation decides where the segment starts. |
| `CandidateSearch.CommaOrEnd` | src/plugin.ts:172-175 | `[^,]+` stops at the first comma after the start, or at the end of the text. |
| `CandidateSearch.MatchPosition` | src/plugin.ts:172-175 | `match` reports the leftmost position where the criterion search matches; there is none when no position matches. |
| `CandidateSearch.Segment` | src/plugin.ts:172-175 | The text from just after the colon up to the next comma or the end of the request. It has no comma, and its trim equals the trimmed regex capture (`RegexCapture`). |
| `CandidateSearch.SpaceRun` | src/plugin.ts:172-175 | The greedy `\s*` first takes the whole run of white space at the front of the segment, and stops before the first character that is not white space. |
| `CandidateSearch.RegexCapture` | src/plugin.ts:172-175 | `match[1]`: the segment after `\s*`. `\s*` gives one character back when `[^,]+` would otherwise be left empty. The capture is never empty, has no comma, and trims to the same text as the segment. |
| `CandidateSearch.Criterion` | src/plugin.ts:172-180 | A criterion is trimmed, has no comma, and is empty when the label is missing. A non-empty criterion occurs in the request. |
| `CandidateSearch.CriterionIsTrimmedCapture` | src/plugin.ts:177-180 | `match ? match[1].trim() : ''`: when the pattern matches, the criterion is the trimmed `RegexCapture` at the leftmost match. |
| `CandidateSearch.CriterionAbsent` | src/plugin.ts:177-180 | When no label with a colon occurs in the text, the criterion is empty. |
| `CandidateSearch.CriterionAtStart` | src/plugin.ts:172-180 | A text that starts with a label and a colon, followed by a character other than a comma, gives that label's segment, trimmed. When several labels fit there, the first in order is taken. |
| `CandidateSearch.ReadCriteria` | src/plugin.ts:169-180 | Position, skills, experience and location are each read with their own labels. |
| `CandidateSearch.LocationSuffix` | src/plugin.ts:186-192 | The location suffix is empty without a location, and "в <location>" or "in <location>" otherwise. |
| `CandidateSearch.SearchQueries` | src/plugin.ts:183-193 | Two queries when a position is given, plus two when skills are given: 0, 2 or 4 in all. |
| `CandidateSearch.QueryTemplates` | src/plugin.ts:185-193 | The four templates: "<position> резюме …" and "<position> candidate …" come first when there is a position. "резюме <skills> …" and "resume <skills> …" follow when there are skills. Each ends with the location suffix in its own language. |
| `CandidateSearch.BuildSearchQueries` | src/plugin.ts:183-193 | The pushes build `SearchQueries`: two queries for a position, then two for skills. |
| `CandidateSearch.QueriesFollowCriteria` | src/plugin.ts:183-193 | There are 0, 2 or 4 queries: four exactly when both position and skills are given, none exactly when neither is. The position queries start with the position, and the skills queries contain the skills. |
| `CandidateSearch.QueriesCarryLocation` | src/plugin.ts:186-192 | With a location, every query ends in " <location>". Without one, every query ends in a space. |
| `CandidateSearch.IssuedQueries` | src/plugin.ts:201 | `slice(0, 3)`: a prefix of the queries, holding all of them when there are at most three and exactly three otherwise. |
| `CandidateSearch.VisitQueries` | src/plugin.ts:197-209 | With the web-search service, the loop visits the first three queries, in order. Without it, the loop visits none. |
| `CandidateSearch.LastQueryNotVisited` | src/plugin.ts:183-209 | When both position and skills are given, the loop visits exactly the two position queries and the Russian skills query; the English skills query is never visited. |
| `CandidateSearch.GivenKinds` | src/plugin.ts:214-217 | A criterion line is printed exactly when its value is non-empty. |
| `CandidateSearch.ReplyListsGivenCriteria` | src/plugin.ts:213-226 | The reply is the intro, then the lines of the given criteria in the order position, skills, experience, location, then the fixed list of sources. |
| `CandidateSearch.HandleCandidateSearch` | src/plugin.ts:168-226 | The handler reads the criteria from the request text and builds the queries from them. It visits the issued queries only when web search is available, and replies with `ReplyText` of the criteria. |

## Left out

- **Regular-expression semantics:** the extractors' and the action's patterns are named, under `Regex`, and the engine is the `Matcher` parameter. The model therefore proves how the extractors use matches, not which texts a pattern matches.
- **Case folding:** `Text.Lower` lower-cases the ASCII letters A–Z and the basic Russian alphabet А–Я and Ё, and leaves every other character alone. JavaScript's full Unicode `toLowerCase` also maps other Cyrillic capitals (U+0400 and U+0402–U+040F, U+0460 onward, such as І, Є, Ў) and other scripts; the model does not.
- **The marker regexes:** in `parseResumeFromMessage`, the `/опыт работы/i` and `/навыки:/i` tests are modelled as substring tests on the lower-cased text, like the other markers.
- **String lengths:** they are counted in Dafny characters, not in UTF-16 code units. They differ only for characters outside the Basic Multilingual Plane.
- **Client setup and configuration:** Telegram client creation and authentication (`initTelegramClient`), the interactive console prompts, environment variables and the saved session are not modelled. They are reduced to the `hasClient` flag.
- **Logging:** every `logger` and `console.log` call, including the cache-age report, is left out. Logging has no effect on the results.
- **The status message:** `getManualInstructions` and the status message sent through the callback before searching are fixed texts, and are left out.
- **Manual mode:** in the model, `fetchChannelMessages` handles every channel error itself, so `searchResumes` never throws. The action's manual-mode branch and the handlers' `catch` error replies are therefore not modelled.
- **The fetch limit:** the number of messages read (`limit`, default 10) belongs to the channel read. The model's `ChannelReply` stands for whatever messages that read returned.
- **Sort stability:** the sort is an insertion sort on the date key. JavaScript's `Array.prototype.sort` is stable, and so is this insertion. The model proves newest-first order and permutation, not the order among resumes with equal dates.
- **Web search:** the body of the query loop in `src/plugin.ts` only logs. `VisitQueries` records which queries the loop visits.
- **Results and response objects:** the action results' `values` and `data` objects and the callback's `Content` wrapper are not modelled. For `SEARCH_TELEGRAM_JOBS`, the model keeps the values that matter: the results, their count, the listed top ten and the reply text.
- **Concurrency:** `searchResumes` and `fetchChannelMessages` are asynchronous. Another call on the same service can run between the staleness test, the awaited channel read and the cache write, and a search can then filter a cache that a concurrent fetch has just replaced. Each method of `ChannelCache.TelegramJobsService` runs as one atomic step, so these interleavings are not modelled.
- **Clock readings:** the source reads the clock separately for the staleness test, for each message without a date and for the new `lastUpdateTime`; the last two are read after the channel read. The model uses one `now` for all three, so a difference between those readings is not modelled.
- **Reply text:** the `SEARCH_TELEGRAM_JOBS` reply is kept as the list of its `+=` pieces. The text is their concatenation, `Seqs.Flatten`.
- **Parse errors:** `parseResumeFromMessage` wraps its body in a `try`/`catch` that returns `null` (src/telegram-jobs-plugin.ts:280-283). The model has no such path, because nothing in the body can throw. Every `match[1]` the extractors read belongs to a group that is not optional, so it is defined whenever its pattern matches. The position extractor reads `match[1]?.trim()`. The message text is always a string (`ResumeExtractor.MessageText`).
- **Other declarations:** the hello-world action and provider, `StarterService`, the plugin's configuration schema, the character definition, the project entry point and the database schema are not part of this model.

Three facts about the code that the model keeps:

- **Message length:** a message shorter than 50 characters is never a resume (`MinLength`, src/telegram-jobs-plugin.ts:229).
- **Vacancy markers:** "ищем" is one of the four vacancy markers, beside "вакансия", "требуется" and "vacancy" (src/telegram-jobs-plugin.ts:242-246).
- **Absent fields:** an extractor that finds nothing leaves its field absent. The reply then prints no line for that field: `TelegramAction.EntryKindsListed` proves that an entry lists level, location, salary, experience, skills and contacts only when they are present and non-empty (src/telegram-jobs-plugin.ts:654-659).
