# Smart campus assistant: query understanding and retrieval

This project models the deterministic core of a campus chat assistant and
proves properties of it. The core is the pipeline that turns a free-text
question into an answer:

- **FAQ search** (`lib/campus-faq.ts`). Every FAQ gets an additive relevance score:
  - +10 when the question contains the whole query;
  - +5 per keyword found in the query;
  - for every query word longer than two UTF-16 code units, +1 when the question or the answer contains it, and +2 per keyword containing it.

  FAQs scoring 0 are dropped. The rest are sorted stably by descending score, and the first five are kept. Lookups by category and by related question come with it.
- **Query classifier** (`lib/campus-knowledge.ts`). When the query contains a trigger phrase and the FAQ search finds something, the answer is "faq". Otherwise it is the category of the first rule of an ordered keyword table that the query matches, and "general" when none matches. A rule matches when some word of the query and some keyword contain one another; words are cut at single spaces. The same file holds the contextual help suggestions and `processEnhancedQuery`.
- **Campus data** (`lib/campus-data.ts`). Six constant tables. Substring searches over facilities and dining. The upcoming-events window over the academic calendar.
- **Response composer** (`lib/ai-processor.ts`). `analyzeQuery` yields keywords without stop words, the classifier's category and an intent. `processAdvancedQuery` is a decision table: it picks the data, the response type, the suggestions and a fixed confidence for each kind of question.

Modules:
- `Seqs`: `filter`, `some`, `find`, `slice`, sublists.
- `Sorting`: the stable sort.
- `Text`: ASCII lowercasing, `includes`, `split`.
- `Faqs`, `Knowledge`, `CampusData`, `Processor`: one each for the four source files.

All tables are parameters of the operations. The campus tables are constants, and lemmas about them instantiate the general results.

Modelling choices:
- **Scoring loops.** The score is a function, `Faqs.Score`. The method `Faqs.ScoreFaq` keeps the source's loops over the keywords and query words, with their running total, and is proved equal to it. The two loops over the keywords are the helper methods `Faqs.AddKeywordsInQuery` and `Faqs.AddKeywordsContaining`.
- **Word splitting.** `split(/\s+/)` followed by the length filter is computed by splitting at every whitespace character. `Text.LongWordsOfRuns` proves this gives the same words as splitting at runs, `Text.SplitRuns`.
- **Confidence** is an integer in hundredths (0.95 is 95).
- **Word length.** JavaScript's `length` counts UTF-16 code units, so `Text.Utf16Length` counts a character above U+FFFF twice. `Text.IsLong` compares that length with 2 (`Text.AstralPairIsLong`).
- **Time.** The current time `now` (milliseconds since the epoch) is a parameter. A calendar date counts as midnight UTC of that day.
- **Course-code pattern.** `/([A-Z]{2,4}\s?\d{3})/i` is a dedicated leftmost scanner, proved against a declarative description of the pattern (`Processor.CodeShapeAt`).
- **`analyzeQuery`'s category** follows the code. It comes from `processEnhancedQuery`, so the FAQ short-circuit of `categorizeQuery` applies to it too.

Consequences of the code that the proofs make explicit:
- **"show" is always "help".** "show" contains "how", so any query containing "show" gets the help intent. The "show" test of the list intent never decides (`Processor.ShowMeansHelp`).
- **Empty words match everything.** Splitting at single spaces yields an empty word for the empty query and for leading, trailing or doubled spaces. Every keyword contains the empty word, so without the FAQ short-circuit such a query falls to the first rule, "schedule" (`Knowledge.EmptyWordIsSchedule`).
- **"faq" with no FAQ.** "why" contains no trigger phrase and matches only the last rule, so it is classified "faq" without any FAQ search (`Knowledge.FaqWithoutFaqSearch`). What `processAdvancedQuery` then answers depends on the FAQ search alone: with matches it gives the FAQ answer (`Processor.FaqAnswerFirst`); without matches it gets the clarification request when it has no keywords (`Processor.ClarifyWithoutKeywords`), and otherwise reaches the fallback, which gives a query classified "faq" the help menu (`Processor.FallbackBranch`).

## Model

| member | source | states |
|---|---|---|
| Faqs.ScoreFaq | smart-campus-assistant/lib/campus-faq.ts:167-191 | The nested loops accumulate exactly the relevance score `Score`: 10 when the question contains the query, 5 per keyword in the query, and per word longer than two code units 1 for question-or-answer (once) plus 2 per keyword containing it |
| Faqs.AddKeywordsInQuery | smart-campus-assistant/lib/campus-faq.ts:175-179 | The keyword loop adds 5 for every keyword (counted with repetition) that the lowercased query contains |
| Faqs.AddKeywordsContaining | smart-campus-assistant/lib/campus-faq.ts:186-190 | The inner keyword loop adds 2 for every keyword (counted with repetition) that contains the query word |
| Faqs.SearchFaqs | smart-campus-assistant/lib/campus-faq.ts:161-199 | At most five results, each an FAQ of the table with a strictly positive score, in order of non-increasing score |
| Faqs.RankFacts | smart-campus-assistant/lib/campus-faq.ts:193-196 | Every ranked entry carries the true score of an FAQ of the table, that score is positive, and the ranking is sorted by descending score |
| Faqs.SearchFaqsComplete | smart-campus-assistant/lib/campus-faq.ts:195-197 | An FAQ with a positive score that is missing from the results was cut by the limit: there are five results and each scores at least as much as it |
| Faqs.SearchFaqsStable | smart-campus-assistant/lib/campus-faq.ts:196 | The stable sort: for every score, the results with that score are a prefix of the table's FAQs with that score, in table order |
| Faqs.RescoreResults | smart-campus-assistant/lib/campus-faq.ts:193-198 | Re-scoring the returned FAQs gives back the first five entries of the ranking |
| Faqs.SearchFaqsNoDuplicates | smart-campus-assistant/lib/campus-faq.ts:165-198 | No FAQ is returned twice when the table has no duplicates |
| Faqs.EmptyQueryScore | smart-campus-assistant/lib/campus-faq.ts:163-172 | For the empty query an FAQ whose keywords are non-empty scores exactly 10: the question contains "", there are no words and no keyword is contained in "" |
| Faqs.SearchEmptyQuery | smart-campus-assistant/lib/campus-faq.ts:161-199 | For the empty query the result is the first five FAQs of the table, in table order |
| Faqs.CampusSearchEmptyQuery | smart-campus-assistant/lib/campus-faq.ts:12-159 | On the campus table the empty query returns its first five FAQs |
| Faqs.CampusFaqsWellFormed | smart-campus-assistant/lib/campus-faq.ts:12-159 | The campus FAQs have distinct ids, no duplicates and no empty keyword |
| Faqs.FaqsByCategory | smart-campus-assistant/lib/campus-faq.ts:201-203 | Exactly the FAQs whose category has the given name, as a sublist in table order |
| Faqs.RelatedFaqs | smart-campus-assistant/lib/campus-faq.ts:205-212 | An order-preserving sublist of the table, empty when no FAQ has the id |
| Faqs.RelatedFaqsOfFirst | smart-campus-assistant/lib/campus-faq.ts:206-211 | For a known id, exactly the FAQs whose lowercased question contains some lowercased related question of the first FAQ with that id |
| Faqs.FirstWithIdIsUnique | smart-campus-assistant/lib/campus-faq.ts:206 | `find` picks a single FAQ: the first with the id is unique |
| Knowledge.EntryMatches | smart-campus-assistant/lib/campus-knowledge.ts:127-130 | A rule matches when some keyword and some query word contain one another, lowercased |
| Knowledge.FindRelevantKnowledge | smart-campus-assistant/lib/campus-knowledge.ts:123-132 | An order-preserving sublist of the rules that holds a rule exactly when the rule matches the query's space-separated lowercased words |
| Knowledge.CategorizeFaq | smart-campus-assistant/lib/campus-knowledge.ts:134-159 | The category is "faq" exactly when a trigger phrase is present and the FAQ search is non-empty, or the first matching rule is an FAQ rule |
| Knowledge.CategorizeFirstMatch | smart-campus-assistant/lib/campus-knowledge.ts:154-157 | Without the FAQ short-circuit, the category is that of the first matching rule in table order |
| Knowledge.CategorizeNoMatch | smart-campus-assistant/lib/campus-knowledge.ts:154-158 | Without the FAQ short-circuit and with no matching rule, the category is "general" |
| Knowledge.EmptyWordMatchesAll | smart-campus-assistant/lib/campus-knowledge.ts:125-131 | A query with an empty word matches every rule that has a keyword |
| Knowledge.EmptyWordIsSchedule | smart-campus-assistant/lib/campus-knowledge.ts:14-18 | The empty query, or one with a leading, trailing or doubled space, is "schedule" unless the FAQ short-circuit fires |
| Knowledge.WhyMatchesLastRule | smart-campus-assistant/lib/campus-knowledge.ts:116-120 | "why" matches no rule but the last one of the campus table |
| Knowledge.FaqWithoutFaqSearch | smart-campus-assistant/lib/campus-knowledge.ts:134-159 | "why" has no trigger phrase yet is classified "faq" by the last rule, whatever the FAQs |
| Knowledge.ContextualHelp | smart-campus-assistant/lib/campus-knowledge.ts:161-202 | Always three suggestions: the category's own when it has an entry, and otherwise the default three, which no entry repeats |
| Knowledge.HelpForCategories | smart-campus-assistant/lib/campus-knowledge.ts:162-201 | Of the classifier's categories, exactly "faq" and "general" get the default suggestions |
| Knowledge.ProcessEnhancedQuery | smart-campus-assistant/lib/campus-knowledge.ts:205-224 | The category is the classifier's. The FAQ list is non-empty exactly when the category is "faq" and the search finds something, and then it is the search result with the top FAQ's category's suggestions. Otherwise the suggestions are the category's. Always three suggestions |
| CampusData.GetCampusData | smart-campus-assistant/lib/campus-data.ts:366-373 | The six tables, well formed: unique ids in each, course codes distinct ignoring case, calendar in date order |
| CampusData.CourseCodesDistinct | smart-campus-assistant/lib/campus-data.ts:73-114 | No two class schedules have the same course code ignoring case |
| CampusData.IdsUnique | smart-campus-assistant/lib/campus-data.ts:73-363 | Ids are unique within each of the six tables |
| CampusData.CalendarInDateOrder | smart-campus-assistant/lib/campus-data.ts:306-363 | The academic calendar is sorted by date |
| CampusData.SearchFacilities | smart-campus-assistant/lib/campus-data.ts:375-383 | An order-preserving sublist holding a facility exactly when its lowercased name, description or some amenity contains the whole lowercased query |
| CampusData.SearchDining | smart-campus-assistant/lib/campus-data.ts:385-393 | An order-preserving sublist holding an option exactly when its lowercased name, some specialty or some menu item name contains the whole lowercased query |
| CampusData.EmptyQuerySearches | smart-campus-assistant/lib/campus-data.ts:376-392 | For the empty query both searches return their whole table |
| CampusData.FindCourse | smart-campus-assistant/lib/ai-processor.ts:187 | None exactly when no schedule has the code ignoring case; otherwise a schedule of the table with that code |
| CampusData.AtMostOneCourse | smart-campus-assistant/lib/campus-data.ts:73-114 | In well-formed tables two schedules with the same code ignoring case are the same schedule |
| CampusData.UpcomingEvents | smart-campus-assistant/lib/campus-data.ts:395-405 | Sorted by date, a permutation of the events with now <= date <= now + days·86 400 000 ms (both ends included), holding exactly those events |
| CampusData.UpcomingInTableOrder | smart-campus-assistant/lib/campus-data.ts:399-404 | On a calendar already in date order the result is the filtered events in table order |
| CampusData.UpcomingOnFirstOfOctober | smart-campus-assistant/lib/campus-data.ts:306-363 | On 2024-10-01 the default 30-day window holds only the midterm exams |
| CampusData.UpcomingOnSecondOfOctober | smart-campus-assistant/lib/campus-data.ts:306-363 | On 2024-10-02 the window also holds spring registration on 2024-11-01, the inclusive upper end |
| Text.Contains | smart-campus-assistant/lib/campus-faq.ts:170 | `includes` holds exactly when the needle occurs at some position, so the empty needle is in every string |
| Text.SplitJoin | smart-campus-assistant/lib/campus-knowledge.ts:125 | Joining the pieces of `split` with the separators that were cut gives back the string |
| Text.EmptyPiece | smart-campus-assistant/lib/campus-knowledge.ts:125 | `split(" ")` yields an empty word exactly for the empty string, a leading or trailing space, or two spaces in a row |
| Text.AstralPairIsLong | smart-campus-assistant/lib/ai-processor.ts:25 | `word.length > 2` counts UTF-16 code units: two characters above U+FFFF make a long word, two ASCII letters do not |
| Text.LongWordsOfRuns | smart-campus-assistant/lib/ai-processor.ts:25 | Splitting at every whitespace character and at every run of whitespace keep the same words longer than two code units |
| Processor.QueryKeywords | smart-campus-assistant/lib/ai-processor.ts:25-54 | The keywords are the whitespace-separated words longer than two UTF-16 code units that are not stop words, in query order, each kept as often as it occurs |
| Processor.AnalyzeQuery | smart-campus-assistant/lib/ai-processor.ts:23-76 | The context keeps the query, takes the classifier's category (FAQ short-circuit included), the non-stop-word long words, and the intent of the lowercased query |
| Processor.KeywordsInQueryOrder | smart-campus-assistant/lib/ai-processor.ts:25-54 | The context's keywords are a sublist of the query's long words, holding each non-stop word as often as the query does |
| Processor.ShortQueryHasNoKeywords | smart-campus-assistant/lib/ai-processor.ts:25 | A query of at most two UTF-16 code units has no keywords |
| Processor.DetermineIntent | smart-campus-assistant/lib/ai-processor.ts:59-68 | First match in order: help exactly when "how" or "help" occurs, location exactly when the earlier words do not and "where" or "location" does, schedule likewise for "when", "time" or "hours"; information only when none of "what", "show", "list" occurs |
| Processor.ListIntent | smart-campus-assistant/lib/ai-processor.ts:66-67 | The list intent holds exactly when none of the earlier words occurs and "what" or "list" does |
| Processor.ShowMeansHelp | smart-campus-assistant/lib/ai-processor.ts:60-66 | A query containing "show" always has the help intent |
| Processor.LeftmostUnique | smart-campus-assistant/lib/ai-processor.ts:184 | The pattern has a single leftmost match: its position, letter count and gap are determined |
| Processor.ScanFrom | smart-campus-assistant/lib/ai-processor.ts:184 | The scanner finds the first position from which the pattern matches, and None exactly when it matches nowhere further on |
| Processor.CourseCodeMatch | smart-campus-assistant/lib/ai-processor.ts:184-185 | None exactly when the pattern (2 to 4 letters, optional whitespace, 3 digits, any case) occurs nowhere; otherwise the text of the leftmost match |
| Processor.RemoveFirstWhitespace | smart-campus-assistant/lib/ai-processor.ts:186 | `replace(/\s/, "")`: the string without its first whitespace character, unchanged when it has none |
| Processor.ExtractedCode | smart-campus-assistant/lib/ai-processor.ts:184-186 | The extracted code is the letters followed by the digits of the leftmost match |
| Processor.CourseCodeWithSpace | smart-campus-assistant/lib/ai-processor.ts:184-187 | "cs 101" yields the code "cs101", which finds the CS101 schedule |
| Processor.FacilitiesResponse | smart-campus-assistant/lib/ai-processor.ts:110-140 | Structured. One facility at 0.9 for a location or opening-hours question with matches, all matches at 0.8, or every facility at 0.6 when nothing matches |
| Processor.DiningResponse | smart-campus-assistant/lib/ai-processor.ts:143-170 | Structured; the matches, or every option when none match; 0.9 exactly for "open"/"hours", 0.8 exactly for "menu"/"food"/"eat" without them, else 0.7 |
| Processor.ScheduleResponse | smart-campus-assistant/lib/ai-processor.ts:173-204 | Structured. List intent or "all"/"my" gives every schedule at 0.9. 0.95 exactly when otherwise an extracted code names a schedule, and then that single schedule. Every other case gives every schedule |
| Processor.LibraryServicesAbout | smart-campus-assistant/lib/ai-processor.ts:209-212 | The first service whose lowered name mentions the word, alone; every service when no name mentions it |
| Processor.LibraryResponse | smart-campus-assistant/lib/ai-processor.ts:207-234 | Structured, entries from the library table. 0.8 with every service exactly when none of "book", "borrow", "computer", "print" occurs, else 0.9. A book or borrow question gets `LibraryServicesAbout(services, "book")`; otherwise a computer or print question gets `LibraryServicesAbout(services, "computer")` |
| Processor.ServicesAbout | smart-campus-assistant/lib/ai-processor.ts:239-262 | A sublist of the services. When some name mentions the word, the first such service alone; otherwise exactly `Filter` of the services named after the word or "financial" |
| Processor.AdministrativeResponse | smart-campus-assistant/lib/ai-processor.ts:237-274 | Structured, a sublist of the administrative services; 0.7 with every service exactly when no payment or scholarship word occurs, else 0.9. A "pay", "tuition" or "fee" question gets `ServicesAbout(services, "tuition")`; otherwise a "scholarship" or "financial aid" question gets `ServicesAbout(services, "scholarship")` |
| Processor.CalendarResponse | smart-campus-assistant/lib/ai-processor.ts:277-310 | Structured, only events in the 30-day window. Exams at 0.9 for "exam"/"test" and deadlines at 0.9 for "deadline", each falling back to every upcoming event when there are none. Every upcoming event at 0.8 otherwise |
| Processor.FallbackResponse | smart-campus-assistant/lib/ai-processor.ts:312-364 | The top FAQ match at 0.7 with at most three matches as data and its related questions, or the help menu as text at 0.4 with the four fixed suggestions |
| Processor.CategoryResponse | smart-campus-assistant/lib/ai-processor.ts:109-364 | Structured exactly for the six categories with a branch; confidence at least 0.4 |
| Processor.ProcessAdvancedQuery | smart-campus-assistant/lib/ai-processor.ts:79-365 | Every response has confidence between 0.3 and 0.95, data exactly when it is not text, and is structured exactly when it has data and no suggestions |
| Processor.FaqAnswerFirst | smart-campus-assistant/lib/ai-processor.ts:85-97 | Category "faq" with matches: type faq at 0.95, every match (at most five) as data, the top match's related questions as suggestions |
| Processor.ClarifyWithoutKeywords | smart-campus-assistant/lib/ai-processor.ts:100-107 | Confidence 0.3 exactly outside the FAQ case with no keywords, and then the clarification text with no data and no suggestions |
| Processor.BranchesAreStructured | smart-campus-assistant/lib/ai-processor.ts:110-310 | Past the first two cases, the six category branches always return structured data and never fall through |
| Processor.ScheduleBranch | smart-campus-assistant/lib/ai-processor.ts:173-204 | A schedule question gets 0.8, 0.9 or 0.95; at 0.95 the one schedule whose code is the extracted one, the only such schedule in well-formed tables |
| Processor.FallbackBranch | smart-campus-assistant/lib/ai-processor.ts:312-364 | Without a branch: FAQ type at 0.7 with at most three of the matches, or text at 0.4 with four suggestions; an "faq" category reaching here always gets the latter |
| Processor.ShortQueryClarifies | smart-campus-assistant/lib/ai-processor.ts:100-107 | A query of at most two UTF-16 code units outside the FAQ case gets the clarification request |
| Processor.EmptyQueryClarifies | smart-campus-assistant/lib/ai-processor.ts:56-107 | On the campus data the empty query is classified "schedule" and gets the clarification request at 0.3 |

## Left out

- The React user interface and its message list, scrolling and error message are not part of this model.
- `generateNaturalResponse` is not modelled. It waits on a timer and swaps phrases at random.
- `processAdvancedQuery` is a plain function here. Its asynchronous wrapper is dropped.
- `toLowerCase` lowers ASCII letters only. Unicode case folding is not modelled.
- Date parsing and time zones are not modelled. An event date counts as midnight UTC. The current time is a parameter, not a clock reading.
- Menu prices are kept as whole cents (`priceCents`) rather than floating-point dollars. Every record keeps all of its fields.
- Only the course-code pattern is modelled, as a dedicated scanner. There is no general regular-expression engine.
- Response texts are kept as constants. The help menu's emoji are written as Unicode escapes.
- Knowledge.ContextualHelp: only the six keys of the help table are modelled. Keys a JavaScript object inherits, such as "constructor", are not, and the source would return a non-array for them.
- Processor.ProcessAdvancedQuery: its own contract states only the invariants every response keeps. The per-case behaviour is stated by the lemmas and branch functions listed above.
- Processor.CategoryResponse: the confidence of the structured branches (at least 0.6 each) is stated by each branch function, not by the dispatch.
- The optional `data` field of a knowledge rule is omitted, because the table never sets it.
