/** The response composer (lib/ai-processor.ts): `analyzeQuery`, which turns a
    query into keywords, a category and an intent, and `processAdvancedQuery`,
    the decision table that picks the data, the response type, the suggestions
    and a fixed confidence for each kind of question. */
module Processor {
  import opened Seqs
  import opened Text
  import Faqs
  import Knowledge
  import opened CampusData

  // ---------------------------------------------------------------------------
  // Query analysis

  datatype Intent = Help | Location | Schedule | List | Information

  datatype QueryContext = QueryContext(
    query: string,
    category: Knowledge.Category,
    keywords: seq<string>,
    intent: Intent)

  /** Everything the assistant looks things up in. */
  datatype Store = Store(
    rules: seq<Knowledge.KnowledgeEntry>,
    faqs: seq<Faqs.Faq>,
    tables: CampusTables)

  const Campus: Store := Store(Knowledge.CampusKnowledge, Faqs.CampusFaqs, GetCampusData())

  const StopWords: seq<string> := [
    "the", "and", "or", "but", "in", "on", "at", "to", "for", "of", "with", "by",
    "is", "are", "was", "were", "what", "where", "when", "how", "can", "could", "would", "should"
  ]

  predicate IsKeyword(word: string) {
    word !in StopWords
  }

  /** The whitespace-separated words of the lowercased query that are longer than
      two characters and are not stop words, in query order. */
  function QueryKeywords(lowerQuery: string): (r: seq<string>)
    ensures IsSubsequence(r, LongWords(lowerQuery))
    ensures forall w :: w in r <==> w in LongWords(lowerQuery) && w !in StopWords
    ensures forall w :: w in r ==> Utf16Length(w) > 2
    ensures forall w :: multiset(r)[w] == if w in StopWords then 0 else multiset(LongWords(lowerQuery))[w]
  {
    FilterCounts(LongWords(lowerQuery), IsKeyword);
    Filter(LongWords(lowerQuery), IsKeyword)
  }

  /** The intent is decided by the first group of words the lowercased query contains. */
  function DetermineIntent(lowerQuery: string): (r: Intent)
    ensures r == Help <==> Contains(lowerQuery, "how") || Contains(lowerQuery, "help")
    ensures r == Location <==>
      !Contains(lowerQuery, "how") && !Contains(lowerQuery, "help")
      && (Contains(lowerQuery, "where") || Contains(lowerQuery, "location"))
    ensures r == Schedule <==>
      !Contains(lowerQuery, "how") && !Contains(lowerQuery, "help")
      && !Contains(lowerQuery, "where") && !Contains(lowerQuery, "location")
      && (Contains(lowerQuery, "when") || Contains(lowerQuery, "time") || Contains(lowerQuery, "hours"))
    ensures r == Information ==>
      !Contains(lowerQuery, "what") && !Contains(lowerQuery, "show") && !Contains(lowerQuery, "list")
  {
    if Contains(lowerQuery, "how") || Contains(lowerQuery, "help") then Help
    else if Contains(lowerQuery, "where") || Contains(lowerQuery, "location") then Location
    else if Contains(lowerQuery, "when") || Contains(lowerQuery, "time") || Contains(lowerQuery, "hours") then Schedule
    else if Contains(lowerQuery, "what") || Contains(lowerQuery, "show") || Contains(lowerQuery, "list") then List
    else Information
  }

  /** "show" contains "how", so a query with "show" always has the help intent:
      the "show" test of the list intent is never the one that decides. */
  lemma ShowMeansHelp(lowerQuery: string)
    requires Contains(lowerQuery, "show")
    ensures DetermineIntent(lowerQuery) == Help
  {
    assert OccursAt("show", "how", 1);
    ContainsTransitive(lowerQuery, "show", "how");
  }

  /** The list intent needs "what" or "list" and none of the earlier words. */
  lemma ListIntent(lowerQuery: string)
    ensures DetermineIntent(lowerQuery) == List <==>
      !Contains(lowerQuery, "how") && !Contains(lowerQuery, "help")
      && !Contains(lowerQuery, "where") && !Contains(lowerQuery, "location")
      && !Contains(lowerQuery, "when") && !Contains(lowerQuery, "time") && !Contains(lowerQuery, "hours")
      && (Contains(lowerQuery, "what") || Contains(lowerQuery, "list"))
  {
    if Contains(lowerQuery, "show") {
      ShowMeansHelp(lowerQuery);
    }
  }

  /** `analyzeQuery`: the category is the one `categorizeQuery` gives, FAQ
      short-circuit included. */
  function AnalyzeQuery(store: Store, query: string): (r: QueryContext)
    ensures r.query == query
    ensures r.category == Knowledge.CategorizeQuery(store.rules, store.faqs, query)
    ensures forall w :: w in r.keywords <==> w in LongWords(Lower(query)) && w !in StopWords
    ensures r.intent == DetermineIntent(Lower(query))
  {
    var lowerQuery := Lower(query);
    var enhanced := Knowledge.ProcessEnhancedQuery(store.rules, store.faqs, query);
    QueryContext(query, enhanced.category, QueryKeywords(lowerQuery), DetermineIntent(lowerQuery))
  }

  /** The keywords keep the order in which they appear in the query. */
  lemma KeywordsInQueryOrder(store: Store, query: string)
    ensures IsSubsequence(AnalyzeQuery(store, query).keywords, LongWords(Lower(query)))
    ensures forall w ::
      multiset(AnalyzeQuery(store, query).keywords)[w] == if w in StopWords then 0 else multiset(LongWords(Lower(query)))[w]
  {
    assert AnalyzeQuery(store, query).keywords == QueryKeywords(Lower(query));
  }

  /** A query of at most two UTF-16 code units has no keywords. */
  lemma ShortQueryHasNoKeywords(store: Store, query: string)
    requires Utf16Length(query) <= 2
    ensures AnalyzeQuery(store, query).keywords == []
  {
    LowerKeepsUtf16Length(query);
    NoLongWordsInShort(Lower(query));
  }

  // ---------------------------------------------------------------------------
  // Course codes: the pattern `[A-Z]{2,4}\s?\d{3}`, ignoring case

  predicate IsLetter(c: char) {
    'a' <= c <= 'z' || 'A' <= c <= 'Z'
  }

  predicate IsDigit(c: char) {
    '0' <= c <= '9'
  }

  /** At `i` begin `n` letters (two to four), `gap` whitespace characters (none
      or one) and three digits. */
  ghost predicate CodeShapeAt(s: string, i: int, n: int, gap: int) {
    0 <= i && 2 <= n <= 4 && 0 <= gap <= 1 && i + n + gap + 3 <= |s|
    && (forall k :: i <= k < i + n ==> IsLetter(s[k]))
    && (gap == 1 ==> IsWhitespace(s[i + n]))
    && (forall k :: i + n + gap <= k < i + n + gap + 3 ==> IsDigit(s[k]))
  }

  /** The match the regular expression reports: the one that starts leftmost. */
  ghost predicate LeftmostCode(s: string, i: int, n: int, gap: int) {
    CodeShapeAt(s, i, n, gap) && forall j, m, h :: 0 <= j < i ==> !CodeShapeAt(s, j, m, h)
  }

  /** At a given position at most one shape fits: the letters must be followed
      by a character that is not a letter, so backtracking never has a choice. */
  lemma ShapeUnique(s: string, i: int, n: int, gap: int, m: int, h: int)
    requires CodeShapeAt(s, i, n, gap) && CodeShapeAt(s, i, m, h)
    ensures n == m && gap == h
  {
    assert IsWhitespace(s[i + n]) || IsDigit(s[i + n]);
    assert IsWhitespace(s[i + m]) || IsDigit(s[i + m]);
  }

  /** The leftmost match is unique. */
  lemma LeftmostUnique(s: string, i: int, n: int, gap: int, j: int, m: int, h: int)
    requires LeftmostCode(s, i, n, gap) && LeftmostCode(s, j, m, h)
    ensures i == j && n == m && gap == h
  {
    assert i == j;
    ShapeUnique(s, i, n, gap, m, h);
  }

  predicate DigitsAt(s: string, j: nat) {
    j + 3 <= |s| && IsDigit(s[j]) && IsDigit(s[j + 1]) && IsDigit(s[j + 2])
  }

  /** The number of letters, at most four, starting at `i`. */
  function LetterRun(s: string, i: nat): (r: nat)
    requires i <= |s|
    ensures r <= 4 && i + r <= |s|
    ensures forall k :: i <= k < i + r ==> IsLetter(s[k])
    ensures r < 4 ==> i + r == |s| || !IsLetter(s[i + r])
    decreases |s| - i
  {
    if i < |s| && IsLetter(s[i]) then
      var rest := LetterRun(s, i + 1);
      if rest == 4 then 4 else 1 + rest
    else 0
  }

  /** The pattern tried at `i` with `n` letters, then fewer: with the whitespace
      first, then without it, as a backtracking matcher tries them. */
  function MatchAt(s: string, i: nat, n: nat): (r: Option<(nat, nat)>)
    requires n <= 4 && i + n <= |s|
    requires forall k :: i <= k < i + n ==> IsLetter(s[k])
    ensures r.Some? ==> r.value.0 <= n && CodeShapeAt(s, i, r.value.0, r.value.1)
    ensures r.None? ==> forall m, h :: m <= n ==> !CodeShapeAt(s, i, m, h)
  {
    if n < 2 then None
    else if i + n < |s| && IsWhitespace(s[i + n]) && DigitsAt(s, i + n + 1) then Some((n, 1))
    else if DigitsAt(s, i + n) then Some((n, 0))
    else
      MatchAt(s, i, n - 1)
  }

  /** A shape at `i` never needs more letters than the run there holds. */
  lemma ShapeWithinRun(s: string, i: nat, m: int, h: int)
    requires CodeShapeAt(s, i, m, h)
    ensures m <= LetterRun(s, i)
  {

  }

  /** The leftmost match at or after `i`, as (start, letters, gap). */
  function ScanFrom(s: string, i: nat): (r: Option<(nat, nat, nat)>)
    ensures r.Some? ==> i <= r.value.0 && CodeShapeAt(s, r.value.0, r.value.1, r.value.2)
    ensures r.Some? ==> forall j, m, h :: i <= j < r.value.0 ==> !CodeShapeAt(s, j, m, h)
    ensures r.None? ==> forall j, m, h :: i <= j ==> !CodeShapeAt(s, j, m, h)
    decreases |s| - i
  {
    if i >= |s| then None
    else
      var run := LetterRun(s, i);
      forall m, h | CodeShapeAt(s, i, m, h) ensures m <= run {
        ShapeWithinRun(s, i, m, h);
      }
      match MatchAt(s, i, run)
      case Some((n, gap)) => Some((i, n, gap))
      case None => ScanFrom(s, i + 1)
  }

  /** `query.match(/([A-Z]{2,4}\s?\d{3})/i)`: the text of the leftmost match. */
  function CourseCodeMatch(s: string): (r: Option<string>)
    ensures r.None? <==> forall i, n, gap :: !CodeShapeAt(s, i, n, gap)
    ensures r.Some? ==> exists i, n, gap :: LeftmostCode(s, i, n, gap) && r.value == s[i..i + n + gap + 3]
  {
    match ScanFrom(s, 0)
    case Some((i, n, gap)) =>
      assert LeftmostCode(s, i, n, gap);
      Some(s[i..i + n + gap + 3])
    case None => None
  }

  /** `text.replace(/\s/, "")`: the first whitespace character removed. */
  function RemoveFirstWhitespace(text: string): (r: string)
    ensures (forall k :: 0 <= k < |text| ==> !IsWhitespace(text[k])) ==> r == text
    ensures forall k :: FirstWhitespace(text, k) ==> r == text[..k] + text[k + 1..]
  {
    if text == [] then []
    else if IsWhitespace(text[0]) then text[1..]
    else
      var rest := RemoveFirstWhitespace(text[1..]);
      RemoveAfterFirst(text, rest);
      [text[0]] + rest
  }

  /** `text[k]` is the first whitespace character of `text`. */
  ghost predicate FirstWhitespace(text: string, k: int) {
    0 <= k < |text| && IsWhitespace(text[k]) && forall j :: 0 <= j < k ==> !IsWhitespace(text[j])
  }

  lemma RemoveAfterFirst(text: string, rest: string)
    requires text != [] && !IsWhitespace(text[0])
    requires (forall k :: 0 <= k < |text[1..]| ==> !IsWhitespace(text[1..][k])) ==> rest == text[1..]
    requires forall k :: FirstWhitespace(text[1..], k) ==> rest == text[1..][..k] + text[1..][k + 1..]
    ensures (forall k :: 0 <= k < |text| ==> !IsWhitespace(text[k])) ==> [text[0]] + rest == text
    ensures forall k :: FirstWhitespace(text, k) ==> [text[0]] + rest == text[..k] + text[k + 1..]
  {
    var tail := text[1..];
    if forall k :: 0 <= k < |text| ==> !IsWhitespace(text[k]) {
      assert forall k :: 0 <= k < |tail| ==> tail[k] == text[k + 1];
      assert text == [text[0]] + tail;
    }
    forall k | FirstWhitespace(text, k) ensures [text[0]] + rest == text[..k] + text[k + 1..] {
      assert FirstWhitespace(tail, k - 1);
      assert [text[0]] + tail[..k - 1] == text[..k];
      assert tail[k..] == text[k + 1..];
    }
  }

  /** The course code looked up: the matched text without its whitespace. */
  function ExtractCourseCode(query: string): Option<string> {
    match CourseCodeMatch(query)
    case Some(text) => Some(RemoveFirstWhitespace(text))
    case None => None
  }

  /** The extracted code is the letters followed by the digits of the leftmost match. */
  lemma ExtractedCode(query: string)
    ensures ExtractCourseCode(query).Some? ==> exists i, n, gap ::
      LeftmostCode(query, i, n, gap)
      && ExtractCourseCode(query).value == query[i..i + n] + query[i + n + gap..i + n + gap + 3]
  {
    var m := CourseCodeMatch(query);
    if m.Some? {
      var i, n, gap :| LeftmostCode(query, i, n, gap) && m.value == query[i..i + n + gap + 3];
      WithoutGap(query, i, n, gap);
      assert ExtractCourseCode(query).value == query[i..i + n] + query[i + n + gap..i + n + gap + 3];
    }
  }

  /** Removing the first whitespace from a matched code drops exactly its gap. */
  lemma WithoutGap(s: string, i: int, n: int, gap: int)
    requires CodeShapeAt(s, i, n, gap)
    ensures RemoveFirstWhitespace(s[i..i + n + gap + 3]) == s[i..i + n] + s[i + n + gap..i + n + gap + 3]
  {
    var text := s[i..i + n + gap + 3];
    assert forall k :: 0 <= k < |text| ==> text[k] == s[i + k];
    if gap == 1 {
      assert FirstWhitespace(text, n);
      assert text[..n] == s[i..i + n];
      assert text[n + 1..] == s[i + n + 1..i + n + 4];
    } else {
      assert forall k :: 0 <= k < |text| ==> !IsWhitespace(text[k]);
      assert text == s[i..i + n] + s[i + n..i + n + 3];
    }
  }

  /** "cs 101" names CS101, the first schedule of the campus table. */
  lemma CourseCodeWithSpace()
    ensures ExtractCourseCode("cs 101") == Some("cs101")
    ensures FindCourse(ClassSchedules, "cs101") == Some(ClassSchedules[0])
  {
    SpacedCodeExtracts();
    FindsFirstCourse();
  }

  lemma SpacedCodeExtracts()
    ensures ExtractCourseCode("cs 101") == Some("cs101")
  {
    SpacedCodeLeftmost();
    assert ExtractCourseCode("cs 101").Some?;
    ExtractedCode("cs 101");
    var i, n, gap :| LeftmostCode("cs 101", i, n, gap)
      && ExtractCourseCode("cs 101").value == "cs 101"[i..i + n] + "cs 101"[i + n + gap..i + n + gap + 3];
    LeftmostUnique("cs 101", i, n, gap, 0, 2, 1);
    assert "cs 101"[0..2] + "cs 101"[3..6] == "cs101";
  }

  lemma SpacedCodeLeftmost()
    ensures LeftmostCode("cs 101", 0, 2, 1)
  {
  }

  lemma FindsFirstCourse()
    ensures FindCourse(ClassSchedules, "cs101") == Some(ClassSchedules[0])
  {
    assert Lower(ClassSchedules[0].courseCode) == Lower("cs101");
  }

  // ---------------------------------------------------------------------------
  // Responses

  datatype ResponseKind = TextKind | StructuredKind | FaqKind

  /** The `data` of a response, tagged by what it lists. */
  datatype ResponseData =
    | FaqEntries(faqs: seq<Faqs.Faq>)
    | FacilityEntries(facilities: seq<CampusFacility>)
    | DiningEntries(options: seq<DiningOption>)
    | ScheduleEntries(schedules: seq<ClassSchedule>)
    | LibraryEntries(services: seq<LibraryService>)
    | AdminEntries(adminServices: seq<AdministrativeService>)
    | EventEntries(events: seq<CalendarEvent>)

  /** Confidence is in hundredths. */
  datatype Response = Response(
    content: string,
    data: Option<ResponseData>,
    kind: ResponseKind,
    confidence: nat,
    suggestions: Option<seq<string>>)

  const ClarifyText: string :=
    "I'd be happy to help! Could you please be more specific about what you're looking for? I can assist with "
    + "class schedules, campus facilities, dining options, library services, and administrative procedures."

  const HelpMenu: string :=
    "\U{1F393} **Academic Information**\n"
    + "\U{2022} Class schedules and course details\n"
    + "\U{2022} Academic calendar and important dates\n"
    + "\U{2022} Exam schedules and deadlines\n\n"
    + "\U{1F3E2} **Campus Facilities**\n"
    + "\U{2022} Building locations and hours\n"
    + "\U{2022} Library services and resources\n"
    + "\U{2022} Recreation center and gym facilities\n\n"
    + "\U{1F37D}\U{FE0F} **Dining & Services**\n"
    + "\U{2022} Cafeteria menus and hours\n"
    + "\U{2022} Coffee shops and restaurants\n"
    + "\U{2022} Campus dining options\n\n"
    + "\U{1F4BC} **Administrative Services**\n"
    + "\U{2022} Tuition payments and fees\n"
    + "\U{2022} Student ID card services\n"
    + "\U{2022} Scholarships and financial aid\n\n"
    + "\U{2753} **Common Questions**\n"
    + "\U{2022} How do I register for classes?\n"
    + "\U{2022} Where is the library?\n"
    + "\U{2022} How do I pay tuition?\n"
    + "\U{2022} What dining options are available?\n\n"
    + "Try asking me something like \"How do I borrow books?\" or \"Where can I get lunch?\""

  const FallbackSuggestions: seq<string> := [
    "How do I register for classes?",
    "Where is the library?",
    "What dining options are available?",
    "How do I pay tuition?"
  ]

  /** What every response satisfies: a confidence between 0.3 and 0.95, data
      exactly when the type is not text, and the structured type exactly when
      there is data but no suggestions. */
  predicate Consistent(r: Response) {
    30 <= r.confidence <= 95
    && (r.kind == TextKind <==> r.data.None?)
    && (r.kind == StructuredKind <==> r.suggestions.None? && r.data.Some?)
  }

  /** The top FAQ's question and answer, with the matches as data. */
  function FaqAnswer(intro: string, matches: seq<Faqs.Faq>, shown: seq<Faqs.Faq>, confidence: nat): (r: Response)
    requires matches != [] && 30 <= confidence <= 95
    ensures Consistent(r)
    ensures r.kind == FaqKind && r.data == Some(FaqEntries(shown)) && r.confidence == confidence
    ensures r.suggestions == Some(matches[0].relatedQuestions)
  {
    var top := matches[0];
    Response(intro + "\n\n**" + top.question + "**\n\n" + top.answer,
      Some(FaqEntries(shown)), FaqKind, confidence, Some(top.relatedQuestions))
  }

  function Structured(content: string, data: ResponseData, confidence: nat): Response {
    Response(content, Some(data), StructuredKind, confidence, None)
  }

  /** The facilities branch: one facility for a location or opening-hours
      question, else the matches, else every facility. */
  function FacilitiesResponse(tables: CampusTables, intent: Intent, query: string): (r: Response)
    ensures Consistent(r) && r.confidence >= 60
    ensures r.kind == StructuredKind && r.data.Some? && r.data.value.FacilityEntries?
    ensures var found := SearchFacilities(tables.campusFacilities, query);
      && (found == [] ==> r.data.value.facilities == tables.campusFacilities && r.confidence == 60)
      && (found != [] && (intent == Location || intent == Schedule) ==>
            r.data.value.facilities == [found[0]] && r.confidence == 90)
      && (found != [] && intent != Location && intent != Schedule ==>
            r.data.value.facilities == found && r.confidence == 80)
    ensures forall f :: f in r.data.value.facilities ==> f in tables.campusFacilities
  {
    var found := SearchFacilities(tables.campusFacilities, query);
    if intent == Location && |found| > 0 then
      var facility := found[0];
      Structured("The " + facility.name + " is located at " + facility.location + ". " + facility.description,
        FacilityEntries([facility]), 90)
    else if intent == Schedule && |found| > 0 then
      var facility := found[0];
      Structured("The " + facility.name + " is open " + facility.hours + ".", FacilityEntries([facility]), 90)
    else
      Structured(
        if |found| > 0 then "Here are the campus facilities I found:" else "Here are all available campus facilities:",
        FacilityEntries(if |found| > 0 then found else tables.campusFacilities),
        if |found| > 0 then 80 else 60)
  }

  /** The dining branch: the matches, or every option when nothing matches. */
  function DiningResponse(tables: CampusTables, lowerQuery: string, query: string): (r: Response)
    ensures Consistent(r) && r.confidence >= 60
    ensures r.kind == StructuredKind && r.data.Some? && r.data.value.DiningEntries?
    ensures var found := SearchDining(tables.diningOptions, query);
      r.data.value.options == if found != [] then found else tables.diningOptions
    ensures r.confidence == 90 <==> Contains(lowerQuery, "open") || Contains(lowerQuery, "hours")
    ensures r.confidence == 80 <==>
      !Contains(lowerQuery, "open") && !Contains(lowerQuery, "hours")
      && (Contains(lowerQuery, "menu") || Contains(lowerQuery, "food") || Contains(lowerQuery, "eat"))
    ensures r.confidence in {70, 80, 90}
  {
    var found := SearchDining(tables.diningOptions, query);
    var options := if |found| > 0 then found else tables.diningOptions;
    if Contains(lowerQuery, "open") || Contains(lowerQuery, "hours") then
      Structured("Here are the dining hours for today:", DiningEntries(options), 90)
    else if Contains(lowerQuery, "menu") || Contains(lowerQuery, "food") || Contains(lowerQuery, "eat") then
      Structured("Here are the available dining options and their specialties:", DiningEntries(options), 80)
    else
      Structured("Here are the dining options available on campus:", DiningEntries(options), 70)
  }

  /** The schedule branch: every schedule for a list question or one mentioning
      "all" or "my"; else the one schedule whose code the query names; else every schedule. */
  function ScheduleResponse(tables: CampusTables, intent: Intent, lowerQuery: string, query: string): (r: Response)
    ensures Consistent(r) && r.confidence >= 60
    ensures r.confidence in {80, 90, 95}
    ensures r.kind == StructuredKind && r.data.Some? && r.data.value.ScheduleEntries?
    ensures intent == List || Contains(lowerQuery, "all") || Contains(lowerQuery, "my") ==>
      r.data.value.schedules == tables.classSchedules && r.confidence == 90
    ensures r.confidence == 95 <==>
      intent != List && !Contains(lowerQuery, "all") && !Contains(lowerQuery, "my")
      && ExtractCourseCode(query).Some? && FindCourse(tables.classSchedules, ExtractCourseCode(query).value).Some?
    ensures r.confidence == 95 ==>
      r.data.value.schedules == [FindCourse(tables.classSchedules, ExtractCourseCode(query).value).value]
    ensures r.confidence != 95 ==> r.data.value.schedules == tables.classSchedules
  {
    if intent == List || Contains(lowerQuery, "all") || Contains(lowerQuery, "my") then
      Structured("Here are your current class schedules:", ScheduleEntries(tables.classSchedules), 90)
    else
      match ExtractCourseCode(query)
      case Some(code) =>
        (match FindCourse(tables.classSchedules, code)
         case Some(course) =>
           Structured("Here's the schedule for " + course.courseCode + ":", ScheduleEntries([course]), 95)
         case None =>
           Structured("Here are your class schedules:", ScheduleEntries(tables.classSchedules), 80))
      case None =>
        Structured("Here are your class schedules:", ScheduleEntries(tables.classSchedules), 80)
  }

  predicate NameMentions(name: string, word: string) {
    Contains(Lower(name), word)
  }

  /** The first library service whose name mentions `word`, or every service
      when none does. */
  function LibraryServicesAbout(services: seq<LibraryService>, word: string): (r: seq<LibraryService>)
    ensures (exists s :: s in services && NameMentions(s.name, word)) ==>
      exists i :: 0 <= i < |services| && r == [services[i]] && NameMentions(services[i].name, word)
        && forall j :: 0 <= j < i ==> !NameMentions(services[j].name, word)
    ensures (forall s :: s in services ==> !NameMentions(s.name, word)) ==> r == services
  {
    match Find(services, (s: LibraryService) => NameMentions(s.name, word))
    case Some(s) => [s]
    case None => services
  }

  /** The library branch: the first service whose name mentions books or
      computers, or every service when none does. */
  function LibraryResponse(tables: CampusTables, lowerQuery: string): (r: Response)
    ensures Consistent(r) && r.confidence >= 60
    ensures r.kind == StructuredKind && r.data.Some? && r.data.value.LibraryEntries?
    ensures forall s :: s in r.data.value.services ==> s in tables.libraryServices
    ensures r.confidence == 80 <==>
      !Contains(lowerQuery, "book") && !Contains(lowerQuery, "borrow")
      && !Contains(lowerQuery, "computer") && !Contains(lowerQuery, "print")
    ensures r.confidence != 80 ==> r.confidence == 90
    ensures r.confidence == 80 ==> r.data.value.services == tables.libraryServices
    ensures Contains(lowerQuery, "book") || Contains(lowerQuery, "borrow") ==>
      r.data.value.services == tables.libraryServices
      || (|r.data.value.services| == 1 && NameMentions(r.data.value.services[0].name, "book"))
    ensures Contains(lowerQuery, "book") || Contains(lowerQuery, "borrow") ==>
      r.data.value.services == LibraryServicesAbout(tables.libraryServices, "book")
    ensures (!Contains(lowerQuery, "book") && !Contains(lowerQuery, "borrow")
      && (Contains(lowerQuery, "computer") || Contains(lowerQuery, "print"))) ==>
      r.data.value.services == LibraryServicesAbout(tables.libraryServices, "computer")
  {
    var services := tables.libraryServices;
    if Contains(lowerQuery, "book") || Contains(lowerQuery, "borrow") then
      Structured("Here's information about borrowing books from the library:",
        LibraryEntries(LibraryServicesAbout(services, "book")), 90)
    else if Contains(lowerQuery, "computer") || Contains(lowerQuery, "print") then
      Structured("Here's information about computer and printing services:",
        LibraryEntries(LibraryServicesAbout(services, "computer")), 90)
    else
      Structured("Here are all the library services available:", LibraryEntries(services), 80)
  }

  /** Whether a service's name mentions `word` or "financial". */
  function MentionsOrFinancial(word: string): AdministrativeService -> bool {
    (s: AdministrativeService) => NameMentions(s.name, word) || NameMentions(s.name, "financial")
  }

  /** The first service whose name mentions `word`, or else those whose name
      mentions `word` or "financial". */
  function ServicesAbout(services: seq<AdministrativeService>, word: string): (r: seq<AdministrativeService>)
    ensures IsSubsequence(r, services)
    ensures forall s :: s in r ==> NameMentions(s.name, word) || NameMentions(s.name, "financial")
    ensures (exists s :: s in services && NameMentions(s.name, word)) ==> |r| == 1 && NameMentions(r[0].name, word)
    ensures (exists s :: s in services && NameMentions(s.name, word)) ==>
      exists i :: 0 <= i < |services| && r == [services[i]] && NameMentions(services[i].name, word)
        && forall j :: 0 <= j < i ==> !NameMentions(services[j].name, word)
    ensures (forall s :: s in services ==> !NameMentions(s.name, word)) ==>
      r == Filter(services, MentionsOrFinancial(word))
  {
    match Find(services, (s: AdministrativeService) => NameMentions(s.name, word))
    case Some(s) =>
      assert s in services;
      SingletonSubsequence(services, s);
      [s]
    case None =>
      Filter(services, MentionsOrFinancial(word))
  }

  /** The administrative branch: tuition, then scholarships, else every service. */
  function AdministrativeResponse(tables: CampusTables, lowerQuery: string): (r: Response)
    ensures Consistent(r) && r.confidence >= 60
    ensures r.kind == StructuredKind && r.data.Some? && r.data.value.AdminEntries?
    ensures IsSubsequence(r.data.value.adminServices, tables.administrativeServices)
    ensures r.confidence == 70 <==>
      !Contains(lowerQuery, "pay") && !Contains(lowerQuery, "tuition") && !Contains(lowerQuery, "fee")
      && !Contains(lowerQuery, "scholarship") && !Contains(lowerQuery, "financial aid")
    ensures r.confidence != 70 ==> r.confidence == 90
    ensures r.confidence == 70 ==> r.data.value.adminServices == tables.administrativeServices
    ensures Contains(lowerQuery, "pay") || Contains(lowerQuery, "tuition") || Contains(lowerQuery, "fee") ==>
      r.data.value.adminServices == ServicesAbout(tables.administrativeServices, "tuition")
    ensures (!Contains(lowerQuery, "pay") && !Contains(lowerQuery, "tuition") && !Contains(lowerQuery, "fee")
      && (Contains(lowerQuery, "scholarship") || Contains(lowerQuery, "financial aid"))) ==>
      r.data.value.adminServices == ServicesAbout(tables.administrativeServices, "scholarship")
  {
    var services := tables.administrativeServices;
    if Contains(lowerQuery, "pay") || Contains(lowerQuery, "tuition") || Contains(lowerQuery, "fee") then
      Structured("Here's how to pay your tuition and fees:", AdminEntries(ServicesAbout(services, "tuition")), 90)
    else if Contains(lowerQuery, "scholarship") || Contains(lowerQuery, "financial aid") then
      Structured("Here's information about scholarships and financial aid:",
        AdminEntries(ServicesAbout(services, "scholarship")), 90)
    else
      SubsequenceOfItself(services);
      Structured("Here are the administrative services available:", AdminEntries(services), 70)
  }

  predicate IsExam(e: CalendarEvent) {
    e.kind == Exam
  }

  predicate IsDeadline(e: CalendarEvent) {
    e.kind == Deadline
  }

  /** The calendar branch over the next 30 days: the exams or the deadlines when
      asked for and there are any, else every upcoming event. */
  function CalendarResponse(tables: CampusTables, lowerQuery: string, now: int): (r: Response)
    ensures Consistent(r) && r.confidence >= 60
    ensures r.kind == StructuredKind && r.data.Some? && r.data.value.EventEntries?
    ensures forall e :: e in r.data.value.events ==> e in tables.academicCalendar && InWindow(e, DefaultWindowDays, now)
    ensures var upcoming := UpcomingEvents(tables.academicCalendar, DefaultWindowDays, now);
      && (Contains(lowerQuery, "exam") || Contains(lowerQuery, "test") ==>
            r.confidence == 90
            && r.data.value.events == if Any(upcoming, IsExam) then Filter(upcoming, IsExam) else upcoming)
      && (!Contains(lowerQuery, "exam") && !Contains(lowerQuery, "test") && Contains(lowerQuery, "deadline") ==>
            r.confidence == 90
            && r.data.value.events == if Any(upcoming, IsDeadline) then Filter(upcoming, IsDeadline) else upcoming)
      && (!Contains(lowerQuery, "exam") && !Contains(lowerQuery, "test") && !Contains(lowerQuery, "deadline") ==>
            r.confidence == 80 && r.data.value.events == upcoming)
  {
    var upcoming := UpcomingEvents(tables.academicCalendar, DefaultWindowDays, now);
    if Contains(lowerQuery, "exam") || Contains(lowerQuery, "test") then
      var exams := Filter(upcoming, IsExam);
      AnyIffFilter(upcoming, IsExam);
      Structured(
        if |exams| > 0 then "Here are the upcoming exam dates:" else "No upcoming exams found in the next 30 days.",
        EventEntries(if |exams| > 0 then exams else upcoming), 90)
    else if Contains(lowerQuery, "deadline") then
      var deadlines := Filter(upcoming, IsDeadline);
      AnyIffFilter(upcoming, IsDeadline);
      Structured(
        if |deadlines| > 0 then "Here are the upcoming deadlines:" else "No upcoming deadlines found in the next 30 days.",
        EventEntries(if |deadlines| > 0 then deadlines else upcoming), 90)
    else
      Structured("Here are the upcoming important dates:", EventEntries(upcoming), 80)
  }

  /** No category branch applied: the top FAQ if any FAQ matches, else the help menu. */
  function FallbackResponse(faqs: seq<Faqs.Faq>, query: string): (r: Response)
    ensures Consistent(r)
    ensures var matches := Faqs.SearchFaqs(faqs, query);
      && (matches != [] ==> r == FaqAnswer("I think this might help answer your question:", matches, Take(matches, 3), 70))
      && (matches == [] ==>
            r.kind == TextKind && r.data.None? && r.confidence == 40 && r.suggestions == Some(FallbackSuggestions))
  {
    var matches := Faqs.SearchFaqs(faqs, query);
    if |matches| > 0 then
      FaqAnswer("I think this might help answer your question:", matches, Take(matches, 3), 70)
    else
      Response("I'm not sure I understand \"" + query + "\" completely, but I'm here to help! I can assist you with:\n\n"
        + HelpMenu, None, TextKind, 40, Some(FallbackSuggestions))
  }

  /** The six categories with a branch of their own. */
  predicate HasBranch(c: Knowledge.Category) {
    c.Facilities? || c.Dining? || c.Schedule? || c.Library? || c.Administrative? || c.Calendar?
  }

  /** The branch for the query's category, or the fallback when it has none. */
  function CategoryResponse(store: Store, context: QueryContext, now: int): (r: Response)
    ensures Consistent(r) && r.confidence >= 40
    ensures r.kind == StructuredKind <==> HasBranch(context.category)
  {
    var tables := store.tables;
    var query := context.query;
    var lowerQuery := Lower(query);
    match context.category
    case Facilities => FacilitiesResponse(tables, context.intent, query)
    case Dining => DiningResponse(tables, lowerQuery, query)
    case Schedule => ScheduleResponse(tables, context.intent, lowerQuery, query)
    case Library => LibraryResponse(tables, lowerQuery)
    case Administrative => AdministrativeResponse(tables, lowerQuery)
    case Calendar => CalendarResponse(tables, lowerQuery, now)
    case _ => FallbackResponse(store.faqs, query)
  }

  /** `processAdvancedQuery` at time `now` (milliseconds since the epoch). */
  function ProcessAdvancedQuery(store: Store, query: string, now: int): (r: Response)
    ensures Consistent(r)
  {
    var context := AnalyzeQuery(store, query);
    var matches := Faqs.SearchFaqs(store.faqs, query);
    if context.category == Knowledge.Faq && |matches| > 0 then
      FaqAnswer("Here's what I found about \"" + query + "\":", matches, matches, 95)
    else if |context.keywords| == 0 then
      Response(ClarifyText, None, TextKind, 30, None)
    else
      CategoryResponse(store, context, now)
  }

  // ---------------------------------------------------------------------------
  // Properties of processAdvancedQuery

  /** The category is "faq" and some FAQ matches: the FAQ answer comes first. */
  predicate FaqCase(store: Store, query: string) {
    AnalyzeQuery(store, query).category == Knowledge.Faq && Faqs.SearchFaqs(store.faqs, query) != []
  }

  /** The FAQ case answers with the top match at 0.95, lists every match (at
      most five) and suggests the top match's related questions. */
  lemma FaqAnswerFirst(store: Store, query: string, now: int)
    requires FaqCase(store, query)
    ensures var r := ProcessAdvancedQuery(store, query, now);
      var matches := Faqs.SearchFaqs(store.faqs, query);
      && r.kind == FaqKind && r.confidence == 95
      && r.data == Some(FaqEntries(matches)) && |matches| <= 5
      && r.suggestions == Some(matches[0].relatedQuestions)
  {
  }

  /** Confidence 0.3 comes from the clarification request alone: outside the
      FAQ case, exactly the queries without keywords get it, with no data. */
  lemma ClarifyWithoutKeywords(store: Store, query: string, now: int)
    ensures var r := ProcessAdvancedQuery(store, query, now);
      (r.confidence == 30 <==> !FaqCase(store, query) && AnalyzeQuery(store, query).keywords == [])
      && (r.confidence == 30 ==> r == Response(ClarifyText, None, TextKind, 30, None))
  {
    var context := AnalyzeQuery(store, query);
    var r := ProcessAdvancedQuery(store, query, now);
    if FaqCase(store, query) {
      FaqAnswerFirst(store, query, now);
    } else if context.keywords != [] {
      assert r == CategoryResponse(store, context, now);
    }
  }

  /** The six category branches always answer with structured data: none of them falls through. */
  lemma BranchesAreStructured(store: Store, query: string, now: int)
    requires !FaqCase(store, query) && AnalyzeQuery(store, query).keywords != []
    requires HasBranch(AnalyzeQuery(store, query).category)
    ensures ProcessAdvancedQuery(store, query, now).kind == StructuredKind
  {
  }

  /** In the schedule branch a 0.95 answer is the single schedule whose code is
      the extracted one ignoring case, the only such schedule in a well-formed table. */
  lemma ScheduleBranch(store: Store, query: string, now: int)
    requires !FaqCase(store, query) && AnalyzeQuery(store, query).keywords != []
    requires AnalyzeQuery(store, query).category == Knowledge.Schedule
    ensures var r := ProcessAdvancedQuery(store, query, now);
      && r.kind == StructuredKind && r.data.Some? && r.data.value.ScheduleEntries?
      && r.confidence in {80, 90, 95}
      && (r.confidence != 95 ==> r.data.value.schedules == store.tables.classSchedules)
      && (r.confidence == 95 ==>
            && |r.data.value.schedules| == 1 && ExtractCourseCode(query).Some?
            && r.data.value.schedules[0] in store.tables.classSchedules
            && Lower(r.data.value.schedules[0].courseCode) == Lower(ExtractCourseCode(query).value)
            && (WellFormed(store.tables) ==>
                  forall c :: c in store.tables.classSchedules && Lower(c.courseCode) == Lower(ExtractCourseCode(query).value)
                    ==> c == r.data.value.schedules[0]))
  {
    var context := AnalyzeQuery(store, query);
    var tables := store.tables;
    var r := ScheduleResponse(tables, context.intent, Lower(query), query);
    assert ProcessAdvancedQuery(store, query, now) == CategoryResponse(store, context, now) == r;
    if r.confidence == 95 && WellFormed(tables) {
      var course := r.data.value.schedules[0];
      var code := ExtractCourseCode(query).value;
      forall c | c in tables.classSchedules && Lower(c.courseCode) == Lower(code) ensures c == course {
        AtMostOneCourse(tables, code, c, course);
      }
    }
  }

  /** Outside the six branches: the top FAQ match at 0.7 with at most three
      matches, else the help menu at 0.4 with four suggestions. A query the
      rules classify as "faq" gets here only when no FAQ matches, so it always
      gets the help menu. */
  lemma FallbackBranch(store: Store, query: string, now: int)
    requires !FaqCase(store, query) && AnalyzeQuery(store, query).keywords != []
    requires !HasBranch(AnalyzeQuery(store, query).category)
    ensures var r := ProcessAdvancedQuery(store, query, now);
      var matches := Faqs.SearchFaqs(store.faqs, query);
      && (matches != [] ==>
            && r.kind == FaqKind && r.confidence == 70 && r.data.Some? && r.data.value.FaqEntries?
            && |r.data.value.faqs| <= 3 && r.data.value.faqs <= matches)
      && (matches == [] ==>
            r.kind == TextKind && r.confidence == 40 && r.suggestions.Some? && |r.suggestions.value| == 4)
      && (AnalyzeQuery(store, query).category == Knowledge.Faq ==> r.kind == TextKind && r.confidence == 40)
  {
    var context := AnalyzeQuery(store, query);
    assert ProcessAdvancedQuery(store, query, now) == CategoryResponse(store, context, now)
      == FallbackResponse(store.faqs, query);
  }

  /** A query of at most two UTF-16 code units, outside the FAQ case, asks for clarification. */
  lemma ShortQueryClarifies(store: Store, query: string, now: int)
    requires Utf16Length(query) <= 2 && !FaqCase(store, query)
    ensures ProcessAdvancedQuery(store, query, now) == Response(ClarifyText, None, TextKind, 30, None)
  {
    ShortQueryHasNoKeywords(store, query);
  }

  /** The empty query on the campus store: no trigger phrase, so the rules
      classify it as a schedule question, and without keywords it gets the
      clarification request at 0.3. */
  lemma EmptyQueryClarifies(now: int)
    ensures AnalyzeQuery(Campus, "").category == Knowledge.Schedule
    ensures ProcessAdvancedQuery(Campus, "", now) == Response(ClarifyText, None, TextKind, 30, None)
  {
    EmptyQueryIsSchedule();
    assert !FaqCase(Campus, "");
    assert Utf16Length("") == 0;
    ShortQueryClarifies(Campus, "", now);
  }

  lemma EmptyQueryIsSchedule()
    ensures AnalyzeQuery(Campus, "").category == Knowledge.Schedule
  {
    forall t | t in Knowledge.FaqTriggers ensures !Contains(Lower(""), t) {
      ContainedInEmpty(t);
    }
    assert !Knowledge.HasFaqTrigger("");
    Knowledge.EmptyWordIsSchedule(Faqs.CampusFaqs, "");
  }
}
