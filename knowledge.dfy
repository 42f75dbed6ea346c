/** The rule-based classifier of the campus assistant (lib/campus-knowledge.ts):
    the ordered keyword table, the word matcher, the category decision with its
    FAQ short-circuit, the help suggestions per category, and the combined
    `processEnhancedQuery`. */
module Knowledge {
  import opened Seqs
  import opened Text
  import Faqs

  /** The categories a query can be given. */
  datatype Category = Schedule | Facilities | Dining | Library | Administrative | Calendar | Faq | General

  function CategoryName(c: Category): string {
    match c
    case Schedule => "schedule"
    case Facilities => "facilities"
    case Dining => "dining"
    case Library => "library"
    case Administrative => "administrative"
    case Calendar => "calendar"
    case Faq => "faq"
    case General => "general"
  }

  /** A rule of the table; the source's optional `data` field is never set and is omitted. */
  datatype KnowledgeEntry = KnowledgeEntry(keywords: seq<string>, category: Category, response: string)

  /** The ordered rule table: the first matching rule decides the category. */
  const CampusKnowledge: seq<KnowledgeEntry> := [
      KnowledgeEntry(["class", "schedule", "course", "time", "when", "CS101", "computer science"],
        Schedule,
        "I can help you with class schedules. Here are the current courses:"),
      KnowledgeEntry(["professor", "instructor", "teacher", "who teaches"],
        Schedule,
        "Here are the instructors for current courses:"),
      KnowledgeEntry(["library", "where is", "location", "building", "hours"],
        Facilities,
        "Here's information about campus facilities:"),
      KnowledgeEntry(["gym", "recreation", "fitness", "pool", "sports", "exercise"],
        Facilities,
        "The Student Recreation Center offers excellent fitness facilities:"),
      KnowledgeEntry(["lab", "laboratory", "science", "research", "equipment"],
        Facilities,
        "Our Science Laboratory Complex provides state-of-the-art research facilities:"),
      KnowledgeEntry(["parking", "park", "car", "vehicle", "permit"],
        Facilities,
        "Here's information about campus parking:"),
      KnowledgeEntry(["food", "eat", "dining", "cafeteria", "restaurant", "menu", "hungry"],
        Dining,
        "Here are the dining options available on campus:"),
      KnowledgeEntry(["coffee", "cafe", "drink", "beverage"],
        Dining,
        "For coffee and light refreshments, check out Campus Grind:"),
      KnowledgeEntry(["pizza", "late night", "dinner"],
        Dining,
        "Pizza Corner is great for dinner and late-night dining:"),
      KnowledgeEntry(["vegetarian", "vegan", "dietary", "gluten-free", "healthy"],
        Dining,
        "We have excellent vegetarian and vegan options available:"),
      KnowledgeEntry(["book", "borrow", "study", "research", "quiet", "computer", "print"],
        Library,
        "The Central Library offers comprehensive services:"),
      KnowledgeEntry(["printing", "scan", "copy", "computer lab"],
        Library,
        "For printing and computer services:"),
      KnowledgeEntry(["pay", "tuition", "fees", "bill", "payment", "money"],
        Administrative,
        "For tuition payments and financial services:"),
      KnowledgeEntry(["id card", "student id", "replacement", "lost card"],
        Administrative,
        "For student ID card services:"),
      KnowledgeEntry(["scholarship", "financial aid", "money", "assistance"],
        Administrative,
        "For scholarships and financial assistance:"),
      KnowledgeEntry(["register", "registration", "enroll", "add class", "drop class"],
        Administrative,
        "For course registration:"),
      KnowledgeEntry(["calendar", "events", "dates", "deadline", "exam", "holiday"],
        Calendar,
        "Here are upcoming important dates:"),
      KnowledgeEntry(["exam", "test", "midterm", "final"],
        Calendar,
        "Here are the upcoming exam dates:"),
      KnowledgeEntry(["how", "what", "where", "when", "why", "help", "question", "faq"],
        Faq,
        "I found some frequently asked questions that might help:")
  ]

  // ---------------------------------------------------------------------------
  // Matching

  /** The lowercased query cut at every single space, empty words included. */
  function QueryWords(query: string): seq<string> {
    Split(Lower(query), IsSpace)
  }

  /** A word and a keyword match when either contains the other (lowercased). */
  predicate WordMatches(word: string, keyword: string) {
    Contains(word, Lower(keyword)) || Contains(Lower(keyword), word)
  }

  ghost predicate Matches(entry: KnowledgeEntry, query: string) {
    exists keyword, word :: keyword in entry.keywords && word in QueryWords(query) && WordMatches(word, keyword)
  }

  function EntryMatches(entry: KnowledgeEntry, words: seq<string>): (r: bool)
    ensures r <==> exists keyword, word :: keyword in entry.keywords && word in words && WordMatches(word, keyword)
  {
    Any(entry.keywords, (keyword: string) => Any(words, (word: string) => WordMatches(word, keyword)))
  }

  /** `findRelevantKnowledge`: the matching rules, in table order. */
  function FindRelevantKnowledge(rules: seq<KnowledgeEntry>, query: string): (r: seq<KnowledgeEntry>)
    ensures IsSubsequence(r, rules)
    ensures forall e :: e in r <==> e in rules && Matches(e, query)
  {
    var words := QueryWords(query);
    Filter(rules, (e: KnowledgeEntry) => EntryMatches(e, words))
  }

  // ---------------------------------------------------------------------------
  // Categorisation

  /** Phrases that make the classifier try the FAQ search first. */
  const FaqTriggers: seq<string> := ["how do i", "how to", "what should i", "can i", "where do i", "help", "?"]

  predicate HasFaqTrigger(query: string) {
    Any(FaqTriggers, (t: string) => Contains(Lower(query), t))
  }

  /** The FAQ short-circuit fires: a trigger phrase and at least one matching FAQ. */
  predicate FaqShortCircuit(faqs: seq<Faqs.Faq>, query: string) {
    HasFaqTrigger(query) && |Faqs.SearchFaqs(faqs, query)| > 0
  }

  /** `categorizeQuery`. */
  function CategorizeQuery(rules: seq<KnowledgeEntry>, faqs: seq<Faqs.Faq>, query: string): Category {
    if FaqShortCircuit(faqs, query) then Faq
    else
      var relevant := FindRelevantKnowledge(rules, query);
      if |relevant| > 0 then relevant[0].category else General
  }

  /** `rules[i]` is the first rule that matches the query. */
  ghost predicate IsFirstMatch(rules: seq<KnowledgeEntry>, query: string, i: int) {
    0 <= i < |rules| && Matches(rules[i], query) && forall j :: 0 <= j < i ==> !Matches(rules[j], query)
  }

  /** Without the short-circuit, the category is that of the first matching rule. */
  lemma CategorizeFirstMatch(rules: seq<KnowledgeEntry>, faqs: seq<Faqs.Faq>, query: string, i: int)
    requires !FaqShortCircuit(faqs, query)
    requires IsFirstMatch(rules, query, i)
    ensures CategorizeQuery(rules, faqs, query) == rules[i].category
  {
    var words := QueryWords(query);
    var p := (e: KnowledgeEntry) => EntryMatches(e, words);
    forall j | 0 <= j <= i ensures p(rules[j]) == Matches(rules[j], query) {
    }
    FilterHead(rules, p, i);
  }

  /** Without the short-circuit and with no matching rule, the category is general. */
  lemma CategorizeNoMatch(rules: seq<KnowledgeEntry>, faqs: seq<Faqs.Faq>, query: string)
    requires !FaqShortCircuit(faqs, query)
    requires forall e :: e in rules ==> !Matches(e, query)
    ensures CategorizeQuery(rules, faqs, query) == General
  {
    if FindRelevantKnowledge(rules, query) != [] {
      assert FindRelevantKnowledge(rules, query)[0] in FindRelevantKnowledge(rules, query);
    }
  }

  /** The category is `faq` exactly when the short-circuit fires or the first matching rule is an FAQ rule. */
  lemma CategorizeFaq(rules: seq<KnowledgeEntry>, faqs: seq<Faqs.Faq>, query: string)
    ensures CategorizeQuery(rules, faqs, query) == Faq <==>
      FaqShortCircuit(faqs, query) || exists i :: IsFirstMatch(rules, query, i) && rules[i].category == Faq
  {
    if !FaqShortCircuit(faqs, query) {
      var relevant := FindRelevantKnowledge(rules, query);
      if relevant == [] {
        forall i | 0 <= i < |rules| ensures !Matches(rules[i], query) {
          assert rules[i] in rules;
        }
      } else {
        var i := FirstMatchOf(rules, query);
        CategorizeFirstMatch(rules, faqs, query, i);
        forall j | IsFirstMatch(rules, query, j) ensures j == i {
        }
      }
    }
  }

  /** Some rule matches exactly when there is a first matching rule. */
  lemma {:induction false} FirstMatchOf(rules: seq<KnowledgeEntry>, query: string) returns (i: int)
    requires FindRelevantKnowledge(rules, query) != []
    ensures IsFirstMatch(rules, query, i)
  {
    var e := FindRelevantKnowledge(rules, query)[0];
    assert e in FindRelevantKnowledge(rules, query);
    assert rules != [];
    if Matches(rules[0], query) {
      i := 0;
    } else {
      assert rules == [rules[0]] + rules[1..];
      var words := QueryWords(query);
      var p := (e: KnowledgeEntry) => EntryMatches(e, words);
      assert FindRelevantKnowledge(rules, query) == FindRelevantKnowledge(rules[1..], query);
      var k := FirstMatchOf(rules[1..], query);
      i := k + 1;
    }
  }

  // ---------------------------------------------------------------------------
  // Empty words

  /** An empty word is contained in every keyword, so every rule with keywords matches. */
  lemma EmptyWordMatchesAll(rules: seq<KnowledgeEntry>, query: string)
    requires "" in QueryWords(query)
    requires forall e :: e in rules ==> e.keywords != []
    ensures FindRelevantKnowledge(rules, query) == rules
  {
    forall e | e in rules ensures Matches(e, query) {
      assert e.keywords[0] in e.keywords;
      ContainsEmpty(Lower(e.keywords[0]));
    }
    FilterKeepsAll(rules, (e: KnowledgeEntry) => EntryMatches(e, QueryWords(query)));
  }

  /** Any query with an empty word is given the category of the first rule,
      unless the FAQ short-circuit fires. */
  lemma EmptyWordFirstRule(rules: seq<KnowledgeEntry>, faqs: seq<Faqs.Faq>, query: string)
    requires rules != [] && forall e :: e in rules ==> e.keywords != []
    requires "" in QueryWords(query)
    requires !FaqShortCircuit(faqs, query)
    ensures CategorizeQuery(rules, faqs, query) == rules[0].category
  {
    EmptyWordMatchesAll(rules, query);
  }

  /** A query that is empty, starts or ends with a space, or has two spaces in a
      row yields an empty word, and on the campus table is then classified as a
      schedule question unless the FAQ short-circuit fires. */
  lemma EmptyWordIsSchedule(faqs: seq<Faqs.Faq>, query: string)
    requires query == "" || query[0] == ' ' || query[|query| - 1] == ' ' || HasAdjacentSeparators(query, IsSpace)
    requires !FaqShortCircuit(faqs, query)
    ensures CategorizeQuery(CampusKnowledge, faqs, query) == Schedule
  {
    var lower := Lower(query);
    if HasAdjacentSeparators(query, IsSpace) {
      var i :| 0 <= i < |query| - 1 && IsSpace(query[i]) && IsSpace(query[i + 1]);
      assert IsSpace(lower[i]) && IsSpace(lower[i + 1]);
    }
    EmptyPiece(lower, IsSpace);
    assert "" in QueryWords(query);
    CampusRulesHaveKeywords();
    CampusFirstRule();
    EmptyWordFirstRule(CampusKnowledge, faqs, query);
  }

  lemma CampusFirstRule()
    ensures CampusKnowledge != [] && CampusKnowledge[0].category == Schedule
  {
  }

  lemma CampusRulesHaveKeywords()
    ensures forall e :: e in CampusKnowledge ==> e.keywords != []
  {
    forall e | e in CampusKnowledge ensures e.keywords != [] {
      var i :| 0 <= i < |CampusKnowledge| && CampusKnowledge[i] == e;
    }
  }

  /** A needle with a character the haystack lacks is not contained in it. */
  lemma MissingChar(hay: string, needle: string, c: char)
    requires c in needle && c !in hay
    ensures !Contains(hay, needle)
  {
    forall i ensures !OccursAt(hay, needle, i) {
      if 0 <= i && i + |needle| <= |hay| {
        var k :| 0 <= k < |needle| && needle[k] == c;
        assert hay[i + k] in hay;
        assert hay[i..i + |needle|][k] == hay[i + k];
      }
    }
  }

  /** A keyword that neither is a three-letter word over w, h, y nor has both a w and a y. */
  predicate FarFromWhy(keyword: string) {
    (|keyword| > 3 || (keyword != [] && keyword[0] !in "whyWHY"))
    && (('w' !in keyword && 'W' !in keyword) || ('y' !in keyword && 'Y' !in keyword))
  }

  lemma FarFromWhyMisses(keyword: string)
    requires FarFromWhy(keyword)
    ensures !WordMatches("why", keyword)
  {
    var lower := Lower(keyword);
    if 'w' !in keyword && 'W' !in keyword {
      assert 'w' !in lower;
      MissingChar(lower, "why", 'w');
    } else {
      assert 'y' !in lower;
      MissingChar(lower, "why", 'y');
    }
    if |keyword| <= 3 {
      MissingChar("why", lower, lower[0]);
    }
  }

  /** Every keyword of rule `j` of the campus table is far from "why". */
  predicate RuleFarFromWhy(j: nat)
    requires j < |CampusKnowledge|
  {
    forall k :: 0 <= k < |CampusKnowledge[j].keywords| ==> FarFromWhy(CampusKnowledge[j].keywords[k])
  }

  lemma RulesFarFromWhy0to1()
    ensures RuleFarFromWhy(0)
    ensures RuleFarFromWhy(1)
  {
  }

  lemma RulesFarFromWhy2to3()
    ensures RuleFarFromWhy(2)
    ensures RuleFarFromWhy(3)
  {
  }

  lemma RulesFarFromWhy4to5()
    ensures RuleFarFromWhy(4)
    ensures RuleFarFromWhy(5)
  {
  }

  lemma RulesFarFromWhy6to7()
    ensures RuleFarFromWhy(6)
    ensures RuleFarFromWhy(7)
  {
  }

  lemma RulesFarFromWhy8to9()
    ensures RuleFarFromWhy(8)
    ensures RuleFarFromWhy(9)
  {
  }

  lemma RulesFarFromWhy10to11()
    ensures RuleFarFromWhy(10)
    ensures RuleFarFromWhy(11)
  {
  }

  lemma RulesFarFromWhy12to13()
    ensures RuleFarFromWhy(12)
    ensures RuleFarFromWhy(13)
  {
  }

  lemma RulesFarFromWhy14to15()
    ensures RuleFarFromWhy(14)
    ensures RuleFarFromWhy(15)
  {
  }

  lemma RulesFarFromWhy16to17()
    ensures RuleFarFromWhy(16)
    ensures RuleFarFromWhy(17)
  {
  }

  /** Only the last rule of the campus table can match the word "why". */
  lemma CampusRulesFarFromWhy(j: nat)
    requires j < |CampusKnowledge| - 1
    ensures RuleFarFromWhy(j)
  {
    if j == 0 {
      RulesFarFromWhy0to1();
    } else if j == 1 {
      RulesFarFromWhy0to1();
    } else if j == 2 {
      RulesFarFromWhy2to3();
    } else if j == 3 {
      RulesFarFromWhy2to3();
    } else if j == 4 {
      RulesFarFromWhy4to5();
    } else if j == 5 {
      RulesFarFromWhy4to5();
    } else if j == 6 {
      RulesFarFromWhy6to7();
    } else if j == 7 {
      RulesFarFromWhy6to7();
    } else if j == 8 {
      RulesFarFromWhy8to9();
    } else if j == 9 {
      RulesFarFromWhy8to9();
    } else if j == 10 {
      RulesFarFromWhy10to11();
    } else if j == 11 {
      RulesFarFromWhy10to11();
    } else if j == 12 {
      RulesFarFromWhy12to13();
    } else if j == 13 {
      RulesFarFromWhy12to13();
    } else if j == 14 {
      RulesFarFromWhy14to15();
    } else if j == 15 {
      RulesFarFromWhy14to15();
    } else if j == 16 {
      RulesFarFromWhy16to17();
    } else {
      RulesFarFromWhy16to17();
    }
  }

  lemma WhyHasNoTrigger()
    ensures !HasFaqTrigger("why")
  {
    assert Lower("why") == "why";
    forall t | t in FaqTriggers ensures !Contains("why", t) {
      if |t| <= 3 {
        MissingChar("why", t, t[0]);
      }
    }
  }

  lemma WhyIsOneWord()
    ensures QueryWords("why") == ["why"]
  {
    SplitWithoutSeparator("why", IsSpace);
    assert Lower("why") == "why";
  }

  lemma RuleMissesWhy(j: nat)
    requires j < |CampusKnowledge| - 1
    ensures !Matches(CampusKnowledge[j], "why")
  {
    WhyIsOneWord();
    CampusRulesFarFromWhy(j);
    forall keyword | keyword in CampusKnowledge[j].keywords ensures !WordMatches("why", keyword) {
      var k :| 0 <= k < |CampusKnowledge[j].keywords| && CampusKnowledge[j].keywords[k] == keyword;
      FarFromWhyMisses(keyword);
    }
  }

  /** The last rule of the campus table is the first one to match "why". */
  lemma WhyMatchesLastRule()
    ensures IsFirstMatch(CampusKnowledge, "why", |CampusKnowledge| - 1)
  {
    WhyIsOneWord();
    var last := |CampusKnowledge| - 1;
    forall j | 0 <= j < last ensures !Matches(CampusKnowledge[j], "why") {
      RuleMissesWhy(j);
    }
    assert "why" in CampusKnowledge[last].keywords;
    assert OccursAt("why", Lower("why"), 0);
    assert WordMatches("why", "why");
  }

  /** "why" triggers no FAQ search yet is classified `faq`: only the last rule matches it. */
  lemma FaqWithoutFaqSearch(faqs: seq<Faqs.Faq>)
    ensures !HasFaqTrigger("why")
    ensures CategorizeQuery(CampusKnowledge, faqs, "why") == Faq
  {
    WhyHasNoTrigger();
    WhyMatchesLastRule();
    CategorizeFirstMatch(CampusKnowledge, faqs, "why", |CampusKnowledge| - 1);
  }

  // ---------------------------------------------------------------------------
  // Help suggestions

  const HelpTexts: map<string, seq<string>> := map[
    "schedule" := [
      "Try asking: 'What's my class schedule?'",
      "Or: 'When is my CS101 class?'",
      "Or: 'Who teaches calculus?'"],
    "facilities" := [
      "Try asking: 'Where is the library?'",
      "Or: 'What are the gym hours?'",
      "Or: 'How do I get to the science building?'"],
    "dining" := [
      "Try asking: 'What dining options are available?'",
      "Or: 'Do you have vegetarian food?'",
      "Or: 'Where can I get coffee?'"],
    "library" := [
      "Try asking: 'How do I borrow books?'",
      "Or: 'Can I print at the library?'",
      "Or: 'What are the library hours?'"],
    "administrative" := [
      "Try asking: 'How do I pay tuition?'",
      "Or: 'Where do I get my student ID?'",
      "Or: 'How do I apply for scholarships?'"],
    "calendar" := [
      "Try asking: 'When are final exams?'",
      "Or: 'What are the important dates?'",
      "Or: 'When is registration?'"]
  ]

  const DefaultHelp: seq<string> := [
    "Try asking about classes, facilities, dining, library, or administrative services",
    "You can ask questions like 'Where is...' or 'How do I...'",
    "I'm here to help with any campus-related questions!"
  ]

  /** `getContextualHelp`: three suggestions, the default ones for any category without its own. */
  function ContextualHelp(category: string): (r: seq<string>)
    ensures |r| == 3
    ensures category !in HelpTexts ==> r == DefaultHelp
    ensures category in HelpTexts ==> r == HelpTexts[category] && r != DefaultHelp
  {
    if category in HelpTexts then HelpTexts[category] else DefaultHelp
  }

  /** Of the classifier's categories, exactly `faq` and `general` have no suggestions of their own. */
  lemma HelpForCategories(c: Category)
    ensures ContextualHelp(CategoryName(c)) == DefaultHelp <==> c == Faq || c == General
  {
  }

  // ---------------------------------------------------------------------------
  // Combined processing

  datatype EnhancedResult = EnhancedResult(category: Category, faqs: seq<Faqs.Faq>, suggestions: seq<string>)

  /** `processEnhancedQuery`. */
  function ProcessEnhancedQuery(rules: seq<KnowledgeEntry>, faqs: seq<Faqs.Faq>, query: string): (r: EnhancedResult)
    ensures r.category == CategorizeQuery(rules, faqs, query)
    ensures r.faqs != [] <==> r.category == Faq && Faqs.SearchFaqs(faqs, query) != []
    ensures r.faqs != [] ==>
      (r.faqs == Faqs.SearchFaqs(faqs, query) && r.suggestions == ContextualHelp(Faqs.CategoryName(r.faqs[0].category)))
    ensures r.faqs == [] ==> r.suggestions == ContextualHelp(CategoryName(r.category))
    ensures |r.suggestions| == 3
  {
    var category := CategorizeQuery(rules, faqs, query);
    var matching := Faqs.SearchFaqs(faqs, query);
    if category == Faq && |matching| > 0 then
      EnhancedResult(Faq, matching, ContextualHelp(Faqs.CategoryName(matching[0].category)))
    else
      EnhancedResult(category, [], ContextualHelp(CategoryName(category)))
  }
}
