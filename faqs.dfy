/** The FAQ matcher of the campus assistant (lib/campus-faq.ts): the FAQ
    records, the additive relevance score, the ranking that keeps the five best
    FAQs, and the category and related-question lookups. */
module Faqs {
  import opened Seqs
  import opened Sorting
  import opened Text

  datatype FaqCategory = Academic | Facilities | Dining | Library | Administrative | General

  /** The category tag as the source spells it. */
  function CategoryName(c: FaqCategory): string {
    match c
    case Academic => "academic"
    case Facilities => "facilities"
    case Dining => "dining"
    case Library => "library"
    case Administrative => "administrative"
    case General => "general"
  }

  /** Related questions are free text, matched against other questions by substring. */
  datatype Faq = Faq(
    id: string,
    question: string,
    answer: string,
    category: FaqCategory,
    keywords: seq<string>,
    relatedQuestions: seq<string>)

  const CampusFaqs: seq<Faq> := [
      Faq("1", "How do I register for classes?",
        "To register for classes, visit the Registrar's Office in Administration Building, Room 100 (8AM-5PM, Mon-Fri). You'll need academic advisor approval, prerequisite completion verification, and tuition payment if required. You can also register online through the student portal.",
        Academic,
        ["register", "registration", "enroll", "classes", "courses", "sign up"],
        ["When does registration open?", "How do I drop a class?", "What if a class is full?"]),
      Faq("2", "When are final exams?",
        "Final exams for Fall 2024 begin on December 9th and run through December 13th. The exam schedule is posted on the student portal, and you can also check with your individual instructors for specific exam times and locations.",
        Academic,
        ["final", "exams", "finals", "test", "examination", "schedule"],
        ["Where do I take my exams?", "What if I miss a final exam?", "When are midterm exams?"]),
      Faq("3", "How do I contact my professor?",
        "You can contact your professors through email (check your syllabus for their email addresses), during their office hours, or after class. Most professors also use the campus learning management system for course communications.",
        Academic,
        ["professor", "instructor", "teacher", "contact", "email", "office hours"],
        ["What are office hours?", "How do I schedule a meeting?", "Where are faculty offices?"]),
      Faq("4", "Where is the library located?",
        "The Central Library is located in Main Campus, Building A. It's open 8AM-10PM Monday through Friday, and 10AM-8PM on weekends. The library offers study rooms, computer labs, printing services, and extensive book and digital collections.",
        Facilities,
        ["library", "location", "where", "building", "central library"],
        ["What are library hours?", "How do I reserve a study room?", "Can I print at the library?"]),
      Faq("5", "How do I access the gym?",
        "The Student Recreation Center is located on South Campus and is open 6AM-11PM daily. You need a valid student ID to access the facility. It includes gym equipment, swimming pool, basketball courts, rock climbing wall, and group fitness classes.",
        Facilities,
        ["gym", "recreation", "fitness", "access", "student id", "workout"],
        ["What equipment is available?", "Are there fitness classes?", "How much does it cost?"]),
      Faq("6", "Where can I park on campus?",
        "Student parking is available in designated lots around campus. You need a parking permit, which can be purchased from Campus Security. Visitor parking is available in the main lot near the Administration Building for $5/day.",
        Facilities,
        ["parking", "park", "car", "permit", "lot", "vehicle"],
        ["How much is a parking permit?", "Where is visitor parking?", "What about overnight parking?"]),
      Faq("7", "What dining options are available?",
        "Campus offers several dining options: Main Campus Cafeteria (7AM-9PM daily) with international cuisine, Campus Grind Coffee Shop (6:30AM-10PM) for coffee and pastries, and Pizza Corner (11AM-11PM) for Italian food and late-night dining.",
        Dining,
        ["dining", "food", "eat", "cafeteria", "restaurant", "meal"],
        ["What are the hours?", "Do you have vegetarian options?", "How do I pay for meals?"]),
      Faq("8", "Do you have vegetarian and vegan options?",
        "Yes! All dining locations offer vegetarian options, and the Main Campus Cafeteria has a dedicated vegan section. Menu items are clearly labeled with dietary information including vegetarian, vegan, and gluten-free options.",
        Dining,
        ["vegetarian", "vegan", "dietary", "restrictions", "gluten-free", "healthy"],
        ["What about food allergies?", "Is there a salad bar?", "Can I see nutritional information?"]),
      Faq("9", "How do I borrow books from the library?",
        "To borrow books, bring your student ID to the Circulation Desk. Students can borrow up to 10 books for 3 weeks with one renewal option. Late fees are $0.50 per day per item. You can also reserve books online through the library catalog.",
        Library,
        ["borrow", "books", "checkout", "loan", "student id", "circulation"],
        ["How long can I keep books?", "How do I renew books?", "What if I lose a book?"]),
      Faq("10", "Can I print and scan at the library?",
        "Yes! The library has computer and printing services available 8AM-10PM (Mon-Fri) and 10AM-8PM (weekends). Printing costs $0.10 per page for black & white and $0.25 for color. Scanning services are free.",
        Library,
        ["print", "printing", "scan", "scanning", "computer", "copy"],
        ["How do I pay for printing?", "Can I print from my laptop?", "Is there wireless printing?"]),
      Faq("11", "How do I pay my tuition?",
        "Tuition can be paid at Student Financial Services (Administration Building, Room 150, 9AM-5PM Mon-Fri) by cash, check, or card. You can also pay online through the student portal or set up a payment plan. Contact billing@university.edu for assistance.",
        Administrative,
        ["tuition", "pay", "payment", "fees", "bill", "financial"],
        ["Can I set up a payment plan?", "When is tuition due?", "What payment methods are accepted?"]),
      Faq("12", "How do I get a replacement student ID?",
        "Visit Student ID Services at the Student Union Building, Ground Floor (8AM-6PM Mon-Fri, 10AM-4PM Sat). Bring photo identification and proof of enrollment. Replacement fee is $15. New students get their first ID free.",
        Administrative,
        ["student id", "replacement", "lost", "card", "new id"],
        ["What if I lost my ID?", "How much does it cost?", "What do I need to bring?"]),
      Faq("13", "How do I apply for scholarships?",
        "Visit the Financial Aid Office (Administration Building, Room 200, 9AM-4PM Mon-Fri). You'll need a completed FAFSA, academic transcripts, personal statement, and letters of recommendation. Applications are typically due by March 1st for the following academic year.",
        Administrative,
        ["scholarship", "financial aid", "apply", "application", "money", "assistance"],
        ["What scholarships are available?", "When is the deadline?", "Do I need good grades?"]),
      Faq("14", "What should I do in an emergency?",
        "In case of emergency, call 911 immediately. For campus security, call (555) 123-SAFE. Emergency phones are located throughout campus. The Campus Safety Office is available 24/7 and can provide escorts, emergency assistance, and incident reporting.",
        General,
        ["emergency", "safety", "security", "help", "911", "campus safety"],
        ["Where are emergency phones?", "How do I report an incident?", "Is there campus security?"]),
      Faq("15", "How do I connect to campus WiFi?",
        "Connect to the 'CampusWiFi' network using your student ID and password. If you have trouble connecting, visit IT Support in the Library Computer Lab or call the IT Help Desk at (555) 123-TECH. Guest WiFi is also available for visitors.",
        General,
        ["wifi", "internet", "connection", "network", "password", "it support"],
        ["What's the WiFi password?", "Why is WiFi slow?", "Is there guest WiFi?"])
    ]

  // ---------------------------------------------------------------------------
  // Relevance score

  /** +10 when the lowercased question contains the whole lowercased query. */
  function QuestionScore(faq: Faq, lowerQuery: string): nat {
    if Contains(Lower(faq.question), lowerQuery) then 10 else 0
  }

  /** How many keywords (counted with repetition) occur in the lowercased query. */
  function KeywordsInQuery(keywords: seq<string>, lowerQuery: string): nat {
    if keywords == [] then 0
    else
      KeywordsInQuery(keywords[..|keywords| - 1], lowerQuery)
      + (if Contains(lowerQuery, Lower(keywords[|keywords| - 1])) then 1 else 0)
  }

  /** How many keywords (counted with repetition) contain `word`. */
  function KeywordsContaining(keywords: seq<string>, word: string): nat {
    if keywords == [] then 0
    else
      KeywordsContaining(keywords[..|keywords| - 1], word)
      + (if Contains(Lower(keywords[|keywords| - 1]), word) then 1 else 0)
  }

  /** +1 when the question or the answer contains the word (once, even if both do). */
  function WordHit(faq: Faq, word: string): nat {
    if Contains(Lower(faq.question), word) || Contains(Lower(faq.answer), word) then 1 else 0
  }

  function WordScore(faq: Faq, word: string): nat {
    WordHit(faq, word) + 2 * KeywordsContaining(faq.keywords, word)
  }

  function WordsScore(faq: Faq, words: seq<string>): nat {
    if words == [] then 0
    else WordsScore(faq, words[..|words| - 1]) + WordScore(faq, words[|words| - 1])
  }

  /** The relevance of `faq` to `query`:
      10·[question ⊇ query] + 5·#{keywords ⊆ query}
      + Σ over query words longer than 2 of ([question or answer ⊇ word] + 2·#{keywords ⊇ word}). */
  function Score(faq: Faq, query: string): nat {
    var lowerQuery := Lower(query);
    QuestionScore(faq, lowerQuery)
    + 5 * KeywordsInQuery(faq.keywords, lowerQuery)
    + WordsScore(faq, LongWords(lowerQuery))
  }

  /** The source's accumulation of `score` in nested loops over the keywords and
      the query words. */
  method ScoreFaq(faq: Faq, query: string) returns (score: int)
    ensures score == Score(faq, query)
  {
    var lowercaseQuery := Lower(query);
    var queryWords := LongWords(lowercaseQuery);
    var question := Lower(faq.question);
    var answer := Lower(faq.answer);
    score := 0;
    if Contains(question, lowercaseQuery) {
      score := score + 10;
    }
    score := AddKeywordsInQuery(score, faq.keywords, lowercaseQuery);
    ghost var base := score;
    var w := 0;
    while w < |queryWords|
      invariant 0 <= w <= |queryWords|
      invariant score == base + WordsScore(faq, queryWords[..w])
    {
      var word := queryWords[w];
      if Contains(question, word) || Contains(answer, word) {
        score := score + 1;
      }
      score := AddKeywordsContaining(score, faq.keywords, word);
      WordsScoreStep(faq, queryWords, w);
      w := w + 1;
    }
    assert queryWords[..w] == queryWords;
  }

  /** The loop adding 5 for each keyword found in the lowercased query. */
  method AddKeywordsInQuery(score0: int, keywords: seq<string>, lowerQuery: string) returns (score: int)
    ensures score == score0 + 5 * KeywordsInQuery(keywords, lowerQuery)
  {
    score := score0;
    var k := 0;
    while k < |keywords|
      invariant 0 <= k <= |keywords|
      invariant score == score0 + 5 * KeywordsInQuery(keywords[..k], lowerQuery)
    {
      KeywordsInQueryStep(keywords, lowerQuery, k);
      if Contains(lowerQuery, Lower(keywords[k])) {
        score := score + 5;
      }
      k := k + 1;
    }
    assert keywords[..k] == keywords;
  }

  /** The inner loop adding 2 for each keyword that contains the query word. */
  method AddKeywordsContaining(score0: int, keywords: seq<string>, word: string) returns (score: int)
    ensures score == score0 + 2 * KeywordsContaining(keywords, word)
  {
    score := score0;
    var j := 0;
    while j < |keywords|
      invariant 0 <= j <= |keywords|
      invariant score == score0 + 2 * KeywordsContaining(keywords[..j], word)
    {
      KeywordsContainingStep(keywords, word, j);
      if Contains(Lower(keywords[j]), word) {
        score := score + 2;
      }
      j := j + 1;
    }
    assert keywords[..j] == keywords;
  }

  lemma KeywordsInQueryStep(keywords: seq<string>, lowerQuery: string, k: nat)
    requires k < |keywords|
    ensures KeywordsInQuery(keywords[..k + 1], lowerQuery)
      == KeywordsInQuery(keywords[..k], lowerQuery) + (if Contains(lowerQuery, Lower(keywords[k])) then 1 else 0)
  {
    assert keywords[..k + 1][..k] == keywords[..k];
  }

  lemma KeywordsContainingStep(keywords: seq<string>, word: string, j: nat)
    requires j < |keywords|
    ensures KeywordsContaining(keywords[..j + 1], word)
      == KeywordsContaining(keywords[..j], word) + (if Contains(Lower(keywords[j]), word) then 1 else 0)
  {
    assert keywords[..j + 1][..j] == keywords[..j];
  }

  lemma WordsScoreStep(faq: Faq, words: seq<string>, w: nat)
    requires w < |words|
    ensures WordsScore(faq, words[..w + 1]) == WordsScore(faq, words[..w]) + WordScore(faq, words[w])
  {
    assert words[..w + 1][..w] == words[..w];
  }

  // ---------------------------------------------------------------------------
  // Ranking

  datatype ScoredFaq = ScoredFaq(faq: Faq, score: int)

  /** The comparator `(a, b) => b.score - a.score` sorts ascending by this key. */
  function ByScoreDescending(sf: ScoredFaq): int {
    -sf.score
  }

  predicate IsRelevant(sf: ScoredFaq) {
    sf.score > 0
  }

  const MaxResults: nat := 5

  function ScoreAll(faqs: seq<Faq>, query: string): (r: seq<ScoredFaq>)
    ensures |r| == |faqs|
    ensures forall i :: 0 <= i < |faqs| ==> r[i] == ScoredFaq(faqs[i], Score(faqs[i], query))
  {
    seq(|faqs|, i requires 0 <= i < |faqs| => ScoredFaq(faqs[i], Score(faqs[i], query)))
  }

  function FaqsOf(sfs: seq<ScoredFaq>): (r: seq<Faq>)
    ensures |r| == |sfs|
    ensures forall i :: 0 <= i < |sfs| ==> r[i] == sfs[i].faq
  {
    seq(|sfs|, i requires 0 <= i < |sfs| => sfs[i].faq)
  }

  /** The relevant FAQs, best first, ties in table order. */
  function Rank(faqs: seq<Faq>, query: string): seq<ScoredFaq> {
    SortBy(Filter(ScoreAll(faqs, query), IsRelevant), ByScoreDescending)
  }

  /** Every ranked entry carries the true score of an FAQ of the table, and the
      ranking is ordered by non-increasing score. */
  lemma RankFacts(faqs: seq<Faq>, query: string)
    ensures forall sf :: sf in Rank(faqs, query) ==> sf.faq in faqs && sf.score == Score(sf.faq, query) > 0
    ensures SortedBy(Rank(faqs, query), ByScoreDescending)
  {
    var all := ScoreAll(faqs, query);
    var relevant := Filter(all, IsRelevant);
    var ranked := SortBy(relevant, ByScoreDescending);
    assert ranked == Rank(faqs, query);
    forall sf | sf in ranked ensures sf.faq in faqs && sf.score == Score(sf.faq, query) > 0 {
      assert sf in multiset(ranked);
      assert sf in multiset(relevant);
      assert sf in relevant;
      assert sf in all && IsRelevant(sf);
      var i :| 0 <= i < |all| && all[i] == sf;
      assert sf.faq == faqs[i];
    }
  }

  /** `searchFAQs`: at most five FAQs of the table, each with a positive score,
      in order of non-increasing score. */
  function SearchFaqs(faqs: seq<Faq>, query: string): (r: seq<Faq>)
    ensures |r| <= MaxResults
    ensures forall f :: f in r ==> f in faqs && Score(f, query) > 0
    ensures forall i, j :: 0 <= i < j < |r| ==> Score(r[i], query) >= Score(r[j], query)
  {
    var ranked := Rank(faqs, query);
    RankFacts(faqs, query);
    var top := Take(ranked, MaxResults);
    assert forall i :: 0 <= i < |top| ==> top[i] == ranked[i];
    FaqsOf(top)
  }

  /** An FAQ with a positive score that is not among the results was pushed out:
      five FAQs were returned and each scores at least as much as it does. */
  lemma SearchFaqsComplete(faqs: seq<Faq>, query: string, f: Faq)
    requires f in faqs && Score(f, query) > 0
    requires f !in SearchFaqs(faqs, query)
    ensures |SearchFaqs(faqs, query)| == MaxResults
    ensures forall g :: g in SearchFaqs(faqs, query) ==> Score(g, query) >= Score(f, query)
  {
    var all := ScoreAll(faqs, query);
    var relevant := Filter(all, IsRelevant);
    var ranked := Rank(faqs, query);
    var r := SearchFaqs(faqs, query);
    RankFacts(faqs, query);
    var i :| 0 <= i < |faqs| && faqs[i] == f;
    var x := all[i];
    assert x in relevant;
    assert x in multiset(relevant);
    assert x in multiset(ranked);
    var k :| 0 <= k < |ranked| && ranked[k] == x;
    var top := Take(ranked, MaxResults);
    assert r == FaqsOf(top);
    forall j | 0 <= j < |top| ensures top[j] != x {
      assert r[j] == top[j].faq && r[j] in r;
    }
    assert k >= |top|;
    assert |top| == MaxResults;
    forall g | g in r ensures Score(g, query) >= Score(f, query) {
      var j :| 0 <= j < |r| && r[j] == g;
      assert top[j] == ranked[j] && ranked[j] in ranked;
      assert ByScoreDescending(ranked[j]) <= ByScoreDescending(ranked[k]);
    }
  }

  /** The FAQs of `faqs` whose score is `v`, in table order. */
  function WithScore(faqs: seq<Faq>, query: string, v: int): seq<Faq> {
    FaqsOf(KeyClass(ScoreAll(faqs, query), ByScoreDescending, -v))
  }

  ghost predicate ScoresAreTrue(sfs: seq<ScoredFaq>, query: string) {
    forall sf :: sf in sfs ==> sf.score == Score(sf.faq, query)
  }

  /** Scoring the FAQs of correctly scored entries gives back those entries. */
  lemma RescoreAll(sfs: seq<ScoredFaq>, query: string)
    requires ScoresAreTrue(sfs, query)
    ensures ScoreAll(FaqsOf(sfs), query) == sfs
  {
    assert forall i :: 0 <= i < |sfs| ==> sfs[i] in sfs;
  }

  lemma {:induction false} KeyClassOfRelevant(sfs: seq<ScoredFaq>, v: int)
    ensures v > 0 ==> KeyClass(Filter(sfs, IsRelevant), ByScoreDescending, -v) == KeyClass(sfs, ByScoreDescending, -v)
    ensures v <= 0 ==> KeyClass(Filter(sfs, IsRelevant), ByScoreDescending, -v) == []
  {
    if sfs != [] {
      KeyClassOfRelevant(sfs[1..], v);
      var rest := Filter(sfs[1..], IsRelevant);
      if IsRelevant(sfs[0]) {
        assert ([sfs[0]] + rest)[1..] == rest;
      }
    }
  }

  lemma {:induction false} KeyClassPrefix<T>(a: seq<T>, b: seq<T>, key: T -> int, v: int)
    requires a <= b
    ensures KeyClass(a, key, v) <= KeyClass(b, key, v)
  {
    assert b == a + b[|a|..];
    KeyClassAppend(a, b[|a|..], key, v);
  }

  /** Scoring the results again gives the top of the ranking. */
  lemma RescoreResults(faqs: seq<Faq>, query: string)
    ensures ScoreAll(SearchFaqs(faqs, query), query) == Take(Rank(faqs, query), MaxResults)
  {
    var ranked := Rank(faqs, query);
    var top := Take(ranked, MaxResults);
    RankFacts(faqs, query);
    assert SearchFaqs(faqs, query) == FaqsOf(top);
    assert ScoresAreTrue(top, query) by {
      forall sf | sf in top ensures sf.score == Score(sf.faq, query) {
        var j :| 0 <= j < |top| && top[j] == sf;
        assert ranked[j] in ranked;
      }
    }
    RescoreAll(top, query);
  }

  /** The sort is stable: for every score, the returned FAQs with that score are
      the first ones with that score in table order. */
  lemma SearchFaqsStable(faqs: seq<Faq>, query: string, v: int)
    ensures WithScore(SearchFaqs(faqs, query), query, v) <= WithScore(faqs, query, v)
  {
    RescoreResults(faqs, query);
    TopOfClass(ScoreAll(faqs, query), v);
  }

  /** Within one score, the top of the ranking is a prefix of the entries with that score. */
  lemma TopOfClass(all: seq<ScoredFaq>, v: int)
    ensures FaqsOf(KeyClass(Take(SortBy(Filter(all, IsRelevant), ByScoreDescending), MaxResults), ByScoreDescending, -v))
         <= FaqsOf(KeyClass(all, ByScoreDescending, -v))
  {
    var ranked := SortBy(Filter(all, IsRelevant), ByScoreDescending);
    var top := Take(ranked, MaxResults);
    var rankedClass := KeyClass(ranked, ByScoreDescending, -v);
    KeyClassPrefix(top, ranked, ByScoreDescending, -v);
    FaqsOfPrefix(KeyClass(top, ByScoreDescending, -v), rankedClass);
    assert rankedClass == KeyClass(Filter(all, IsRelevant), ByScoreDescending, -v);
    KeyClassOfRelevant(all, v);
  }

  lemma FaqsOfPrefix(a: seq<ScoredFaq>, b: seq<ScoredFaq>)
    requires a <= b
    ensures FaqsOf(a) <= FaqsOf(b)
  {
  }

  /** A table without repeated FAQs gives results without repeated FAQs. */
  lemma SearchFaqsNoDuplicates(faqs: seq<Faq>, query: string)
    requires NoDuplicates(faqs)
    ensures NoDuplicates(SearchFaqs(faqs, query))
  {
    var all := ScoreAll(faqs, query);
    var ranked := Rank(faqs, query);
    var top := Take(ranked, MaxResults);
    var r := SearchFaqs(faqs, query);
    RankFacts(faqs, query);
    ScoreAllDistinct(faqs, query);
    RankedFromAll(faqs, query);
    PrefixMultiset(top, ranked);
    SubMultisetOfDistinct(top, all);
    assert r == FaqsOf(top);
    forall i, j | 0 <= i < j < |r| ensures r[i] != r[j] {
      assert top[i] in ranked && top[j] in ranked;
      assert top[i] != top[j];
    }
  }

  lemma ScoreAllDistinct(faqs: seq<Faq>, query: string)
    requires NoDuplicates(faqs)
    ensures NoDuplicates(ScoreAll(faqs, query))
  {
    var all := ScoreAll(faqs, query);
    forall i, j | 0 <= i < j < |all| ensures all[i] != all[j] {
      assert all[i].faq == faqs[i] && all[j].faq == faqs[j];
    }
  }

  lemma RankedFromAll(faqs: seq<Faq>, query: string)
    ensures multiset(Rank(faqs, query)) <= multiset(ScoreAll(faqs, query))
  {
    var relevant := Filter(ScoreAll(faqs, query), IsRelevant);
    assert multiset(Rank(faqs, query)) == multiset(relevant);
  }

  lemma PrefixMultiset<T>(a: seq<T>, b: seq<T>)
    requires a <= b
    ensures multiset(a) <= multiset(b)
  {
    assert b == a + b[|a|..];
  }

  /** The empty query is contained in every question and contains no keyword, and
      has no words: every FAQ scores exactly 10. */
  lemma {:induction false} EmptyQueryScore(faq: Faq)
    requires forall k :: k in faq.keywords ==> k != ""
    ensures Score(faq, "") == 10
  {
    assert forall i :: 0 <= i < |faq.keywords| ==> faq.keywords[i] in faq.keywords;
    ContainsEmpty(Lower(faq.question));
    NoKeywordInEmpty(faq.keywords);
    NoLongWordsInShort("");
    assert Lower("") == "";
  }

  lemma {:induction false} NoKeywordInEmpty(keywords: seq<string>)
    requires forall i :: 0 <= i < |keywords| ==> keywords[i] != ""
    ensures KeywordsInQuery(keywords, "") == 0
  {
    if keywords != [] {
      var init := keywords[..|keywords| - 1];
      assert forall i :: 0 <= i < |init| ==> init[i] == keywords[i];
      NoKeywordInEmpty(init);
      ContainedInEmpty(Lower(keywords[|keywords| - 1]));
    }
  }

  /** With every keyword non-empty, the empty query ranks all FAQs equally, so
      the stable sort returns the first five in table order. */
  lemma SearchEmptyQuery(faqs: seq<Faq>)
    requires forall f, k :: f in faqs && k in f.keywords ==> k != ""
    ensures SearchFaqs(faqs, "") == Take(faqs, MaxResults)
  {
    var all := ScoreAll(faqs, "");
    forall i | 0 <= i < |faqs| ensures all[i].score == 10 {
      EmptyQueryScore(faqs[i]);
    }
    FilterKeepsAll(all, IsRelevant);
    assert SortedBy(all, ByScoreDescending);
    SortSorted(all, ByScoreDescending);
    assert FaqsOf(all) == faqs;
  }

  // ---------------------------------------------------------------------------
  // Lookups

  /** `getFAQsByCategory`: exactly the FAQs of the given category, in table order. */
  function FaqsByCategory(faqs: seq<Faq>, category: string): (r: seq<Faq>)
    ensures IsSubsequence(r, faqs)
    ensures forall f :: f in r <==> f in faqs && CategoryName(f.category) == category
  {
    Filter(faqs, (f: Faq) => CategoryName(f.category) == category)
  }

  /** `f` mentions one of the related questions of `source` in its own question. */
  ghost predicate MentionsRelated(f: Faq, source: Faq) {
    exists q :: q in source.relatedQuestions && Contains(Lower(f.question), Lower(q))
  }

  function IsRelatedTo(f: Faq, source: Faq): (r: bool)
    ensures r <==> MentionsRelated(f, source)
  {
    Any(source.relatedQuestions, (question: string) => Contains(Lower(f.question), Lower(question)))
  }

  /** `faqs[i]` is the FAQ that `find` returns for `faqId`. */
  ghost predicate IsFirstWithId(faqs: seq<Faq>, faqId: string, i: int) {
    0 <= i < |faqs| && faqs[i].id == faqId && forall j :: 0 <= j < i ==> faqs[j].id != faqId
  }

  /** `getRelatedFAQs`: the FAQs, in table order, whose question contains one of
      the related questions of the first FAQ with the given id; nothing when no
      FAQ has that id. */
  function RelatedFaqs(faqs: seq<Faq>, faqId: string): (r: seq<Faq>)
    ensures IsSubsequence(r, faqs)
    ensures (forall f :: f in faqs ==> f.id != faqId) ==> r == []
  {
    match Find(faqs, (f: Faq) => f.id == faqId)
    case None => []
    case Some(source) => Filter(faqs, (f: Faq) => IsRelatedTo(f, source))
  }

  lemma RelatedFaqsOfFirst(faqs: seq<Faq>, faqId: string, i: int)
    requires IsFirstWithId(faqs, faqId, i)
    ensures forall f :: f in RelatedFaqs(faqs, faqId) <==> f in faqs && MentionsRelated(f, faqs[i])
  {
    var found := Find(faqs, (f: Faq) => f.id == faqId);
    assert faqs[i] in faqs;
    FirstWithIdIsUnique(faqs, faqId);
    assert found == Some(faqs[i]);
  }

  lemma FirstWithIdIsUnique(faqs: seq<Faq>, faqId: string)
    ensures forall i, j :: IsFirstWithId(faqs, faqId, i) && IsFirstWithId(faqs, faqId, j) ==> i == j
  {
  }

  // ---------------------------------------------------------------------------
  // The campus table

  /** Ids are unique and no keyword is empty. */
  lemma CampusFaqsWellFormed()
    ensures forall i, j :: 0 <= i < j < |CampusFaqs| ==> CampusFaqs[i].id != CampusFaqs[j].id
    ensures NoDuplicates(CampusFaqs)
    ensures forall f, k :: f in CampusFaqs && k in f.keywords ==> k != ""
  {
    CampusKeywordsNonEmpty();
    forall f, k | f in CampusFaqs && k in f.keywords ensures k != "" {
      var i :| 0 <= i < |CampusFaqs| && CampusFaqs[i] == f;
      var j :| 0 <= j < |f.keywords| && f.keywords[j] == k;
    }
  }

  lemma CampusKeywordsNonEmpty()
    ensures forall i, k :: 0 <= i < |CampusFaqs| && 0 <= k < |CampusFaqs[i].keywords| ==> |CampusFaqs[i].keywords[k]| > 0
  {
  }

  /** For the empty query the campus assistant returns the first five FAQs. */
  lemma CampusSearchEmptyQuery()
    ensures SearchFaqs(CampusFaqs, "") == CampusFaqs[..5]
  {
    CampusFaqsWellFormed();
    SearchEmptyQuery(CampusFaqs);
  }
}
