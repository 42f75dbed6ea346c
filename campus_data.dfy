/** The campus knowledge store (lib/campus-data.ts): the record types, the six
    constant tables, the whole-query searches over facilities and dining, and
    the upcoming-events window over the academic calendar. */
module CampusData {
  import opened Seqs
  import opened Sorting
  import opened Text

  datatype ClassSchedule = ClassSchedule(
    id: string,
    courseCode: string,
    courseName: string,
    instructor: string,
    time: string,
    days: seq<string>,
    location: string,
    semester: string)

  datatype FacilityType = Academic | Recreational | Administrative | Residential | Dining

  datatype CampusFacility = CampusFacility(
    id: string,
    name: string,
    kind: FacilityType,
    location: string,
    hours: string,
    description: string,
    amenities: seq<string>,
    contact: Option<string>)

  datatype DiningType = Cafeteria | Restaurant | Cafe | FoodTruck

  datatype MenuCategory = Breakfast | Lunch | Dinner | Snacks | Beverages

  /** Prices are in cents. */
  datatype MenuItem = MenuItem(name: string, priceCents: nat, category: MenuCategory, dietary: seq<string>)

  datatype DiningOption = DiningOption(
    id: string,
    name: string,
    kind: DiningType,
    location: string,
    hours: string,
    menu: seq<MenuItem>,
    specialties: seq<string>)

  datatype LibraryService = LibraryService(
    id: string,
    name: string,
    description: string,
    location: string,
    hours: string,
    policies: seq<string>,
    resources: seq<string>)

  datatype AdministrativeService = AdministrativeService(
    id: string,
    name: string,
    department: string,
    description: string,
    location: string,
    hours: string,
    requirements: seq<string>,
    contact: string,
    forms: Option<seq<string>>)

  /** A date of the proleptic Gregorian calendar, as written "YYYY-MM-DD" in the table. */
  datatype CalendarDate = CalendarDate(year: int, month: int, day: int)

  datatype EventType = Deadline | Holiday | Exam | Registration | Event

  datatype CalendarEvent = CalendarEvent(
    id: string,
    event: string,
    date: CalendarDate,
    description: string,
    kind: EventType)

  // ---------------------------------------------------------------------------
  // The tables

  const ClassSchedules: seq<ClassSchedule> := [
    ClassSchedule("1", "CS101", "Introduction to Computer Science", "Dr. Sarah Johnson",
      "9:00 AM - 10:30 AM", ["Monday", "Wednesday", "Friday"], "Science Building, Room 201", "Fall 2024"),
    ClassSchedule("2", "MATH201", "Calculus II", "Prof. Michael Chen",
      "11:00 AM - 12:30 PM", ["Tuesday", "Thursday"], "Mathematics Hall, Room 105", "Fall 2024"),
    ClassSchedule("3", "ENG102", "English Composition", "Dr. Emily Rodriguez",
      "2:00 PM - 3:30 PM", ["Monday", "Wednesday"], "Liberal Arts Building, Room 301", "Fall 2024"),
    ClassSchedule("4", "PHYS151", "General Physics I", "Dr. Robert Kim",
      "10:00 AM - 11:30 AM", ["Tuesday", "Thursday"], "Physics Lab, Room 150", "Fall 2024")
  ]

  const CampusFacilities: seq<CampusFacility> := [
    CampusFacility("1", "Central Library", Academic, "Main Campus, Building A",
      "8:00 AM - 10:00 PM (Mon-Fri), 10:00 AM - 8:00 PM (Weekends)",
      "Main library with extensive collection of books, journals, and digital resources",
      ["Study rooms", "Computer lab", "Printing services", "WiFi", "Silent study areas"],
      Some("library@university.edu")),
    CampusFacility("2", "Student Recreation Center", Recreational, "South Campus",
      "6:00 AM - 11:00 PM (Daily)",
      "Full-service fitness center with gym, pool, and sports facilities",
      ["Gym equipment", "Swimming pool", "Basketball courts", "Rock climbing wall", "Group fitness classes"],
      Some("recreation@university.edu")),
    CampusFacility("3", "Student Health Center", Administrative, "Health Services Building",
      "8:00 AM - 5:00 PM (Mon-Fri)",
      "Medical services for students including routine care and emergency services",
      ["Medical consultations", "Pharmacy", "Mental health counseling", "Vaccination services"],
      Some("(555) 123-4567")),
    CampusFacility("4", "North Residence Hall", Residential, "North Campus",
      "24/7 (Resident access)",
      "Modern dormitory housing for undergraduate students",
      ["Single and double rooms", "Common areas", "Laundry facilities", "Study lounges", "24/7 security"],
      Some("housing@university.edu")),
    CampusFacility("5", "Science Laboratory Complex", Academic, "Science Building, Floors 2-4",
      "8:00 AM - 6:00 PM (Mon-Fri)",
      "State-of-the-art laboratories for chemistry, biology, and physics",
      ["Research equipment", "Safety equipment", "Computer workstations", "Storage facilities"],
      Some("sciencelab@university.edu"))
  ]

  const DiningOptions: seq<DiningOption> := [
    DiningOption("1", "Main Campus Cafeteria", Cafeteria, "Student Union Building, Ground Floor",
      "7:00 AM - 9:00 PM (Daily)",
      [ MenuItem("Breakfast Burrito", 699, Breakfast, ["vegetarian"]),
        MenuItem("Grilled Chicken Salad", 899, Lunch, ["gluten-free"]),
        MenuItem("Pasta Primavera", 999, Dinner, ["vegetarian"]),
        MenuItem("Fresh Fruit Bowl", 499, Snacks, ["vegan", "gluten-free"]),
        MenuItem("Coffee", 299, Beverages, ["vegan"]) ],
      ["International cuisine", "Healthy options", "Vegetarian/Vegan meals"]),
    DiningOption("2", "Campus Grind Coffee Shop", Cafe, "Library Building, First Floor",
      "6:30 AM - 10:00 PM (Mon-Fri), 8:00 AM - 8:00 PM (Weekends)",
      [ MenuItem("Cappuccino", 450, Beverages, ["vegetarian"]),
        MenuItem("Croissant", 399, Breakfast, ["vegetarian"]),
        MenuItem("Panini", 799, Lunch, []),
        MenuItem("Muffin", 299, Snacks, ["vegetarian"]) ],
      ["Specialty coffee", "Fresh pastries", "Light meals"]),
    DiningOption("3", "Pizza Corner", Restaurant, "Student Union Building, Second Floor",
      "11:00 AM - 11:00 PM (Daily)",
      [ MenuItem("Margherita Pizza", 1299, Lunch, ["vegetarian"]),
        MenuItem("Pepperoni Pizza", 1499, Dinner, []),
        MenuItem("Caesar Salad", 799, Lunch, ["vegetarian"]),
        MenuItem("Garlic Bread", 499, Snacks, ["vegetarian"]) ],
      ["Fresh pizza", "Italian dishes", "Late night dining"])
  ]

  const LibraryServices: seq<LibraryService> := [
    LibraryService("1", "Book Borrowing", "Borrow books, journals, and multimedia materials",
      "Central Library, Circulation Desk",
      "8:00 AM - 10:00 PM (Mon-Fri), 10:00 AM - 8:00 PM (Weekends)",
      [ "Students can borrow up to 10 books at a time",
        "Loan period is 3 weeks with one renewal",
        "Late fees: $0.50 per day per item",
        "Valid student ID required" ],
      ["Books", "Journals", "DVDs", "Audio books", "Digital resources"]),
    LibraryService("2", "Research Assistance", "Get help with research projects and finding resources",
      "Central Library, Reference Desk",
      "9:00 AM - 8:00 PM (Mon-Fri), 12:00 PM - 6:00 PM (Weekends)",
      [ "Free consultation with librarians",
        "Advance booking recommended for extended sessions",
        "Group research sessions available" ],
      ["Database access", "Citation help", "Research guides", "Subject specialists"]),
    LibraryService("3", "Computer and Printing Services", "Access computers, printers, and scanning equipment",
      "Central Library, Computer Lab",
      "8:00 AM - 10:00 PM (Mon-Fri), 10:00 AM - 8:00 PM (Weekends)",
      [ "Student ID required for computer access",
        "Printing: $0.10 per page (B&W), $0.25 per page (Color)",
        "2-hour time limit during peak hours",
        "Free scanning services" ],
      ["Desktop computers", "Laptops for checkout", "Printers", "Scanners", "Software access"])
  ]

  const AdministrativeServices: seq<AdministrativeService> := [
    AdministrativeService("1", "Tuition Payment", "Student Financial Services",
      "Pay tuition fees and manage payment plans", "Administration Building, Room 150",
      "9:00 AM - 5:00 PM (Mon-Fri)",
      ["Student ID", "Payment method (cash, check, card, or online)"],
      "billing@university.edu",
      Some(["Payment plan application", "Financial aid forms"])),
    AdministrativeService("2", "Student ID Card Services", "Student Services",
      "Get new student ID cards or replace lost cards", "Student Union Building, Ground Floor",
      "8:00 AM - 6:00 PM (Mon-Fri), 10:00 AM - 4:00 PM (Sat)",
      ["Photo identification", "Proof of enrollment", "$15 replacement fee (if applicable)"],
      "studentid@university.edu",
      Some(["ID card application", "Replacement request form"])),
    AdministrativeService("3", "Scholarship Applications", "Financial Aid Office",
      "Apply for scholarships and financial assistance", "Administration Building, Room 200",
      "9:00 AM - 4:00 PM (Mon-Fri)",
      ["Completed FAFSA", "Academic transcripts", "Personal statement", "Letters of recommendation"],
      "scholarships@university.edu",
      Some(["Scholarship application", "FAFSA", "Merit scholarship form"])),
    AdministrativeService("4", "Course Registration", "Registrar's Office",
      "Register for classes and manage academic records", "Administration Building, Room 100",
      "8:00 AM - 5:00 PM (Mon-Fri)",
      ["Academic advisor approval", "Prerequisite completion", "Tuition payment (if required)"],
      "registrar@university.edu",
      Some(["Course registration form", "Add/drop form", "Transcript request"]))
  ]

  const AcademicCalendar: seq<CalendarEvent> := [
    CalendarEvent("1", "Fall Semester Begins", CalendarDate(2024, 8, 26),
      "First day of fall semester classes", Event),
    CalendarEvent("2", "Labor Day Holiday", CalendarDate(2024, 9, 2),
      "No classes - University closed", Holiday),
    CalendarEvent("3", "Add/Drop Deadline", CalendarDate(2024, 9, 6),
      "Last day to add or drop courses without penalty", Deadline),
    CalendarEvent("4", "Midterm Exams", CalendarDate(2024, 10, 14),
      "Midterm examination period begins", Exam),
    CalendarEvent("5", "Spring Registration Opens", CalendarDate(2024, 11, 1),
      "Registration opens for Spring 2025 semester", Registration),
    CalendarEvent("6", "Thanksgiving Break", CalendarDate(2024, 11, 28),
      "Thanksgiving holiday - No classes Nov 28-29", Holiday),
    CalendarEvent("7", "Final Exams", CalendarDate(2024, 12, 9),
      "Final examination period begins", Exam),
    CalendarEvent("8", "Fall Semester Ends", CalendarDate(2024, 12, 13),
      "Last day of fall semester", Event)
  ]

  /** The result of `getCampusData`. */
  datatype CampusTables = CampusTables(
    classSchedules: seq<ClassSchedule>,
    campusFacilities: seq<CampusFacility>,
    diningOptions: seq<DiningOption>,
    libraryServices: seq<LibraryService>,
    administrativeServices: seq<AdministrativeService>,
    academicCalendar: seq<CalendarEvent>)

  /** Ids are unique within each table, course codes are distinct ignoring case,
      and the calendar is in date order. */
  ghost predicate WellFormed(t: CampusTables) {
    (forall i, j :: 0 <= i < j < |t.classSchedules| ==> t.classSchedules[i].id != t.classSchedules[j].id)
    && (forall i, j :: 0 <= i < j < |t.classSchedules| ==>
          Lower(t.classSchedules[i].courseCode) != Lower(t.classSchedules[j].courseCode))
    && (forall i, j :: 0 <= i < j < |t.campusFacilities| ==> t.campusFacilities[i].id != t.campusFacilities[j].id)
    && (forall i, j :: 0 <= i < j < |t.diningOptions| ==> t.diningOptions[i].id != t.diningOptions[j].id)
    && (forall i, j :: 0 <= i < j < |t.libraryServices| ==> t.libraryServices[i].id != t.libraryServices[j].id)
    && (forall i, j :: 0 <= i < j < |t.administrativeServices| ==>
          t.administrativeServices[i].id != t.administrativeServices[j].id)
    && (forall i, j :: 0 <= i < j < |t.academicCalendar| ==> t.academicCalendar[i].id != t.academicCalendar[j].id)
    && SortedBy(t.academicCalendar, EventMillis)
  }

  /** `getCampusData`: the six tables, which are well formed. */
  function GetCampusData(): (r: CampusTables)
    ensures WellFormed(r)
  {
    CampusTablesWellFormed();
    CampusTables(ClassSchedules, CampusFacilities, DiningOptions, LibraryServices, AdministrativeServices, AcademicCalendar)
  }

  lemma CampusTablesWellFormed()
    ensures WellFormed(CampusTables(ClassSchedules, CampusFacilities, DiningOptions, LibraryServices,
                                    AdministrativeServices, AcademicCalendar))
  {
    IdsUnique();
    CourseCodesDistinct();
    CalendarInDateOrder();
  }

  lemma IdsUnique()
    ensures forall i, j :: 0 <= i < j < |ClassSchedules| ==> ClassSchedules[i].id != ClassSchedules[j].id
    ensures forall i, j :: 0 <= i < j < |CampusFacilities| ==> CampusFacilities[i].id != CampusFacilities[j].id
    ensures forall i, j :: 0 <= i < j < |DiningOptions| ==> DiningOptions[i].id != DiningOptions[j].id
    ensures forall i, j :: 0 <= i < j < |LibraryServices| ==> LibraryServices[i].id != LibraryServices[j].id
    ensures forall i, j :: 0 <= i < j < |AdministrativeServices| ==> AdministrativeServices[i].id != AdministrativeServices[j].id
    ensures forall i, j :: 0 <= i < j < |AcademicCalendar| ==> AcademicCalendar[i].id != AcademicCalendar[j].id
  {
  }

  /** The codes begin with different letters. */
  lemma CourseCodesDistinct()
    ensures forall i, j :: 0 <= i < j < |ClassSchedules| ==> Lower(ClassSchedules[i].courseCode) != Lower(ClassSchedules[j].courseCode)
  {
    forall i, j | 0 <= i < j < |ClassSchedules|
      ensures Lower(ClassSchedules[i].courseCode) != Lower(ClassSchedules[j].courseCode)
    {
      assert Lower(ClassSchedules[i].courseCode)[0] != Lower(ClassSchedules[j].courseCode)[0];
    }
  }

  /** The calendar's dates as day numbers. */
  lemma CalendarDays()
    ensures DaysFromCivil(AcademicCalendar[0].date) == 19961
    ensures DaysFromCivil(AcademicCalendar[1].date) == 19968
    ensures DaysFromCivil(AcademicCalendar[2].date) == 19972
    ensures DaysFromCivil(AcademicCalendar[3].date) == 20010
    ensures DaysFromCivil(AcademicCalendar[4].date) == 20028
    ensures DaysFromCivil(AcademicCalendar[5].date) == 20055
    ensures DaysFromCivil(AcademicCalendar[6].date) == 20066
    ensures DaysFromCivil(AcademicCalendar[7].date) == 20070
  {
    var c := AcademicCalendar;
    assert c[0].date == CalendarDate(2024, 8, 26) && c[1].date == CalendarDate(2024, 9, 2);
    assert c[2].date == CalendarDate(2024, 9, 6) && c[3].date == CalendarDate(2024, 10, 14);
    assert c[4].date == CalendarDate(2024, 11, 1) && c[5].date == CalendarDate(2024, 11, 28);
    assert c[6].date == CalendarDate(2024, 12, 9) && c[7].date == CalendarDate(2024, 12, 13);
    DaysIn2024(8, 26);
    DaysIn2024(9, 2);
    DaysIn2024(9, 6);
    DaysIn2024(10, 14);
    DaysIn2024(11, 1);
    DaysIn2024(11, 28);
    DaysIn2024(12, 9);
    DaysIn2024(12, 13);
  }

  /** From March on, a day of 2024 is 19782 days plus its day of the March-based year. */
  lemma DaysIn2024(month: int, day: int)
    requires 3 <= month <= 12
    ensures DaysFromCivil(CalendarDate(2024, month, day)) == 19782 + (153 * (month - 3) + 2) / 5 + day
  {
  }

  lemma CalendarInDateOrder()
    ensures SortedBy(AcademicCalendar, EventMillis)
  {
    var c := AcademicCalendar;
    CalendarDays();
    forall i | 0 <= i < |c| - 1 ensures EventMillis(c[i]) < EventMillis(c[i + 1]) {
      assert DaysFromCivil(c[i].date) < DaysFromCivil(c[i + 1].date);
      LaterDayLaterMillis(c[i].date, c[i + 1].date);
    }
    StrictlyIncreasingIsSorted(c, EventMillis);
  }

  lemma LaterDayLaterMillis(a: CalendarDate, b: CalendarDate)
    requires DaysFromCivil(a) < DaysFromCivil(b)
    ensures DateMillis(a) < DateMillis(b)
  {
    assert DateMillis(b) - DateMillis(a) == (DaysFromCivil(b) - DaysFromCivil(a)) * DayMillis;
  }

  lemma {:induction false} StrictlyIncreasingIsSorted<T>(s: seq<T>, key: T -> int)
    requires forall i :: 0 <= i < |s| - 1 ==> key(s[i]) < key(s[i + 1])
    ensures SortedBy(s, key)
  {
    forall i, j | 0 <= i < j < |s| ensures key(s[i]) <= key(s[j]) {
      StepsIncrease(s, key, i, j);
    }
  }

  lemma {:induction false} StepsIncrease<T>(s: seq<T>, key: T -> int, i: int, j: int)
    requires forall i :: 0 <= i < |s| - 1 ==> key(s[i]) < key(s[i + 1])
    requires 0 <= i <= j < |s|
    ensures key(s[i]) <= key(s[j])
    decreases j - i
  {
    if i < j {
      StepsIncrease(s, key, i + 1, j);
    }
  }

  // ---------------------------------------------------------------------------
  // Searches

  /** The lowercased name, description or some amenity of the facility contains `lowerQuery`. */
  ghost predicate FacilityMentions(f: CampusFacility, lowerQuery: string) {
    Contains(Lower(f.name), lowerQuery) || Contains(Lower(f.description), lowerQuery)
    || exists a :: a in f.amenities && Contains(Lower(a), lowerQuery)
  }

  function FacilityMatches(f: CampusFacility, lowerQuery: string): (r: bool)
    ensures r <==> FacilityMentions(f, lowerQuery)
  {
    Contains(Lower(f.name), lowerQuery) || Contains(Lower(f.description), lowerQuery)
    || Any(f.amenities, (a: string) => Contains(Lower(a), lowerQuery))
  }

  /** `searchFacilities`: the facilities that mention the whole query, in table order. */
  function SearchFacilities(facilities: seq<CampusFacility>, query: string): (r: seq<CampusFacility>)
    ensures IsSubsequence(r, facilities)
    ensures forall f :: f in r <==> f in facilities && FacilityMentions(f, Lower(query))
  {
    var lowerQuery := Lower(query);
    Filter(facilities, (f: CampusFacility) => FacilityMatches(f, lowerQuery))
  }

  /** The lowercased name, some specialty or some menu item name of the option contains `lowerQuery`. */
  ghost predicate DiningMentions(d: DiningOption, lowerQuery: string) {
    Contains(Lower(d.name), lowerQuery)
    || (exists s :: s in d.specialties && Contains(Lower(s), lowerQuery))
    || exists item :: item in d.menu && Contains(Lower(item.name), lowerQuery)
  }

  function DiningMatches(d: DiningOption, lowerQuery: string): (r: bool)
    ensures r <==> DiningMentions(d, lowerQuery)
  {
    Contains(Lower(d.name), lowerQuery)
    || Any(d.specialties, (s: string) => Contains(Lower(s), lowerQuery))
    || Any(d.menu, (item: MenuItem) => Contains(Lower(item.name), lowerQuery))
  }

  /** `searchDining`: the dining options that mention the whole query, in table order. */
  function SearchDining(options: seq<DiningOption>, query: string): (r: seq<DiningOption>)
    ensures IsSubsequence(r, options)
    ensures forall d :: d in r <==> d in options && DiningMentions(d, Lower(query))
  {
    var lowerQuery := Lower(query);
    Filter(options, (d: DiningOption) => DiningMatches(d, lowerQuery))
  }

  /** The empty query is contained in every name, so both searches return their whole table. */
  lemma EmptyQuerySearches(facilities: seq<CampusFacility>, options: seq<DiningOption>)
    ensures SearchFacilities(facilities, "") == facilities
    ensures SearchDining(options, "") == options
  {
    assert Lower("") == "";
    forall f | f in facilities ensures FacilityMatches(f, "") {
      ContainsEmpty(Lower(f.name));
    }
    FilterKeepsAll(facilities, (f: CampusFacility) => FacilityMatches(f, ""));
    forall d | d in options ensures DiningMatches(d, "") {
      ContainsEmpty(Lower(d.name));
    }
    FilterKeepsAll(options, (d: DiningOption) => DiningMatches(d, ""));
  }

  // ---------------------------------------------------------------------------
  // Course lookup

  /** `classSchedules.find((c) => c.courseCode.toLowerCase() === code.toLowerCase())`. */
  function FindCourse(schedules: seq<ClassSchedule>, code: string): (r: Option<ClassSchedule>)
    ensures r.None? <==> forall c :: c in schedules ==> Lower(c.courseCode) != Lower(code)
    ensures r.Some? ==> r.value in schedules && Lower(r.value.courseCode) == Lower(code)
  {
    Find(schedules, (c: ClassSchedule) => Lower(c.courseCode) == Lower(code))
  }

  /** With course codes distinct ignoring case, at most one schedule has a given code. */
  lemma AtMostOneCourse(t: CampusTables, code: string, a: ClassSchedule, b: ClassSchedule)
    requires WellFormed(t)
    requires a in t.classSchedules && Lower(a.courseCode) == Lower(code)
    requires b in t.classSchedules && Lower(b.courseCode) == Lower(code)
    ensures a == b
  {
    var i :| 0 <= i < |t.classSchedules| && t.classSchedules[i] == a;
    var j :| 0 <= j < |t.classSchedules| && t.classSchedules[j] == b;
  }

  // ---------------------------------------------------------------------------
  // Dates and the upcoming-events window

  const DayMillis: int := 24 * 60 * 60 * 1000

  /** The default window of `getUpcomingEvents`, in days. */
  const DefaultWindowDays: int := 30

  /** Days from 1970-01-01 to the date (negative before it), by Hinnant's
      `days_from_civil`; March is taken as the first month of the year so that
      the leap day falls at its end. */
  function DaysFromCivil(d: CalendarDate): int {
    var y := if d.month <= 2 then d.year - 1 else d.year;
    var era := y / 400;
    var yearOfEra := y - era * 400;
    var shiftedMonth := if d.month > 2 then d.month - 3 else d.month + 9;
    var dayOfYear := (153 * shiftedMonth + 2) / 5 + d.day - 1;
    var dayOfEra := yearOfEra * 365 + yearOfEra / 4 - yearOfEra / 100 + dayOfYear;
    era * 146097 + dayOfEra - 719468
  }

  /** `new Date("YYYY-MM-DD").getTime()`: a date-only string is read as UTC midnight. */
  function DateMillis(d: CalendarDate): int {
    DaysFromCivil(d) * DayMillis
  }

  function EventMillis(e: CalendarEvent): int {
    DateMillis(e.date)
  }

  /** The event falls between `now` and `now + days` days, both ends included. */
  predicate InWindow(e: CalendarEvent, days: int, now: int) {
    now <= EventMillis(e) <= now + days * DayMillis
  }

  /** `getUpcomingEvents(days)` at time `now` (milliseconds since the epoch). */
  function UpcomingEvents(calendar: seq<CalendarEvent>, days: int, now: int): (r: seq<CalendarEvent>)
    ensures SortedBy(r, EventMillis)
    ensures multiset(r) == multiset(Filter(calendar, (e: CalendarEvent) => InWindow(e, days, now)))
    ensures forall e :: e in r <==> e in calendar && InWindow(e, days, now)
  {
    var upcoming := Filter(calendar, (e: CalendarEvent) => InWindow(e, days, now));
    var r := SortBy(upcoming, EventMillis);
    forall e ensures e in r <==> e in upcoming {
      assert e in r <==> e in multiset(r);
      assert e in upcoming <==> e in multiset(upcoming);
    }
    r
  }

  /** On a calendar already in date order the sort changes nothing: the result
      is the window's events in table order. */
  lemma UpcomingInTableOrder(calendar: seq<CalendarEvent>, days: int, now: int)
    requires SortedBy(calendar, EventMillis)
    ensures UpcomingEvents(calendar, days, now) == Filter(calendar, (e: CalendarEvent) => InWindow(e, days, now))
  {
    var p := (e: CalendarEvent) => InWindow(e, days, now);
    FilterSorted(calendar, p, EventMillis);
    SortSorted(Filter(calendar, p), EventMillis);
  }

  /** When the window from day `today` holds exactly the events at indices `lo`
      to `hi - 1` of a calendar in date order, the upcoming events are that slice. */
  lemma UpcomingSlice(calendar: seq<CalendarEvent>, days: int, today: int, lo: nat, hi: nat)
    requires SortedBy(calendar, EventMillis)
    requires lo <= hi <= |calendar|
    requires forall i :: 0 <= i < |calendar| ==>
      (today <= DaysFromCivil(calendar[i].date) <= today + days <==> lo <= i < hi)
    ensures UpcomingEvents(calendar, days, today * DayMillis) == calendar[lo..hi]
  {
    var now := today * DayMillis;
    var p := (e: CalendarEvent) => InWindow(e, days, now);
    UpcomingInTableOrder(calendar, days, now);
    forall i | 0 <= i < |calendar| ensures p(calendar[i]) <==> lo <= i < hi {
      InWindowByDays(calendar[i], days, today);
    }
    FilterSlice(calendar, p, lo, hi);
  }

  lemma InWindowByDays(e: CalendarEvent, days: int, today: int)
    ensures InWindow(e, days, today * DayMillis) <==> today <= DaysFromCivil(e.date) <= today + days
  {
    var d := DaysFromCivil(e.date);
    assert EventMillis(e) == d * DayMillis;
    assert (today + days) * DayMillis == today * DayMillis + days * DayMillis;
  }

  lemma WindowOfFirstOfOctober()
    ensures forall i :: 0 <= i < |AcademicCalendar| ==>
      (19997 <= DaysFromCivil(AcademicCalendar[i].date) <= 19997 + DefaultWindowDays <==> 3 <= i < 4)
  {
    CalendarDays();
  }

  lemma WindowOfSecondOfOctober()
    ensures forall i :: 0 <= i < |AcademicCalendar| ==>
      (19998 <= DaysFromCivil(AcademicCalendar[i].date) <= 19998 + DefaultWindowDays <==> 3 <= i < 5)
  {
    CalendarDays();
  }

  /** On 2024-10-01 the next 30 days hold only the midterms: registration opens 31 days later. */
  lemma UpcomingOnFirstOfOctober()
    ensures UpcomingEvents(AcademicCalendar, DefaultWindowDays, DateMillis(CalendarDate(2024, 10, 1))) == AcademicCalendar[3..4]
  {
    var now := DateMillis(CalendarDate(2024, 10, 1));
    DaysIn2024(10, 1);
    assert now == 19997 * DayMillis;
    CalendarInDateOrder();
    WindowOfFirstOfOctober();
    UpcomingSlice(AcademicCalendar, DefaultWindowDays, 19997, 3, 4);
  }

  /** One day later the window reaches registration exactly at its upper end, which is included. */
  lemma UpcomingOnSecondOfOctober()
    ensures UpcomingEvents(AcademicCalendar, DefaultWindowDays, DateMillis(CalendarDate(2024, 10, 2))) == AcademicCalendar[3..5]
  {
    var now := DateMillis(CalendarDate(2024, 10, 2));
    DaysIn2024(10, 2);
    assert now == 19998 * DayMillis;
    CalendarInDateOrder();
    WindowOfSecondOfOctober();
    UpcomingSlice(AcademicCalendar, DefaultWindowDays, 19998, 3, 5);
  }
}
