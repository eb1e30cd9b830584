/**
 * The synthetic provider of `lib/api/mock-data.ts`: five children, eight
 * conversations and the fixed statistics shown to demo accounts, and a
 * listing that sorts the conversations newest first (by default) and cuts
 * out the requested page.
 */
module MockData {
  import opened Wrappers
  import opened JsString
  import opened ApiTypes
  import opened SeqUtil
  import Characters

  // ---------------------------------------------------------------------
  // The dataset
  // ---------------------------------------------------------------------

  datatype MockChild = MockChild(
    id: int,
    name: string,
    age: nat,
    profileIcon: nat,
    parent: int,
    languagePreference: string,
    createdAt: string)

  /** A conversation with its details; the always-false script and video flags are not modelled. */
  datatype MockConversation = MockConversation(
    id: int,
    child: int,
    childName: string,
    character: string,
    characterName: string,
    context: string,
    length: nat,
    startDateTime: Timestamp,
    lastDateTime: Timestamp,
    userTokens: nat,
    aiTokens: nat,
    durationMinutes: nat,
    moodScore: real,
    topics: seq<string>)

  /**
   * An instant written `YYYY-MM-DDTHH:MM:SSZ` in the dataset, kept as its
   * fields; `Iso` gives the text back.
   */
  datatype Timestamp = Timestamp(year: nat, month: nat, day: nat, hour: nat, minute: nat, second: nat)

  function Pad(n: nat, width: nat): string {
    var digits := NatToString(n);
    if |digits| >= width then digits else seq(width - |digits|, _ => '0') + digits
  }

  /** The ISO-8601 text of a timestamp, as the dataset spells it. */
  function Iso(t: Timestamp): string {
    Pad(t.year, 4) + "-" + Pad(t.month, 2) + "-" + Pad(t.day, 2) + "T"
      + Pad(t.hour, 2) + ":" + Pad(t.minute, 2) + ":" + Pad(t.second, 2) + "Z"
  }

  datatype MockCharacterStat = MockCharacterStat(
    character: string,
    characterId: string,
    conversations: nat,
    avgMood: real,
    favoriteTopic: string)

  datatype MockDashboardStats = MockDashboardStats(
    totalConversations: nat,
    avgDuration: real,
    avgMoodScore: real,
    activeStudents: nat,
    totalChildren: nat)

  const MockChildren: seq<MockChild> := [
    MockChild(1, "Emma Wilson", 7, 1, 1, "en", "2024-01-15T10:00:00Z"),
    MockChild(2, "Liam Johnson", 8, 2, 1, "en", "2024-02-20T14:30:00Z"),
    MockChild(3, "Sofia Garcia", 6, 3, 2, "es", "2024-03-10T09:15:00Z"),
    MockChild(4, "Noah Brown", 9, 4, 2, "en", "2024-04-05T16:45:00Z"),
    MockChild(5, "Ava Martinez", 7, 5, 3, "es", "2024-05-12T11:20:00Z")]

  const Conv1 := MockConversation(1, 1, "Emma Wilson", "koko-panda", "Koko the Panda",
    "koko-panda friendship emotional support", 15, Timestamp(2025, 8, 15, 10, 30, 0), Timestamp(2025, 8, 15, 10, 45, 0),
    150, 200, 15, 8.5, ["friendship", "sharing", "emotions"])
  const Conv2 := MockConversation(2, 2, "Liam Johnson", "mochi-cat", "Mochi the Cat",
    "mochi-cat adventure curiosity exploration", 12, Timestamp(2025, 8, 15, 9, 15, 0), Timestamp(2025, 8, 15, 9, 27, 0),
    120, 180, 12, 7.8, ["adventure", "curiosity", "exploration"])
  const Conv3 := MockConversation(3, 3, "Sofia Garcia", "charlie-dog", "Charlie the Dog",
    "charlie-dog friendship loyalty playing", 18, Timestamp(2025, 8, 15, 11, 45, 0), Timestamp(2025, 8, 15, 12, 3, 0),
    180, 220, 18, 9.1, ["friendship", "loyalty", "playing"])
  const Conv4 := MockConversation(4, 4, "Noah Brown", "ravi-fox", "Ravi the Fox",
    "ravi-fox critical thinking problem solving", 8, Timestamp(2025, 8, 15, 14, 20, 0), Timestamp(2025, 8, 15, 14, 28, 0),
    90, 140, 8, 7.2, ["critical thinking", "problem solving", "different perspectives"])
  const Conv5 := MockConversation(5, 5, "Ava Martinez", "nova-owl", "Nova the Owl",
    "nova-owl academic learning science", 14, Timestamp(2025, 8, 15, 13, 15, 0), Timestamp(2025, 8, 15, 13, 29, 0),
    140, 190, 14, 8.7, ["academic learning", "science", "discovery"])
  const Conv6 := MockConversation(6, 1, "Emma Wilson", "dr-clover-goat", "Dr. Clover the Goat",
    "dr-clover-goat emotional guidance validation", 16, Timestamp(2025, 8, 14, 15, 30, 0), Timestamp(2025, 8, 14, 15, 46, 0),
    160, 210, 16, 8.9, ["emotional guidance", "validation", "feelings"])
  const Conv7 := MockConversation(7, 2, "Liam Johnson", "zenzo-sloth", "Zenzo the Sloth",
    "zenzo-sloth mindfulness patience breathing", 10, Timestamp(2025, 8, 14, 16, 45, 0), Timestamp(2025, 8, 14, 16, 55, 0),
    100, 150, 10, 9.2, ["mindfulness", "patience", "breathing"])
  const Conv8 := MockConversation(8, 3, "Sofia Garcia", "koko-panda", "Koko the Panda",
    "koko-panda emotional support feelings", 13, Timestamp(2025, 8, 14, 8, 20, 0), Timestamp(2025, 8, 14, 8, 33, 0),
    130, 170, 13, 8.3, ["emotional support", "feelings", "comfort"])

  /** `mockConversations`, in declaration order. */
  const MockConversations: seq<MockConversation> := [Conv1, Conv2, Conv3, Conv4, Conv5, Conv6, Conv7, Conv8]

  const MockCharacterStats: seq<MockCharacterStat> := [
    MockCharacterStat("Koko the Panda", "koko-panda", 145, 8.2, "Emotional Support"),
    MockCharacterStat("Mochi the Cat", "mochi-cat", 98, 7.8, "Adventure Learning"),
    MockCharacterStat("Charlie the Dog", "charlie-dog", 132, 8.5, "Social Skills"),
    MockCharacterStat("Ravi the Fox", "ravi-fox", 89, 8.0, "Critical Thinking"),
    MockCharacterStat("Nova the Owl", "nova-owl", 76, 8.3, "Academic Learning"),
    MockCharacterStat("Dr. Clover the Goat", "dr-clover-goat", 67, 8.6, "Emotional Counseling"),
    MockCharacterStat("Zenzo the Sloth", "zenzo-sloth", 43, 9.1, "Mindfulness")]

  const DashboardStatsConstant := MockDashboardStats(650, 12.4, 8.3, 18, 28)

  // ---------------------------------------------------------------------
  // The fixed answers
  // ---------------------------------------------------------------------

  /** `getChildren`: all five children and their number. */
  function GetChildren(): (r: (seq<MockChild>, nat))
    ensures r.1 == |r.0| == 5
    ensures forall i :: 0 <= i < 5 ==> r.0[i].id == i + 1
  {
    (MockChildren, |MockChildren|)
  }

  /** `getCharacterStats`. */
  function GetCharacterStats(): (r: seq<MockCharacterStat>)
    ensures |r| == |Characters.Ids|
    ensures forall i :: 0 <= i < |r| ==> r[i].characterId == Characters.Ids[i]
  {
    MockCharacterStats
  }

  /** `getDashboardStats`. */
  function GetDashboardStats(): (r: MockDashboardStats)
    ensures r.totalConversations == 650 && r.activeStudents == 18 && r.totalChildren == 28
    ensures r.avgMoodScore == 8.3 && r.avgDuration == 12.4
  {
    DashboardStatsConstant
  }

  function StatTotal(rows: seq<MockCharacterStat>): nat {
    if rows == [] then 0 else rows[0].conversations + StatTotal(rows[1..])
  }

  /**
   * The fixed statistics agree with each other and with the catalogue: the
   * per-character counts add up to the total of 650, there is a row per
   * catalogue character in catalogue order, each under its full name, and
   * fewer students are active than there are children.
   */
  lemma StatisticsAgree()
    ensures StatTotal(GetCharacterStats()) == GetDashboardStats().totalConversations
    ensures forall i :: 0 <= i < |GetCharacterStats()| ==>
      GetCharacterStats()[i].character == Characters.Catalogue[GetCharacterStats()[i].characterId].fullName
    ensures GetDashboardStats().activeStudents <= GetDashboardStats().totalChildren
  {
    CountsAddUp();
    NamesAreCatalogueNames();
  }

  lemma CountsAddUp()
    ensures StatTotal(MockCharacterStats) == 650
  {
    var rows := MockCharacterStats;
    assert StatTotal(rows[6..]) == 43;
    assert StatTotal(rows[5..]) == 110;
    assert StatTotal(rows[4..]) == 186;
    assert StatTotal(rows[3..]) == 275;
    assert StatTotal(rows[2..]) == 407;
    assert StatTotal(rows[1..]) == 505;
  }

  lemma NamesAreCatalogueNames()
    ensures forall i :: 0 <= i < |MockCharacterStats| ==>
      MockCharacterStats[i].character == Characters.Catalogue[MockCharacterStats[i].characterId].fullName
  {
  }

  // ---------------------------------------------------------------------
  // Sorting
  // ---------------------------------------------------------------------

  /** The fields of an instant are within their calendar ranges. */
  predicate InRange(t: Timestamp) {
    1 <= t.month <= 12 && 1 <= t.day <= 31 && t.hour < 24 && t.minute < 60 && t.second < 60
  }

  /**
   * An order-preserving stand-in for `new Date(s).getTime()`: the fields
   * read as the digits of one mixed-radix number, so a later instant gets a
   * larger key (calendar arithmetic is not modelled).
   */
  function TimeKey(t: Timestamp): int {
    t.year * 35942400 + t.month * 2764800 + t.day * 86400 + t.hour * 3600 + t.minute * 60 + t.second
  }

  function StartKey(c: MockConversation): int {
    TimeKey(c.startDateTime)
  }

  /** The dataset newest first, as worked out from its timestamps. */
  const NewestFirstOrder: seq<MockConversation> := [Conv4, Conv5, Conv3, Conv1, Conv2, Conv7, Conv6, Conv8]

  lemma StartKeys()
    ensures StartKey(Conv4) > StartKey(Conv5) > StartKey(Conv3) > StartKey(Conv1) > StartKey(Conv2)
    ensures StartKey(Conv2) > StartKey(Conv7) > StartKey(Conv6) > StartKey(Conv8)
  {
  }

  /**
   * `sortedConversations.sort((a, b) => time(b) - time(a))` on the dataset
   * gives conversations 4, 5, 3, 1, 2, 7, 6, 8: newest first, and a
   * rearrangement of the dataset.
   */
  lemma SortedDataset()
    ensures SortDescending(MockConversations, StartKey) == NewestFirstOrder
    ensures Descending(NewestFirstOrder, StartKey)
    ensures multiset(NewestFirstOrder) == multiset(MockConversations)
  {
    StartKeys();
    SortEight(Conv1, Conv2, Conv3, Conv4, Conv5, Conv6, Conv7, Conv8, StartKey);
    SortIsDescending(MockConversations, StartKey);
    SortPermutes(MockConversations, StartKey);
  }

  // The insertion sort worked through, one inserted element at a time, for
  // eight elements whose keys rank them d, e, c, a, b, g, f, h.

  lemma SortFour<T>(a: T, b: T, c: T, d: T, key: T -> int)
    requires key(d) > key(c) > key(a) > key(b)
    ensures SortDescending([a, b, c, d], key) == [d, c, a, b]
  {
    assert SortDescending([a], key) == [a] by {
      SortSnoc([], a, key);
      assert [] + [a] == [a];
    }
    assert SortDescending([a, b], key) == [a, b] by {
      SortSnoc([a], b, key);
      InsertAfter(b, [a], [], key);
      assert [a] + [b] == [a, b];
    }
    assert SortDescending([a, b, c], key) == [c, a, b] by {
      SortSnoc([a, b], c, key);
      assert [a, b] + [c] == [a, b, c];
      assert [c] + [a, b] == [c, a, b];
    }
    SortSnoc([a, b, c], d, key);
    assert [a, b, c] + [d] == [a, b, c, d];
    assert [d] + [c, a, b] == [d, c, a, b];
  }

  lemma SortFive<T>(a: T, b: T, c: T, d: T, e: T, key: T -> int)
    requires key(d) > key(e) > key(c) > key(a) > key(b)
    ensures SortDescending([a, b, c, d, e], key) == [d, e, c, a, b]
  {
    SortFour(a, b, c, d, key);
    SortSnoc([a, b, c, d], e, key);
    assert [a, b, c, d] + [e] == [a, b, c, d, e];
    InsertAfter(e, [d], [c, a, b], key);
    assert [d] + [c, a, b] == [d, c, a, b];
    assert [d] + ([e] + [c, a, b]) == [d, e, c, a, b];
  }

  lemma SortSix<T>(a: T, b: T, c: T, d: T, e: T, f: T, key: T -> int)
    requires key(d) > key(e) > key(c) > key(a) > key(b) > key(f)
    ensures SortDescending([a, b, c, d, e, f], key) == [d, e, c, a, b, f]
  {
    SortFive(a, b, c, d, e, key);
    SortSnoc([a, b, c, d, e], f, key);
    assert [a, b, c, d, e] + [f] == [a, b, c, d, e, f];
    InsertAfter(f, [d, e, c, a, b], [], key);
    assert [d, e, c, a, b] + [] == [d, e, c, a, b];
    assert [d, e, c, a, b] + [f] == [d, e, c, a, b, f];
  }

  lemma SortSeven<T>(a: T, b: T, c: T, d: T, e: T, f: T, g: T, key: T -> int)
    requires key(d) > key(e) > key(c) > key(a) > key(b) > key(g) > key(f)
    ensures SortDescending([a, b, c, d, e, f, g], key) == [d, e, c, a, b, g, f]
  {
    SortSix(a, b, c, d, e, f, key);
    SortSnoc([a, b, c, d, e, f], g, key);
    assert [a, b, c, d, e, f] + [g] == [a, b, c, d, e, f, g];
    InsertAfter(g, [d, e, c, a, b], [f], key);
    assert [d, e, c, a, b] + [f] == [d, e, c, a, b, f];
    assert [d, e, c, a, b] + ([g] + [f]) == [d, e, c, a, b, g, f];
  }

  lemma SortEight<T>(a: T, b: T, c: T, d: T, e: T, f: T, g: T, h: T, key: T -> int)
    requires key(d) > key(e) > key(c) > key(a) > key(b) > key(g) > key(f) > key(h)
    ensures SortDescending([a, b, c, d, e, f, g, h], key) == [d, e, c, a, b, g, f, h]
  {
    SortSeven(a, b, c, d, e, f, g, key);
    SortSnoc([a, b, c, d, e, f, g], h, key);
    assert [a, b, c, d, e, f, g] + [h] == [a, b, c, d, e, f, g, h];
    InsertAfter(h, [d, e, c, a, b, g, f], [], key);
    assert [d, e, c, a, b, g, f] + [] == [d, e, c, a, b, g, f];
    assert [d, e, c, a, b, g, f] + [h] == [d, e, c, a, b, g, f, h];
  }

  // ---------------------------------------------------------------------
  // The listing
  // ---------------------------------------------------------------------

  /** The sort runs iff the ordering mentions `-start_date_time` or is absent or empty. */
  predicate SortsNewestFirst(params: Params) {
    (params.ordering.Some? && Includes(params.ordering.value, "-start_date_time")) || !Truthy(params.ordering)
  }

  datatype MockPage = MockPage(conversations: seq<MockConversation>, pagination: Pagination)

  /** `MockDataService.getConversationsWithAnalytics`; `defaultSort` is not a parameter here and is ignored. */
  function GetConversationsWithAnalytics(params: Params): (r: MockPage)
    ensures |r.conversations| <= PageSizeOf(params)
    ensures r.pagination == MakePagination(8, PageOf(params), PageSizeOf(params))
  {
    var pageSize := PageSizeOf(params);
    var page := PageOf(params);
    var ordered := if SortsNewestFirst(params) then SortDescending(MockConversations, StartKey) else MockConversations;
    MockPage(PhysicalPage(ordered, page, pageSize), MakePagination(|ordered|, page, pageSize))
  }

  function Ids(cs: seq<MockConversation>): (ids: seq<int>)
    ensures |ids| == |cs|
    ensures forall i :: 0 <= i < |cs| ==> ids[i] == cs[i].id
  {
    seq(|cs|, i requires 0 <= i < |cs| => cs[i].id)
  }

  /**
   * What the listing holds: the page of the newest-first dataset when the
   * sort runs, of the dataset in declaration order otherwise; a page past
   * the end is empty.
   */
  lemma ListingSpec(params: Params)
    ensures var r := GetConversationsWithAnalytics(params);
      && (SortsNewestFirst(params) ==> r.conversations == PhysicalPage(NewestFirstOrder, PageOf(params), PageSizeOf(params)))
      && (!SortsNewestFirst(params) ==> r.conversations == PhysicalPage(MockConversations, PageOf(params), PageSizeOf(params)))
      && ((PageOf(params) - 1) * PageSizeOf(params) >= 8 ==> r.conversations == [])
  {
    ListingOrder(params);
    if (PageOf(params) - 1) * PageSizeOf(params) >= 8 {
      ListingPastEnd(params);
    }
  }

  lemma ListingOrder(params: Params)
    ensures var r := GetConversationsWithAnalytics(params);
      && (SortsNewestFirst(params) ==> r.conversations == PhysicalPage(NewestFirstOrder, PageOf(params), PageSizeOf(params)))
      && (!SortsNewestFirst(params) ==> r.conversations == PhysicalPage(MockConversations, PageOf(params), PageSizeOf(params)))
  {
    if SortsNewestFirst(params) {
      SortedDataset();
    }
  }

  lemma ListingPastEnd(params: Params)
    requires (PageOf(params) - 1) * PageSizeOf(params) >= 8
    ensures GetConversationsWithAnalytics(params).conversations == []
  {
    var r := GetConversationsWithAnalytics(params);
    var ordered := if SortsNewestFirst(params) then SortDescending(MockConversations, StartKey) else MockConversations;
    assert |ordered| == 8;
    assert |r.conversations| == 0;
  }

  /** By default the first page of three holds conversations 4, 5 and 3. */
  lemma FirstPageOfThree(params: Params)
    requires SortsNewestFirst(params) && PageOf(params) == 1 && PageSizeOf(params) == 3
    ensures Ids(GetConversationsWithAnalytics(params).conversations) == [4, 5, 3]
  {
    var p := GetConversationsWithAnalytics(params).conversations;
    assert p == PhysicalPage(NewestFirstOrder, 1, 3) by {
      ListingSpec(params);
    }
    assert Ids(NewestFirstOrder)[..3] == [4, 5, 3] by {
      NewestFirstIds();
    }
    FirstPageIds(NewestFirstOrder, 3);
  }

  lemma NewestFirstIds()
    ensures Ids(NewestFirstOrder) == [4, 5, 3, 1, 2, 7, 6, 8]
  {
  }

  /** The first page of a list holds the first `size` of its ids. */
  lemma FirstPageIds(items: seq<MockConversation>, size: PosNat)
    requires size <= |items|
    ensures Ids(PhysicalPage(items, 1, size)) == Ids(items)[..size]
  {
  }

  /**
   * An ascending request gets the declaration order, which is not in
   * ascending time: conversation 1 starts after conversation 2.
   */
  lemma AscendingIsNotSorted(params: Params)
    requires params.ordering == Some("start_date_time") && PageOf(params) == 1 && PageSizeOf(params) == 8
    ensures var r := GetConversationsWithAnalytics(params);
      r.conversations == MockConversations
      && StartKey(r.conversations[0]) > StartKey(r.conversations[1])
  {
    assert !Includes("start_date_time", "-start_date_time");
    ListingSpec(params);
    PhysicalPageSlice(MockConversations, 1, 8);
    assert MockConversations[0..8] == MockConversations;
    StartKeys();
  }
}
