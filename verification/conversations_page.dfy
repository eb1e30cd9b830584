/**
 * The decisions of the conversations page (`app/dashboard/conversations/page.tsx`):
 * which ordering it asks for, how a click on a column header changes the
 * sort, which rows the search and filters keep, how mood scores are
 * bucketed and coloured, how the page buttons move, and how the topic
 * badges of a row are cut down.
 */
module ConversationsPage {
  import opened Wrappers
  import opened JsString
  import opened ApiTypes
  import opened SeqUtil
  import DjangoClient
  import MockData

  // ---------------------------------------------------------------------
  // Sorting
  // ---------------------------------------------------------------------

  datatype SortField = Student | Character | Date | Time | Duration | MoodField
  datatype Direction = Asc | Desc

  /** The stored field a column is ordered by; mood is ordered by start time. */
  function DbField(f: SortField): string {
    match f
    case Student => "child"
    case Character => "context"
    case Date => "start_date_time"
    case Time => "start_date_time"
    case Duration => "last_date_time"
    case MoodField => "start_date_time"
  }

  /** The columns ordered by start time. */
  predicate ByStartTime(f: SortField) {
    f.Date? || f.Time? || f.MoodField?
  }

  /** `getSortingParam`: the stored field, prefixed with `-` for a descending sort. */
  function SortingParam(f: SortField, d: Direction): (s: string)
    ensures |s| > 0
    ensures (s[0] == '-') <==> d == Desc
    ensures d == Desc ==> s[1..] == DbField(f)
    ensures d == Asc ==> s == DbField(f)
  {
    if d == Desc then "-" + DbField(f) else DbField(f)
  }

  /** The page's view state: sort column and direction, page number and page size. */
  datatype View = View(field: SortField, direction: Direction, page: nat, pageSize: PosNat)

  /** The state on first render: newest first by date, page 1 of 20. */
  const InitialView: View := View(Date, Desc, 1, 20)

  /** `handleSort`: the current column flips direction, another column starts descending; both go to page 1. */
  function HandleSort(v: View, f: SortField): (v': View)
    ensures v'.field == f && v'.page == 1 && v'.pageSize == v.pageSize
    ensures f == v.field ==> v'.direction != v.direction
    ensures f != v.field ==> v'.direction == Desc
  {
    if v.field == f then v.(direction := if v.direction == Asc then Desc else Asc, page := 1)
    else v.(field := f, direction := Desc, page := 1)
  }

  /** Two clicks on the same column restore the direction; the page stays at 1. */
  lemma HandleSortTwice(v: View, f: SortField)
    ensures v.field == f ==> HandleSort(HandleSort(v, f), f) == v.(page := 1)
    ensures v.field != f ==> HandleSort(HandleSort(v, f), f).direction == Asc
  {
  }

  /** The rows-per-page selector: the new size, back to page 1. */
  function SetPageSize(v: View, size: PosNat): (v': View)
    ensures v'.pageSize == size && v'.page == 1
    ensures v'.field == v.field && v'.direction == v.direction
  {
    v.(pageSize := size, page := 1)
  }

  /** The parameters the page sends: page, page size and always an ordering. */
  function RequestParams(v: View): (p: Params)
    ensures p.page == Some(v.page) && p.pageSize == Some(v.pageSize as nat)
    ensures p.ordering == Some(SortingParam(v.field, v.direction)) && p.defaultSort.None?
  {
    Params(Some(v.page), Some(v.pageSize as nat), Some(SortingParam(v.field, v.direction)), None)
  }

  lemma ChildLacksMarkers()
    ensures !Includes("-child", "-start_date_time") && !Includes("-child", "-id")
  {
  }

  lemma ContextLacksMarkers()
    ensures !Includes("-context", "-start_date_time") && !Includes("-context", "-id")
  {
  }

  lemma LastDateLacksMarkers()
    ensures !Includes("-last_date_time", "-start_date_time") && !Includes("-last_date_time", "-id")
  {
  }

  /** No ascending ordering has a `-`, so none mentions either marker. */
  lemma AscendingLacksMarkers(f: SortField)
    ensures !Includes(DbField(f), "-start_date_time") && !Includes(DbField(f), "-id")
  {
    var s := DbField(f);
    assert '-' !in s;
    NoOccurrenceWithout(s, "-start_date_time", '-');
    NoOccurrenceWithout(s, "-id", '-');
  }

  /** A string without some character of `sub` does not include `sub`. */
  lemma NoOccurrenceWithout(s: string, sub: string, c: char)
    requires c in sub && c !in s
    ensures !Includes(s, sub)
  {
    IncludesIffOccurs(s, sub);
  }

  /**
   * The backend counts pages from the end and reverses them exactly when
   * the sort is descending on a start-time column (date, time or mood);
   * the synthetic provider sorts newest first under the same condition.
   */
  lemma InversionIffDescendingByStart(v: View)
    ensures DjangoClient.WantsNewestFirst(RequestParams(v)) <==> v.direction == Desc && ByStartTime(v.field)
    ensures MockData.SortsNewestFirst(RequestParams(v)) <==> v.direction == Desc && ByStartTime(v.field)
  {
    var s := SortingParam(v.field, v.direction);
    if v.direction == Asc {
      AscendingLacksMarkers(v.field);
    } else if ByStartTime(v.field) {
      assert s == "-start_date_time";
      IncludesSelf("-start_date_time");
    } else if v.field == Student {
      assert s == "-child";
      ChildLacksMarkers();
    } else if v.field == Character {
      assert s == "-context";
      ContextLacksMarkers();
    } else {
      assert s == "-last_date_time";
      LastDateLacksMarkers();
    }
  }

  /** The first render asks for newest first, so the inversion is on from the start. */
  lemma InitialRequestInverts()
    ensures DjangoClient.WantsNewestFirst(RequestParams(InitialView))
    ensures PageOf(RequestParams(InitialView)) == 1 && PageSizeOf(RequestParams(InitialView)) == 20
  {
    InversionIffDescendingByStart(InitialView);
  }

  // ---------------------------------------------------------------------
  // Page buttons
  // ---------------------------------------------------------------------

  /** Previous: `max(1, page - 1)`. */
  function PreviousPage(page: nat): (p: nat)
    ensures p >= 1
    ensures page >= 2 ==> p == page - 1
    ensures page <= 1 ==> p == 1
  {
    if page >= 2 then page - 1 else 1
  }

  /** Next: `min(total_pages, page + 1)`. */
  function NextPage(page: nat, totalPages: nat): (p: nat)
    ensures p <= totalPages
    ensures page < totalPages ==> p == page + 1
    ensures page >= totalPages ==> p == totalPages
  {
    if page + 1 <= totalPages then page + 1 else totalPages
  }

  predicate PreviousEnabled(page: nat) {
    page != 1
  }

  predicate NextEnabled(page: nat, totalPages: nat) {
    page != totalPages
  }

  /**
   * Inside the range `1..total` the buttons step by one and stay in range.
   * With no pages at all, Next is enabled on page 1 and leads to page 0,
   * which both providers then serve as page 1.
   */
  lemma PageButtons(page: nat, totalPages: nat)
    ensures 1 <= page <= totalPages && NextEnabled(page, totalPages) ==> NextPage(page, totalPages) == page + 1
    ensures 1 <= page <= totalPages && PreviousEnabled(page) ==> PreviousPage(page) == page - 1
    ensures 1 <= page <= totalPages ==> 1 <= PreviousPage(page) && NextPage(page, totalPages) <= totalPages
    ensures totalPages == 0 && page == 1 ==> NextEnabled(page, totalPages) && NextPage(page, totalPages) == 0
    ensures PageOf(Params(Some(0), None, None, None)) == 1
  {
  }

  // ---------------------------------------------------------------------
  // Search and filters
  // ---------------------------------------------------------------------

  /**
   * What the page reads of a listed conversation. `mood` is the score a
   * provider reported, `None` when it reported none.
   */
  datatype Row = Row(childName: string, character: string, mood: Option<real>, topics: Option<seq<string>>)

  /** The search box and the three selectors. */
  datatype Filters = Filters(search: string, character: string, mood: string, date: string)

  const ClearedFilters: Filters := Filters("", "all", "all", "all")

  /** `score || fallback`: a missing score and a score of 0 both fall back. */
  function MoodOr(mood: Option<real>, fallback: real): (r: real)
    ensures mood.Some? && mood.value != 0.0 ==> r == mood.value
    ensures mood.None? || mood.value == 0.0 ==> r == fallback
  {
    if mood.Some? && mood.value != 0.0 then mood.value else fallback
  }

  /** The mood selector: `all`, or the bucket of the score with a missing score counted as 0. */
  predicate MatchesMood(selector: string, score: real) {
    selector == "all"
    || (selector == "high" && score >= 8.0)
    || (selector == "medium" && score >= 6.0 && score < 8.0)
    || (selector == "low" && score < 6.0)
  }

  /** Search, character, mood and (when not `all`) date must all match. */
  predicate Keep(f: Filters, within: Row -> bool, r: Row) {
    && Includes(ToLower(r.childName), ToLower(f.search))
    && (f.character == "all" || r.character == f.character)
    && MatchesMood(f.mood, MoodOr(r.mood, 0.0))
    && (f.date == "all" || within(r))
  }

  /**
   * `filteredConversations`. `within` says whether a row's start lies in
   * the period the date selector names; it is consulted only when the
   * selector is not `all`.
   */
  function FilterRows(rows: seq<Row>, f: Filters, within: Row -> bool): (kept: seq<Row>)
    ensures |kept| <= |rows|
    ensures forall r :: r in kept ==> r in rows && Keep(f, within, r)
  {
    Filter(rows, (r: Row) => Keep(f, within, r))
  }

  /** Every row that matches is kept, in the order the provider listed them. */
  lemma FilterIsOrderedSelectionOfRows(rows: seq<Row>, f: Filters, within: Row -> bool)
    ensures Subsequence(FilterRows(rows, f, within), rows)
    ensures forall r :: r in rows && Keep(f, within, r) ==> r in FilterRows(rows, f, within)
  {
    FilterIsOrderedSelection(rows, (r: Row) => Keep(f, within, r));
  }

  /** The empty search matches every name. */
  lemma EmptySearchMatches(name: string)
    ensures Includes(ToLower(name), ToLower(""))
  {
    IncludesIffOccurs(ToLower(name), "");
    assert OccursAt(ToLower(name), "", 0);
  }

  /** With the filters cleared every row is kept. */
  lemma ClearedFiltersKeepAll(rows: seq<Row>, within: Row -> bool)
    ensures FilterRows(rows, ClearedFilters, within) == rows
  {
    forall i | 0 <= i < |rows| ensures Keep(ClearedFilters, within, rows[i]) {
      EmptySearchMatches(rows[i].childName);
    }
    FilterKeepsAll(rows, (r: Row) => Keep(ClearedFilters, within, r));
  }

  /** The search ignores case on both sides. */
  lemma SearchIgnoresCase(r: Row, f: Filters, g: Filters, within: Row -> bool)
    requires ToLower(f.search) == ToLower(g.search)
    requires f.character == g.character && f.mood == g.mood && f.date == g.date
    ensures Keep(f, within, r) <==> Keep(g, within, r)
  {
  }

  // ---------------------------------------------------------------------
  // Moods
  // ---------------------------------------------------------------------

  /** `getMoodColor`. */
  function MoodColor(score: real): string {
    if score >= 8.0 then "text-green-600"
    else if score >= 6.0 then "text-yellow-600"
    else "text-red-600"
  }

  /**
   * The three buckets partition the scores, and the colours follow the
   * same thresholds: green is high, yellow medium, red low.
   */
  lemma MoodBucketsPartition(score: real)
    ensures MatchesMood("high", score) || MatchesMood("medium", score) || MatchesMood("low", score)
    ensures !(MatchesMood("high", score) && MatchesMood("medium", score))
    ensures !(MatchesMood("high", score) && MatchesMood("low", score))
    ensures !(MatchesMood("medium", score) && MatchesMood("low", score))
    ensures MoodColor(score) == "text-green-600" <==> MatchesMood("high", score)
    ensures MoodColor(score) == "text-yellow-600" <==> MatchesMood("medium", score)
    ensures MoodColor(score) == "text-red-600" <==> MatchesMood("low", score)
  {
  }

  /**
   * A row without a mood (or with a mood of 0) is filtered as low but
   * shown as 7.5 in yellow, the medium colour.
   */
  lemma MissingMoodFilteredLowShownMedium(r: Row, within: Row -> bool)
    requires r.mood.None? || r.mood.value == 0.0
    ensures MatchesMood("low", MoodOr(r.mood, 0.0)) && !MatchesMood("medium", MoodOr(r.mood, 0.0))
    ensures MoodOr(r.mood, 7.5) == 7.5 && MoodColor(MoodOr(r.mood, 7.5)) == "text-yellow-600"
  {
  }

  // ---------------------------------------------------------------------
  // Topic badges
  // ---------------------------------------------------------------------

  /** The badges of a row: the first two topics, `+n` for the rest, `general` when there are none. */
  function TopicBadges(topics: Option<seq<string>>): (badges: seq<string>)
  {
    var ts := topics.GetOr([]);
    ts[..if |ts| < 2 then |ts| else 2]
      + (if |ts| > 2 then ["+" + NatToString(|ts| - 2)] else [])
      + (if |ts| == 0 then ["general"] else [])
  }

  /**
   * A row always shows between one and three badges: `general` alone when
   * it has no topics, otherwise its first topics followed, when more than
   * two, by a count of the hidden ones.
   */
  lemma TopicBadgesSpec(topics: Option<seq<string>>)
    ensures var ts := topics.GetOr([]); var b := TopicBadges(topics);
      && 1 <= |b| <= 3
      && (|ts| == 0 ==> b == ["general"])
      && (1 <= |ts| <= 2 ==> b == ts)
      && (|ts| > 2 ==> b == [ts[0], ts[1], "+" + NatToString(|ts| - 2)])
  {
    var ts := topics.GetOr([]);
    if |ts| > 2 {
      assert ts[..2] == [ts[0], ts[1]];
    } else if 1 <= |ts| {
      var n := if |ts| < 2 then |ts| else 2;
      assert n == |ts| && ts[..n] == ts;
    }
  }
}
