/**
 * The backend provider of `lib/api/django-client.ts`. The HTTP backend is
 * a `Server` value: its conversations in storage order (oldest first, the
 * order the backend returns whatever ordering is asked for), its children,
 * the latest question of each conversation, the page size it uses when none
 * is asked for, and optionally a failure that every request meets. A list
 * request follows the page-number pagination of the Django REST framework:
 * page 1 always exists, any other page must be at most the page count, and
 * a missing page is a 404 whose body has no `error` field.
 */
module DjangoClient {
  import opened Wrappers
  import opened JsString
  import opened ApiTypes
  import opened SeqUtil
  import opened Enrichment
  import Characters

  // ---------------------------------------------------------------------
  // Request outcomes
  // ---------------------------------------------------------------------

  /**
   * How one `fetch` ended: `Ok` is a response with `response.ok` and its
   * parsed body; `NotOk` any other response, with the `error` field of its
   * body; `TimedOut` the abort after 30 seconds; `Threw` any other `Error`
   * (a network failure, a body that is not JSON); `ThrewNonError` a thrown
   * value that is not an `Error`.
   */
  datatype Outcome<T> =
    | Ok(status: nat, body: T)
    | NotOk(status: nat, bodyError: Option<string>)
    | TimedOut
    | Threw(message: string)
    | ThrewNonError

  const TimeoutMessage: string := "Request timeout - server took too long to respond"

  /** `makeRequest`: the outcome of one request as an `ApiResponse`. */
  function MakeRequest<T>(o: Outcome<T>): (r: ApiResponse<T>)
    ensures r.data.Some? <==> o.Ok?
    ensures o.Ok? ==> r.data.value == o.body && r.status == o.status && r.error.None?
    ensures o.NotOk? ==> r.status == o.status
    ensures o.NotOk? && Truthy(o.bodyError) ==> r.error == o.bodyError
    ensures o.NotOk? && !Truthy(o.bodyError) ==> r.error == Some("HTTP " + NatToString(o.status))
    ensures o.TimedOut? ==> r.error == Some(TimeoutMessage) && r.status == 408
    ensures o.Threw? ==> r.error == Some(o.message) && r.status == 0
    ensures o.ThrewNonError? ==> r.error == Some("Network error") && r.status == 0
  {
    match o
    case Ok(status, body) => ApiResponse(Some(body), None, status)
    case NotOk(status, bodyError) => Failure(OrElse(bodyError, Some("HTTP " + NatToString(status))).value, status)
    case TimedOut => Failure(TimeoutMessage, 408)
    case Threw(message) => Failure(message, 0)
    case ThrewNonError => Failure("Network error", 0)
  }

  /**
   * Which outcomes callers see as failures (a truthy `error`): all but a
   * successful response and an `Error` whose message is empty. Status 0
   * marks exactly the thrown outcomes.
   */
  lemma MakeRequestFailureIff<T>(o: Outcome<T>)
    ensures MakeRequest(o).Failed() <==> !(o.Ok? || (o.Threw? && o.message == ""))
    ensures MakeRequest(o).status == 0 <==> o.Threw? || o.ThrewNonError? || ((o.Ok? || o.NotOk?) && o.status == 0)
  {
    if o.NotOk? {
      NatToStringNonEmpty(o.status);
    }
  }

  lemma NatToStringNonEmpty(n: nat)
    ensures "HTTP " + NatToString(n) != ""
  {
  }

  // ---------------------------------------------------------------------
  // The backend
  // ---------------------------------------------------------------------

  /** The failure every request meets while the backend is unreachable or refusing. */
  datatype FailureMode =
    | HttpError(status: nat, bodyError: Option<string>)
    | Timeout
    | Thrown(message: string)
    | ThrownNonError

  datatype Server = Server(
    conversations: seq<Conversation>,
    children: seq<Child>,
    latestQuestions: map<int, Question>,
    defaultPageSize: PosNat,
    failure: Option<FailureMode>)

  /** A paginated list body: the total count and one page of results. */
  datatype ListBody<T> = ListBody(count: nat, results: seq<T>)

  function FailureOutcome<T>(f: FailureMode): Outcome<T> {
    match f
    case HttpError(status, bodyError) => NotOk(status, bodyError)
    case Timeout => TimedOut
    case Thrown(message) => Threw(message)
    case ThrownNonError => ThrewNonError
  }

  /** The backend accepts page 1 and every page up to the page count. */
  predicate PageExists(n: nat, page: PosNat, size: PosNat) {
    page == 1 || page <= CeilDiv(n, size)
  }

  /** A list endpoint: page and page size fall back to 1 and the server's default when not sent. */
  function ListOutcome<T>(server: Server, items: seq<T>, page: Option<nat>, pageSize: Option<nat>): Outcome<ListBody<T>> {
    if server.failure.Some? then FailureOutcome(server.failure.value)
    else
      var size := NumberOr(pageSize, server.defaultPageSize);
      var p := NumberOr(page, 1);
      if PageExists(|items|, p, size) then Ok(200, ListBody(|items|, PhysicalPage(items, p, size)))
      else NotOk(404, None)
  }

  /** `getConversations`: page and page size are sent only when truthy; the ordering is never honoured. */
  function GetConversations(server: Server, page: Option<nat>, pageSize: Option<nat>): ApiResponse<ListBody<Conversation>> {
    MakeRequest(ListOutcome(server, server.conversations, page, pageSize))
  }

  /** `/api/child/`: the first page of children. */
  function GetChildList(server: Server): ApiResponse<ListBody<Child>> {
    MakeRequest(ListOutcome(server, server.children, None, None))
  }

  /** `/api/child/<id>/`: the child with that id, if the backend answers. */
  function ChildById(server: Server, id: int): (r: Option<Child>)
    ensures r.Some? ==> r.value in server.children && r.value.id == id
    ensures r.None? ==> server.failure.Some? || forall c :: c in server.children ==> c.id != id
  {
    if server.failure.Some? then None else FindChild(server.children, id)
  }

  function FindChild(children: seq<Child>, id: int): (r: Option<Child>)
    ensures r.Some? ==> r.value in children && r.value.id == id
    ensures r.None? ==> forall c :: c in children ==> c.id != id
  {
    if children == [] then None
    else if children[0].id == id then Some(children[0])
    else FindChild(children[1..], id)
  }

  /** The latest question of a conversation, if the backend answers and has one. */
  function LatestQuestion(server: Server, conversationId: int): Option<Question> {
    if server.failure.None? && conversationId in server.latestQuestions then
      Some(server.latestQuestions[conversationId])
    else None
  }

  // ---------------------------------------------------------------------
  // getConversationsWithAnalytics
  // ---------------------------------------------------------------------

  /**
   * The condition under which the page number is counted from the end and
   * the page reversed: the ordering mentions `-start_date_time` or `-id`,
   * or there is no ordering and the default sort is not switched off.
   */
  predicate WantsNewestFirst(params: Params) {
    (params.ordering.Some?
      && (Includes(params.ordering.value, "-start_date_time") || Includes(params.ordering.value, "-id")))
    || (!Truthy(params.ordering) && params.defaultSort != Some(false))
  }

  /** `max(1, totalPages - requested + 1)`. */
  function ActualPage(totalPages: nat, requested: PosNat): (a: PosNat)
    ensures 1 <= requested <= totalPages ==> a == totalPages - requested + 1 && a <= totalPages
    ensures requested >= totalPages ==> a == 1
  {
    if totalPages - requested + 1 < 1 then 1 else totalPages - requested + 1
  }

  /** Counting from the end is an involution on the pages that exist. */
  lemma ActualPageInvolution(totalPages: nat, requested: PosNat)
    requires requested <= totalPages
    ensures 1 <= ActualPage(totalPages, requested) <= totalPages
    ensures ActualPage(totalPages, ActualPage(totalPages, requested)) == requested
  {
  }

  /** One listed conversation with the fields derived for it. */
  function Enrich(server: Server, conv: Conversation, parseInt: string -> Option<int>): (d: ConversationDetails)
    ensures d.conv == conv
    ensures d.character in Characters.Ids
  {
    var child := ChildById(server, conv.child);
    var question := LatestQuestion(server, conv.id);
    var character := ExtractCharacter(conv.context, parseInt);
    ConversationDetails(
      conv,
      if child.Some? && child.value.name != "" then child.value.name else "Child " + IntToString(conv.child),
      character,
      DisplayName(character),
      question,
      None,
      Some(MoodOf(question)),
      Some(ExtractTopics(question)))
  }

  function EnrichAll(server: Server, convs: seq<Conversation>, parseInt: string -> Option<int>): (ds: seq<ConversationDetails>)
    ensures |ds| == |convs|
    ensures forall i :: 0 <= i < |ds| ==> ds[i] == Enrich(server, convs[i], parseInt)
  {
    seq(|convs|, i requires 0 <= i < |convs| => Enrich(server, convs[i], parseInt))
  }

  /** The stored conversations underneath a list of detailed ones. */
  function Convs(ds: seq<ConversationDetails>): (cs: seq<Conversation>)
    ensures |cs| == |ds|
    ensures forall i :: 0 <= i < |ds| ==> cs[i] == ds[i].conv
  {
    seq(|ds|, i requires 0 <= i < |ds| => ds[i].conv)
  }

  /** The total count and the conversations of one listing, in the order they are shown. */
  datatype Window = Window(count: nat, convs: seq<Conversation>)

  /**
   * The requests of `getConversationsWithAnalytics`: the total count (a
   * request for page 1 of size 1), then the physical page — counted from
   * the end when newest first is wanted — reversed in that case.
   */
  function FetchWindow(server: Server, params: Params): (r: ApiResponse<Window>)
    ensures r.Failed() <==> r.data.None?
    ensures r.data.Some? ==> r.status == 200 && |r.data.value.convs| <= PageSizeOf(params)
  {
    var pageSize := PageSizeOf(params);
    var requested := PageOf(params);
    var countResponse := GetConversations(server, Some(1), Some(1));
    if countResponse.Failed() then ApiResponse(None, countResponse.error, countResponse.status)
    else
      var totalCount := if countResponse.data.Some? then countResponse.data.value.count else 0;
      var totalPages := CeilDiv(totalCount, pageSize);
      var actualPage := if WantsNewestFirst(params) then ActualPage(totalPages, requested) else requested;
      var pageResponse := GetConversations(server, Some(actualPage), Some(pageSize));
      if pageResponse.Failed() then ApiResponse(None, pageResponse.error, pageResponse.status)
      else
        var fetched := if pageResponse.data.Some? then pageResponse.data.value.results else [];
        var ordered := if WantsNewestFirst(params) then Reverse(fetched) else fetched;
        Success(Window(totalCount, ordered))
  }

  /** `getConversationsWithAnalytics`: the window, enriched, with the pagination block of the requested page. */
  function ConversationsWithAnalytics(server: Server, params: Params, parseInt: string -> Option<int>)
    : (r: ApiResponse<ConversationPage>)
    ensures r.data.Some? <==> FetchWindow(server, params).data.Some?
    ensures r.data.None? ==> r.error == FetchWindow(server, params).error && r.status == FetchWindow(server, params).status
    ensures r.data.Some? ==>
      var w := FetchWindow(server, params).data.value;
      && r.status == 200
      && Convs(r.data.value.conversations) == w.convs
      && r.data.value.pagination == MakePagination(w.count, PageOf(params), PageSizeOf(params))
  {
    var w := FetchWindow(server, params);
    if w.Failed() then ApiResponse(None, w.error, w.status)
    else
      var details := EnrichAll(server, w.data.value.convs, parseInt);
      assert Convs(details) == w.data.value.convs;
      Success(ConversationPage(details, MakePagination(w.data.value.count, PageOf(params), PageSizeOf(params))))
  }

  /** The page count of a healthy backend's conversations at the page size of `params`. */
  function TotalPages(server: Server, params: Params): nat {
    CeilDiv(|server.conversations|, PageSizeOf(params))
  }

  /** A healthy backend answers an existing page with it and the total, and any other page with a 404. */
  lemma HealthyRequest(server: Server, page: PosNat, size: PosNat)
    requires server.failure.None?
    ensures var r := GetConversations(server, Some(page), Some(size));
      var n := |server.conversations|;
      && (PageExists(n, page, size) ==>
            r == ApiResponse(Some(ListBody(n, PhysicalPage(server.conversations, page, size))), None, 200))
      && (!PageExists(n, page, size) ==> r == ApiResponse(None, Some("HTTP 404"), 404))
  {
    if !PageExists(|server.conversations|, page, size) {
      NotFoundText();
    }
  }

  lemma NotFoundText()
    ensures "HTTP " + NatToString(404) == "HTTP 404"
  {
    assert NatToString(4) == "4";
    assert NatToString(40) == "40";
    assert NatToString(404) == "404";
  }

  /**
   * What a healthy backend yields. Newest first: the physical page counted
   * from the end, reversed. Otherwise: the requested physical page as is,
   * or a 404 (reported as `HTTP 404`) beyond the last page. The count is
   * always the full number of conversations.
   */
  lemma HealthyWindow(server: Server, params: Params)
    requires server.failure.None?
    ensures var r := FetchWindow(server, params);
      var n := |server.conversations|;
      var s := PageSizeOf(params);
      var p := PageOf(params);
      && (WantsNewestFirst(params) ==>
            r == Success(Window(n, Reverse(PhysicalPage(server.conversations, ActualPage(TotalPages(server, params), p), s)))))
      && (!WantsNewestFirst(params) && PageExists(n, p, s) ==>
            r == Success(Window(n, PhysicalPage(server.conversations, p, s))))
      && (!WantsNewestFirst(params) && !PageExists(n, p, s) ==>
            r == ApiResponse(None, Some("HTTP 404"), 404))
  {
    var n := |server.conversations|;
    HealthyRequest(server, 1, 1);
    var t := TotalPages(server, params);
    var p := PageOf(params);
    var s := PageSizeOf(params);
    if WantsNewestFirst(params) {
      HealthyRequest(server, ActualPage(t, p), s);
    } else {
      HealthyRequest(server, p, s);
    }
  }

  /** The conversations of page `page` of a listing, none if the listing fails. */
  function ReturnedPage(server: Server, params: Params, page: PosNat): seq<Conversation> {
    var w := FetchWindow(server, params.(page := Some(page)));
    if w.data.Some? then w.data.value.convs else []
  }

  /** The dashboard shows exactly the returned page, in order, enriched. */
  lemma ReturnedPageIsShown(server: Server, params: Params, page: PosNat, parseInt: string -> Option<int>)
    ensures var r := ConversationsWithAnalytics(server, params.(page := Some(page)), parseInt);
      && (r.data.Some? ==> Convs(r.data.value.conversations) == ReturnedPage(server, params, page))
      && (r.data.None? ==> ReturnedPage(server, params, page) == [])
  {
  }

  /** Pages 1..k of `fetch`, one after the other. */
  function PagesOf<T>(fetch: PosNat -> seq<T>, k: nat): seq<T> {
    if k == 0 then [] else PagesOf(fetch, k - 1) + fetch(k)
  }

  /** The returned pages 1..k, one after the other. */
  function ReturnedPages(server: Server, params: Params, k: nat): seq<Conversation> {
    PagesOf(p => ReturnedPage(server, params, p), k)
  }

  /**
   * The point of the inversion: reading the newest-first pages 1 to T of a
   * healthy backend, one after the other, gives every conversation exactly
   * once, newest first.
   */
  lemma NewestFirstPagesReverseStorage(server: Server, params: Params)
    requires server.failure.None? && WantsNewestFirst(params)
    ensures ReturnedPages(server, params, TotalPages(server, params)) == Reverse(server.conversations)
  {
    var t := TotalPages(server, params);
    var items := server.conversations;
    var s := PageSizeOf(params);
    ReturnedPagesAreNewestFirst(server, params, t);
    NewestFirstPagesSuffix(items, s, t);
    assert Boundary(|items|, s, 0) == 0;
    assert items[0..] == items;
    assert ReadSuffix(items, s, t) == Reverse(items);
  }

  /** Where storage is cut after `j` pages of `s`: `min(j * s, n)`. */
  function Boundary(n: nat, s: PosNat, j: nat): (b: nat)
    ensures b <= n
  {
    MulMono(j, j, s);
    Min(j * s, n)
  }

  /** Physical pages T, T - 1, ..., T - k + 1 of `items`, each reversed, one after the other. */
  function NewestFirstPages<T>(items: seq<T>, s: PosNat, k: nat): seq<T>
    requires k <= CeilDiv(|items|, s)
  {
    if k == 0 then [] else NewestFirstPages(items, s, k - 1) + Reverse(PhysicalPage(items, CeilDiv(|items|, s) - k + 1, s))
  }

  /** The last part of storage, after the boundary k pages from the end, reversed. */
  function ReadSuffix<T>(items: seq<T>, s: PosNat, k: nat): seq<T>
    requires k <= CeilDiv(|items|, s)
  {
    Reverse(items[Boundary(|items|, s, CeilDiv(|items|, s) - k)..])
  }

  /** After k of the T pages, what has been read is the last part of storage, reversed. */
  lemma {:induction false} NewestFirstPagesSuffix<T>(items: seq<T>, s: PosNat, k: nat)
    requires k <= CeilDiv(|items|, s)
    ensures NewestFirstPages(items, s, k) == ReadSuffix(items, s, k)
  {
    if k == 0 {
      NoPagesRead(items, s);
    } else {
      NewestFirstPagesSuffix(items, s, k - 1);
      NextPageRead(items, s, k);
    }
  }

  lemma NoPagesRead<T>(items: seq<T>, s: PosNat)
    ensures ReadSuffix(items, s, 0) == []
  {
    CeilDivIsLeast(|items|, s);
    assert items[|items|..] == [];
  }

  /** Reading page k from the end extends what was read by that physical page, reversed. */
  lemma NextPageRead<T>(items: seq<T>, s: PosNat, k: PosNat)
    requires k <= CeilDiv(|items|, s)
    ensures ReadSuffix(items, s, k) == ReadSuffix(items, s, k - 1) + Reverse(PhysicalPage(items, CeilDiv(|items|, s) - k + 1, s))
  {
    var lo, hi := PageFacts(items, s, k);
    ReverseSlices(items, lo, hi);
  }

  /** Physical page T - k + 1 lies between the boundaries after k and after k - 1 pages. */
  lemma PageFacts<T>(items: seq<T>, s: PosNat, k: PosNat) returns (lo: nat, hi: nat)
    requires k <= CeilDiv(|items|, s)
    ensures lo <= hi <= |items|
    ensures lo == Boundary(|items|, s, CeilDiv(|items|, s) - k)
    ensures hi == Boundary(|items|, s, CeilDiv(|items|, s) - (k - 1))
    ensures PhysicalPage(items, CeilDiv(|items|, s) - k + 1, s) == items[lo..hi]
  {
    var t := CeilDiv(|items|, s);
    var n := |items|;
    PageBounds(n, s, t, k);
    var q: PosNat := t - k + 1;
    lo := (t - k) * s;
    hi := Min(lo + s, n);
    assert q - 1 == t - k;
    PhysicalPageSlice(items, q, s);
  }

  lemma ReverseSlices<T>(items: seq<T>, lo: nat, hi: nat)
    requires lo <= hi <= |items|
    ensures Reverse(items[hi..]) + Reverse(items[lo..hi]) == Reverse(items[lo..])
  {
    ReverseConcat(items[lo..hi], items[hi..]);
    assert items[lo..hi] + items[hi..] == items[lo..];
  }

  /** The pages a reader gets are the reversed physical pages, last first. */
  lemma ReturnedPagesAreNewestFirst(server: Server, params: Params, k: nat)
    requires server.failure.None? && WantsNewestFirst(params)
    requires k <= TotalPages(server, params)
    ensures ReturnedPages(server, params, k) == NewestFirstPages(server.conversations, PageSizeOf(params), k)
  {
    var fetch := p => ReturnedPage(server, params, p);
    forall p: PosNat | p <= k
      ensures fetch(p) == Reverse(PhysicalPage(server.conversations, TotalPages(server, params) - p + 1, PageSizeOf(params)))
    {
      ReturnedNewestFirst(server, params, p);
    }
    PagesOfNewestFirst(fetch, server.conversations, PageSizeOf(params), k);
  }

  /** Fetching physical pages T, T - 1, ... reversed gives the newest-first pages. */
  lemma {:induction false} PagesOfNewestFirst<T>(fetch: PosNat -> seq<T>, items: seq<T>, s: PosNat, k: nat)
    requires k <= CeilDiv(|items|, s)
    requires forall p: PosNat :: p <= k ==> fetch(p) == Reverse(PhysicalPage(items, CeilDiv(|items|, s) - p + 1, s))
    ensures PagesOf(fetch, k) == NewestFirstPages(items, s, k)
  {
    if k > 0 {
      PagesOfNewestFirst(fetch, items, s, k - 1);
    }
  }

  /** Page k of T newest-first pages is physical page T - k + 1, reversed. */
  lemma ReturnedNewestFirst(server: Server, params: Params, k: PosNat)
    requires server.failure.None? && WantsNewestFirst(params)
    requires k <= TotalPages(server, params)
    ensures ReturnedPage(server, params, k)
      == Reverse(PhysicalPage(server.conversations, TotalPages(server, params) - k + 1, PageSizeOf(params)))
  {
    var pk := params.(page := Some(k));
    assert PageOf(pk) == k && PageSizeOf(pk) == PageSizeOf(params) && WantsNewestFirst(pk);
    HealthyWindow(server, pk);
  }

  /** The arithmetic of counting pages from the end. */
  lemma PageBounds(n: nat, s: PosNat, t: nat, k: PosNat)
    requires t == CeilDiv(n, s) && k <= t
    ensures 0 <= (t - k) * s <= n
    ensures Min((t - (k - 1)) * s, n) == Min((t - k) * s + s, n)
    ensures Min((t - k) * s, n) == (t - k) * s
  {
    CeilDivIsLeast(n, s);
    MulMono(t - k, t - 1, s);
  }

  lemma MulMono(a: nat, b: nat, s: nat)
    requires a <= b
    ensures 0 <= a * s <= b * s
  {
  }


  /** Eight stored conversations with ids 1 to 8, in storage order. */
  function EightConversations(): (cs: seq<Conversation>)
    ensures |cs| == 8 && forall i :: 0 <= i < 8 ==> cs[i].id == i + 1
  {
    seq(8, i requires 0 <= i < 8 => Conversation(i + 1, 1, "", None, None))
  }

  function Ids(cs: seq<Conversation>): (ids: seq<int>)
    ensures |ids| == |cs|
  {
    seq(|cs|, i requires 0 <= i < |cs| => cs[i].id)
  }

  /**
   * With 8 conversations and pages of 3 the first newest-first page holds
   * only conversations 8 and 7: the short page is the last physical one.
   */
  lemma FirstPageIsShort(server: Server, params: Params)
    requires server == Server(EightConversations(), [], map[], 20, None)
    requires WantsNewestFirst(params) && PageSizeOf(params) == 3
    ensures Ids(ReturnedPage(server, params, 1)) == [8, 7]
  {
    assert TotalPages(server, params) == 3;
    ReturnedNewestFirst(server, params, 1);
    var page := PhysicalPage(server.conversations, 3, 3);
    assert |page| == 2;
    assert page[0].id == 7 && page[1].id == 8;
    assert Reverse(page)[0].id == 8 && Reverse(page)[1].id == 7;
  }

  /** A newest-first request beyond the last page silently returns the oldest page. */
  lemma BeyondLastPageIsOldest(server: Server, params: Params, parseInt: string -> Option<int>)
    requires server.failure.None? && WantsNewestFirst(params)
    requires PageOf(params) > TotalPages(server, params)
    ensures var r := ConversationsWithAnalytics(server, params, parseInt);
      r.data.Some?
      && Convs(r.data.value.conversations) == Reverse(PhysicalPage(server.conversations, 1, PageSizeOf(params)))
      && r.data.value.pagination.next.None?
  {
    HealthyWindow(server, params);
  }

  /** Only whether the ordering asks for newest first matters; the ordering text itself goes nowhere. */
  lemma OrderingMattersOnlyThroughInversion(server: Server, p1: Params, p2: Params, parseInt: string -> Option<int>)
    requires p1.page == p2.page && p1.pageSize == p2.pageSize
    requires WantsNewestFirst(p1) == WantsNewestFirst(p2)
    ensures ConversationsWithAnalytics(server, p1, parseInt) == ConversationsWithAnalytics(server, p2, parseInt)
  {
    assert PageOf(p1) == PageOf(p2) && PageSizeOf(p1) == PageSizeOf(p2);
    assert FetchWindow(server, p1) == FetchWindow(server, p2);
  }

  /** A failing backend's error is handed back unchanged (from the count request). */
  lemma FailurePassesThrough(server: Server, params: Params, parseInt: string -> Option<int>)
    requires server.failure.Some?
    requires var f := server.failure.value; !(f.Thrown? && f.message == "")
    ensures var r := ConversationsWithAnalytics(server, params, parseInt);
      var e := MakeRequest<ListBody<Conversation>>(FailureOutcome(server.failure.value));
      r.data.None? && r.error == e.error && r.status == e.status
  {
    MakeRequestFailureIff<ListBody<Conversation>>(FailureOutcome(server.failure.value));
  }

  /**
   * An `Error` with an empty message is not noticed: both requests look
   * successful but carry no data, so the listing is an empty page of an
   * empty collection, reported with status 200.
   */
  lemma EmptyErrorLooksLikeEmptyBackend(server: Server, params: Params, parseInt: string -> Option<int>)
    requires server.failure == Some(Thrown(""))
    ensures var r := ConversationsWithAnalytics(server, params, parseInt);
      r.status == 200 && r.data.Some? && r.data.value.conversations == [] && r.data.value.pagination.count == 0
  {
  }

  // ---------------------------------------------------------------------
  // getCharacterStats
  // ---------------------------------------------------------------------

  datatype CharacterStat = CharacterStat(character: string, characterId: string, conversations: nat, favoriteTopic: string)

  /** The character of each conversation, in order. */
  function CharactersOf(convs: seq<Conversation>, parseInt: string -> Option<int>): (ids: seq<string>)
    ensures |ids| == |convs|
    ensures forall i :: 0 <= i < |convs| ==> ids[i] == ExtractCharacter(convs[i].context, parseInt)
  {
    seq(|convs|, i requires 0 <= i < |convs| => ExtractCharacter(convs[i].context, parseInt))
  }

  /** One row per key of `keys`, counting the key's occurrences in `ids`. */
  function StatRows(keys: seq<string>, ids: seq<string>): (rows: seq<CharacterStat>)
    ensures |rows| == |keys|
    ensures forall i :: 0 <= i < |keys| ==> rows[i].characterId == keys[i] && rows[i].conversations == Count(ids, keys[i])
  {
    if keys == [] then []
    else
      var row := CharacterStat(DisplayName(keys[0]), keys[0], Count(ids, keys[0]), FavoriteTopic(keys[0]));
      [row] + StatRows(keys[1..], ids)
  }

  function TotalCount(rows: seq<CharacterStat>): nat {
    if rows == [] then 0 else rows[0].conversations + TotalCount(rows[1..])
  }

  lemma {:induction false} TotalCountIsSumCounts(keys: seq<string>, ids: seq<string>)
    ensures TotalCount(StatRows(keys, ids)) == SumCounts(keys, ids)
    decreases |keys|
  {
    if keys != [] {
      TotalCountIsSumCounts(keys[1..], ids);
      assert StatRows(keys, ids)[1..] == StatRows(keys[1..], ids);
    }
  }

  /** `getCharacterStats`: the fetched conversations grouped by character, in first-appearance order. */
  function CharacterStats(server: Server, parseInt: string -> Option<int>): (r: ApiResponse<seq<CharacterStat>>)
    ensures r.data.Some? ==> r.status == 200
  {
    var response := GetConversations(server, None, None);
    if response.Failed() then ApiResponse(None, response.error, response.status)
    else
      var convs := if response.data.Some? then response.data.value.results else [];
      var ids := CharactersOf(convs, parseInt);
      Success(StatRows(Distinct(ids), ids))
  }

  /** On a healthy backend the statistics are the rows of the first page of conversations. */
  lemma HealthyCharacterStats(server: Server, parseInt: string -> Option<int>)
    requires server.failure.None?
    ensures var convs := PhysicalPage(server.conversations, 1, server.defaultPageSize);
      var ids := CharactersOf(convs, parseInt);
      && |convs| == Min(|server.conversations|, server.defaultPageSize)
      && CharacterStats(server, parseInt) == Success(StatRows(Distinct(ids), ids))
  {
    assert PageExists(|server.conversations|, 1, server.defaultPageSize);
  }

  /** A failing backend's error and status are handed back unchanged, with no rows. */
  lemma CharacterStatsFailurePassesThrough(server: Server, parseInt: string -> Option<int>)
    requires server.failure.Some?
    requires var f := server.failure.value; !(f.Thrown? && f.message == "")
    ensures var r := CharacterStats(server, parseInt);
      var e := MakeRequest<ListBody<Conversation>>(FailureOutcome(server.failure.value));
      r.data.None? && r.error == e.error && r.status == e.status
  {
    MakeRequestFailureIff<ListBody<Conversation>>(FailureOutcome(server.failure.value));
  }

  /** An `Error` with an empty message is not noticed, so the statistics are an empty 200 answer. */
  lemma CharacterStatsEmptyError(server: Server, parseInt: string -> Option<int>)
    requires server.failure == Some(Thrown(""))
    ensures CharacterStats(server, parseInt) == Success([])
  {
  }

  /**
   * The rows built from some conversations: each row is a distinct
   * catalogue character with at least one conversation, named by its
   * display name and with a favourite topic from the table (never the
   * `General Learning` fallback); every conversation's character has a row;
   * and the counts add up to the number of conversations.
   */
  lemma StatRowsSpec(convs: seq<Conversation>, parseInt: string -> Option<int>)
    ensures var ids := CharactersOf(convs, parseInt);
      var rows := StatRows(Distinct(ids), ids);
      && (forall i, j :: 0 <= i < j < |rows| ==> rows[i].characterId != rows[j].characterId)
      && (forall i :: 0 <= i < |rows| ==>
            rows[i].characterId in Characters.Ids && rows[i].conversations >= 1
            && rows[i].character == DisplayName(rows[i].characterId)
            && rows[i].favoriteTopic == FavoriteTopic(rows[i].characterId)
            && rows[i].favoriteTopic != "General Learning")
      && (forall c :: c in convs ==>
            exists i :: 0 <= i < |rows| && rows[i].characterId == ExtractCharacter(c.context, parseInt))
      && TotalCount(rows) == |convs|
  {
    var ids := CharactersOf(convs, parseInt);
    var keys := Distinct(ids);
    var rows := StatRows(keys, ids);
    forall i | 0 <= i < |rows|
      ensures rows[i].characterId in Characters.Ids && rows[i].conversations >= 1
      ensures rows[i].character == DisplayName(rows[i].characterId)
      ensures rows[i].favoriteTopic == FavoriteTopic(rows[i].characterId)
      ensures rows[i].favoriteTopic != "General Learning"
    {
      StatRowWellFormed(convs, parseInt, i);
    }
    forall c | c in convs
      ensures exists i :: 0 <= i < |rows| && rows[i].characterId == ExtractCharacter(c.context, parseInt)
    {
      RowForConversation(convs, parseInt, c);
    }
    GroupSizesSum(ids);
    TotalCountIsSumCounts(keys, ids);
  }

  lemma StatRowWellFormed(convs: seq<Conversation>, parseInt: string -> Option<int>, i: nat)
    requires i < |Distinct(CharactersOf(convs, parseInt))|
    ensures var ids := CharactersOf(convs, parseInt);
      var row := StatRows(Distinct(ids), ids)[i];
      && row.characterId in Characters.Ids && row.conversations >= 1
      && row.character == DisplayName(row.characterId)
      && row.favoriteTopic == FavoriteTopic(row.characterId)
      && row.favoriteTopic != "General Learning"
  {
    var ids := CharactersOf(convs, parseInt);
    var keys := Distinct(ids);
    assert keys[i] in ids;
    var k :| 0 <= k < |ids| && ids[k] == keys[i];
    assert keys[i] in Characters.Ids;
    StatRowAt(keys, ids, i);
  }

  lemma RowForConversation(convs: seq<Conversation>, parseInt: string -> Option<int>, c: Conversation)
    requires c in convs
    ensures var ids := CharactersOf(convs, parseInt);
      var rows := StatRows(Distinct(ids), ids);
      exists i :: 0 <= i < |rows| && rows[i].characterId == ExtractCharacter(c.context, parseInt)
  {
    var ids := CharactersOf(convs, parseInt);
    var k :| 0 <= k < |convs| && convs[k] == c;
    var x := ids[k];
    assert x == ExtractCharacter(c.context, parseInt);
    var i := RowForKey(Distinct(ids), ids, x);
    assert StatRows(Distinct(ids), ids)[i].characterId == x;
  }

  lemma RowForKey(keys: seq<string>, ids: seq<string>, x: string) returns (i: nat)
    requires x in keys
    ensures i < |StatRows(keys, ids)| && StatRows(keys, ids)[i].characterId == x
  {
    i :| 0 <= i < |keys| && keys[i] == x;
  }

  lemma {:induction false} StatRowAt(keys: seq<string>, ids: seq<string>, i: nat)
    requires i < |keys|
    ensures StatRows(keys, ids)[i]
      == CharacterStat(DisplayName(keys[i]), keys[i], Count(ids, keys[i]), FavoriteTopic(keys[i]))
    decreases |keys|
  {
    if i > 0 {
      StatRowAt(keys[1..], ids, i - 1);
    }
  }

  // ---------------------------------------------------------------------
  // getDashboardStats
  // ---------------------------------------------------------------------

  /** The counting part of the dashboard statistics; the averages are left out. */
  datatype DashboardStats = DashboardStats(totalConversations: nat, activeStudents: nat, totalChildren: nat)

  /** `c.start_date_time && c.start_date_time.startsWith(today)`. */
  predicate StartedOn(c: Conversation, today: string) {
    Truthy(c.startDateTime) && StartsWith(c.startDateTime.value, today)
  }

  /** The child ids of the conversations that started on `today`, in order. */
  function ChildrenActiveOn(convs: seq<Conversation>, today: string): (ids: seq<int>)
    ensures forall x :: x in ids <==> exists c :: c in convs && StartedOn(c, today) && c.child == x
    ensures |ids| <= |convs|
  {
    if convs == [] then []
    else
      var rest := ChildrenActiveOn(convs[1..], today);
      assert forall c :: c in convs <==> c == convs[0] || c in convs[1..];
      if StartedOn(convs[0], today) then [convs[0].child] + rest else rest
  }

  /** `new Set(todaysConversations.map(c => c.child)).size`. */
  function ActiveStudents(convs: seq<Conversation>, today: string): nat {
    |Distinct(ChildrenActiveOn(convs, today))|
  }

  /** Distinct elements are counted once each: as many as the set of elements has. */
  lemma {:induction false} DistinctCardinality(xs: seq<int>)
    ensures |Distinct(xs)| == |set x | x in xs|
    decreases |xs|
  {
    if xs != [] {
      var init := xs[..|xs| - 1];
      var last := xs[|xs| - 1];
      assert xs == init + [last];
      DistinctCardinality(init);
      assert (set x | x in xs) == (set x | x in init) + {last};
      if last in Distinct(init) {
        assert last in init;
        assert (set x | x in xs) == (set x | x in init);
      } else {
        assert last !in (set x | x in init);
      }
    }
  }

  /**
   * The active-student count is the number of different children among the
   * conversations that started on `today`, so it never exceeds the number
   * of conversations.
   */
  lemma ActiveStudentsSpec(convs: seq<Conversation>, today: string)
    ensures ActiveStudents(convs, today) == |set c | c in convs && StartedOn(c, today) :: c.child|
    ensures ActiveStudents(convs, today) <= |convs|
  {
    var ids := ChildrenActiveOn(convs, today);
    DistinctCardinality(ids);
    assert (set x | x in ids) == (set c | c in convs && StartedOn(c, today) :: c.child);
  }

  /**
   * `getDashboardStats`: both requests' errors are ignored (a failed
   * request counts as empty); the total is the backend's count, the active
   * students and children come from the first page of each list.
   */
  function DashboardStatsOf(server: Server, today: string): (r: ApiResponse<DashboardStats>)
    ensures r.status == 200 && r.data.Some?
    ensures r.data.value.activeStudents <= r.data.value.totalConversations
  {
    var convResponse := GetConversations(server, None, None);
    var childResponse := GetChildList(server);
    var convs := if convResponse.data.Some? then convResponse.data.value.results else [];
    var total := if convResponse.data.Some? then convResponse.data.value.count else 0;
    PhysicalPageSlice(server.conversations, 1, server.defaultPageSize);
    var children := if childResponse.data.Some? then childResponse.data.value.results else [];
    ActiveStudentsSpec(convs, today);
    Success(DashboardStats(total, ActiveStudents(convs, today), |children|))
  }

  /**
   * On a healthy backend the total is the full count while the active
   * students come from the first page only, and the children total is
   * capped by the page size; on a failing one every count is 0.
   */
  lemma DashboardStatsSpec(server: Server, today: string)
    ensures var d := DashboardStatsOf(server, today).data.value;
      var convs := PhysicalPage(server.conversations, 1, server.defaultPageSize);
      && (server.failure.None? ==>
            d.totalConversations == |server.conversations|
            && d.activeStudents == |set c | c in convs && StartedOn(c, today) :: c.child|
            && d.activeStudents <= server.defaultPageSize
            && d.totalChildren == Min(|server.children|, server.defaultPageSize))
      && (server.failure.Some? ==> d == DashboardStats(0, 0, 0))
  {
    var convs := PhysicalPage(server.conversations, 1, server.defaultPageSize);
    assert PageExists(|server.conversations|, 1, server.defaultPageSize);
    assert PageExists(|server.children|, 1, server.defaultPageSize);
    ActiveStudentsSpec(convs, today);
    if server.failure.Some? {
      ActiveStudentsSpec([], today);
      assert ChildrenActiveOn([], today) == [];
    }
  }
}
