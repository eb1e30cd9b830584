/**
 * The records both data providers exchange with the dashboard: the
 * `{data, error, status}` envelope, the conversation and child records,
 * the request parameters of the conversation listing, and the pagination
 * block whose arithmetic the two providers share.
 */
module ApiTypes {
  import opened Wrappers
  import opened JsString

  type PosNat = n: nat | n >= 1 witness 1

  /** `ApiResponse<T>`: `data` on success, `error` otherwise, and the HTTP-like status. */
  datatype ApiResponse<T> = ApiResponse(data: Option<T>, error: Option<string>, status: int) {
    predicate Failed() {
      Truthy(error)
    }
  }

  function Success<T>(data: T): ApiResponse<T> {
    ApiResponse(Some(data), None, 200)
  }

  function Failure<T>(message: string, status: int): ApiResponse<T> {
    ApiResponse(None, Some(message), status)
  }

  datatype Child = Child(id: int, name: string, age: int, parent: int)

  /** A stored conversation, restricted to the fields the dashboard reads. */
  datatype Conversation = Conversation(
    id: int,
    child: int,
    context: string,
    startDateTime: Option<string>,
    lastDateTime: Option<string>)

  datatype Question = Question(text: Option<string>, moodEvaluation: Option<string>)

  /**
   * A mood score. `Score` is a number known to the model (the synthetic
   * data's constants and the 7.5 default); `Parsed` is the text a backend
   * mood evaluation yielded, before `parseFloat`.
   */
  datatype Mood = Score(value: real) | Parsed(text: string)

  /** `ConversationWithDetails`: a conversation with the fields the dashboard derives for it. */
  datatype ConversationDetails = ConversationDetails(
    conv: Conversation,
    childName: string,
    character: string,
    characterName: string,
    latestQuestion: Option<Question>,
    durationMinutes: Option<int>,
    moodScore: Option<Mood>,
    topics: Option<seq<string>>)

  /** The optional parameters of a conversation listing. */
  datatype Params = Params(
    page: Option<nat>,
    pageSize: Option<nat>,
    ordering: Option<string>,
    defaultSort: Option<bool>)

  function NoParams(): Params {
    Params(None, None, None, None)
  }

  datatype Pagination = Pagination(
    count: nat,
    next: Option<string>,
    previous: Option<string>,
    page: nat,
    pageSize: PosNat,
    totalPages: nat)

  datatype ConversationPage = ConversationPage(conversations: seq<ConversationDetails>, pagination: Pagination)

  /** `x || fallback` on an optional number: zero and absence both fall back. */
  function NumberOr(x: Option<nat>, fallback: PosNat): (r: PosNat)
    ensures x.Some? && x.value != 0 ==> r == x.value
    ensures x.None? || x.value == 0 ==> r == fallback
  {
    if x.Some? && x.value != 0 then x.value else fallback
  }

  /** The page size a listing uses: `page_size || 20`. */
  function PageSizeOf(p: Params): PosNat {
    NumberOr(p.pageSize, 20)
  }

  /** The page a listing reports: `page || 1`. */
  function PageOf(p: Params): PosNat {
    NumberOr(p.page, 1)
  }

  /** `Math.ceil(n / d)`. */
  function CeilDiv(n: nat, d: PosNat): (q: nat)
    ensures (q - 1) * d < n <= q * d || (n == 0 && q == 0)
  {
    (n + d - 1) / d
  }

  /** The page count is the least number of pages of size `d` that hold `n` items. */
  lemma CeilDivIsLeast(n: nat, d: PosNat)
    ensures CeilDiv(n, d) * d >= n
    ensures forall q: nat :: q * d >= n ==> q >= CeilDiv(n, d)
    ensures CeilDiv(n, d) == 0 <==> n == 0
  {
    forall q: nat | q * d >= n ensures q >= CeilDiv(n, d) {
      var c := CeilDiv(n, d);
      if n > 0 {
        MulCancel(c - 1, q, d);
      }
    }
  }

  lemma MulCancel(a: int, b: int, d: PosNat)
    requires a * d < b * d
    ensures a < b
  {
  }

  /** The pagination block: `next` iff another page follows, `previous` iff one precedes. */
  function MakePagination(count: nat, page: PosNat, pageSize: PosNat): (r: Pagination)
    ensures r.count == count && r.page == page && r.pageSize == pageSize
    ensures r.totalPages == CeilDiv(count, pageSize)
    ensures r.next.Some? <==> page < r.totalPages
    ensures r.next.Some? ==> r.next.value == "page=" + NatToString(page + 1)
    ensures r.previous.Some? <==> page > 1
    ensures r.previous.Some? ==> r.previous.value == "page=" + NatToString(page - 1)
  {
    var totalPages := CeilDiv(count, pageSize);
    Pagination(
      count,
      if page < totalPages then Some("page=" + NatToString(page + 1)) else None,
      if page > 1 then Some("page=" + NatToString(page - 1)) else None,
      page,
      pageSize,
      totalPages)
  }

  /** The last page has a `previous` but no `next`; a single page has neither. */
  lemma PaginationEnds(count: nat, pageSize: PosNat)
    requires count > 0
    ensures var last := CeilDiv(count, pageSize);
      last >= 1
      && MakePagination(count, last, pageSize).next.None?
      && (last > 1 <==> MakePagination(count, last, pageSize).previous.Some?)
    ensures MakePagination(count, 1, pageSize).previous.None?
    ensures MakePagination(count, 1, pageSize).next.Some? <==> count > pageSize
  {
    CeilDivIsLeast(count, pageSize);
    var t := CeilDiv(count, pageSize);
    if count > pageSize {
      assert 1 * pageSize < count;
      assert t >= 2;
    } else {
      assert 1 * pageSize >= count;
    }
  }

  function Min(a: int, b: int): int {
    if a <= b then a else b
  }

  /**
   * Page `page` of `items` cut into pages of `size`, the last one possibly
   * short and any page past the end empty: `items.slice((page - 1) * size,
   * page * size)`, which is also what a page-number paginator serves.
   */
  function PhysicalPage<T>(items: seq<T>, page: PosNat, size: PosNat): (r: seq<T>)
    ensures |r| <= size
  {
    var lo := (page - 1) * size;
    items[Min(lo, |items|)..Min(lo + size, |items|)]
  }

  /**
   * Page `page` holds the items from position `(page - 1) * size` on, as
   * many as there are up to `size`, and nothing when it starts past the end.
   */
  lemma PhysicalPageContents<T>(items: seq<T>, page: PosNat, size: PosNat)
    ensures var r := PhysicalPage(items, page, size);
      && ((page - 1) * size <= |items| ==> |r| == Min(size, |items| - (page - 1) * size))
      && ((page - 1) * size >= |items| ==> r == [])
      && (forall i :: 0 <= i < |r| ==> (page - 1) * size + i < |items| && r[i] == items[(page - 1) * size + i])
  {
  }

  /** An existing physical page is a slice of storage. */
  lemma PhysicalPageSlice<T>(items: seq<T>, page: PosNat, size: PosNat)
    requires (page - 1) * size <= |items|
    ensures PhysicalPage(items, page, size) == items[(page - 1) * size..Min((page - 1) * size + size, |items|)]
  {
    assert page * size == (page - 1) * size + size;
  }
}
