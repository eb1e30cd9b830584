/**
 * The routing facade of `lib/api/hybrid-client.ts`. A client remembers a
 * user and a tier; the tier is `demo` until a user is set, and only the
 * demo tier is ever branched on. Demo calls to the four dashboard
 * operations are answered by the synthetic provider, demo calls to the six
 * backend-only operations are refused locally with 403, and every other
 * call goes to the backend — except a child listing without a parent id,
 * refused locally with 400. The health check always goes to the backend.
 */
module HybridClient {
  import opened Wrappers
  import opened ApiTypes
  import opened JsString
  import opened Auth
  import MockData
  import DjangoClient

  /** The facade's state: the user last set and the tier computed for it. */
  datatype Client = Client(user: Option<Principal>, userType: UserType)

  /** `new HybridApiClient(user)`: the user is stored but not classified. */
  function NewClient(user: Option<Principal>): (c: Client)
    ensures c.user == user && c.userType == Demo
  {
    Client(user, Demo)
  }

  /** `setUser`: stores the user and its tier. */
  function SetUser(c: Client, user: Option<Principal>): (c': Client)
    ensures c'.user == user
    ensures c'.userType == Auth.GetUserType(user)
  {
    Client(user, Auth.GetUserType(user))
  }

  /** `getUserType()`: the stored tier. */
  function CurrentUserType(c: Client): UserType {
    c.userType
  }

  /** The exported singleton is a client without a user, hence in the demo tier. */
  const DefaultClient: Client := NewClient(None)

  /**
   * The tier reported is the one the last `setUser` computed: it no longer
   * depends on what the client held before, and a freshly constructed
   * client reports `demo` whatever user it was built with.
   */
  lemma SetUserDeterminesTier(c: Client, user: Option<Principal>, before: Option<Principal>)
    ensures CurrentUserType(SetUser(c, user)) == Auth.GetUserType(user)
    ensures SetUser(SetUser(c, before), user) == SetUser(c, user)
    ensures CurrentUserType(NewClient(user)) == Demo
    ensures CurrentUserType(DefaultClient) == Demo
  {
  }

  // ---------------------------------------------------------------------
  // Operations and their routes
  // ---------------------------------------------------------------------

  /** The eleven calls of the facade, with the arguments that influence routing. */
  datatype Operation =
    | ConversationsWithAnalytics
    | CharacterStats
    | DashboardStats
    | Children(parentId: Option<int>)
    | HealthCheck
    | Conversations
    | ConversationDetails
    | MoodMeterCoordinates
    | TodaysChatHistory
    | TodaysEmotions
    | UsageStatistics

  /** Where a call is answered. */
  datatype Route = ToMock | ToBackend | Refused(message: string, status: int)

  /** The four operations the synthetic provider can answer. */
  predicate HasMock(op: Operation) {
    op.ConversationsWithAnalytics? || op.CharacterStats? || op.DashboardStats? || op.Children?
  }

  /** The six pass-through operations that exist only on the backend. */
  predicate BackendOnly(op: Operation) {
    !HasMock(op) && !op.HealthCheck?
  }

  const DemoRefusal: string := "Not available in demo mode"
  const ParentIdRequired: string := "Parent ID required for real data"

  /** `!parentId`: an absent parent id and the id 0 are both missing. */
  predicate MissingParent(parentId: Option<int>) {
    parentId.None? || parentId.value == 0
  }

  /** The branch each method takes on the stored tier. */
  function RouteOf(t: UserType, op: Operation): (r: Route)
    ensures r.Refused? ==> r.status == 403 || r.status == 400
  {
    match op
    case HealthCheck => ToBackend
    case Children(parentId) =>
      if t == Demo then ToMock
      else if MissingParent(parentId) then Refused(ParentIdRequired, 400)
      else ToBackend
    case _ =>
      if t == Demo then (if HasMock(op) then ToMock else Refused(DemoRefusal, 403))
      else ToBackend
  }

  /**
   * The routing table: the synthetic provider answers exactly the demo
   * tier's dashboard calls; the demo tier's backend-only calls are refused
   * with 403; a non-demo child listing without a parent id is refused with
   * 400; everything else reaches the backend.
   */
  lemma RoutingTable(t: UserType, op: Operation)
    ensures RouteOf(t, op) == ToMock <==> t == Demo && HasMock(op)
    ensures RouteOf(t, op) == Refused(DemoRefusal, 403) <==> t == Demo && BackendOnly(op)
    ensures RouteOf(t, op) == Refused(ParentIdRequired, 400) <==> t != Demo && op.Children? && MissingParent(op.parentId)
    ensures RouteOf(t, op) == ToBackend <==>
      op.HealthCheck? || (t != Demo && !(op.Children? && MissingParent(op.parentId)))
  {
  }

  /** Only the demo tier is branched on: educators are routed exactly like admins. */
  lemma EducatorRoutedLikeAdmin(op: Operation)
    ensures RouteOf(Educator, op) == RouteOf(Admin, op)
    ensures RouteOf(Educator, op) != ToMock
  {
  }

  // ---------------------------------------------------------------------
  // Answers
  // ---------------------------------------------------------------------

  /** A facade answer: the synthetic provider's, the backend's, or one made locally. */
  datatype Served<M, B> =
    | FromMock(mock: ApiResponse<M>)
    | FromBackend(backend: ApiResponse<B>)
    | Local(error: string, status: int)
  {
    function Status(): int {
      match this
      case FromMock(r) => r.status
      case FromBackend(r) => r.status
      case Local(_, s) => s
    }
  }

  /** The message of the 500 answer when the synthetic provider rejects. */
  function MockFailureMessage(op: Operation): string {
    match op
    case ConversationsWithAnalytics => "Failed to fetch demo conversations"
    case CharacterStats => "Failed to fetch demo character stats"
    case DashboardStats => "Failed to fetch demo dashboard stats"
    case _ => "Failed to fetch demo children"
  }

  /**
   * One facade call. `mock` is what the synthetic provider resolves with
   * (`None` when it rejects) and `backend` what the backend call returns;
   * which of the two is consulted is decided by the route alone.
   */
  function Dispatch<M, B>(t: UserType, op: Operation, mock: Option<M>, backend: ApiResponse<B>): (s: Served<M, B>)
    ensures s.FromMock? <==> RouteOf(t, op) == ToMock
    ensures s.FromBackend? <==> RouteOf(t, op) == ToBackend
    ensures s.FromBackend? ==> s.backend == backend
    ensures s.FromMock? && mock.Some? ==> s.mock == Success(mock.value)
    ensures s.FromMock? && mock.None? ==> s.mock == Failure(MockFailureMessage(op), 500)
    ensures s.Local? ==> RouteOf(t, op) == Refused(s.error, s.status)
  {
    match RouteOf(t, op)
    case ToMock =>
      if mock.Some? then FromMock(Success(mock.value)) else FromMock(Failure(MockFailureMessage(op), 500))
    case ToBackend => FromBackend(backend)
    case Refused(message, status) => Local(message, status)
  }

  /**
   * The synthetic path never lets a rejection escape: it answers 200 with
   * the provider's data, or 500 with an error and no data.
   */
  lemma MockPathNeverThrows<M, B>(t: UserType, op: Operation, mock: Option<M>, backend: ApiResponse<B>)
    requires t == Demo && HasMock(op)
    ensures var s := Dispatch(t, op, mock, backend);
      && s.FromMock?
      && (s.Status() == 200 <==> mock.Some?)
      && (s.Status() == 500 <==> mock.None?)
      && (s.mock.data.Some? <==> !s.mock.Failed())
  {
  }

  /**
   * A refused call does not depend on the backend: whatever the backend
   * would have answered, the facade answers the same.
   */
  lemma RefusalIgnoresBackend<M, B>(t: UserType, op: Operation, mock: Option<M>, b1: ApiResponse<B>, b2: ApiResponse<B>)
    requires !RouteOf(t, op).ToBackend?
    ensures Dispatch(t, op, mock, b1) == Dispatch(t, op, mock, b2)
  {
  }

  // ---------------------------------------------------------------------
  // The four dashboard operations, with both providers modelled
  // ---------------------------------------------------------------------

  /**
   * `getConversationsWithAnalytics`: the facade's parameters carry no
   * `defaultSort`, so the backend sees it absent.
   */
  function GetConversationsWithAnalytics(
    c: Client, server: DjangoClient.Server, params: Params, mockFails: bool, parseInt: string -> Option<int>)
    : (s: Served<MockData.MockPage, ConversationPage>)
    ensures s.FromMock? <==> c.userType == Demo
    ensures s.FromMock? && !mockFails ==> s.mock == Success(MockData.GetConversationsWithAnalytics(params))
    ensures s.FromBackend? ==>
      s.backend == DjangoClient.ConversationsWithAnalytics(server, params.(defaultSort := None), parseInt)
  {
    Dispatch(c.userType, ConversationsWithAnalytics,
      if mockFails then None else Some(MockData.GetConversationsWithAnalytics(params)),
      DjangoClient.ConversationsWithAnalytics(server, params.(defaultSort := None), parseInt))
  }

  /** `getCharacterStats`. */
  function GetCharacterStats(c: Client, server: DjangoClient.Server, mockFails: bool, parseInt: string -> Option<int>)
    : (s: Served<seq<MockData.MockCharacterStat>, seq<DjangoClient.CharacterStat>>)
    ensures s.FromMock? <==> c.userType == Demo
    ensures s.FromMock? && !mockFails ==> s.mock == Success(MockData.GetCharacterStats())
    ensures s.FromBackend? ==> s.backend == DjangoClient.CharacterStats(server, parseInt)
  {
    Dispatch(c.userType, CharacterStats,
      if mockFails then None else Some(MockData.GetCharacterStats()),
      DjangoClient.CharacterStats(server, parseInt))
  }

  /** `getDashboardStats`; `today` is the backend's date string. */
  function GetDashboardStats(c: Client, server: DjangoClient.Server, today: string, mockFails: bool)
    : (s: Served<MockData.MockDashboardStats, DjangoClient.DashboardStats>)
    ensures s.FromMock? <==> c.userType == Demo
    ensures s.FromMock? && !mockFails ==> s.mock == Success(MockData.GetDashboardStats())
    ensures s.FromBackend? ==> s.backend == DjangoClient.DashboardStatsOf(server, today)
  {
    Dispatch(c.userType, DashboardStats,
      if mockFails then None else Some(MockData.GetDashboardStats()),
      DjangoClient.DashboardStatsOf(server, today))
  }

  /**
   * `getChildren(parentId)`: `/api/get_children/` is not part of this
   * model, so its answer is the parameter `backend`.
   */
  function GetChildren<B>(c: Client, parentId: Option<int>, mockFails: bool, backend: ApiResponse<B>)
    : (s: Served<(seq<MockData.MockChild>, nat), B>)
    ensures s.FromMock? <==> c.userType == Demo
    ensures s.FromMock? && !mockFails ==> s.mock.data == Some(MockData.GetChildren()) && s.mock.status == 200
    ensures s.Local? <==> c.userType != Demo && MissingParent(parentId)
    ensures s.Local? ==> s.error == ParentIdRequired && s.status == 400
    ensures s.FromBackend? ==> s.backend == backend
  {
    Dispatch(c.userType, Children(parentId), if mockFails then None else Some(MockData.GetChildren()), backend)
  }

  /**
   * For a demo client the dashboard operations answer with the synthetic
   * data: eight conversations counted, 650 in the statistics, five
   * children — whatever the backend holds.
   */
  lemma DemoSeesSyntheticData(c: Client, server: DjangoClient.Server, params: Params, today: string, parseInt: string -> Option<int>)
    requires c.userType == Demo
    ensures GetConversationsWithAnalytics(c, server, params, false, parseInt).mock.data.value.pagination.count == 8
    ensures GetDashboardStats(c, server, today, false).mock.data.value.totalConversations == 650
    ensures GetChildren<int>(c, None, false, Failure("", 0)).mock.data.value.1 == 5
  {
  }

  /**
   * The tier of the user set last decides the provider: a user the
   * classifier puts in the demo tier sees synthetic data, any other user
   * the backend's.
   */
  lemma ProviderFollowsClassifier(c: Client, user: Option<Principal>, server: DjangoClient.Server, params: Params, parseInt: string -> Option<int>)
    ensures GetConversationsWithAnalytics(SetUser(c, user), server, params, false, parseInt).FromMock?
      <==> Auth.IsDemoUser(user)
    ensures user.None? ==> GetConversationsWithAnalytics(SetUser(c, user), server, params, false, parseInt).FromMock?
  {
  }

  /**
   * The two providers order a listing alike except on `-id`: the backend
   * path (which never sees `defaultSort`) reverses its pages exactly when
   * the synthetic listing sorts newest first or the ordering mentions
   * `-id`.
   */
  lemma ProvidersOrderAlikeButForId(params: Params)
    ensures DjangoClient.WantsNewestFirst(params.(defaultSort := None))
      <==> MockData.SortsNewestFirst(params) || (params.ordering.Some? && Includes(params.ordering.value, "-id"))
  {
  }

  lemma DashIdOrdering()
    ensures Includes("-id", "-id") && !Includes("-id", "-start_date_time")
  {
  }

  /** An ordering of `-id` lists newest first from the backend but in dataset order in demo mode. */
  lemma IdOrderingDisagrees(params: Params)
    requires params.ordering == Some("-id")
    ensures DjangoClient.WantsNewestFirst(params.(defaultSort := None))
    ensures !MockData.SortsNewestFirst(params)
  {
    DashIdOrdering();
  }
}
