/** The two user-listing handlers: bind and validate the pagination query,
    default the limit, read a page of users, and (for the full list) fetch
    every listed user's statistics in one batch and merge them in. The
    repository is an oracle; each handler also reports the repository
    calls it made, in order. */
module UserService {
  import opened Common
  import opened Structs
  import opened Model
  import opened Response
  import StrConv
  import Binder
  import UserRepo

  const DefaultLimit: int := 10

  datatype Page = Page(limit: int, offset: int)

  /** A repository call as the handlers issue it. */
  datatype Call = GetList(limit: int, offset: int) | GetStats(ids: seq<int>)

  datatype Handled = Handled(sent: Sent, calls: seq<Call>)

  /** The pagination facts the handlers rely on: both fields are exported
      ints, read from the query keys "limit" and "offset", and start at 0. */
  lemma PaginationShape()
    ensures |Binder.PaginationDecls| == 2
    ensures Tag(Binder.PaginationDecls[0].tags, "query") == "limit"
    ensures Tag(Binder.PaginationDecls[1].tags, "query") == "offset"
    ensures Binder.PaginationDecls[0].kind == KInt && Binder.PaginationDecls[0].exported
    ensures Binder.PaginationDecls[1].kind == KInt && Binder.PaginationDecls[1].exported
    ensures ZeroRecord(Binder.PaginationDecls) == [VInt(0), VInt(0)]
  {
    var decls := Binder.PaginationDecls;
    assert Tag(decls[0].tags, "query") == "limit";
    assert Tag(decls[1].tags, "query") == "offset";
  }

  /** The value BindQuery leaves in an int field that starts at 0: the
      parsed query value, or 0 when it is absent or does not parse. */
  function Parsed(q: Binder.Query, key: string): int
  {
    match StrConv.ParseInt(Binder.Get(q, key))
    case Some(n) => n
    case None => 0
  }

  /** Bind the pagination query, then default a zero limit to 10. */
  function Pagination(q: Binder.Query): (r: Result<Page>)
    ensures r.Ok? ==> 1 <= r.value.limit <= 100 && r.value.offset >= 0
    ensures r.Err? ==> r.error.ValidationErrors?
    ensures var limit := Parsed(q, "limit"); var offset := Parsed(q, "offset");
      && (r.Ok? <==> (limit == 0 || 1 <= limit <= 100) && offset >= 0)
      && (r.Ok? ==> r.value == Page(if limit == 0 then DefaultLimit else limit, offset))
  {
    PaginationShape();
    var bound := Binder.BindPagination(q);
    assert Model.IntAt(bound.0, 0) == Parsed(q, "limit");
    assert Model.IntAt(bound.0, 1) == Parsed(q, "offset");
    match bound.1
    case Some(e) => Err(e)
    case None =>
      var limit := Model.IntAt(bound.0, 0);
      Ok(Page(if limit == 0 then DefaultLimit else limit, Model.IntAt(bound.0, 1)))
  }

  /** A missing, empty, zero or unparseable limit means 10. */
  lemma LimitDefaults(q: Binder.Query)
    requires StrConv.ParseInt(Binder.Get(q, "limit")).None? || StrConv.ParseInt(Binder.Get(q, "limit")) == Some(0)
    requires Parsed(q, "offset") >= 0
    ensures Pagination(q) == Ok(Page(10, Parsed(q, "offset")))
  {
  }

  /** A limit written in decimal between 1 and 100 is kept as is; one
      outside that range is refused by validation. */
  lemma LimitFromQuery(q: Binder.Query, n: int)
    requires Binder.Get(q, "limit") == StrConv.FormatInt(n) && InInt64(n) && n != 0
    requires Parsed(q, "offset") >= 0
    ensures 1 <= n <= 100 ==> Pagination(q) == Ok(Page(n, Parsed(q, "offset")))
    ensures !(1 <= n <= 100) ==> Pagination(q).Err?
  {
    StrConv.ParseFormatRoundTrip(n);
  }

  /** UserGetListHandler */
  function ListHandler(q: Binder.Query, getList: (int, int) -> Result<seq<User>>): (h: Handled)
    ensures Pagination(q).Err? ==>
              h == Handled(Write(BadRequest, WithMessage(Message(Pagination(q).error))), [])
    ensures Pagination(q).Ok? ==> var p := Pagination(q).value;
      && h.calls == [GetList(p.limit, p.offset)]
      && (getList(p.limit, p.offset).Err? ==>
            h.sent == Write(InternalError, WithMessage(Message(getList(p.limit, p.offset).error))))
      && (getList(p.limit, p.offset).Ok? ==>
            h.sent == Write(Success, WithData(UserList(getList(p.limit, p.offset).value))))
  {
    match Pagination(q)
    case Err(e) => Handled(Write(BadRequest, WithMessage(Message(e))), [])
    case Ok(p) =>
      match getList(p.limit, p.offset)
      case Err(e) => Handled(Write(InternalError, WithMessage(Message(e))), [GetList(p.limit, p.offset)])
      case Ok(users) => Handled(Write(Success, WithData(UserList(users))), [GetList(p.limit, p.offset)])
  }

  /** The repository is only ever asked for a page of 1 to 100 users, at a
      non-negative offset, and the reply is a success exactly when it
      answers. */
  lemma ListPageBounded(q: Binder.Query, getList: (int, int) -> Result<seq<User>>)
    ensures forall c :: c in ListHandler(q, getList).calls ==>
              c.GetList? && 1 <= c.limit <= 100 && c.offset >= 0
    ensures ListHandler(q, getList).sent.body.s == 1 <==>
              Pagination(q).Ok? && getList(Pagination(q).value.limit, Pagination(q).value.offset).Ok?
  {
  }

  /** The users' ids, in list order. */
  function IDs(users: seq<User>): (ids: seq<int>)
    ensures |ids| == |users|
    ensures forall i :: 0 <= i < |users| ==> ids[i] == users[i].id
  {
    seq(|users|, i requires 0 <= i < |users| => users[i].id)
  }

  /** Each user with the statistics filed under its id, or none. */
  function Merge(users: seq<User>, stats: map<int, UserStats>): (r: seq<UserWithStats>)
    ensures |r| == |users|
    ensures forall i :: 0 <= i < |users| ==> r[i].user == users[i]
    ensures forall i :: 0 <= i < |users| ==>
              r[i].stats == (if users[i].id in stats then Some(stats[users[i].id]) else None)
  {
    seq(|users|, i requires 0 <= i < |users| =>
      UserWithStats(users[i], if users[i].id in stats then Some(stats[users[i].id]) else None))
  }

  /** UserGetFullListHandler */
  function FullListHandler(q: Binder.Query, getList: (int, int) -> Result<seq<User>>,
                           getStats: seq<int> -> (map<int, UserStats>, Option<Error>)): (h: Handled)
    ensures Pagination(q).Err? ==>
              h == Handled(Write(BadRequest, WithMessage(Message(Pagination(q).error))), [])
    ensures Pagination(q).Ok? ==> var p := Pagination(q).value;
      && |h.calls| >= 1 && h.calls[0] == GetList(p.limit, p.offset)
      && (getList(p.limit, p.offset).Err? ==>
            h == Handled(Write(InternalError, WithMessage(Message(getList(p.limit, p.offset).error))),
                         [GetList(p.limit, p.offset)]))
      && (getList(p.limit, p.offset).Ok? ==> var users := getList(p.limit, p.offset).value;
            && h.calls == [GetList(p.limit, p.offset), GetStats(IDs(users))]
            && (getStats(IDs(users)).1.Some? ==>
                  h.sent == Write(InternalError, WithMessage(Message(getStats(IDs(users)).1.value))))
            && (getStats(IDs(users)).1.None? ==>
                  h.sent == Write(Success, WithData(FullList(Merge(users, getStats(IDs(users)).0))))))
  {
    match Pagination(q)
    case Err(e) => Handled(Write(BadRequest, WithMessage(Message(e))), [])
    case Ok(p) =>
      match getList(p.limit, p.offset)
      case Err(e) => Handled(Write(InternalError, WithMessage(Message(e))), [GetList(p.limit, p.offset)])
      case Ok(users) =>
        var calls := [GetList(p.limit, p.offset), GetStats(IDs(users))];
        var (stats, err) := getStats(IDs(users));
        if err.Some? then Handled(Write(InternalError, WithMessage(Message(err.value))), calls)
        else Handled(Write(Success, WithData(FullList(Merge(users, stats)))), calls)
  }

  /** Against the real repository the stats step never fails: once the
      page is read the reply is a success whose entries follow the page.
      When the batch query fails, every listed user carries mock
      statistics under its own id. */
  lemma FullListWithRepository(q: Binder.Query, getList: (int, int) -> Result<seq<User>>,
                               findAll: (string, seq<int>) -> Result<seq<UserStats>>)
    requires Pagination(q).Ok?
    requires getList(Pagination(q).value.limit, Pagination(q).value.offset).Ok?
    ensures var users := getList(Pagination(q).value.limit, Pagination(q).value.offset).value;
      var h := FullListHandler(q, getList, ids => UserRepo.GetStatsForUsers(ids, findAll));
      && h.sent.body.s == 1
      && h.sent.body.r.FullList?
      && |h.sent.body.r.entries| == |users|
      && (forall i :: 0 <= i < |users| ==> h.sent.body.r.entries[i].user == users[i])
      && (|users| > 0 && findAll(UserRepo.StatsQuery(IDs(users)), IDs(users)).Err? ==>
            forall i :: 0 <= i < |users| ==>
              h.sent.body.r.entries[i].stats == Some(UserStats(users[i].id, ZeroTime, Wrap64(users[i].id * 5))))
  {
    var users := getList(Pagination(q).value.limit, Pagination(q).value.offset).value;
    var ids := IDs(users);
    if |users| > 0 && findAll(UserRepo.StatsQuery(ids), ids).Err? {
      forall i | 0 <= i < |users| ensures users[i].id in UserRepo.MockStats(ids) {
        assert ids[i] == users[i].id;
      }
    }
  }
}
