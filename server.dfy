/**
 * The request handling of server/handels.go that decides what reaches the store: the
 * normalisation of the history query parameters, and the rule that a balance change or a
 * transfer is passed to the store only after its request validates. Reading the body, JSON
 * decoding and the writing of HTTP responses are not modelled; a response is the outcome it
 * reports.
 */
module Server {
  import opened Models
  import opened Ledger
  import Storage
  import History
  import Strconv

  /** Go's unicode lower-casing, exact for every result it can match against an ASCII constant:
      it lowers A-Z, and maps the two non-ASCII letters whose lower case is an ASCII letter,
      U+0130 (to 'i') and U+212A, the Kelvin sign (to 'k'). Every other character is left as it is. */
  function LowerChar(c: char): char
  {
    if 'A' <= c <= 'Z' then (c as int + 32) as char
    else if c == '\U{0130}' then 'i'
    else if c == '\U{212A}' then 'k'
    else c
  }

  /** strings.ToLower, character by character. */
  function ToLower(s: string): (r: string)
    ensures |r| == |s|
    ensures forall i | 0 <= i < |s| :: r[i] == LowerChar(s[i])
  {
    if s == [] then [] else [LowerChar(s[0])] + ToLower(s[1..])
  }

  datatype ParamError = InvalidSort | InvalidOrder | InvalidPage

  /** The (sort, order, page) values the handler passes to the store. */
  datatype HistoryQuery = HistoryQuery(sorting: string, order: string, page: int)

  /** The `sort` parameter ("" when absent): lower-cased, empty means by-time, anything other
      than by-sum or by-time is refused. */
  function NormalizeSort(raw: string): Result<string, ParamError>
  {
    var sorting := ToLower(raw);
    if sorting != "" && sorting != SortBySumString && sorting != SortByTimeString then Failure(InvalidSort)
    else if sorting == "" then Success(SortByTimeString)
    else Success(sorting)
  }

  /** The `order` parameter: lower-cased, empty means asc, anything other than asc or desc is
      refused. */
  function NormalizeOrder(raw: string): Result<string, ParamError>
  {
    var order := ToLower(raw);
    if order != "" && order != OrderAscendingString && order != OrderDescendingString then Failure(InvalidOrder)
    else if order == "" then Success(OrderAscendingString)
    else Success(order)
  }

  /** The `page` parameter: absent means -1 (no paging), a non-integer is refused, 0 means 1, and
      every other integer is kept. */
  function NormalizePage(raw: string): Result<int, ParamError>
  {
    if raw != "" then
      match Strconv.Atoi(raw)
      case None => Failure(InvalidPage)
      case Some(page) => Success(if page == 0 then 1 else page)
    else Success(-1)
  }

  /** The three parameters, checked in the handler's order: sort, then order, then page. */
  function NormalizeQuery(sortParam: string, orderParam: string, pageParam: string): Result<HistoryQuery, ParamError>
  {
    match NormalizeSort(sortParam)
    case Failure(e) => Failure(e)
    case Success(sorting) =>
      match NormalizeOrder(orderParam)
      case Failure(e) => Failure(e)
      case Success(order) =>
        match NormalizePage(pageParam)
        case Failure(e) => Failure(e)
        case Success(page) => Success(HistoryQuery(sorting, order, page))
  }

  /** `sort` is accepted exactly when its lower case is empty, by-sum or by-time, and then yields
      a valid sort key. */
  lemma SortParam(raw: string)
    ensures NormalizeSort(raw).Success? <==> ToLower(raw) in {"", "by-sum", "by-time"}
    ensures NormalizeSort(raw).Success? ==>
      && IsSortKey(NormalizeSort(raw).value)
      && NormalizeSort(raw).value == if ToLower(raw) == "" then "by-time" else ToLower(raw)
  {
  }

  /** Letter case does not matter: an upper-case spelling is accepted, a misspelling is not. */
  lemma SortParamCase()
    ensures NormalizeSort("BY-SUM") == Success("by-sum")
    ensures NormalizeSort("by_sum") == Failure(InvalidSort)
  {
    var upper := ToLower("BY-SUM");
    assert upper[0] == 'b' && upper[1] == 'y' && upper[2] == '-';
    assert upper[3] == 's' && upper[4] == 'u' && upper[5] == 'm';
    assert upper == "by-sum";
    var misspelt := ToLower("by_sum");
    assert misspelt[2] == '_';
    assert misspelt != "by-sum" && misspelt != "by-time" && misspelt != "";
  }

  /** `order` is accepted exactly when its lower case is empty, asc or desc, and then yields a
      valid order. */
  lemma OrderParam(raw: string)
    ensures NormalizeOrder(raw).Success? <==> ToLower(raw) in {"", "asc", "desc"}
    ensures NormalizeOrder(raw).Success? ==>
      && IsOrder(NormalizeOrder(raw).value)
      && NormalizeOrder(raw).value == if ToLower(raw) == "" then "asc" else ToLower(raw)
  {
  }

  /** An upper-case spelling of an order is accepted. */
  lemma OrderParamCase()
    ensures NormalizeOrder("DESC") == Success("desc")
  {
    var lowered := ToLower("DESC");
    assert lowered[0] == 'd' && lowered[1] == 'e' && lowered[2] == 's' && lowered[3] == 'c';
    assert lowered == "desc";
  }

  /** `page`: absent is -1, a non-integer is refused, 0 becomes 1, any other parsed integer,
      also a negative one, is passed through. */
  lemma PageParam(raw: string)
    ensures raw == "" ==> NormalizePage(raw) == Success(-1)
    ensures raw != "" && Strconv.Atoi(raw).None? ==> NormalizePage(raw) == Failure(InvalidPage)
    ensures raw != "" && Strconv.Atoi(raw) == Some(0) ==> NormalizePage(raw) == Success(1)
    ensures raw != "" && Strconv.Atoi(raw).Some? && Strconv.Atoi(raw).value != 0 ==>
      NormalizePage(raw) == Success(Strconv.Atoi(raw).value)
    ensures NormalizePage(raw).Success? ==> NormalizePage(raw).value != 0
  {
  }

  /** Every 64-bit integer written in decimal is accepted as a page: 0 as 1, the rest unchanged. */
  lemma PageIntegers(n: int)
    requires Strconv.InInt64(n)
    ensures NormalizePage(Strconv.Itoa(n)) == Success(if n == 0 then 1 else n)
  {
    Strconv.AtoiItoa(n);
  }

  /** A normalised query always meets the store's demands on sort and order; each error names
      the first parameter that is not valid. */
  lemma QueryNormalisation(sortParam: string, orderParam: string, pageParam: string)
    ensures var q := NormalizeQuery(sortParam, orderParam, pageParam);
      && (q.Success? <==>
           NormalizeSort(sortParam).Success? && NormalizeOrder(orderParam).Success? && NormalizePage(pageParam).Success?)
      && (q.Success? ==> IsSortKey(q.value.sorting) && IsOrder(q.value.order) && q.value.page != 0)
      && (q == Failure(InvalidSort) <==> NormalizeSort(sortParam).Failure?)
      && (q == Failure(InvalidOrder) <==> NormalizeSort(sortParam).Success? && NormalizeOrder(orderParam).Failure?)
  {
    SortParam(sortParam);
    OrderParam(orderParam);
    PageParam(pageParam);
  }

  /** With no query parameters the store is asked for (by-time, asc, -1). */
  lemma NoQueryParams()
    ensures NormalizeQuery("", "", "") == Success(HistoryQuery("by-time", "asc", -1))
  {
  }

  /** What handleGetTransactions reports. An empty history is not an error. */
  datatype HistoryResponse =
    | InvalidId
    | InvalidQuery(param: ParamError)
    | QueryFailed(error: CustomErr)
    | EmptyHistory
    | HistoryRows(rows: seq<Transaction>)

  /** handleGetTransactions: parse the id, normalise the parameters, then query the store. */
  function GetTransactions(db: Storage.Database, idParam: string, sortParam: string, orderParam: string,
                           pageParam: string, failing: set<Stmt>): (resp: HistoryResponse)
    reads db
    requires db.paginationNum > 0
    ensures resp == InvalidId <==> Strconv.Atoi(idParam).None?
    ensures resp.InvalidQuery? <==>
      Strconv.Atoi(idParam).Some? && NormalizeQuery(sortParam, orderParam, pageParam).Failure?
    ensures resp.InvalidQuery? ==> NormalizeQuery(sortParam, orderParam, pageParam) == Failure(resp.param)
    ensures Strconv.Atoi(idParam).Some? && NormalizeQuery(sortParam, orderParam, pageParam).Success? ==>
      var id := Strconv.Atoi(idParam).value;
      var q := NormalizeQuery(sortParam, orderParam, pageParam).value;
      && IsSortKey(q.sorting) && IsOrder(q.order)
      && (resp.QueryFailed? <==> Select in failing)
      && (Select !in failing ==>
           var rows := History.Query(db.log, id, q.sorting, q.order, q.page, db.paginationNum);
           resp == if rows == [] then EmptyHistory else HistoryRows(rows))
  {
    match Strconv.Atoi(idParam)
    case None => InvalidId
    case Some(id) =>
      match NormalizeQuery(sortParam, orderParam, pageParam)
      case Failure(e) => InvalidQuery(e)
      case Success(q) =>
        QueryNormalisation(sortParam, orderParam, pageParam);
        match db.GetTransactionHistory(id, q.sorting, q.order, q.page, failing)
        case Failure(e) => QueryFailed(e)
        case Success(rows) => if |rows| == 0 then EmptyHistory else HistoryRows(rows)
  }

  /** What handleChangeBalance and handleTransfer report. */
  datatype MutationResponse = ValidationFailed | StoreFailed(error: CustomErr) | Written(transaction: Transaction)

  function Respond(result: Result<Transaction, CustomErr>): MutationResponse
  {
    match result
    case Success(t) => Written(t)
    case Failure(e) => StoreFailed(e)
  }

  /** handleChangeBalance: an invalid request never reaches the store; a valid one is applied. */
  method ChangeBalance(db: Storage.Database, request: ChangeBalanceRequest, now: int, failing: set<Stmt>)
    returns (resp: MutationResponse)
    requires db.Valid()
    modifies db
    ensures db.Valid()
    ensures resp == ValidationFailed <==> !ValidChangeBalance(request)
    ensures !ValidChangeBalance(request) ==> db.State() == old(db.State())
    ensures ValidChangeBalance(request) ==>
      var o := UpdateBalanceOutcome(old(db.State()), request, now, failing);
      db.State() == o.after && resp == Respond(o.result)
  {
    if !ValidChangeBalance(request) {
      return ValidationFailed;
    }
    var r := db.UpdateBalance(request, now, failing);
    resp := Respond(r);
  }

  /** handleTransfer: an invalid request never reaches the store; a valid one is applied. */
  method Transfer(db: Storage.Database, request: TransferRequest, now: int, failing: set<Stmt>)
    returns (resp: MutationResponse)
    requires db.Valid()
    modifies db
    ensures db.Valid()
    ensures resp == ValidationFailed <==> !ValidTransfer(request)
    ensures !ValidTransfer(request) ==> db.State() == old(db.State())
    ensures ValidTransfer(request) ==>
      var o := TransferOutcome(old(db.State()), request, now, failing);
      db.State() == o.after && resp == Respond(o.result)
  {
    if !ValidTransfer(request) {
      return ValidationFailed;
    }
    var r := db.MakeTransfer(request, now, failing);
    resp := Respond(r);
  }
}
