/**
 * The Database of storage/db.go as a class over the two tables. The mutating operations follow the
 * source step by step inside one atomic unit: remember the state at Begin, run the conditioned
 * update (creating the account when the update found no row), re-read the account, write the
 * ledger rows, and on any failure roll back to the remembered state. Each is proved to produce
 * exactly the outcome of its reference semantics in ledger.dfy and to keep the invariant.
 */
module Storage {
  import opened Models
  import opened Ledger
  import History

  /** What the conditioned UPDATE reports: it changed the row, found no row, was refused by the
      non_negative_balance constraint, or failed for another reason. */
  datatype UpdateOutcome = Updated | NotFound | ConstraintViolated | StorageFailed

  class Database {
    var accounts: map<int, int>
    var log: seq<Transaction>
    var nextId: int
    /** The page size of the history query (configuration, 10 by default). */
    const paginationNum: int

    function State(): Tables
      reads this
    {
      Tables(accounts, log, nextId)
    }

    ghost predicate Valid()
      reads this
    {
      paginationNum > 0 && Inv(State())
    }

    /** A store over freshly migrated, empty tables. */
    constructor (paginationNum: int)
      requires paginationNum > 0
      ensures Valid()
      ensures State() == Empty && this.paginationNum == paginationNum
    {
      this.paginationNum := paginationNum;
      accounts := map[];
      log := [];
      nextId := 1;
    }

    /** GetBalance: the stored balance, or 0 for an id with no row; it changes nothing. */
    function GetBalance(id: int, failing: set<Stmt>): (r: Result<Account, CustomErr>)
      reads this
      ensures r.Failure? <==> Select in failing
      ensures r.Failure? ==> r.error.kind == Default
      ensures r.Success? ==> r.value.id == id
      ensures r.Success? && id in accounts ==> r.value.balance == accounts[id]
      ensures r.Success? && id !in accounts ==> r.value.balance == 0
    {
      if Select in failing then Failure(CustomErr(Default))
      else if id in accounts then Success(Account(id, accounts[id]))
      else Success(Account(id, 0))
    }

    /** GetTransactionHistory: the history query over the transactions table; an empty result is
        a success. */
    function GetTransactionHistory(accId: int, sorting: string, order: string, page: int, failing: set<Stmt>)
      : (r: Result<seq<Transaction>, CustomErr>)
      reads this
      requires paginationNum > 0
      requires IsSortKey(sorting) && IsOrder(order)
      ensures r.Failure? <==> Select in failing
      ensures r.Failure? ==> r.error.kind == Default
      ensures r.Success? ==> r.value == History.Query(log, accId, sorting, order, page, paginationNum)
    {
      if Select in failing then Failure(CustomErr(Default))
      else Success(History.Query(log, accId, sorting, order, page, paginationNum))
    }

    /** UPDATE accounts SET balance = balance + delta WHERE account_id = id, under the
        non_negative_balance CHECK constraint; statement `Update(leg)` of the unit. */
    method AddToBalance(id: int, delta: int, leg: nat, failing: set<Stmt>) returns (outcome: UpdateOutcome)
      modifies this`accounts
      ensures Update(leg) in failing ==> outcome == StorageFailed
      ensures Update(leg) !in failing && id !in old(accounts) ==> outcome == NotFound
      ensures Update(leg) !in failing && id in old(accounts) ==>
        outcome == if old(accounts)[id] + delta >= 0 then Updated else ConstraintViolated
      ensures accounts == if outcome == Updated then old(accounts)[id := old(accounts)[id] + delta] else old(accounts)
    {
      if Update(leg) in failing {
        return StorageFailed;
      }
      if id !in accounts {
        return NotFound;
      }
      if accounts[id] + delta < 0 {
        return ConstraintViolated;
      }
      accounts := accounts[id := accounts[id] + delta];
      return Updated;
    }

    /** updOrCreateAccBalance: the conditioned update; when no row was found, a credit creates
        the account and a debit is refused; then the account is read back. */
    method UpdOrCreateAccBalance(id: int, delta: int, leg: nat, failing: set<Stmt>)
      returns (r: Result<Account, CustomErr>)
      modifies this`accounts
      ensures r.Success? <==> Update(leg) !in failing && BalanceOf(old(accounts), id) + delta >= 0
      ensures r.Success? ==>
        && r.value == Account(id, BalanceOf(old(accounts), id) + delta)
        && accounts == old(accounts)[id := r.value.balance]
      ensures r.Failure? ==>
        && accounts == old(accounts)
        && r.error.kind == if Update(leg) in failing then Default else InsufficientFunds
    {
      var outcome := AddToBalance(id, delta, leg, failing);
      match outcome {
        case StorageFailed =>
          return Failure(CustomErr(Default));
        case ConstraintViolated =>
          return Failure(CustomErr(InsufficientFunds));
        case NotFound =>
          if delta < 0 {
            return Failure(CustomErr(InsufficientFunds));
          }
          accounts := accounts[id := delta];
        case Updated =>
      }
      r := Success(Account(id, accounts[id]));
    }

    /** writeTransaction: insert one ledger row, which receives the next sequence value as its id;
        statement `Insert(leg)` of the unit. */
    method WriteTransaction(t: Transaction, leg: nat, failing: set<Stmt>) returns (r: Result<Transaction, CustomErr>)
      modifies this`log, this`nextId
      ensures Insert(leg) in failing ==>
        r == Failure(CustomErr(Default)) && log == old(log) && nextId == old(nextId)
      ensures Insert(leg) !in failing ==>
        && r == Success(t.(id := old(nextId)))
        && log == old(log) + [r.value]
        && nextId == old(nextId) + 1
    {
      if Insert(leg) in failing {
        return Failure(CustomErr(Default));
      }
      var row := t.(id := nextId);
      log := log + [row];
      nextId := nextId + 1;
      return Success(row);
    }

    /** tx.Rollback(): every effect of the unit is undone. */
    method Rollback(saved: Tables)
      modifies this
      ensures State() == saved
    {
      accounts, log, nextId := saved.accounts, saved.log, saved.nextId;
    }

    /** UpdateBalance: adjust one account and record one row, as one atomic unit. */
    method UpdateBalance(request: ChangeBalanceRequest, now: int, failing: set<Stmt>)
      returns (r: Result<Transaction, CustomErr>)
      requires Valid()
      modifies this
      ensures Valid()
      ensures Outcome(State(), r) == UpdateBalanceOutcome(old(State()), request, now, failing)
      ensures r.Failure? ==> State() == old(State())
      ensures r.Success? ==> log == old(log) + [r.value] && r.value.remaining == accounts[request.id]
    {
      var saved := State();
      var account := UpdOrCreateAccBalance(request.id, request.delta, 0, failing);
      if account.Failure? {
        Rollback(saved);
        return Failure(account.error);
      }
      var transaction := Transaction(0, account.value.id, now, request.delta, account.value.balance, Adjustment);
      var written := WriteTransaction(transaction, 0, failing);
      if written.Failure? {
        Rollback(saved);
        return Failure(written.error);
      }
      assert State() == Post(saved, written.value);
      assert Update(0) !in failing && Insert(0) !in failing;
      assert written.value == Transaction(saved.nextId, request.id, now, request.delta,
                                          BalanceOf(saved.accounts, request.id) + request.delta, Adjustment);
      assert UpdateBalanceOutcome(saved, request, now, failing) == Outcome(State(), Success(written.value));
      PostPreservesInv(saved, written.value);
      return Success(written.value);
    }

    /** MakeTransfer: debit ID1 and credit ID2, then record both legs, as one atomic unit. */
    method MakeTransfer(request: TransferRequest, now: int, failing: set<Stmt>)
      returns (r: Result<Transaction, CustomErr>)
      requires Valid()
      modifies this
      ensures Valid()
      ensures Outcome(State(), r) == TransferOutcome(old(State()), request, now, failing)
      ensures r.Failure? ==> State() == old(State())
      ensures r.Success? ==> |log| == |old(log)| + 2 && log[|old(log)|] == r.value
    {
      var saved := State();
      var account1 := UpdOrCreateAccBalance(request.id1, -request.delta, 0, failing);
      if account1.Failure? {
        Rollback(saved);
        return Failure(account1.error);
      }
      var account2 := UpdOrCreateAccBalance(request.id2, request.delta, 1, failing);
      if account2.Failure? {
        Rollback(saved);
        return Failure(account2.error);
      }
      var leg := TransferLeg(account1.value.id, account2.value.id);
      var transaction1 := Transaction(0, account1.value.id, now, -request.delta, account1.value.balance, leg);
      var transaction2 := Transaction(0, account2.value.id, now, request.delta, account2.value.balance, leg);
      var written1 := WriteTransaction(transaction1, 0, failing);
      if written1.Failure? {
        Rollback(saved);
        return Failure(written1.error);
      }
      var written2 := WriteTransaction(transaction2, 1, failing);
      if written2.Failure? {
        Rollback(saved);
        return Failure(written2.error);
      }
      var middle := Post(saved, written1.value);
      assert State() == Post(middle, written2.value);
      assert Update(0) !in failing && Update(1) !in failing;
      assert Insert(0) !in failing && Insert(1) !in failing;
      TransferCommits(saved, request, now, failing, written1.value, written2.value);
      PostPreservesInv(saved, written1.value);
      PostPreservesInv(middle, written2.value);
      return Success(written1.value);
    }
  }

  /** GetBalance of a consistent store: never negative, and equal to the sum of the account's
      logged deltas and to the Remaining of its latest row. */
  lemma GetBalanceIsLedgerBalance(db: Database, id: int, failing: set<Stmt>)
    requires db.Valid()
    requires Select !in failing
    ensures var r := db.GetBalance(id, failing);
      && r.Success?
      && r.value.balance >= 0
      && r.value.balance == SumDeltas(Rows(db.log, id))
      && (Rows(db.log, id) != [] ==> r.value.balance == Rows(db.log, id)[|Rows(db.log, id)| - 1].remaining)
  {
    BalanceIsLedgerSum(db.State(), id);
    if Rows(db.log, id) != [] {
      LatestRemainingIsBalance(db.State(), id);
    }
  }
}
