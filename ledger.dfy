/**
 * The state of the store (the accounts and transactions tables) as a value, the consistency
 * invariant every committed state keeps, and the reference semantics of the two mutating
 * operations of storage/db.go. The class in storage.dfy performs these operations step by step
 * and is proved to agree with the functions here.
 */
module Ledger {
  import opened Models

  /** accounts: id to balance (one row per id); log: the transactions table in insertion order;
      nextId: the next value of the transactions primary-key sequence. */
  datatype Tables = Tables(accounts: map<int, int>, log: seq<Transaction>, nextId: int)

  /** A store statement of one atomic unit. `leg` numbers the statements of the same kind within
      the unit: 0 for the only (or the debit) leg, 1 for the credit leg of a transfer. */
  datatype Stmt = Select | Update(leg: nat) | Insert(leg: nat)

  /** The balance a lookup reports: a missing account reads as 0. */
  function BalanceOf(accounts: map<int, int>, id: int): int
  {
    if id in accounts then accounts[id] else 0
  }

  /** The rows of account `id`, in log order. */
  function Rows(log: seq<Transaction>, id: int): (r: seq<Transaction>)
    ensures |r| <= |log|
  {
    if log == [] then []
    else Rows(log[..|log| - 1], id) + (if log[|log| - 1].accountId == id then [log[|log| - 1]] else [])
  }

  function SumDeltas(rows: seq<Transaction>): int
  {
    if rows == [] then 0 else SumDeltas(rows[..|rows| - 1]) + rows[|rows| - 1].delta
  }

  /** Every row's Remaining is the running sum of its account's deltas up to and including it. */
  ghost predicate RunningBalances(log: seq<Transaction>)
  {
    forall k {:trigger RunningSum(log, k)} | 0 <= k < |log| :: log[k].remaining == RunningSum(log, k)
  }

  /** The sum of the deltas of row k's account over the rows up to and including row k. */
  function RunningSum(log: seq<Transaction>, k: nat): int
    requires k < |log|
  {
    SumDeltas(Rows(log[..k + 1], log[k].accountId))
  }

  predicate IncreasingIds(rows: seq<Transaction>)
  {
    forall i, j | 0 <= i < j < |rows| :: rows[i].id < rows[j].id
  }

  /** The non_negative_balance constraint. */
  predicate NonNegative(accounts: map<int, int>)
  {
    forall id | id in accounts :: accounts[id] >= 0
  }

  /** Transaction ids come from the sequence: positive and below its next value. */
  predicate IdsBelow(log: seq<Transaction>, nextId: int)
  {
    forall k | 0 <= k < |log| :: 1 <= log[k].id < nextId
  }

  /** Every row belongs to an existing account and never shows a negative balance. */
  predicate OwnedRows(log: seq<Transaction>, accounts: map<int, int>)
  {
    forall k | 0 <= k < |log| :: log[k].accountId in accounts && log[k].remaining >= 0
  }

  /** Every balance is the sum of its account's deltas. */
  predicate LedgerSums(accounts: map<int, int>, log: seq<Transaction>)
  {
    forall id | id in accounts :: accounts[id] == SumDeltas(Rows(log, id))
  }

  /** The invariant of every committed state. */
  ghost predicate Inv(s: Tables)
  {
    && s.nextId >= 1
    && NonNegative(s.accounts)
    && IdsBelow(s.log, s.nextId)
    && IncreasingIds(s.log)
    && OwnedRows(s.log, s.accounts)
    && RunningBalances(s.log)
    && LedgerSums(s.accounts, s.log)
  }

  /** The state of a freshly migrated, empty store. */
  const Empty: Tables := Tables(map[], [], 1)

  lemma EmptyInv()
    ensures Inv(Empty)
  {
  }

  /** Records one mutation: the row `t` is appended and its account's balance becomes t.remaining. */
  function Post(s: Tables, t: Transaction): Tables
  {
    Tables(s.accounts[t.accountId := t.remaining], s.log + [t], s.nextId + 1)
  }

  lemma RowsAppend(log: seq<Transaction>, t: Transaction, id: int)
    ensures Rows(log + [t], id) == Rows(log, id) + (if t.accountId == id then [t] else [])
  {
    assert (log + [t])[..|log|] == log;
  }

  lemma SumAppend(rows: seq<Transaction>, t: Transaction)
    ensures SumDeltas(rows + [t]) == SumDeltas(rows) + t.delta
  {
    assert (rows + [t])[..|rows|] == rows;
  }

  /** An account that owns no row of the log has no rows. */
  lemma {:induction false} RowsOfUnknown(log: seq<Transaction>, accounts: map<int, int>, id: int)
    requires forall k | 0 <= k < |log| :: log[k].accountId in accounts
    requires id !in accounts
    ensures Rows(log, id) == []
  {
    if log != [] {
      var prefix := log[..|log| - 1];
      assert log[|log| - 1].accountId in accounts;
      RowsOfUnknown(prefix, accounts, id);
    }
  }

  /** The rows of `id` are rows of the log that belong to `id`. */
  lemma {:induction false} RowsMembers(log: seq<Transaction>, id: int)
    ensures forall t | t in Rows(log, id) :: t.accountId == id && t in log
  {
    if log != [] {
      var prefix := log[..|log| - 1];
      RowsMembers(prefix, id);
      assert forall t | t in prefix :: t in log;
    }
  }

  /** Appending `t` keeps one account's balance equal to its sum of deltas. */
  lemma PostKeepsLedgerSum(s: Tables, t: Transaction, id: int)
    requires forall k | 0 <= k < |s.log| :: s.log[k].accountId in s.accounts
    requires id in s.accounts ==> s.accounts[id] == SumDeltas(Rows(s.log, id))
    requires t.remaining == BalanceOf(s.accounts, t.accountId) + t.delta
    requires id in Post(s, t).accounts
    ensures Post(s, t).accounts[id] == SumDeltas(Rows(s.log + [t], id))
  {
    var rows := Rows(s.log, id);
    RowsAppend(s.log, t, id);
    if id == t.accountId {
      assert Rows(s.log + [t], id) == rows + [t];
      SumAppend(rows, t);
      if id !in s.accounts {
        RowsOfUnknown(s.log, s.accounts, id);
        assert rows == [];
      }
      assert BalanceOf(s.accounts, id) == SumDeltas(rows);
    } else {
      assert Rows(s.log + [t], id) == rows;
    }
  }

  /** Appending `t` keeps every balance equal to its account's sum of deltas. */
  lemma PostKeepsLedgerSums(s: Tables, t: Transaction)
    requires forall k | 0 <= k < |s.log| :: s.log[k].accountId in s.accounts
    requires forall id | id in s.accounts :: s.accounts[id] == SumDeltas(Rows(s.log, id))
    requires t.remaining == BalanceOf(s.accounts, t.accountId) + t.delta
    ensures LedgerSums(Post(s, t).accounts, Post(s, t).log)
  {
    forall id | id in Post(s, t).accounts
      ensures Post(s, t).accounts[id] == SumDeltas(Rows(s.log + [t], id))
    {
      PostKeepsLedgerSum(s, t, id);
    }
  }

  /** Appending `t` keeps every row's Remaining equal to its running sum. */
  lemma PostKeepsRunningBalances(s: Tables, t: Transaction)
    requires forall k | 0 <= k < |s.log| :: s.log[k].accountId in s.accounts
    requires RunningBalances(s.log)
    requires forall id | id in s.accounts :: s.accounts[id] == SumDeltas(Rows(s.log, id))
    requires t.remaining == BalanceOf(s.accounts, t.accountId) + t.delta
    ensures RunningBalances(s.log + [t])
  {
    var log' := s.log + [t];
    forall k | 0 <= k < |log'|
      ensures log'[k].remaining == RunningSum(log', k)
    {
      if k < |s.log| {
        assert log'[..k + 1] == s.log[..k + 1];
        assert s.log[k].remaining == RunningSum(s.log, k);
      } else {
        assert log'[..k + 1] == log';
        RowsAppend(s.log, t, t.accountId);
        SumAppend(Rows(s.log, t.accountId), t);
        if t.accountId !in s.accounts {
          RowsOfUnknown(s.log, s.accounts, t.accountId);
        }
      }
    }
  }

  /** Appending `t` with the next sequence value keeps the ids positive, bounded and increasing. */
  lemma PostKeepsIds(s: Tables, t: Transaction)
    requires s.nextId >= 1
    requires forall k | 0 <= k < |s.log| :: 1 <= s.log[k].id < s.nextId
    requires IncreasingIds(s.log)
    requires t.id == s.nextId
    ensures IdsBelow(s.log + [t], s.nextId + 1)
    ensures IncreasingIds(s.log + [t])
  {
    var log' := s.log + [t];
    forall i, j | 0 <= i < j < |log'|
      ensures log'[i].id < log'[j].id
    {
      assert log'[i] == s.log[i];
      if j < |s.log| {
        assert log'[j] == s.log[j];
      }
    }
  }

  /** Appending `t` keeps every row owned by an existing account and non-negative. */
  lemma PostKeepsOwners(s: Tables, t: Transaction)
    requires forall k | 0 <= k < |s.log| :: s.log[k].accountId in s.accounts && s.log[k].remaining >= 0
    requires t.remaining >= 0
    ensures OwnedRows(Post(s, t).log, Post(s, t).accounts)
  {
    var s' := Post(s, t);
    forall k | 0 <= k < |s'.log|
      ensures s'.log[k].accountId in s'.accounts && s'.log[k].remaining >= 0
    {
      if k < |s.log| {
        assert s'.log[k] == s.log[k];
      }
    }
  }

  lemma PostKeepsNonNegative(s: Tables, t: Transaction)
    requires NonNegative(s.accounts)
    requires t.remaining >= 0
    ensures NonNegative(Post(s, t).accounts)
  {
  }

  /** Recording a mutation whose Remaining is the old balance plus its delta keeps the invariant. */
  lemma PostPreservesInv(s: Tables, t: Transaction)
    requires Inv(s)
    requires t.id == s.nextId
    requires t.remaining == BalanceOf(s.accounts, t.accountId) + t.delta
    requires t.remaining >= 0
    ensures Inv(Post(s, t))
  {
    PostKeepsLedgerSums(s, t);
    PostKeepsRunningBalances(s, t);
    PostKeepsIds(s, t);
    PostKeepsOwners(s, t);
    PostKeepsNonNegative(s, t);
  }

  /** Every balance, also the 0 of a missing account, is the sum of that account's logged deltas:
      the initial balance 0 plus every delta that was applied successfully. */
  lemma BalanceIsLedgerSum(s: Tables, id: int)
    requires Inv(s)
    ensures BalanceOf(s.accounts, id) == SumDeltas(Rows(s.log, id))
    ensures BalanceOf(s.accounts, id) >= 0
  {
    if id !in s.accounts {
      RowsOfUnknown(s.log, s.accounts, id);
    }
  }

  lemma RunningPrefix(log: seq<Transaction>, n: nat)
    requires RunningBalances(log)
    requires n <= |log|
    ensures RunningBalances(log[..n])
  {
    var prefix := log[..n];
    forall k | 0 <= k < |prefix|
      ensures prefix[k].remaining == RunningSum(prefix, k)
    {
      assert prefix[..k + 1] == log[..k + 1];
      assert log[k].remaining == RunningSum(log, k);
    }
  }

  lemma {:induction false} LastRowIsRunningSum(log: seq<Transaction>, id: int)
    requires RunningBalances(log)
    requires Rows(log, id) != []
    ensures Rows(log, id)[|Rows(log, id)| - 1].remaining == SumDeltas(Rows(log, id))
  {
    var n := |log|;
    var last := log[n - 1];
    var prefix := log[..n - 1];
    assert log == prefix + [last];
    RowsAppend(prefix, last, id);
    if last.accountId == id {
      assert log[..n] == log;
      assert last.remaining == RunningSum(log, n - 1);
      assert Rows(log, id)[|Rows(log, id)| - 1] == last;
    } else {
      assert Rows(log, id) == Rows(prefix, id);
      RunningPrefix(log, n - 1);
      LastRowIsRunningSum(prefix, id);
    }
  }

  /** The latest row of an account shows the account's current balance. */
  lemma LatestRemainingIsBalance(s: Tables, id: int)
    requires Inv(s)
    requires Rows(s.log, id) != []
    ensures Rows(s.log, id)[|Rows(s.log, id)| - 1].remaining == BalanceOf(s.accounts, id)
  {
    LastRowIsRunningSum(s.log, id);
    BalanceIsLedgerSum(s, id);
  }

  /** The new state and the reported result of an atomic unit. */
  datatype Outcome = Outcome(after: Tables, result: Result<Transaction, CustomErr>)

  /** UpdateBalance: one conditioned adjustment and one ledger row, all or nothing. `failing`
      names the store statements that report a generic storage error in this call. */
  function UpdateBalanceOutcome(s: Tables, r: ChangeBalanceRequest, now: int, failing: set<Stmt>): (o: Outcome)
    ensures o.result.Failure? ==> o.after == s
    ensures o.result.Success? ==>
      && o.after == Post(s, o.result.value)
      && o.result.value.id == s.nextId
      && o.result.value.remaining == BalanceOf(s.accounts, r.id) + r.delta >= 0
  {
    var balance := BalanceOf(s.accounts, r.id) + r.delta;
    if Update(0) in failing then Outcome(s, Failure(CustomErr(Default)))
    else if balance < 0 then Outcome(s, Failure(CustomErr(InsufficientFunds)))
    else if Insert(0) in failing then Outcome(s, Failure(CustomErr(Default)))
    else
      var t := Transaction(s.nextId, r.id, now, r.delta, balance, Adjustment);
      Outcome(Post(s, t), Success(t))
  }

  /** MakeTransfer: debit ID1, credit ID2, then one row per leg, all or nothing. */
  function TransferOutcome(s: Tables, r: TransferRequest, now: int, failing: set<Stmt>): (o: Outcome)
    ensures o.result.Failure? ==> o.after == s
    ensures o.result.Success? ==>
      && |o.after.log| == |s.log| + 2
      && o.after.log[|s.log|] == o.result.value
      && o.after.log[..|s.log|] == s.log
      && o.result.value.remaining >= 0 && o.after.log[|s.log| + 1].remaining >= 0
  {
    var b1 := BalanceOf(s.accounts, r.id1) - r.delta;
    var b2 := BalanceOf(s.accounts[r.id1 := b1], r.id2) + r.delta;
    if Update(0) in failing then Outcome(s, Failure(CustomErr(Default)))
    else if b1 < 0 then Outcome(s, Failure(CustomErr(InsufficientFunds)))
    else if Update(1) in failing then Outcome(s, Failure(CustomErr(Default)))
    else if b2 < 0 then Outcome(s, Failure(CustomErr(InsufficientFunds)))
    else if Insert(0) in failing || Insert(1) in failing then Outcome(s, Failure(CustomErr(Default)))
    else
      var leg := TransferLeg(r.id1, r.id2);
      var t1 := Transaction(s.nextId, r.id1, now, -r.delta, b1, leg);
      var t2 := Transaction(s.nextId + 1, r.id2, now, r.delta, b2, leg);
      Outcome(Post(Post(s, t1), t2), Success(t1))
  }

  /** The commit path of a transfer: with no failing statement and both new balances
      non-negative, the outcome records the debit leg and then the credit leg. */
  lemma TransferCommits(s: Tables, r: TransferRequest, now: int, failing: set<Stmt>, t1: Transaction, t2: Transaction)
    requires Update(0) !in failing && Update(1) !in failing && Insert(0) !in failing && Insert(1) !in failing
    requires t1 == Transaction(s.nextId, r.id1, now, -r.delta, BalanceOf(s.accounts, r.id1) - r.delta, TransferLeg(r.id1, r.id2))
    requires t2 == Transaction(s.nextId + 1, r.id2, now, r.delta, BalanceOf(Post(s, t1).accounts, r.id2) + r.delta,
                               TransferLeg(r.id1, r.id2))
    requires t1.remaining >= 0 && t2.remaining >= 0
    ensures TransferOutcome(s, r, now, failing) == Outcome(Post(Post(s, t1), t2), Success(t1))
  {
  }

  /** An adjustment succeeds exactly when no statement fails and the new balance is not negative;
      an existing account gets balance + delta, a missing one is created by a credit and refused
      a debit; one row recording the new balance is appended; on failure nothing changes. */
  lemma UpdateBalanceEffect(s: Tables, r: ChangeBalanceRequest, now: int, failing: set<Stmt>)
    ensures var o := UpdateBalanceOutcome(s, r, now, failing);
      && (o.result.Success? <==>
           Update(0) !in failing && Insert(0) !in failing && BalanceOf(s.accounts, r.id) + r.delta >= 0)
      && (o.result.Failure? ==> o.after == s)
      && (o.result.Failure? ==>
           o.result.error.kind == (if Update(0) !in failing && BalanceOf(s.accounts, r.id) + r.delta < 0
                                   then InsufficientFunds else Default))
      && (Update(0) !in failing && r.id !in s.accounts && r.delta < 0 ==>
           o.result == Failure(CustomErr(InsufficientFunds)) && r.id !in o.after.accounts)
      && (o.result.Success? ==>
           var t := o.result.value;
           && o.after.accounts == s.accounts[r.id := BalanceOf(s.accounts, r.id) + r.delta]
           && (r.id !in s.accounts ==> o.after.accounts[r.id] == r.delta)
           && o.after.log == s.log + [t]
           && o.after.nextId == s.nextId + 1
           && t == Transaction(s.nextId, r.id, now, r.delta, o.after.accounts[r.id], Adjustment))
  {
  }

  lemma UpdateBalancePreservesInv(s: Tables, r: ChangeBalanceRequest, now: int, failing: set<Stmt>)
    requires Inv(s)
    ensures Inv(UpdateBalanceOutcome(s, r, now, failing).after)
  {
    var o := UpdateBalanceOutcome(s, r, now, failing);
    if o.result.Success? {
      PostPreservesInv(s, o.result.value);
    }
  }

  /** A transfer reports insufficient funds when the source account is missing or holds less than
      delta, and a failed transfer changes nothing. */
  lemma TransferFailure(s: Tables, r: TransferRequest, now: int, failing: set<Stmt>)
    requires Inv(s)
    ensures var o := TransferOutcome(s, r, now, failing);
      && (o.result.Failure? ==> o.after == s)
      && (Update(0) !in failing && r.delta > 0 && (r.id1 !in s.accounts || s.accounts[r.id1] < r.delta) ==>
           o.result == Failure(CustomErr(InsufficientFunds)))
      && (r.delta > 0 && (forall st :: st !in failing) ==>
           (o.result.Success? <==> BalanceOf(s.accounts, r.id1) >= r.delta))
  {
  }

  /** A successful transfer moves delta from ID1 to ID2 (creating ID2 when absent), leaves the sum
      of the two balances and every other account unchanged, and appends exactly the debit leg and
      then the credit leg, with one timestamp; the debit leg is returned. */
  lemma TransferEffect(s: Tables, r: TransferRequest, now: int, failing: set<Stmt>)
    requires r.id1 != r.id2
    ensures var o := TransferOutcome(s, r, now, failing);
      o.result.Success? ==>
        var a := o.after.accounts;
        var t1 := o.result.value;
        && BalanceOf(a, r.id1) == BalanceOf(s.accounts, r.id1) - r.delta
        && BalanceOf(a, r.id2) == BalanceOf(s.accounts, r.id2) + r.delta
        && BalanceOf(a, r.id1) + BalanceOf(a, r.id2) == BalanceOf(s.accounts, r.id1) + BalanceOf(s.accounts, r.id2)
        && r.id1 in a && r.id2 in a
        && (forall id | id != r.id1 && id != r.id2 :: BalanceOf(a, id) == BalanceOf(s.accounts, id))
        && a.Keys == s.accounts.Keys + {r.id1, r.id2}
        && (r.delta > 0 ==> r.id1 in s.accounts)
        && |o.after.log| == |s.log| + 2
        && o.after.log[..|s.log|] == s.log
        && o.after.log[|s.log|] == t1
        && t1 == Transaction(s.nextId, r.id1, now, -r.delta, a[r.id1], TransferLeg(r.id1, r.id2))
        && o.after.log[|s.log| + 1] == Transaction(s.nextId + 1, r.id2, now, r.delta, a[r.id2], TransferLeg(r.id1, r.id2))
  {
  }

  /** A transfer from an account to itself leaves its balance as it was and still writes two rows. */
  lemma SelfTransferEffect(s: Tables, r: TransferRequest, now: int, failing: set<Stmt>)
    requires r.id1 == r.id2
    ensures var o := TransferOutcome(s, r, now, failing);
      o.result.Success? ==>
        && o.after.accounts == s.accounts[r.id1 := BalanceOf(s.accounts, r.id1)]
        && |o.after.log| == |s.log| + 2
  {
  }

  lemma TransferPreservesInv(s: Tables, r: TransferRequest, now: int, failing: set<Stmt>)
    requires Inv(s)
    ensures Inv(TransferOutcome(s, r, now, failing).after)
  {
    var o := TransferOutcome(s, r, now, failing);
    if o.result.Success? {
      var t1 := o.after.log[|s.log|];
      var t2 := o.after.log[|s.log| + 1];
      assert o.after == Post(Post(s, t1), t2);
      PostPreservesInv(s, t1);
      PostPreservesInv(Post(s, t1), t2);
    }
  }

  /** Money is conserved: a transfer's two rows cancel, so the ledger's total is unchanged. */
  lemma TransferConservesLedgerTotal(s: Tables, r: TransferRequest, now: int, failing: set<Stmt>)
    ensures SumDeltas(TransferOutcome(s, r, now, failing).after.log) == SumDeltas(s.log)
  {
    var o := TransferOutcome(s, r, now, failing);
    if o.result.Success? {
      var t1 := o.after.log[|s.log|];
      var t2 := o.after.log[|s.log| + 1];
      assert o.after.log == s.log + [t1] + [t2];
      SumAppend(s.log, t1);
      SumAppend(s.log + [t1], t2);
    }
  }

  /** An adjustment changes the ledger's total by exactly its delta, or not at all on failure. */
  lemma UpdateBalanceLedgerTotal(s: Tables, r: ChangeBalanceRequest, now: int, failing: set<Stmt>)
    ensures var o := UpdateBalanceOutcome(s, r, now, failing);
      SumDeltas(o.after.log) == SumDeltas(s.log) + (if o.result.Success? then r.delta else 0)
  {
    var o := UpdateBalanceOutcome(s, r, now, failing);
    if o.result.Success? {
      SumAppend(s.log, o.result.value);
    }
  }
}
