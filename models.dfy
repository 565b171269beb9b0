/** Entities, constants and request validity of the balance service (models/models.go). */
module Models {

  /** A Success/Failure result, used for every operation that can report an error. */
  datatype Result<+T, +E> = Success(value: T) | Failure(error: E)

  datatype Option<+T> = None | Some(value: T)

  /** The two error kinds of a CustomErr, as a closed variant. */
  datatype ErrorKind = Default | InsufficientFunds

  const ErrorDefaultCode: int := 0
  const ErrorInsufficientFundsCode: int := 1

  /** The numeric ErrorCode a CustomErr of this kind carries. */
  function ErrorCode(k: ErrorKind): int
  {
    match k
    case Default => ErrorDefaultCode
    case InsufficientFunds => ErrorInsufficientFundsCode
  }

  /** Reads an error code back; only the two defined codes are recognised. */
  function KindOfCode(code: int): Option<ErrorKind>
  {
    if code == ErrorDefaultCode then Some(Default)
    else if code == ErrorInsufficientFundsCode then Some(InsufficientFunds)
    else None
  }

  /** Exactly two error codes, 0 and 1, distinct, and each identifies its kind. */
  lemma ErrorCodes(k: ErrorKind, c: int)
    ensures ErrorCode(Default) == 0 && ErrorCode(InsufficientFunds) == 1
    ensures ErrorCode(Default) != ErrorCode(InsufficientFunds)
    ensures KindOfCode(ErrorCode(k)) == Some(k)
    ensures KindOfCode(c).Some? <==> c == 0 || c == 1
  {
  }

  /** CustomErr: the message text is not modelled, only the kind behind ErrorCode. */
  datatype CustomErr = CustomErr(kind: ErrorKind)

  const SortByTimeString: string := "by-time"
  const SortBySumString: string := "by-sum"
  const OrderAscendingString: string := "asc"
  const OrderDescendingString: string := "desc"

  predicate IsSortKey(s: string)
  {
    s == SortByTimeString || s == SortBySumString
  }

  predicate IsOrder(s: string)
  {
    s == OrderAscendingString || s == OrderDescendingString
  }

  /** The valid sort keys are exactly by-time and by-sum, the valid orders exactly asc and desc. */
  lemma QueryConstants(s: string)
    ensures IsSortKey(s) <==> s in {"by-time", "by-sum"}
    ensures IsOrder(s) <==> s in {"asc", "desc"}
    ensures SortByTimeString != SortBySumString && OrderAscendingString != OrderDescendingString
  {
  }

  /** An account row: ID is the primary key, so the table holds one balance per id. */
  datatype Account = Account(id: int, balance: int)

  /** What a ledger row says about the mutation that produced it (the formatted text is not modelled). */
  datatype Message = Adjustment | TransferLeg(from: int, to: int)

  /** A ledger row: id is its own primary key, accountId the owning account. */
  datatype Transaction = Transaction(
    id: int,
    accountId: int,
    createdAt: int,
    delta: int,
    remaining: int,
    message: Message)

  datatype ChangeBalanceRequest = ChangeBalanceRequest(id: int, delta: int)

  datatype TransferRequest = TransferRequest(id1: int, id2: int, delta: int)

  // Validator tags, as the validator library reads them on numeric fields.

  datatype Rule = Required | Gt(bound: int) | NeField(field: string)

  datatype FieldSpec = FieldSpec(name: string, rules: seq<Rule>)

  /** `required` rejects the zero value; `gt=n` demands more than n; `nefield=F` differs from field F. */
  predicate RuleHolds(rule: Rule, v: int, fields: map<string, int>)
  {
    match rule
    case Required => v != 0
    case Gt(b) => v > b
    case NeField(f) => f in fields && v != fields[f]
  }

  /** A struct passes validation when every rule of every field holds. */
  predicate Validates(fields: map<string, int>, schema: seq<FieldSpec>)
  {
    forall i, j | 0 <= i < |schema| && 0 <= j < |schema[i].rules| ::
      schema[i].name in fields && RuleHolds(schema[i].rules[j], fields[schema[i].name], fields)
  }

  const ChangeBalanceSchema: seq<FieldSpec> :=
    [FieldSpec("ID", [Required, Gt(0)]), FieldSpec("Delta", [Required])]

  const TransferSchema: seq<FieldSpec> :=
    [FieldSpec("ID1", [Required, Gt(0)]),
     FieldSpec("ID2", [Required, NeField("ID1"), Gt(0)]),
     FieldSpec("Delta", [Required, Gt(0)])]

  predicate ValidChangeBalance(r: ChangeBalanceRequest)
  {
    Validates(map["ID" := r.id, "Delta" := r.delta], ChangeBalanceSchema)
  }

  predicate ValidTransfer(r: TransferRequest)
  {
    Validates(map["ID1" := r.id1, "ID2" := r.id2, "Delta" := r.delta], TransferSchema)
  }

  /** A ChangeBalanceRequest validates iff ID > 0 and Delta is non-zero. */
  lemma ChangeBalanceValidity(r: ChangeBalanceRequest)
    ensures ValidChangeBalance(r) <==> r.id > 0 && r.delta != 0
  {
    var fields := map["ID" := r.id, "Delta" := r.delta];
    if r.id > 0 && r.delta != 0 {
      forall i, j | 0 <= i < |ChangeBalanceSchema| && 0 <= j < |ChangeBalanceSchema[i].rules|
        ensures ChangeBalanceSchema[i].name in fields
        ensures RuleHolds(ChangeBalanceSchema[i].rules[j], fields[ChangeBalanceSchema[i].name], fields)
      {
      }
    } else if r.id <= 0 {
      assert !RuleHolds(ChangeBalanceSchema[0].rules[1], fields[ChangeBalanceSchema[0].name], fields);
    } else {
      assert !RuleHolds(ChangeBalanceSchema[1].rules[0], fields[ChangeBalanceSchema[1].name], fields);
    }
  }

  /** A TransferRequest validates iff ID1 > 0, ID2 > 0, ID2 differs from ID1 and Delta > 0. */
  lemma TransferValidity(r: TransferRequest)
    ensures ValidTransfer(r) <==> r.id1 > 0 && r.id2 > 0 && r.id2 != r.id1 && r.delta > 0
  {
    var fields := map["ID1" := r.id1, "ID2" := r.id2, "Delta" := r.delta];
    if r.id1 > 0 && r.id2 > 0 && r.id2 != r.id1 && r.delta > 0 {
      forall i, j | 0 <= i < |TransferSchema| && 0 <= j < |TransferSchema[i].rules|
        ensures TransferSchema[i].name in fields
        ensures RuleHolds(TransferSchema[i].rules[j], fields[TransferSchema[i].name], fields)
      {
      }
    } else if r.id1 <= 0 {
      assert !RuleHolds(TransferSchema[0].rules[1], fields[TransferSchema[0].name], fields);
    } else if r.id2 == r.id1 {
      assert !RuleHolds(TransferSchema[1].rules[1], fields[TransferSchema[1].name], fields);
    } else if r.id2 <= 0 {
      assert !RuleHolds(TransferSchema[1].rules[2], fields[TransferSchema[1].name], fields);
    } else {
      assert !RuleHolds(TransferSchema[2].rules[1], fields[TransferSchema[2].name], fields);
    }
  }
}
