/** app/routers/api.py: validation of the item schema, and the decisions of
    the `create_data` and `delete_data` handlers: which exception or
    response each outcome of the database call leads to, and which
    `db_operations_total` series each increments.

    `EmailStr` validation is an oracle `email`: `email(v)` is the normalised
    address, or `None` when `v` is refused. */
module Api {
  import opened Python
  import PyStr
  import opened Database
  import Middleware

  const NameMaxLength: nat := 100
  const MessageMaxLength: nat := 500
  const NameNeedsSpace := "Name must contain at least one space"
  const NoResult := "No result returned from database insert"
  const ItemNotFound := "Item not found"
  const DeleteFailed := "Failed to delete item"
  /** The handlers' `db_operations_total` operation labels. */
  const CreateOp := "create"
  const DeleteOp := "delete"
  const StatusNoContent: nat := 204
  const StatusNotFound: nat := 404
  const StatusServerError: nat := 500
  /** The insert of `create_data`, on one line. */
  const InsertQuery := "INSERT INTO user_data (name, email, message, created_at) VALUES ($1, $2, $3, NOW()) RETURNING id, created_at, updated_at"
  const DeleteQuery := "DELETE " + DeleteTarget
  const DeleteTarget := "FROM user_data WHERE id = $1"
  /** The status string `execute` returns when the DELETE matched no row. */
  const NothingDeleted := "DELETE 0"

  /** `DataItemCreate`: the fields of a request body, or of a validated item. */
  datatype Item = Item(name: string, email: string, message: Option<string>)

  /** `DataItemResponse`: the item with the columns the insert returned;
      timestamps are opaque numbers. */
  datatype ItemResponse = ItemResponse(item: Item, id: int, createdAt: int, updatedAt: Option<int>)

  /** The result of validating one field. */
  datatype Checked<T> = Accepted(value: T) | Refused(problem: Problem)

  /** The result of a handler and what it added to `db_operations_total`
      itself (the query primitive's own increment is not included). */
  datatype Handled<T> = Handled(outcome: Outcome<T>, ops: multiset<OpKey>)

  // ---------------------------------------------------------------------------
  // the schema
  // ---------------------------------------------------------------------------

  /** `DataItemCreate.name_must_contain_space`: a name is refused exactly when
      it has no space between two non-whitespace characters, and an accepted
      name is title-cased as given, surrounding whitespace included. */
  function NameMustContainSpace(v: string): (r: Outcome<string>)
    ensures r.Ok? <==> PyStr.InnerSpace(v)
    ensures r.Raise? ==> r.exc == ValueError(NameNeedsSpace)
    ensures r.Ok? ==> r.value == PyStr.Title(v) && |r.value| == |v|
  {
    PyStr.StripHasSpace(v);
    if ' ' !in PyStr.Strip(v) then Raise(ValueError(NameNeedsSpace)) else Ok(PyStr.Title(v))
  }

  /** A name the validator returned passes it again unchanged, so that
      `DataItemResponse`, which inherits the validator, keeps it. */
  lemma NameValidatorIdempotent(v: string)
    requires NameMustContainSpace(v).Ok?
    ensures NameMustContainSpace(NameMustContainSpace(v).value) == NameMustContainSpace(v)
  {
    PyStr.TitleInnerSpace(v);
    PyStr.TitleIdempotent(v);
  }

  /** `name: str = Field(..., max_length=100)` with its validator: the length
      bound is checked first, and the validator runs only on a name within it. */
  function CheckName(v: string): (r: Checked<string>)
    ensures r.Accepted? <==> |v| <= NameMaxLength && PyStr.InnerSpace(v)
    ensures r.Accepted? ==> r.value == PyStr.Title(v) && |r.value| == |v|
    ensures r.Refused? ==> r.problem == (if |v| > NameMaxLength then TooLong(NameMaxLength) else Rejected(NameNeedsSpace))
  {
    if |v| > NameMaxLength then Refused(TooLong(NameMaxLength))
    else match NameMustContainSpace(v)
      case Ok(t) => Accepted(t)
      case Raise(_) => Refused(Rejected(NameNeedsSpace))
  }

  /** `email: EmailStr`. */
  function CheckEmail(v: string, email: string -> Option<string>): (r: Checked<string>)
    ensures r.Accepted? <==> email(v).Some?
    ensures r.Accepted? ==> r.value == email(v).value
  {
    match email(v)
    case Some(n) => Accepted(n)
    case None => Refused(NotEmail)
  }

  /** `message: Optional[str] = Field(None, max_length=500)`. */
  function CheckMessage(m: Option<string>): (r: Checked<Option<string>>)
    ensures r.Accepted? ==> r.value == m
    ensures r.Refused? ==> r.problem == TooLong(MessageMaxLength) && !MessageFits(m)
  {
    match m
    case None => Accepted(None)
    case Some(s) => if |s| > MessageMaxLength then Refused(TooLong(MessageMaxLength)) else Accepted(m)
  }

  predicate MessageFits(m: Option<string>) {
    m.None? || |m.value| <= MessageMaxLength
  }

  /** `id: int`. */
  function CheckId(v: Value): Checked<int> {
    if v.IntV? then Accepted(v.i) else Refused(NotInteger)
  }

  /** `created_at: datetime`. */
  function CheckCreatedAt(v: Value): Checked<int> {
    if v.TimeV? then Accepted(v.t) else Refused(NotDatetime)
  }

  /** `updated_at: Optional[datetime] = None`. */
  function CheckUpdatedAt(v: Value): Checked<Option<int>> {
    match v
    case NullV => Accepted(None)
    case TimeV(t) => Accepted(Some(t))
    case _ => Refused(NotDatetime)
  }

  /** The error a field contributes to a `ValidationError`, if any. */
  function Errs<T>(field: string, c: Checked<T>): seq<FieldError> {
    if c.Refused? then [FieldError(field, c.problem)] else []
  }

  /** The errors of the fields of `DataItemCreate`, in declaration order. */
  function ItemErrors(n: Checked<string>, e: Checked<string>, m: Checked<Option<string>>): seq<FieldError> {
    Errs("name", n) + Errs("email", e) + Errs("message", m)
  }

  /** `DataItemCreate(**body)`: the item is accepted exactly when every field
      is, with its name title-cased and its e-mail normalised; otherwise every
      refused field is reported. */
  function ValidateItem(input: Item, email: string -> Option<string>): (r: Outcome<Item>)
    ensures r.Ok? <==>
      && |input.name| <= NameMaxLength && PyStr.InnerSpace(input.name)
      && email(input.email).Some? && MessageFits(input.message)
    ensures r.Ok? ==> r.value == Item(PyStr.Title(input.name), email(input.email).value, input.message)
    ensures r.Ok? ==> |r.value.name| <= NameMaxLength && MessageFits(r.value.message)
    ensures r.Raise? ==> r.exc.ValidationError? && 1 <= |r.exc.errors| <= 3
  {
    var n, e, m := CheckName(input.name), CheckEmail(input.email, email), CheckMessage(input.message);
    if n.Accepted? && e.Accepted? && m.Accepted? then Ok(Item(n.value, e.value, m.value))
    else Raise(ValidationError(ItemErrors(n, e, m)))
  }

  /** The position of a field of `DataItemCreate`. */
  function FieldRank(field: string): nat {
    if field == "name" then 0 else if field == "email" then 1 else 2
  }

  /** Which errors a refused item reports: a name over the bound only that,
      a name within it without an inner space the validator's message, and
      errors in the order the fields are declared. */
  lemma ItemErrorsListed(input: Item, email: string -> Option<string>)
    requires ValidateItem(input, email).Raise?
    ensures var errors := ValidateItem(input, email).exc.errors;
      && (FieldError("name", TooLong(NameMaxLength)) in errors <==> |input.name| > NameMaxLength)
      && (FieldError("name", Rejected(NameNeedsSpace)) in errors <==>
            |input.name| <= NameMaxLength && !PyStr.InnerSpace(input.name))
      && (FieldError("email", NotEmail) in errors <==> email(input.email).None?)
      && (FieldError("message", TooLong(MessageMaxLength)) in errors <==> !MessageFits(input.message))
      && forall i, j :: 0 <= i < j < |errors| ==> FieldRank(errors[i].field) < FieldRank(errors[j].field)
  {
    var n, e, m := CheckName(input.name), CheckEmail(input.email, email), CheckMessage(input.message);
    var en, ee, em := Errs("name", n), Errs("email", e), Errs("message", m);
    var errors := en + ee + em;
    assert ValidateItem(input, email).exc.errors == errors;
    assert |en| <= 1 && |ee| <= 1 && |em| <= 1;
    assert forall x :: x in errors <==> x in en || x in ee || x in em;
    forall i | 0 <= i < |errors|
      ensures FieldRank(errors[i].field) == (if i < |en| then 0 else if i < |en| + |ee| then 1 else 2)
    {
      if i < |en| {
        assert errors[i] == en[i];
      } else if i < |en| + |ee| {
        assert errors[i] == ee[i - |en|];
      } else {
        assert errors[i] == em[i - |en| - |ee|];
      }
    }
  }

  /** An item whose every field its own check accepts unchanged. */
  predicate Revalidates(item: Item, email: string -> Option<string>) {
    && CheckName(item.name) == Accepted(item.name)
    && CheckEmail(item.email, email) == Accepted(item.email)
    && CheckMessage(item.message) == Accepted(item.message)
  }

  /** Validating a validated item again gives it back, provided the e-mail
      oracle accepts its own normal forms. */
  lemma RevalidationKeepsItem(input: Item, email: string -> Option<string>)
    requires ValidateItem(input, email).Ok?
    requires var it := ValidateItem(input, email).value; email(it.email) == Some(it.email)
    ensures var it := ValidateItem(input, email).value; Revalidates(it, email) && ValidateItem(it, email) == Ok(it)
  {
    PyStr.TitleInnerSpace(input.name);
    PyStr.TitleIdempotent(input.name);
  }

  /** `DataItemResponse(**response_data)`: the item's fields are validated
      again, then `id`, `created_at` and `updated_at`. */
  function ValidateResponse(item: Item, id: Value, createdAt: Value, updatedAt: Value,
                            email: string -> Option<string>): (r: Outcome<ItemResponse>)
    ensures r.Ok? <==>
      && ValidateItem(item, email).Ok? && id.IntV? && createdAt.TimeV? && (updatedAt.NullV? || updatedAt.TimeV?)
    ensures r.Ok? ==> r.value.item == ValidateItem(item, email).value && r.value.id == id.i
    ensures r.Raise? ==> r.exc.ValidationError? && 1 <= |r.exc.errors| <= 6
  {
    var n, e, m := CheckName(item.name), CheckEmail(item.email, email), CheckMessage(item.message);
    var i, c, u := CheckId(id), CheckCreatedAt(createdAt), CheckUpdatedAt(updatedAt);
    if n.Accepted? && e.Accepted? && m.Accepted? && i.Accepted? && c.Accepted? && u.Accepted? then
      Ok(ItemResponse(Item(n.value, e.value, m.value), i.value, c.value, u.value))
    else
      Raise(ValidationError(ItemErrors(n, e, m) + Errs("id", i) + Errs("created_at", c) + Errs("updated_at", u)))
  }

  // ---------------------------------------------------------------------------
  // create_data
  // ---------------------------------------------------------------------------

  /** The dictionary `response_data` and the response built from it; a
      missing column raises `KeyError`, looked up in the order written. */
  function BuildResponse(item: Item, row: RowDict, email: string -> Option<string>): (r: Outcome<ItemResponse>)
    ensures r.Raise? ==> r.exc.IsException()
    ensures r.Raise? && r.exc.KeyError? ==> r.exc.key !in row
    ensures r.Ok? <==>
      && "id" in row && "created_at" in row && "updated_at" in row
      && ValidateResponse(item, row["id"], row["created_at"], row["updated_at"], email).Ok?
  {
    if "id" !in row then Raise(KeyError("id"))
    else if "created_at" !in row then Raise(KeyError("created_at"))
    else if "updated_at" !in row then Raise(KeyError("updated_at"))
    else ValidateResponse(item, row["id"], row["created_at"], row["updated_at"], email)
  }

  /** The inner `try` of `create_data`, given what `fetchrow` did: the
      response, or the exception it raises. */
  function CreateInner(item: Item, email: string -> Option<string>, fetched: Outcome<Option<RowDict>>): (r: Outcome<ItemResponse>)
    ensures fetched.Raise? ==> r == Raise(fetched.exc)
    ensures fetched.Ok? && r.Raise? ==> r.exc.IsException()
  {
    match fetched
    case Raise(e) => Raise(e)
    case Ok(row) =>
      if row.None? || row.value == map[] then Raise(HttpException(StatusServerError, Text(NoResult)))
      else BuildResponse(item, row.value, email)
  }

  /** `create_data(item)`, given what `fetchrow` did. Every failure that is an
      `Exception`, the handler's own "no result" included, is wrapped by the
      inner `except Exception` into a 500 "Database error", and then counted
      once as ("create", "error") by the outer `except HTTPException`; a
      success is counted once as ("create", "success"); a cancellation
      propagates and is not counted. */
  function CreateResult(item: Item, email: string -> Option<string>, fetched: Outcome<Option<RowDict>>): (h: Handled<ItemResponse>)
    ensures h.outcome.Ok? ==> h.ops == multiset{OpKey(CreateOp, StatusSuccess)}
    ensures h.outcome.Raise? && h.outcome.exc.IsException() ==>
      && h.outcome.exc.HttpException? && h.outcome.exc.status == StatusServerError
      && h.outcome.exc.detail.DatabaseError? && h.outcome.exc.detail.cause.IsException()
      && h.ops == multiset{OpKey(CreateOp, StatusError)}
    ensures h.outcome.Raise? && !h.outcome.exc.IsException() ==> h.outcome.exc == CancelledError && h.ops == multiset{}
    ensures fetched.Raise? ==> h.outcome.Raise?
    ensures fetched.Raise? && fetched.exc.IsException() ==> h.outcome == Raise(HttpException(StatusServerError, DatabaseError(fetched.exc)))
    ensures fetched.Raise? && !fetched.exc.IsException() ==> h.outcome == Raise(CancelledError)
    ensures fetched == Ok(None) ==>
      h.outcome == Raise(HttpException(StatusServerError, DatabaseError(HttpException(StatusServerError, Text(NoResult)))))
    ensures fetched.Ok? && fetched.value.Some? && fetched.value.value != map[] ==>
      var row := fetched.value.value;
      && ("id" !in row ==> h.outcome == Raise(HttpException(StatusServerError, DatabaseError(KeyError("id")))))
      && ("id" in row && "created_at" !in row ==>
            h.outcome == Raise(HttpException(StatusServerError, DatabaseError(KeyError("created_at")))))
      && ("id" in row && "created_at" in row && "updated_at" !in row ==>
            h.outcome == Raise(HttpException(StatusServerError, DatabaseError(KeyError("updated_at")))))
      && ("id" in row && "created_at" in row && "updated_at" in row ==>
            var v := ValidateResponse(item, row["id"], row["created_at"], row["updated_at"], email);
            h.outcome == if v.Ok? then v else Raise(HttpException(StatusServerError, DatabaseError(v.exc))))
  {
    var inner := CreateInner(item, email, fetched);
    if inner.Ok? then Handled(inner, multiset{OpKey(CreateOp, StatusSuccess)})
    else if !inner.exc.IsException() then Handled(inner, multiset{})
    else Handled(Raise(HttpException(StatusServerError, DatabaseError(inner.exc))), multiset{OpKey(CreateOp, StatusError)})
  }

  /** The response model accepts an item whose fields are accepted, with
      well-typed columns. */
  lemma ResponseOfAccepted(item: Item, email: string -> Option<string>, id: Value, createdAt: Value, updatedAt: Value)
    requires CheckName(item.name).Accepted? && CheckEmail(item.email, email).Accepted?
    requires CheckMessage(item.message).Accepted?
    requires id.IntV? && createdAt.TimeV? && (updatedAt.NullV? || updatedAt.TimeV?)
    ensures var it := Item(CheckName(item.name).value, CheckEmail(item.email, email).value, CheckMessage(item.message).value);
      ValidateResponse(item, id, createdAt, updatedAt, email) ==
        Ok(ItemResponse(it, id.i, createdAt.t, if updatedAt.NullV? then None else Some(updatedAt.t)))
  {
  }

  /** An item whose fields are accepted is created from a row with
      well-typed columns, and counted as a success. */
  lemma CreateOfAccepted(item: Item, email: string -> Option<string>, row: RowDict)
    requires CheckName(item.name).Accepted? && CheckEmail(item.email, email).Accepted?
    requires CheckMessage(item.message).Accepted?
    requires "id" in row && row["id"].IntV? && "created_at" in row && row["created_at"].TimeV?
    requires "updated_at" in row && (row["updated_at"].NullV? || row["updated_at"].TimeV?)
    ensures var it := Item(CheckName(item.name).value, CheckEmail(item.email, email).value, CheckMessage(item.message).value);
      var updated := if row["updated_at"].NullV? then None else Some(row["updated_at"].t);
      CreateResult(item, email, Ok(Some(row))) ==
        Handled(Ok(ItemResponse(it, row["id"].i, row["created_at"].t, updated)), multiset{OpKey(CreateOp, StatusSuccess)})
  {
    assert row != map[];
    ResponseOfAccepted(item, email, row["id"], row["created_at"], row["updated_at"]);
  }

  /** A created item is echoed: the response holds the validated item as it
      was given to the handler and the columns the insert returned. This
      needs the e-mail oracle to accept its own normal forms, since the
      response model validates the item again. */
  lemma CreateEchoesItem(input: Item, email: string -> Option<string>, row: RowDict)
    requires ValidateItem(input, email).Ok?
    requires var it := ValidateItem(input, email).value; email(it.email) == Some(it.email)
    requires "id" in row && row["id"].IntV? && "created_at" in row && row["created_at"].TimeV?
    requires "updated_at" in row && (row["updated_at"].NullV? || row["updated_at"].TimeV?)
    ensures var it := ValidateItem(input, email).value;
      var updated := if row["updated_at"].NullV? then None else Some(row["updated_at"].t);
      CreateResult(it, email, Ok(Some(row))) ==
        Handled(Ok(ItemResponse(it, row["id"].i, row["created_at"].t, updated)), multiset{OpKey(CreateOp, StatusSuccess)})
  {
    var it := ValidateItem(input, email).value;
    RevalidationKeepsItem(input, email);
    CreateOfAccepted(it, email, row);
  }

  /** What `fetchrow` does with the pool in state `pool`. */
  function Fetched(pool: Option<Pool>, answer: Outcome<Option<Record>>): Outcome<Option<RowDict>> {
    if pool.None? then Raise(RuntimeError(PoolNotInitialized)) else Map(answer, AsRow)
  }

  /** The increment a query primitive adds with the pool in state `pool`. */
  function Counted<T>(pool: Option<Pool>, operation: string, answer: Outcome<T>): multiset<OpKey> {
    if pool.None? then multiset{} else Tally(operation, answer)
  }

  /** Over one `create_data` request `db_operations_total` counts the insert
      once under "select", the label of `fetchrow`, unless the pool is
      missing, and the handler's outcome once under "create" unless the
      request was cancelled. */
  lemma CreateCounts(pool: Option<Pool>, answer: Outcome<Option<Record>>, item: Item, email: string -> Option<string>)
    ensures var h := CreateResult(item, email, Fetched(pool, answer));
      var ops := Counted(pool, "select", answer) + h.ops;
      var cancelled := pool.Some? && answer.Raise? && !answer.exc.IsException();
      && ops[OpKey("select", StatusSuccess)] + ops[OpKey("select", StatusError)] == (if pool.Some? && !cancelled then 1 else 0)
      && ops[OpKey(CreateOp, StatusSuccess)] + ops[OpKey(CreateOp, StatusError)] == (if cancelled then 0 else 1)
      && ops[OpKey("modify", StatusSuccess)] == 0 && ops[OpKey("modify", StatusError)] == 0
      && |ops| == (if cancelled then 0 else if pool.Some? then 2 else 1)
  {
  }

  /** `create_data(item)` against the module state of app/database.py, where
      `answer` is what the pool does with the insert. */
  method CreateData(db: Db, item: Item, email: string -> Option<string>, answer: Outcome<Option<Record>>, holders: nat)
    returns (r: Outcome<ItemResponse>)
    modifies db`ops, db`durations, db`activeConnections
    ensures var h := CreateResult(item, email, Fetched(old(db.pool), answer));
      r == h.outcome && db.ops == old(db.ops) + Counted(old(db.pool), "select", answer) + h.ops
    ensures old(db.pool).Some? ==> db.durations == old(db.durations) + multiset{"select"} && db.activeConnections == holders
    ensures old(db.pool).None? ==> db.durations == old(db.durations) && db.activeConnections == old(db.activeConnections)
  {
    var fetched := db.FetchRow(InsertQuery, answer, holders);
    var inner: Outcome<ItemResponse>;
    if fetched.Raise? {
      inner := Raise(fetched.exc);
    } else if fetched.value.None? || fetched.value.value == map[] {
      inner := Raise(HttpException(StatusServerError, Text(NoResult)));
    } else {
      inner := BuildResponse(item, fetched.value.value, email);
    }
    if inner.Ok? {
      db.ops := db.ops + multiset{OpKey(CreateOp, StatusSuccess)};
      return inner;
    }
    if !inner.exc.IsException() {
      return inner;
    }
    var wrapped := HttpException(StatusServerError, DatabaseError(inner.exc));
    db.ops := db.ops + multiset{OpKey(CreateOp, StatusError)};
    r := Raise(wrapped);
  }

  // ---------------------------------------------------------------------------
  // delete_data
  // ---------------------------------------------------------------------------

  /** `delete_data(item_id)`, given what `execute` did: "DELETE 0" is a 404
      that is re-raised uncounted, any other status a 204, and any other
      `Exception` a 500 counted once as ("delete", "error"). */
  function DeleteResult(executed: Outcome<string>): (h: Handled<Middleware.Response>)
    ensures h.outcome == Ok(Middleware.Response(StatusNoContent)) <==> executed.Ok? && executed.value != NothingDeleted
    ensures executed == Ok(NothingDeleted) ==> h.outcome == Raise(HttpException(StatusNotFound, Text(ItemNotFound)))
    ensures h.outcome.Raise? && h.outcome.exc.IsException() ==> h.outcome.exc.HttpException?
    ensures h.ops == multiset{OpKey(DeleteOp, StatusError)} <==>
      executed.Raise? && executed.exc.IsException() && !executed.exc.HttpException?
    ensures h.ops == multiset{} || h.ops == multiset{OpKey(DeleteOp, StatusError)}
    ensures h.ops != multiset{} ==> h.outcome == Raise(HttpException(StatusServerError, Text(DeleteFailed)))
    ensures executed.Raise? && (executed.exc.HttpException? || !executed.exc.IsException()) ==>
      h.outcome == Raise(executed.exc) && h.ops == multiset{}
  {
    match executed
    case Ok(status) =>
      if status == NothingDeleted then Handled(Raise(HttpException(StatusNotFound, Text(ItemNotFound))), multiset{})
      else Handled(Ok(Middleware.Response(StatusNoContent)), multiset{})
    case Raise(e) =>
      if e.HttpException? || !e.IsException() then Handled(Raise(e), multiset{})
      else Handled(Raise(HttpException(StatusServerError, Text(DeleteFailed))), multiset{OpKey(DeleteOp, StatusError)})
  }

  /** What `execute` does with the delete query with the pool in state `pool`. */
  function Executed(pool: Option<Pool>, answer: Outcome<string>): Outcome<string> {
    if pool.None? then Raise(RuntimeError(PoolNotInitialized)) else answer
  }

  /** A failed delete is counted twice as ("delete", "error"): once by the
      query primitive, under the leading word of the query, and once by the
      handler; with no pool only the handler counts it. */
  lemma DeleteFailureCounts(pool: Option<Pool>, answer: Outcome<string>)
    requires answer.Raise? && answer.exc.IsException() && !answer.exc.HttpException?
    ensures var ops := Counted(pool, DeleteOp, answer) + DeleteResult(Executed(pool, answer)).ops;
      ops == (if pool.Some? then multiset{OpKey(DeleteOp, StatusError), OpKey(DeleteOp, StatusError)}
              else multiset{OpKey(DeleteOp, StatusError)})
  {
  }

  /** The delete query is counted under "delete". */
  lemma DeleteQueryLabel()
    ensures OperationLabel(DeleteQuery) == Ok(DeleteOp)
  {
    DeleteLabel(DeleteTarget);
  }

  /** `delete_data(item_id)` against the module state of app/database.py,
      where `answer` is what the pool does with the delete. */
  method DeleteData(db: Db, answer: Outcome<string>, holders: nat) returns (r: Outcome<Middleware.Response>)
    modifies db`ops, db`durations, db`activeConnections
    ensures var h := DeleteResult(Executed(old(db.pool), answer));
      r == h.outcome && db.ops == old(db.ops) + Counted(old(db.pool), DeleteOp, answer) + h.ops
    ensures old(db.pool).Some? ==> db.durations == old(db.durations) + multiset{DeleteOp} && db.activeConnections == holders
    ensures old(db.pool).None? ==> db.durations == old(db.durations) && db.activeConnections == old(db.activeConnections)
  {
    DeleteQueryLabel();
    var result := db.Execute(DeleteQuery, answer, holders);
    if result.Ok? {
      if result.value == NothingDeleted {
        return Raise(HttpException(StatusNotFound, Text(ItemNotFound)));
      }
      return Ok(Middleware.Response(StatusNoContent));
    }
    if result.exc.HttpException? || !result.exc.IsException() {
      return result.PropagateFailure();
    }
    db.ops := db.ops + multiset{OpKey(DeleteOp, StatusError)};
    r := Raise(HttpException(StatusServerError, Text(DeleteFailed)));
  }
}
