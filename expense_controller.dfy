/** `ExpenseController`: the caller's identity from the token's claims, and
    the create, read, update, delete and query operations on the expense
    table, each scoped to that identity. */
module ExpenseControllers {
  import opened Basics
  import opened Text
  import opened Guids
  import opened Clock
  import opened Claims
  import opened ExpenseCategories
  import opened UserEntity
  import opened ExpenseEntity
  import opened ExpenseRequests
  import opened Database
  import opened ExpenseQueries

  const InvalidUserIdMessage: string := "Invalid user id claim."

  /** The claim `GetUserId` reads: the first `NameIdentifier` claim, or, only
      when there is no such claim at all, the first `sub` claim. */
  function UserIdClaimValue(principal: seq<Claim>): Option<string> {
    var v := FindFirstValue(principal, NameIdentifierType);
    if v.Some? then v else FindFirstValue(principal, SubType)
  }

  /** Claim `i` is of one of the two types that carry the user id. */
  predicate IsUserIdClaim(principal: seq<Claim>, i: int) {
    0 <= i < |principal| && (SameType(principal[i].kind, NameIdentifierType) || SameType(principal[i].kind, SubType))
  }

  /** `GetUserId`: the caller's id, decoded from the claims; it fails closed
      (the `UnauthorizedAccessException`) when the claim is missing, empty or
      not a GUID. An id it returns is the parse of some id claim. */
  function GetUserId(principal: seq<Claim>): (r: Result<Guid, ApiError>)
    ensures r.Err? ==> r == Err(Unauthorized(InvalidUserIdMessage))
    ensures r.Ok? ==> exists i :: IsUserIdClaim(principal, i) && TryParse(principal[i].value) == Some(r.value)
    ensures (forall i :: 0 <= i < |principal| ==> !IsUserIdClaim(principal, i)) ==> r.Err?
  {
    var v := UserIdClaimValue(principal);
    if v.None? || v.value == "" then Err(Unauthorized(InvalidUserIdMessage))
    else DecodeUserId(v.value)
  }

  /** The decoding of one non-empty claim value. */
  function DecodeUserId(value: string): Result<Guid, ApiError> {
    match TryParse(value)
    case Some(g) => Ok(g)
    case None => Err(Unauthorized(InvalidUserIdMessage))
  }

  /** `NameIdentifier` takes precedence: when there is one, the first such
      claim alone decides the result, whatever `sub` says. */
  lemma NameIdentifierTakesPrecedence(principal: seq<Claim>, i: int)
    requires IsFirstOfType(principal, NameIdentifierType, i)
    ensures GetUserId(principal) == DecodeUserId(principal[i].value)
  {
    FindFirstValueAt(principal, NameIdentifierType, i);
  }

  /** Without any `NameIdentifier` claim the first `sub` claim decides. */
  lemma SubIsTheFallback(principal: seq<Claim>, i: int)
    requires forall j :: 0 <= j < |principal| ==> !SameType(principal[j].kind, NameIdentifierType)
    requires IsFirstOfType(principal, SubType, i)
    ensures GetUserId(principal) == DecodeUserId(principal[i].value)
  {
    FindFirstValueAt(principal, SubType, i);
  }

  /** An empty `NameIdentifier` claim is present, so `sub` is not consulted
      and the caller is refused. */
  lemma EmptyNameIdentifierFailsClosed(g: Guid)
    ensures GetUserId([Claim(NameIdentifierType, ""), Claim(SubType, Format(g))]).Err?
  {
    var principal := [Claim(NameIdentifierType, ""), Claim(SubType, Format(g))];
    assert IsFirstOfType(principal, NameIdentifierType, 0);
    FindFirstValueAt(principal, NameIdentifierType, 0);
  }

  /** `MapToExpenseDto`: the id, amount, currency, category, description and
      instant, copied field by field. */
  function MapToExpenseDto(e: Expense): (d: ExpenseDto)
    ensures d.id == e.id && d.amount == e.amount && d.currencyCode == e.currencyCode
    ensures d.category == e.category && d.description == e.description && d.incurredAtUtc == e.incurredAtUtc
  {
    ExpenseDto(e.id, e.amount, e.currencyCode, e.category, e.description, e.incurredAtUtc)
  }

  /** The DTO shows neither the owner nor the record's metadata: rows that
      differ only in those map to the same DTO. */
  lemma DtoHidesOwnerAndMetadata(e: Expense, owner: Guid, created: int, updated: Option<int>)
    ensures MapToExpenseDto(e) == MapToExpenseDto(e.(userId := owner, createdAtUtc := created, updatedAtUtc := updated))
    ensures MapToExpenseDto(e).id == e.id && MapToExpenseDto(e).incurredAtUtc == e.incurredAtUtc
  {
  }

  /** `IncurredAtUtc ?? DateTime.UtcNow`. */
  function IncurredAt(request: CreateExpenseRequest, now: int): int {
    if request.incurredAtUtc.Some? then request.incurredAtUtc.value else now
  }

  /** The expense `CreateExpense` builds: a fresh id, owned by the caller,
      with the request's fields, incurred when the request says or else now,
      created now and never updated. */
  function NewExpense(id: Guid, owner: Guid, request: CreateExpenseRequest, now: int): (e: Expense)
    ensures e.id == id && e.userId == owner
    ensures e.amount == request.amount && e.currencyCode == request.currencyCode
    ensures e.category == request.category && e.description == request.description
    ensures request.incurredAtUtc.Some? ==> e.incurredAtUtc == request.incurredAtUtc.value
    ensures request.incurredAtUtc.None? ==> e.incurredAtUtc == now
    ensures e.createdAtUtc == now && e.updatedAtUtc == None
  {
    Expense(id, owner, request.amount, request.currencyCode, request.category,
            request.description, IncurredAt(request, now), now, None)
  }

  /** The expense after `UpdateExpense`: the five request fields replaced (the
      instant defaulting to now), `UpdatedAtUtc` set to now, and the id, the
      owner and `CreatedAtUtc` kept. */
  function Updated(e: Expense, request: CreateExpenseRequest, now: int): (u: Expense)
    ensures u.id == e.id && u.userId == e.userId && u.createdAtUtc == e.createdAtUtc
    ensures u.amount == request.amount && u.currencyCode == request.currencyCode
    ensures u.category == request.category && u.description == request.description
    ensures u.incurredAtUtc == IncurredAt(request, now)
    ensures u.updatedAtUtc == Some(now)
  {
    e.(amount := request.amount, currencyCode := request.currencyCode,
       category := request.category, description := request.description,
       incurredAtUtc := IncurredAt(request, now), updatedAtUtc := Some(now))
  }

  /** A new expense for an existing caller, under a free key and with an
      amount that fits its column, keeps every database rule; so does an
      update of a stored row with such an amount. Nothing about the request's
      category or strings is needed. */
  lemma WritesKeepConsistent(users: map<Guid, User>, expenses: map<Guid, Expense>, id: Guid, owner: Guid,
                             request: CreateExpenseRequest, now: int)
    requires Consistent(users, expenses)
    requires owner in users && FitsAmountColumn(request.amount)
    ensures id !in expenses ==> Consistent(users, expenses[id := NewExpense(id, owner, request, now)])
    ensures id in expenses ==> Consistent(users, expenses[id := Updated(expenses[id], request, now)])
  {
  }

  /** Under the corrected validation every row written names a category; as
      written, the row keeps whatever byte the request held. */
  lemma CorrectedWritesNameCategory(id: Guid, owner: Guid, e: Expense, request: CreateExpenseRequest, now: int)
    requires IsValid(request)
    ensures FromCode(NewExpense(id, owner, request, now).category).Some?
    ensures FromCode(Updated(e, request, now).category).Some?
  {
    ValidRequestNamesCategory(request);
  }

  /** The ownership gate `Where(t => t.UserId == userId && t.Id == id)
      .FirstOrDefaultAsync()`: the row with that id, when the caller owns it. */
  ghost function FindOwned(expenses: map<Guid, Expense>, owner: Guid, id: Guid): (r: Option<Expense>)
    requires ExpensesKeyedById(expenses)
    ensures r.Some? <==> id in expenses && expenses[id].userId == owner
    ensures r.Some? ==> r.value == expenses[id]
  {
    if exists k :: k in expenses && expenses[k].userId == owner && expenses[k].id == id then
      var k :| k in expenses && expenses[k].userId == owner && expenses[k].id == id;
      Some(expenses[k])
    else
      None
  }

  /** Another user's expense is indistinguishable from a missing one: the
      gate answers as if the row were not there. */
  lemma ForeignRowLooksAbsent(expenses: map<Guid, Expense>, owner: Guid, id: Guid)
    requires ExpensesKeyedById(expenses)
    requires id in expenses && expenses[id].userId != owner
    ensures FindOwned(expenses, owner, id) == None
    ensures FindOwned(expenses - {id}, owner, id) == None
  {
  }

  /** Once a row is deleted, the gate no longer finds it for anyone. */
  lemma DeletedRowIsGone(expenses: map<Guid, Expense>, owner: Guid, id: Guid)
    requires ExpensesKeyedById(expenses)
    ensures FindOwned(expenses - {id}, owner, id) == None
  {
  }

  /** Every listed row is listed once. */
  ghost predicate NoRepeats(rows: seq<ExpenseDto>) {
    forall d :: d in rows ==> multiset(rows)[d] == 1
  }

  /** A query result lists exactly the selected rows, each once, as DTOs,
      newest first. */
  ghost predicate ListsExactly(rows: seq<ExpenseDto>, expenses: map<Guid, Expense>, c: Criteria) {
    && NewestFirst(rows)
    && |rows| == |Selected(expenses, c)|
    && NoRepeats(rows)
    && (forall i :: 0 <= i < |rows| ==> rows[i].id in Selected(expenses, c) && rows[i] == MapToExpenseDto(expenses[rows[i].id]))
    && (forall k :: k in Selected(expenses, c) ==> MapToExpenseDto(expenses[k]) in rows)
  }

  /** The filters `GetExpenses` chains onto the owner filter for a window and
      two optional bounds, in the order it chains them. */
  function FiltersFor(c: Criteria): seq<Filter> {
    [OwnedBy(c.owner)]
      + (if c.window.Some? then [IncurredBetween(c.window.value.from, c.window.value.to)] else [])
      + (if c.start.Some? then [IncurredFrom(c.start.value)] else [])
      + (if c.end.Some? then [IncurredUntil(c.end.value)] else [])
  }

  /** The chained filters keep exactly the rows the criteria select. */
  lemma FiltersMeanCriteria(c: Criteria, e: Expense)
    ensures AllHold(FiltersFor(c), e) <==> Selects(c, e)
  {
    var q0 := [OwnedBy(c.owner)];
    var q1 := q0 + (if c.window.Some? then [IncurredBetween(c.window.value.from, c.window.value.to)] else []);
    var q2 := q1 + (if c.start.Some? then [IncurredFrom(c.start.value)] else []);
    var q3 := q2 + (if c.end.Some? then [IncurredUntil(c.end.value)] else []);
    assert AllHold(q0, e) <==> e.userId == c.owner by {
      assert q0[0] == OwnedBy(c.owner);
    }
    if c.window.Some? { ChainedWhereNarrows(q0, IncurredBetween(c.window.value.from, c.window.value.to), e); }
    else { assert q1 == q0; }
    if c.start.Some? { ChainedWhereNarrows(q1, IncurredFrom(c.start.value), e); }
    else { assert q2 == q1; }
    if c.end.Some? { ChainedWhereNarrows(q2, IncurredUntil(c.end.value), e); }
    else { assert q3 == q2; }
  }

  class ExpenseController {
    const context: ApplicationDbContext

    constructor (context: ApplicationDbContext)
      ensures this.context == context
    {
      this.context := context;
    }

    /** `POST api/Expense`. */
    method CreateExpense(principal: seq<Claim>, request: CreateExpenseRequest, now: int, newId: Guid)
      returns (r: Result<ExpenseDto, ApiError>)
      requires context.Valid()
      modifies context
      ensures context.Valid() && context.users == old(context.users)
      ensures !AnnotationsAccept(request) ==> r == Err(ValidationFailed) && context.expenses == old(context.expenses)
      ensures AnnotationsAccept(request) && GetUserId(principal).Err? ==>
                r == Err(GetUserId(principal).error) && context.expenses == old(context.expenses)
      ensures AnnotationsAccept(request) && GetUserId(principal).Ok? ==>
                var e := NewExpense(newId, GetUserId(principal).value, request, now);
                if newId !in old(context.expenses) && e.userId in context.users && FitsAmountColumn(e.amount)
                then r == Ok(MapToExpenseDto(e)) && context.expenses == old(context.expenses)[newId := e]
                else r == Err(StoreRejected) && context.expenses == old(context.expenses)
      ensures r.Ok? ==> && r.value.amount == request.amount && r.value.currencyCode == request.currencyCode
                        && r.value.category == request.category && r.value.id == newId
    {
      if !AnnotationsAccept(request) {
        return Err(ValidationFailed);
      }
      var userId := GetUserId(principal);
      if userId.Err? {
        return Err(userId.error);
      }
      var expense := NewExpense(newId, userId.value, request, now);
      var saved := context.InsertExpense(expense);
      if !saved {
        return Err(StoreRejected);
      }
      r := Ok(MapToExpenseDto(expense));
    }

    /** `GET api/Expense/{id}`: the caller's expense with that id, or NotFound. */
    method GetExpenseById(principal: seq<Claim>, id: Guid) returns (r: Result<ExpenseDto, ApiError>)
      requires context.Valid()
      ensures GetUserId(principal).Err? ==> r == Err(GetUserId(principal).error)
      ensures GetUserId(principal).Ok? ==>
                match FindOwned(context.expenses, GetUserId(principal).value, id)
                case Some(e) => r == Ok(MapToExpenseDto(e))
                case None => r == Err(NotFound)
    {
      var userId := GetUserId(principal);
      if userId.Err? {
        return Err(userId.error);
      }
      if id in context.expenses && context.expenses[id].userId == userId.value {
        r := Ok(MapToExpenseDto(context.expenses[id]));
      } else {
        r := Err(NotFound);
      }
    }

    /** `PUT api/Expense/{id}`: full replacement of the caller's expense; no
        other row changes. */
    method UpdateExpense(principal: seq<Claim>, id: Guid, request: CreateExpenseRequest, now: int)
      returns (r: Result<ExpenseDto, ApiError>)
      requires context.Valid()
      modifies context
      ensures context.Valid() && context.users == old(context.users)
      ensures !AnnotationsAccept(request) ==> r == Err(ValidationFailed) && context.expenses == old(context.expenses)
      ensures AnnotationsAccept(request) && GetUserId(principal).Err? ==>
                r == Err(GetUserId(principal).error) && context.expenses == old(context.expenses)
      ensures AnnotationsAccept(request) && GetUserId(principal).Ok? ==>
                match FindOwned(old(context.expenses), GetUserId(principal).value, id)
                case None => r == Err(NotFound) && context.expenses == old(context.expenses)
                case Some(e) =>
                  if FitsAmountColumn(request.amount)
                  then r == Ok(MapToExpenseDto(Updated(e, request, now)))
                       && context.expenses == old(context.expenses)[id := Updated(e, request, now)]
                  else r == Err(StoreRejected) && context.expenses == old(context.expenses)
    {
      if !AnnotationsAccept(request) {
        return Err(ValidationFailed);
      }
      var userId := GetUserId(principal);
      if userId.Err? {
        return Err(userId.error);
      }
      if !(id in context.expenses && context.expenses[id].userId == userId.value) {
        return Err(NotFound);
      }
      var expense := Updated(context.expenses[id], request, now);
      var saved := context.SaveExpense(expense);
      if !saved {
        return Err(StoreRejected);
      }
      r := Ok(MapToExpenseDto(expense));
    }

    /** `DELETE api/Expense/{id}`: removes exactly the caller's expense with
        that id; every other row stays. */
    method DeleteExpense(principal: seq<Claim>, id: Guid) returns (r: Result<(), ApiError>)
      requires context.Valid()
      modifies context
      ensures context.Valid() && context.users == old(context.users)
      ensures GetUserId(principal).Err? ==>
                r == Err(GetUserId(principal).error) && context.expenses == old(context.expenses)
      ensures GetUserId(principal).Ok? ==>
                if FindOwned(old(context.expenses), GetUserId(principal).value, id).Some?
                then r == Ok(()) && context.expenses == old(context.expenses) - {id}
                else r == Err(NotFound) && context.expenses == old(context.expenses)
    {
      var userId := GetUserId(principal);
      if userId.Err? {
        return Err(userId.error);
      }
      if !(id in context.expenses && context.expenses[id].userId == userId.value) {
        return Err(NotFound);
      }
      var _ := context.RemoveExpense(id);
      r := Ok(());
    }

    /** Creating an expense and reading it back gives the created DTO, and the
        table gains exactly that row. */
    method CreateThenGet(principal: seq<Claim>, request: CreateExpenseRequest, now: int, newId: Guid)
      returns (created: Result<ExpenseDto, ApiError>, fetched: Result<ExpenseDto, ApiError>)
      requires context.Valid()
      requires AnnotationsAccept(request) && FitsAmountColumn(request.amount)
      requires GetUserId(principal).Ok? && GetUserId(principal).value in context.users
      requires newId !in context.expenses
      modifies context
      ensures context.Valid() && context.users == old(context.users)
      ensures context.expenses == old(context.expenses)[newId := NewExpense(newId, GetUserId(principal).value, request, now)]
      ensures created == Ok(MapToExpenseDto(NewExpense(newId, GetUserId(principal).value, request, now)))
      ensures created.Ok? && created.value.amount == request.amount && created.value.currencyCode == request.currencyCode
      ensures fetched == created
    {
      created := CreateExpense(principal, request, now, newId);
      fetched := GetExpenseById(principal, newId);
    }

    /** As written, a body without a category is stored: the create succeeds
        and the stored row, and the DTO echoed back, hold code 0, which names
        no category. */
    method CreateWithoutCategory(principal: seq<Claim>, now: int, newId: Guid)
      returns (created: Result<ExpenseDto, ApiError>)
      requires context.Valid()
      requires GetUserId(principal).Ok? && GetUserId(principal).value in context.users
      requires newId !in context.expenses
      modifies context
      ensures context.Valid() && context.users == old(context.users)
      ensures newId in context.expenses && context.expenses[newId].category == 0
      ensures created.Ok? && created.value.category == 0 && FromCode(created.value.category) == None
    {
      MissingCategoryPassesAnnotations();
      created := CreateExpense(principal, CreateExpenseRequest(1000, "USD", 0, None, None), now, newId);
    }

    /** Updating the caller's expense and reading it back gives the updated
        DTO. */
    method UpdateThenGet(principal: seq<Claim>, id: Guid, change: CreateExpenseRequest, now: int)
      returns (updated: Result<ExpenseDto, ApiError>, refetched: Result<ExpenseDto, ApiError>)
      requires context.Valid()
      requires AnnotationsAccept(change) && FitsAmountColumn(change.amount)
      requires GetUserId(principal).Ok? && FindOwned(context.expenses, GetUserId(principal).value, id).Some?
      modifies context
      ensures context.Valid() && context.users == old(context.users)
      ensures context.expenses == old(context.expenses)[id := Updated(old(context.expenses)[id], change, now)]
      ensures updated == Ok(MapToExpenseDto(Updated(old(context.expenses)[id], change, now)))
      ensures updated.Ok? && updated.value.id == id && updated.value.amount == change.amount
      ensures updated.value.currencyCode == change.currencyCode && updated.value.category == change.category
      ensures updated.value.description == change.description && updated.value.incurredAtUtc == IncurredAt(change, now)
      ensures refetched == updated
    {
      updated := UpdateExpense(principal, id, change, now);
      refetched := GetExpenseById(principal, id);
    }

    /** Deleting the caller's expense removes it: a read afterwards and a
        second delete both answer NotFound. */
    method DeleteThenGetThenDelete(principal: seq<Claim>, id: Guid)
      returns (deleted: Result<(), ApiError>, gone: Result<ExpenseDto, ApiError>, deletedAgain: Result<(), ApiError>)
      requires context.Valid()
      requires GetUserId(principal).Ok? && FindOwned(context.expenses, GetUserId(principal).value, id).Some?
      modifies context
      ensures context.Valid() && context.users == old(context.users)
      ensures context.expenses == old(context.expenses) - {id}
      ensures deleted == Ok(()) && gone == Err(NotFound) && deletedAgain == Err(NotFound)
    {
      deleted := DeleteExpense(principal, id);
      gone := GetExpenseById(principal, id);
      deletedAgain := DeleteExpense(principal, id);
    }

    /** `GET api/Expense?period=&startDate=&endDate=`: the caller's expenses in
        the period window and between the optional bounds, newest first. */
    method GetExpenses(principal: seq<Claim>, period: Option<string>, startDate: Option<int>, endDate: Option<int>,
                       now: int, addMonths: (int, int) -> int)
      returns (r: Result<seq<ExpenseDto>, ApiError>)
      requires context.Valid()
      ensures GetUserId(principal).Err? ==> r == Err(GetUserId(principal).error)
      ensures GetUserId(principal).Ok? && ParsePeriod(period).Err? ==> r == Err(ParsePeriod(period).error)
      ensures GetUserId(principal).Ok? && ParsePeriod(period).Ok? ==>
                r.Ok? && ListsExactly(r.value, context.expenses,
                           CriteriaFor(GetUserId(principal).value, ParsePeriod(period).value, startDate, endDate, now, addMonths))
    {
      var userId := GetUserId(principal);
      if userId.Err? {
        return Err(userId.error);
      }
      var query := BuildQuery(userId.value, period, startDate, endDate, now, addMonths);
      if query.Err? {
        return Err(query.error);
      }
      ghost var c := CriteriaFor(userId.value, ParsePeriod(period).value, startDate, endDate, now, addMonths);
      forall e ensures AllHold(query.value, e) <==> Selects(c, e) {
        FiltersMeanCriteria(c, e);
      }
      var rows := RunQuery(context.expenses, query.value, c);
      r := Ok(rows);
    }
  }

  /** The range query from fifteen to five days back over a caller's three
      expenses stored now, ten days ago and forty days ago returns the one
      stored ten days ago. */
  method RangeQuery(controller: ExpenseController, principal: seq<Claim>, a: Expense, b: Expense, c: Expense,
                    now: int, addMonths: (int, int) -> int)
    returns (range: Result<seq<ExpenseDto>, ApiError>)
    requires controller.context.Valid()
    requires GetUserId(principal).Ok?
    requires a.userId == GetUserId(principal).value && b.userId == a.userId && c.userId == a.userId
    requires a.id != b.id && b.id != c.id && a.id != c.id
    requires a.incurredAtUtc == now && b.incurredAtUtc == AddDays(now, -10) && c.incurredAtUtc == AddDays(now, -40)
    requires controller.context.expenses == map[a.id := a, b.id := b, c.id := c]
    requires GregorianMonths(addMonths, now)
    ensures range.Ok? && |range.value| == 1
    ensures range.value[0].id == b.id
  {
    FilterExamples(a, b, c, a.userId, now, now, addMonths);
    range := controller.GetExpenses(principal, None, Some(AddDays(now, -15)), Some(AddDays(now, -5)), now, addMonths);
    assert range.value[0].id in {b.id};
  }

  /** The `Where` chain of `GetExpenses`: the owner filter, then the period
      window when a period is given, then each bound that is given. */
  method BuildQuery(owner: Guid, period: Option<string>, startDate: Option<int>, endDate: Option<int>,
                    now: int, addMonths: (int, int) -> int)
    returns (r: Result<seq<Filter>, ApiError>)
    ensures ParsePeriod(period).Err? ==> r == Err(ParsePeriod(period).error)
    ensures ParsePeriod(period).Ok? ==>
              r == Ok(FiltersFor(CriteriaFor(owner, ParsePeriod(period).value, startDate, endDate, now, addMonths)))
  {
    ghost var window: Option<Window> := None;
    var query := [OwnedBy(owner)];
    if !IsNullOrWhiteSpace(period) {
      var preset := PresetNamed(ToLowerInvariant(period.value));
      if preset.None? {
        return Err(BadRequest(InvalidPeriodMessage));
      }
      var from := PeriodWindow(preset.value, now, addMonths).from;
      query := query + [IncurredBetween(from, now)];
      window := Some(Window(from, now));
    }
    ghost var c := Criteria(owner, window, startDate, endDate);
    assert c == CriteriaFor(owner, ParsePeriod(period).value, startDate, endDate, now, addMonths);
    ghost var withWindow := query;
    assert withWindow == [OwnedBy(owner)] + (if c.window.Some? then [IncurredBetween(c.window.value.from, c.window.value.to)] else []);
    if startDate.Some? || endDate.Some? {
      if startDate.Some? {
        query := query + [IncurredFrom(startDate.value)];
      }
      ghost var withStart := query;
      assert withStart == withWindow + (if c.start.Some? then [IncurredFrom(c.start.value)] else []);
      if endDate.Some? {
        query := query + [IncurredUntil(endDate.value)];
      }
      assert query == withStart + (if c.end.Some? then [IncurredUntil(c.end.value)] else []);
    }
    assert query == FiltersFor(c);
    r := Ok(query);
  }

  /** While the keys `todo` are still to be scanned, `rows` lists the
      selected rows under the other keys, each once, as DTOs, newest first. */
  ghost predicate ListsSelectedAmong(rows: seq<ExpenseDto>, expenses: map<Guid, Expense>, c: Criteria, todo: set<Guid>) {
    && NewestFirst(rows) && NoRepeats(rows)
    && |rows| == |Selected(expenses, c) - todo|
    && ListedAreSelected(rows, expenses, c, todo)
    && SelectedAreListed(rows, expenses, c, todo)
  }

  ghost predicate ListedAreSelected(rows: seq<ExpenseDto>, expenses: map<Guid, Expense>, c: Criteria, todo: set<Guid>) {
    forall d :: d in rows ==> d.id in Selected(expenses, c) - todo && d == MapToExpenseDto(expenses[d.id])
  }

  ghost predicate SelectedAreListed(rows: seq<ExpenseDto>, expenses: map<Guid, Expense>, c: Criteria, todo: set<Guid>) {
    forall k :: k in Selected(expenses, c) - todo ==> MapToExpenseDto(expenses[k]) in rows
  }

  /** One step of the scan when the row under the next key is selected: it
      joins the listing. */
  lemma ScanStepSelected(rows: seq<ExpenseDto>, expenses: map<Guid, Expense>, c: Criteria, todo: set<Guid>, k: Guid)
    requires ExpensesKeyedById(expenses)
    requires ListsSelectedAmong(rows, expenses, c, todo)
    requires k in todo && k in expenses && Selects(c, expenses[k])
    ensures ListsSelectedAmong(InsertNewestFirst(rows, MapToExpenseDto(expenses[k])), expenses, c, todo - {k})
  {
    var d := MapToExpenseDto(expenses[k]);
    var rows' := InsertNewestFirst(rows, d);
    var before := Selected(expenses, c) - todo;
    assert d.id == k;
    assert d !in rows;
    assert Selected(expenses, c) - (todo - {k}) == before + {k};
    assert NoRepeats(rows') by {
      forall x | x in rows' ensures multiset(rows')[x] == 1 {
        if x == d { assert multiset(rows)[d] == 0; } else { assert x in rows; }
      }
    }
    assert ListedAreSelected(rows', expenses, c, todo - {k}) by {
      forall x | x in rows' ensures x.id in before + {k} && x == MapToExpenseDto(expenses[x.id]) {
        if x != d { assert x in rows; }
      }
    }
    assert SelectedAreListed(rows', expenses, c, todo - {k}) by {
      forall j | j in before + {k} ensures MapToExpenseDto(expenses[j]) in rows' {
        if j != k { assert MapToExpenseDto(expenses[j]) in rows; }
      }
    }
  }

  /** One step of the scan when the row under the next key is not selected:
      the listing stays. */
  lemma ScanStepSkipped(rows: seq<ExpenseDto>, expenses: map<Guid, Expense>, c: Criteria, todo: set<Guid>, k: Guid)
    requires ListsSelectedAmong(rows, expenses, c, todo)
    requires k in expenses && !Selects(c, expenses[k])
    ensures ListsSelectedAmong(rows, expenses, c, todo - {k})
  {
    assert Selected(expenses, c) - (todo - {k}) == Selected(expenses, c) - todo;
  }

  /** Before the scan nothing is listed. */
  lemma ScanStart(expenses: map<Guid, Expense>, c: Criteria)
    ensures ListsSelectedAmong([], expenses, c, expenses.Keys)
  {
    assert Selected(expenses, c) - expenses.Keys == {};
  }

  /** Once every key is scanned the listing is the whole answer. */
  lemma ScanComplete(rows: seq<ExpenseDto>, expenses: map<Guid, Expense>, c: Criteria)
    requires ListsSelectedAmong(rows, expenses, c, {})
    ensures ListsExactly(rows, expenses, c)
  {
    assert Selected(expenses, c) - {} == Selected(expenses, c);
  }

  /** Runs a query: scans the table, keeps the rows every filter keeps, and
      places each in newest-first position. */
  method RunQuery(expenses: map<Guid, Expense>, query: seq<Filter>, ghost c: Criteria) returns (rows: seq<ExpenseDto>)
    requires ExpensesKeyedById(expenses)
    requires forall e :: AllHold(query, e) <==> Selects(c, e)
    ensures ListsExactly(rows, expenses, c)
  {
    var remaining := expenses.Keys;
    rows := [];
    ScanStart(expenses, c);
    while remaining != {}
      invariant remaining <= expenses.Keys
      invariant ListsSelectedAmong(rows, expenses, c, remaining)
      decreases remaining
    {
      var k :| k in remaining;
      var e := expenses[k];
      if AllHold(query, e) {
        ScanStepSelected(rows, expenses, c, remaining, k);
        rows := InsertNewestFirst(rows, MapToExpenseDto(e));
      } else {
        ScanStepSkipped(rows, expenses, c, remaining, k);
      }
      remaining := remaining - {k};
    }
    ScanComplete(rows, expenses, c);
  }
}
