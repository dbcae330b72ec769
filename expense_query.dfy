/** What `GetExpenses` asks of the expense table: the period presets, the
    chain of `Where` filters it composes, and the newest-first ordering. */
module ExpenseQueries {
  import opened Basics
  import opened Text
  import opened Guids
  import opened Clock
  import opened ExpenseEntity

  /** The named period presets. */
  datatype Period = Week | Month | ThreeMonths

  const InvalidPeriodMessage: string := "Invalid period. Use 'week', 'month', or '3months'."

  /** The lower-case names each preset accepts. */
  function NamesOf(p: Period): set<string> {
    match p
    case Week => {"week", "pastweek"}
    case Month => {"month", "pastmonth"}
    case ThreeMonths => {"3months", "last3months"}
  }

  const AcceptedNames: set<string> := NamesOf(Week) + NamesOf(Month) + NamesOf(ThreeMonths)

  /** The `switch` over the lower-cased period: the preset that accepts the
      name, if any. */
  function PresetNamed(name: string): (r: Option<Period>)
    ensures r.Some? ==> name in NamesOf(r.value)
    ensures r.None? <==> name !in AcceptedNames
  {
    if name in NamesOf(Week) then Some(Week)
    else if name in NamesOf(Month) then Some(Month)
    else if name in NamesOf(ThreeMonths) then Some(ThreeMonths)
    else None
  }

  /** The period query parameter: absent or blank means no period window;
      otherwise its lower-cased form must be one of the six accepted names,
      and anything else is a bad request. */
  function ParsePeriod(period: Option<string>): (r: Result<Option<Period>, ApiError>)
    ensures r == Ok(None) <==> IsNullOrWhiteSpace(period)
    ensures !IsNullOrWhiteSpace(period) ==> (r.Ok? <==> ToLowerInvariant(period.value) in AcceptedNames)
    ensures r.Ok? && r.value.Some? ==> ToLowerInvariant(period.value) in NamesOf(r.value.value)
    ensures r.Err? ==> r.error == BadRequest(InvalidPeriodMessage)
  {
    if IsNullOrWhiteSpace(period) then Ok(None)
    else
      match PresetNamed(ToLowerInvariant(period.value))
      case Some(p) => Ok(Some(p))
      case None => Err(BadRequest(InvalidPeriodMessage))
  }

  /** The period is compared case-insensitively: a period and its lower-case
      form are parsed alike. */
  lemma ParsePeriodIgnoresCase(s: string)
    ensures ParsePeriod(Some(s)) == ParsePeriod(Some(ToLowerInvariant(s)))
  {
    ToLowerIdempotent(s);
    ToLowerKeepsBlank(s);
  }

  /** Examples of accepted and refused periods. */
  lemma PeriodExamples()
    ensures ParsePeriod(Some("Week")) == Ok(Some(Week))
    ensures ParsePeriod(Some("PastMonth")) == Ok(Some(Month))
    ensures ParsePeriod(Some("3MONTHS")) == Ok(Some(ThreeMonths))
    ensures ParsePeriod(Some("   ")) == Ok(None)
    ensures ParsePeriod(Some("")) == Ok(None)
    ensures ParsePeriod(Some("year")) == Err(BadRequest(InvalidPeriodMessage))
    ensures ParsePeriod(Some(" week")) == Err(BadRequest(InvalidPeriodMessage))
  {
    assert !IsWhiteSpace("Week"[0]) && !IsWhiteSpace("PastMonth"[0]) && !IsWhiteSpace("3MONTHS"[0]);
    assert ToLowerInvariant("Week") == "week";
    assert ToLowerInvariant("PastMonth") == "pastmonth";
    assert ToLowerInvariant("3MONTHS") == "3months";
    assert !IsWhiteSpace("year"[0]);
    assert ToLowerInvariant("year") == "year";
    assert !IsWhiteSpace(" week"[1]);
    assert ToLowerInvariant(" week") == " week";
  }

  /** An inclusive window `from <= t <= to` of instants. */
  datatype Window = Window(from: int, to: int)

  /** The window a preset names, ending at `now`: seven days back, one month
      back, or three months back. */
  function PeriodWindow(p: Period, now: int, addMonths: (int, int) -> int): (w: Window)
    ensures w.to == now
    ensures p == Week ==> w.from == AddDays(now, -7)
    ensures p == Month ==> w.from == addMonths(now, -1)
    ensures p == ThreeMonths ==> w.from == addMonths(now, -3)
  {
    match p
    case Week => Window(AddDays(now, -7), now)
    case Month => Window(addMonths(now, -1), now)
    case ThreeMonths => Window(addMonths(now, -3), now)
  }

  /** Under Gregorian month arithmetic every preset window is non-empty,
      starts at least a week and at most 92 days before `now`, and a longer
      preset starts no later than a shorter one. */
  lemma PeriodWindowsNest(now: int, addMonths: (int, int) -> int)
    requires GregorianMonths(addMonths, now)
    ensures forall p: Period :: AddDays(now, -92) <= PeriodWindow(p, now, addMonths).from <= AddDays(now, -7)
    ensures PeriodWindow(ThreeMonths, now, addMonths).from <= PeriodWindow(Month, now, addMonths).from
    ensures PeriodWindow(Month, now, addMonths).from <= PeriodWindow(Week, now, addMonths).from
  {
  }

  /** One `Where` of the query. */
  datatype Filter =
    | OwnedBy(owner: Guid)
    | IncurredBetween(from: int, to: int)
    | IncurredFrom(start: int)
    | IncurredUntil(end: int)

  predicate Holds(f: Filter, e: Expense) {
    match f
    case OwnedBy(owner) => e.userId == owner
    case IncurredBetween(from, to) => from <= e.incurredAtUtc <= to
    case IncurredFrom(start) => e.incurredAtUtc >= start
    case IncurredUntil(end) => e.incurredAtUtc <= end
  }

  /** A query built by chaining `Where` calls keeps the rows every filter keeps. */
  predicate AllHold(query: seq<Filter>, e: Expense) {
    forall i :: 0 <= i < |query| ==> Holds(query[i], e)
  }

  /** Chaining one more `Where` narrows the query: it keeps what the query
      kept and the new filter keeps. */
  lemma ChainedWhereNarrows(query: seq<Filter>, f: Filter, e: Expense)
    ensures AllHold(query + [f], e) <==> AllHold(query, e) && Holds(f, e)
  {
    if AllHold(query, e) && Holds(f, e) {
      forall i | 0 <= i < |query + [f]| ensures Holds((query + [f])[i], e) {
        if i < |query| { assert (query + [f])[i] == query[i]; }
      }
    }
    if AllHold(query + [f], e) {
      assert Holds((query + [f])[|query|], e);
      forall i | 0 <= i < |query| ensures Holds(query[i], e) {
        assert (query + [f])[i] == query[i];
      }
    }
  }

  /** What a `GetExpenses` call selects: the caller's rows, within the period
      window if there is one, and within each optional inclusive bound. */
  datatype Criteria = Criteria(owner: Guid, window: Option<Window>, start: Option<int>, end: Option<int>)

  function CriteriaFor(owner: Guid, period: Option<Period>, start: Option<int>, end: Option<int>,
                       now: int, addMonths: (int, int) -> int): Criteria
  {
    Criteria(owner, if period.Some? then Some(PeriodWindow(period.value, now, addMonths)) else None, start, end)
  }

  predicate Selects(c: Criteria, e: Expense) {
    && e.userId == c.owner
    && (c.window.Some? ==> c.window.value.from <= e.incurredAtUtc <= c.window.value.to)
    && (c.start.Some? ==> e.incurredAtUtc >= c.start.value)
    && (c.end.Some? ==> e.incurredAtUtc <= c.end.value)
  }

  /** The keys of the selected rows. Only the owner's rows are ever selected. */
  function Selected(expenses: map<Guid, Expense>, c: Criteria): (ids: set<Guid>)
    ensures ids <= expenses.Keys
    ensures forall k :: k in expenses ==> (k in ids <==> Selects(c, expenses[k]))
    ensures forall k :: k in ids ==> expenses[k].userId == c.owner
  {
    set k | k in expenses && Selects(c, expenses[k])
  }

  /** Tenant isolation: what other users store cannot change what a caller
      gets — two tables that agree on the caller's rows select the same rows. */
  lemma SelectionIgnoresOtherOwners(m1: map<Guid, Expense>, m2: map<Guid, Expense>, c: Criteria)
    requires forall k :: k in m1 && m1[k].userId == c.owner ==> k in m2 && m2[k] == m1[k]
    requires forall k :: k in m2 && m2[k].userId == c.owner ==> k in m1 && m1[k] == m2[k]
    ensures Selected(m1, c) == Selected(m2, c)
  {
  }

  /** The start and end bounds do not override the period: the rows selected
      with both are those the period alone selects that the bounds alone also
      select. */
  lemma RangeNarrowsPeriod(expenses: map<Guid, Expense>, owner: Guid, p: Period, start: Option<int>, end: Option<int>,
                           now: int, addMonths: (int, int) -> int)
    ensures Selected(expenses, CriteriaFor(owner, Some(p), start, end, now, addMonths))
         == Selected(expenses, CriteriaFor(owner, Some(p), None, None, now, addMonths))
          * Selected(expenses, CriteriaFor(owner, None, start, end, now, addMonths))
  {
  }

  /** A row ten days old lies inside the range from fifteen to five days back
      but outside the past week, so asking for both selects nothing, where an
      overriding range would have selected it. */
  lemma RangeDoesNotOverride(e: Expense, now: int, addMonths: (int, int) -> int)
    requires e.incurredAtUtc == AddDays(now, -10)
    ensures Selects(CriteriaFor(e.userId, None, Some(AddDays(now, -15)), Some(AddDays(now, -5)), now, addMonths), e)
    ensures !Selects(CriteriaFor(e.userId, Some(Week), Some(AddDays(now, -15)), Some(AddDays(now, -5)), now, addMonths), e)
  {
  }

  /** Queries over three rows stored ten days apart and a month apart, asked a
      little after the newest was stored. */
  lemma FilterExamples(a: Expense, b: Expense, c: Expense, owner: Guid, t0: int, now: int, addMonths: (int, int) -> int)
    requires a.id != b.id && b.id != c.id && a.id != c.id
    requires a.userId == owner && b.userId == owner && c.userId == owner
    requires a.incurredAtUtc == t0
    requires b.incurredAtUtc == AddDays(t0, -10)
    requires c.incurredAtUtc == AddDays(t0, -40)
    requires t0 <= now <= AddDays(t0, 1)
    requires GregorianMonths(addMonths, now)
    ensures var m := map[a.id := a, b.id := b, c.id := c];
      && Selected(m, CriteriaFor(owner, Some(Week), None, None, now, addMonths)) == {a.id}
      && Selected(m, CriteriaFor(owner, Some(Month), None, None, now, addMonths)) == {a.id, b.id}
      && Selected(m, CriteriaFor(owner, Some(ThreeMonths), None, None, now, addMonths)) == {a.id, b.id, c.id}
      && Selected(m, CriteriaFor(owner, None, Some(AddDays(t0, -15)), Some(AddDays(t0, -5)), now, addMonths)) == {b.id}
  {
    var m := map[a.id := a, b.id := b, c.id := c];
    assert m.Keys == {a.id, b.id, c.id};
  }

  /** The `OrderByDescending(e => e.IncurredAtUtc)` ordering. */
  predicate NewestFirst(s: seq<ExpenseDto>) {
    forall i, j :: 0 <= i < j < |s| ==> s[i].incurredAtUtc >= s[j].incurredAtUtc
  }

  /** Inserts a row into a newest-first list after every row at least as
      recent; the order of rows with equal instants is not specified by the
      query. */
  function InsertNewestFirst(s: seq<ExpenseDto>, d: ExpenseDto): (r: seq<ExpenseDto>)
    requires NewestFirst(s)
    ensures NewestFirst(r)
    ensures multiset(r) == multiset(s) + multiset{d}
    ensures |r| == |s| + 1
    ensures forall x :: x in r <==> x == d || x in s
  {
    if s == [] then [d]
    else if s[0].incurredAtUtc >= d.incurredAtUtc then
      var t := InsertNewestFirst(s[1..], d);
      assert s == [s[0]] + s[1..];
      assert forall x :: x in t ==> x.incurredAtUtc <= s[0].incurredAtUtc;
      [s[0]] + t
    else
      [d] + s
  }
}
