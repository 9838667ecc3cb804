/**
 * The search filter compiler (src/query.rs): normalising the optional text
 * filters, checking the date bounds, and turning a filter into the ordered
 * SQL conditions of a WHERE clause together with the values they bind.
 */
module Query {
  import opened Wrappers
  import opened Text

  datatype ResultFilter = Any | WhiteWin | BlackWin | Draw

  datatype GameFilter = GameFilter(
    searchText: Option<string>,
    result: ResultFilter,
    eco: Option<string>,
    eventOrSite: Option<string>,
    dateFrom: Option<string>,
    dateTo: Option<string>)

  /** The filter that asks for nothing (`GameFilter::default()`). */
  const DEFAULT_FILTER: GameFilter := GameFilter(None, Any, None, None, None, None)

  /** A value bound to a `?` placeholder. */
  datatype SqlValue = Text(text: string) | Integer(number: int)

  datatype QueryError = InvalidDateFormat(field: string, value: string)

  // The SQL text of the conditions; the longer ones are written in pieces of one line each.
  const SEARCH_CLAUSE: string :=
    "LOWER(COALESCE(white, '') || ' ' || "
    + "COALESCE(black, '') || ' ' || "
    + "COALESCE(event, '') || ' ' || "
    + "COALESCE(site, '')) LIKE LOWER(?)"
  const RESULT_CLAUSE: string := "result = ?"
  const ECO_CLAUSE: string :=
    "LOWER(COALESCE(eco, '')) "
    + "LIKE LOWER(?)"
  const EVENT_OR_SITE_CLAUSE: string :=
    "LOWER(COALESCE(event, '') || ' ' || "
    + "COALESCE(site, '')) LIKE LOWER(?)"
  const DATE_SHAPE_CLAUSE: string :=
    "date GLOB '[0-9][0-9][0-9][0-9]"
    + ".[0-9][0-9].[0-9][0-9]'"
  const DATE_FROM_CLAUSE: string := "date >= ?"
  const DATE_TO_CLAUSE: string := "date <= ?"

  // ---------------------------------------------------------------------
  // Text filters

  /** `normalized_filter_text`: absent or blank input is no filter; otherwise the trimmed text. */
  function NormalizedFilterText(input: Option<string>): (r: Option<string>)
    ensures r.None? <==> input.None? || IsBlank(input.value)
    ensures r.Some? ==> r.value == Trim(input.value)
    ensures r.Some? ==> r.value != [] && !IsWhitespace(r.value[0]) && !IsWhitespace(r.value[|r.value| - 1])
  {
    match input
    case None => None
    case Some(raw) =>
      var trimmed := Trim(raw);
      if trimmed == [] then None else Some(trimmed)
  }

  /** Normalising a normalised filter text changes nothing. */
  lemma NormalizedFilterTextIdempotent(input: Option<string>)
    ensures NormalizedFilterText(NormalizedFilterText(input)) == NormalizedFilterText(input)
  {
    if NormalizedFilterText(input).Some? {
      TrimIdempotent(input.value);
    }
  }

  // ---------------------------------------------------------------------
  // Date bounds

  /** `validate_date_input`: exactly ten characters, `.` at indices 4 and 7, ASCII digits elsewhere. */
  function ValidateDateInput(field: string, value: string): (r: Result<(), QueryError>)
    ensures r.Err? ==> r.error == InvalidDateFormat(field, value)
  {
    if |value| == 10 && value[4] == '.' && value[7] == '.'
      && (forall i :: 0 <= i < |value| ==> i == 4 || i == 7 || IsAsciiDigit(value[i]))
    then Ok(())
    else Err(InvalidDateFormat(field, value))
  }

  /** The full-date layout of a PGN Date tag, `YYYY.MM.DD`, with every part made of digits. */
  ghost predicate IsPgnDate(value: string) {
    exists year: string, month: string, day: string ::
      && |year| == 4 && |month| == 2 && |day| == 2
      && AllDigits(year) && AllDigits(month) && AllDigits(day)
      && value == year + "." + month + "." + day
  }

  /** A date bound is accepted exactly when it is a full PGN date. */
  lemma ValidateDateIff(field: string, value: string)
    ensures ValidateDateInput(field, value).Ok? <==> IsPgnDate(value)
  {
    if ValidateDateInput(field, value).Ok? {
      var year, month, day := value[..4], value[5..7], value[8..];
      assert AllDigits(year) by {
        forall i | 0 <= i < 4 ensures IsAsciiDigit(year[i]) { assert year[i] == value[i]; }
      }
      assert AllDigits(month) by {
        forall i | 0 <= i < 2 ensures IsAsciiDigit(month[i]) { assert month[i] == value[5 + i]; }
      }
      assert AllDigits(day) by {
        forall i | 0 <= i < 2 ensures IsAsciiDigit(day[i]) { assert day[i] == value[8 + i]; }
      }
      assert value == year + "." + month + "." + day;
    }
    if IsPgnDate(value) {
      var year: string, month: string, day: string :|
        |year| == 4 && |month| == 2 && |day| == 2
        && AllDigits(year) && AllDigits(month) && AllDigits(day)
        && value == year + "." + month + "." + day;
      forall i | 0 <= i < |value| ensures i == 4 || i == 7 || IsAsciiDigit(value[i]) {
        if i < 4 {
          assert value[i] == year[i];
        } else if 4 < i < 7 {
          assert value[i] == month[i - 5];
        } else if 7 < i {
          assert value[i] == day[i - 8];
        }
      }
    }
  }

  /** The hyphenated form is rejected, naming the field and the value; the dotted form is accepted. */
  lemma DateExamples()
    ensures ValidateDateInput("date_from", "2024-01-01") == Err(InvalidDateFormat("date_from", "2024-01-01"))
    ensures ValidateDateInput("date_from", "2024.01.01") == Ok(())
  {
    assert "2024-01-01"[4] == '-';
    var dotted := "2024.01.01";
    assert forall i :: 0 <= i < |dotted| ==> i == 4 || i == 7 || IsAsciiDigit(dotted[i]) by {
      forall i | 0 <= i < |dotted| ensures i == 4 || i == 7 || IsAsciiDigit(dotted[i]) {
        assert dotted == ['2', '0', '2', '4', '.', '0', '1', '.', '0', '1'];
      }
    }
  }

  // ---------------------------------------------------------------------
  // The WHERE clause

  /** Which of the conditions of `build_where_clause` a clause is. */
  datatype ClauseKind =
    | SearchClause | ResultClause | EcoClause | EventOrSiteClause
    | DateShapeClause | DateFromClause | DateToClause

  /** The SQL text of each condition. */
  function ClauseText(kind: ClauseKind): string {
    match kind
    case SearchClause => SEARCH_CLAUSE
    case ResultClause => RESULT_CLAUSE
    case EcoClause => ECO_CLAUSE
    case EventOrSiteClause => EVENT_OR_SITE_CLAUSE
    case DateShapeClause => DATE_SHAPE_CLAUSE
    case DateFromClause => DATE_FROM_CLAUSE
    case DateToClause => DATE_TO_CLAUSE
  }

  /** The number of `?` placeholders in an SQL text. */
  function Placeholders(sql: string): nat {
    if sql == [] then 0 else (if sql[0] == '?' then 1 else 0) + Placeholders(sql[1..])
  }

  lemma {:induction false} PlaceholdersAppend(a: string, b: string)
    ensures Placeholders(a + b) == Placeholders(a) + Placeholders(b)
  {
    if a != [] {
      assert (a + b)[1..] == a[1..] + b;
      PlaceholdersAppend(a[1..], b);
    } else {
      assert a + b == b;
    }
  }

  lemma {:induction false} NoPlaceholders(sql: string)
    requires forall i :: 0 <= i < |sql| ==> sql[i] != '?'
    ensures Placeholders(sql) == 0
  {
    if sql != [] {
      NoPlaceholders(sql[1..]);
    }
  }

  /** A text whose only `?` is at index `k` holds one placeholder. */
  lemma PlaceholderAt(sql: string, k: nat)
    requires k < |sql| && sql[k] == '?'
    requires forall i :: 0 <= i < |sql| && i != k ==> sql[i] != '?'
    ensures Placeholders(sql) == 1
  {
    var before, after := sql[..k], sql[k + 1..];
    assert forall i :: 0 <= i < |before| ==> before[i] == sql[i];
    assert forall i :: 0 <= i < |after| ==> after[i] == sql[k + 1 + i];
    NoPlaceholders(before);
    NoPlaceholders(after);
    assert sql == before + ([sql[k]] + after);
    PlaceholdersAppend(before, [sql[k]] + after);
    assert ([sql[k]] + after)[1..] == after;
  }

  /** Every clause but the date-shape check holds exactly one placeholder; the date-shape check holds none. */
  lemma ClausePlaceholders(kind: ClauseKind)
    ensures Placeholders(ClauseText(kind)) == if kind == DateShapeClause then 0 else 1
  {
    match kind
    case SearchClause => SearchClausePlaceholders();
    case ResultClause => PlaceholderAt(RESULT_CLAUSE, |RESULT_CLAUSE| - 1);
    case EcoClause => EcoClausePlaceholders();
    case EventOrSiteClause => EventOrSiteClausePlaceholders();
    case DateShapeClause => DateShapeClausePlaceholders();
    case DateFromClause => PlaceholderAt(DATE_FROM_CLAUSE, |DATE_FROM_CLAUSE| - 1);
    case DateToClause => PlaceholderAt(DATE_TO_CLAUSE, |DATE_TO_CLAUSE| - 1);
  }

  lemma EcoClausePlaceholders()
    ensures Placeholders(ECO_CLAUSE) == 1
  {
    var a, d := "LOWER(COALESCE(eco, '')) ", "LIKE LOWER(?)";
    assert forall i :: 0 <= i < |a| ==> a[i] != '?';
    assert forall i :: 0 <= i < |d| - 2 ==> d[i] != '?';
    assert d[|d| - 2] == '?' && d[|d| - 1] != '?';
    SinglePlaceholderInPieces(a, d);
  }

  lemma SearchClausePlaceholders()
    ensures Placeholders(SEARCH_CLAUSE) == 1
  {
    var a, b := "LOWER(COALESCE(white, '') || ' ' || ", "COALESCE(black, '') || ' ' || ";
    var c, d := "COALESCE(event, '') || ' ' || ", "COALESCE(site, '')) LIKE LOWER(?)";
    assert forall i :: 0 <= i < |a| ==> a[i] != '?';
    assert forall i :: 0 <= i < |b| ==> b[i] != '?';
    assert forall i :: 0 <= i < |c| ==> c[i] != '?';
    assert forall i :: 0 <= i < |d| - 2 ==> d[i] != '?';
    assert d[|d| - 2] == '?' && d[|d| - 1] != '?';
    SinglePlaceholderInPieces(a + b + c, d);
  }

  lemma EventOrSiteClausePlaceholders()
    ensures Placeholders(EVENT_OR_SITE_CLAUSE) == 1
  {
    var a, d := "LOWER(COALESCE(event, '') || ' ' || ", "COALESCE(site, '')) LIKE LOWER(?)";
    assert forall i :: 0 <= i < |a| ==> a[i] != '?';
    assert forall i :: 0 <= i < |d| - 2 ==> d[i] != '?';
    assert d[|d| - 2] == '?' && d[|d| - 1] != '?';
    SinglePlaceholderInPieces(a, d);
  }

  /** A placeholder-free head followed by a tail whose only `?` is its last but one character. */
  lemma SinglePlaceholderInPieces(head: string, tail: string)
    requires |tail| >= 2 && tail[|tail| - 2] == '?' && tail[|tail| - 1] != '?'
    requires forall i :: 0 <= i < |head| ==> head[i] != '?'
    requires forall i :: 0 <= i < |tail| - 2 ==> tail[i] != '?'
    ensures Placeholders(head + tail) == 1
  {
    var sql := head + tail;
    forall i | 0 <= i < |sql| && i != |sql| - 2 ensures sql[i] != '?' {
      if i >= |head| {
        assert sql[i] == tail[i - |head|];
      }
    }
    PlaceholderAt(sql, |sql| - 2);
  }

  lemma DateShapeClausePlaceholders()
    ensures Placeholders(DATE_SHAPE_CLAUSE) == 0
  {
    var a, b := "date GLOB '[0-9][0-9][0-9][0-9]", ".[0-9][0-9].[0-9][0-9]'";
    assert forall i :: 0 <= i < |a| ==> a[i] != '?';
    assert forall i :: 0 <= i < |b| ==> b[i] != '?';
    NoPlaceholdersInPieces(a, b);
  }

  lemma NoPlaceholdersInPieces(a: string, b: string)
    requires forall i :: 0 <= i < |a| ==> a[i] != '?'
    requires forall i :: 0 <= i < |b| ==> b[i] != '?'
    ensures Placeholders(a + b) == 0
  {
    NoPlaceholders(a);
    NoPlaceholders(b);
    PlaceholdersAppend(a, b);
  }

  /** One SQL condition and the value its placeholder binds (none for the date-shape check). */
  datatype Condition = Condition(kind: ClauseKind, bound: Option<SqlValue>)

  /** The filter with every text field normalised; the result filter is kept. */
  function Normalize(filter: GameFilter): (r: GameFilter)
    ensures r.result == filter.result
  {
    GameFilter(
      NormalizedFilterText(filter.searchText),
      filter.result,
      NormalizedFilterText(filter.eco),
      NormalizedFilterText(filter.eventOrSite),
      NormalizedFilterText(filter.dateFrom),
      NormalizedFilterText(filter.dateTo))
  }

  /** A `LIKE` condition on a normalised text filter, bound to the text wrapped in `%`. */
  function LikeCondition(kind: ClauseKind, text: Option<string>): seq<Condition> {
    match text
    case None => []
    case Some(t) => [Condition(kind, Some(Text("%" + t + "%")))]
  }

  /** The stored PGN result a result filter asks for. */
  function ResultText(result: ResultFilter): Option<string> {
    match result
    case Any => None
    case WhiteWin => Some("1-0")
    case BlackWin => Some("0-1")
    case Draw => Some("1/2-1/2")
  }

  function ResultCondition(result: ResultFilter): seq<Condition> {
    match ResultText(result)
    case None => []
    case Some(text) => [Condition(ResultClause, Some(Text(text)))]
  }

  /** The date conditions: the shape check whenever either bound is given, then each given bound. */
  function DateConditions(from: Option<string>, to: Option<string>): seq<Condition> {
    (if from.Some? || to.Some? then [Condition(DateShapeClause, None)] else [])
    + (if from.Some? then [Condition(DateFromClause, Some(Text(from.value)))] else [])
    + (if to.Some? then [Condition(DateToClause, Some(Text(to.value)))] else [])
  }

  /** The error for the first invalid bound among the normalised date bounds, `from` before `to`. */
  function DateError(from: Option<string>, to: Option<string>): Option<QueryError> {
    if from.Some? && ValidateDateInput("date_from", from.value).Err? then
      Some(InvalidDateFormat("date_from", from.value))
    else if to.Some? && ValidateDateInput("date_to", to.value).Err? then
      Some(InvalidDateFormat("date_to", to.value))
    else
      None
  }

  /** The conditions of a filter in the order the source adds them, or the first invalid date bound. */
  function Conditions(filter: GameFilter): Result<seq<Condition>, QueryError> {
    NormalizedConditions(Normalize(filter))
  }

  /** `Conditions` on a filter whose text fields are already normalised. */
  function NormalizedConditions(n: GameFilter): Result<seq<Condition>, QueryError> {
    match DateError(n.dateFrom, n.dateTo)
    case Some(e) => Err(e)
    case None =>
      Ok(LikeCondition(SearchClause, n.searchText)
        + ResultCondition(n.result)
        + LikeCondition(EcoClause, n.eco)
        + LikeCondition(EventOrSiteClause, n.eventOrSite)
        + DateConditions(n.dateFrom, n.dateTo))
  }

  function ClausesOf(conditions: seq<Condition>): (r: seq<string>)
    ensures |r| == |conditions|
  {
    if conditions == [] then [] else [ClauseText(conditions[0].kind)] + ClausesOf(conditions[1..])
  }

  /** The bound values, in the order of the conditions that bind them. */
  function ValuesOf(conditions: seq<Condition>): seq<SqlValue> {
    if conditions == [] then []
    else
      (if conditions[0].bound.Some? then [conditions[0].bound.value] else []) + ValuesOf(conditions[1..])
  }

  /** The WHERE fragment: empty without conditions, otherwise the conditions joined with AND. */
  function WhereString(clauses: seq<string>): string {
    if clauses == [] then "" else " WHERE " + Join(clauses, " AND ")
  }

  /** `build_where_clause` as a function of the filter. */
  function BuildWhere(filter: GameFilter): Result<(string, seq<SqlValue>), QueryError> {
    match Conditions(filter)
    case Err(e) => Err(e)
    case Ok(conditions) => Ok((WhereString(ClausesOf(conditions)), ValuesOf(conditions)))
  }

  /** `build_where_clause` */
  method BuildWhereClause(filter: GameFilter) returns (r: Result<(string, seq<SqlValue>), QueryError>)
    ensures r == BuildWhere(filter)
  {
    var clauses: seq<string> := [];
    var values: seq<SqlValue> := [];
    ghost var conditions: seq<Condition> := [];

    var searchText := NormalizedFilterText(filter.searchText);
    clauses, values, conditions := PushLike(clauses, values, conditions, SearchClause, searchText);
    clauses, values, conditions := PushResult(clauses, values, conditions, filter.result);
    var eco := NormalizedFilterText(filter.eco);
    clauses, values, conditions := PushLike(clauses, values, conditions, EcoClause, eco);
    var eventOrSite := NormalizedFilterText(filter.eventOrSite);
    clauses, values, conditions := PushLike(clauses, values, conditions, EventOrSiteClause, eventOrSite);

    var dateFrom := NormalizedFilterText(filter.dateFrom);
    var dateTo := NormalizedFilterText(filter.dateTo);
    ghost var textConditions := conditions;
    var dated;
    dated, conditions := PushDates(clauses, values, conditions, dateFrom, dateTo);
    assert Normalize(filter) == GameFilter(searchText, filter.result, eco, eventOrSite, dateFrom, dateTo);
    if dated.Err? {
      return Err(dated.error);
    }
    clauses, values := dated.value.0, dated.value.1;
    assert textConditions == LikeCondition(SearchClause, searchText)
      + ResultCondition(filter.result)
      + LikeCondition(EcoClause, eco)
      + LikeCondition(EventOrSiteClause, eventOrSite);
    assert Conditions(filter) == Ok(conditions);

    var whereClause := if clauses == [] then "" else " WHERE " + Join(clauses, " AND ");
    r := Ok((whereClause, values));
  }

  /** The clauses and values gathered so far are those of `conditions`. */
  ghost predicate Tracks(clauses: seq<string>, values: seq<SqlValue>, conditions: seq<Condition>) {
    clauses == ClausesOf(conditions) && values == ValuesOf(conditions)
  }

  /** One text filter's step of `build_where_clause`: push its condition and value when it is present. */
  method PushLike(clauses: seq<string>, values: seq<SqlValue>, ghost conditions: seq<Condition>,
                  kind: ClauseKind, text: Option<string>)
    returns (clauses': seq<string>, values': seq<SqlValue>, ghost conditions': seq<Condition>)
    requires Tracks(clauses, values, conditions)
    ensures conditions' == conditions + LikeCondition(kind, text)
    ensures Tracks(clauses', values', conditions')
  {
    clauses', values' := clauses, values;
    if text.Some? {
      clauses' := clauses' + [ClauseText(kind)];
      values' := values' + [Text("%" + text.value + "%")];
      Single(Condition(kind, Some(Text("%" + text.value + "%"))));
    }
    Track(clauses, values, conditions, LikeCondition(kind, text));
    conditions' := conditions + LikeCondition(kind, text);
  }

  /** The result step of `build_where_clause`. */
  method PushResult(clauses: seq<string>, values: seq<SqlValue>, ghost conditions: seq<Condition>, result: ResultFilter)
    returns (clauses': seq<string>, values': seq<SqlValue>, ghost conditions': seq<Condition>)
    requires Tracks(clauses, values, conditions)
    ensures conditions' == conditions + ResultCondition(result)
    ensures Tracks(clauses', values', conditions')
  {
    clauses', values' := clauses, values;
    match result {
      case Any =>
      case WhiteWin =>
        clauses' := clauses' + [RESULT_CLAUSE];
        values' := values' + [Text("1-0")];
      case BlackWin =>
        clauses' := clauses' + [RESULT_CLAUSE];
        values' := values' + [Text("0-1")];
      case Draw =>
        clauses' := clauses' + [RESULT_CLAUSE];
        values' := values' + [Text("1/2-1/2")];
    }
    if result != Any {
      Single(ResultCondition(result)[0]);
    }
    Track(clauses, values, conditions, ResultCondition(result));
    conditions' := conditions + ResultCondition(result);
  }

  /** One date bound of `build_where_clause`: validate it, then push its comparison and its text. */
  method PushBound(clauses: seq<string>, values: seq<SqlValue>, ghost conditions: seq<Condition>,
                   kind: ClauseKind, field: string, value: string)
    returns (r: Result<(seq<string>, seq<SqlValue>), QueryError>, ghost conditions': seq<Condition>)
    requires Tracks(clauses, values, conditions)
    ensures ValidateDateInput(field, value).Err? ==> r == Err(InvalidDateFormat(field, value))
    ensures ValidateDateInput(field, value).Ok? ==>
      && conditions' == conditions + [Condition(kind, Some(Text(value)))]
      && r.Ok? && Tracks(r.value.0, r.value.1, conditions')
  {
    var check := ValidateDateInput(field, value);
    if check.Err? {
      return Err(check.error), conditions;
    }
    TrackOne(clauses, values, conditions, Condition(kind, Some(Text(value))));
    conditions' := conditions + [Condition(kind, Some(Text(value)))];
    r := Ok((clauses + [ClauseText(kind)], values + [Text(value)]));
  }

  /** The date step of `build_where_clause`: the shape check, then each bound after validating it. */
  method PushDates(clauses: seq<string>, values: seq<SqlValue>, ghost conditions: seq<Condition>,
                   dateFrom: Option<string>, dateTo: Option<string>)
    returns (r: Result<(seq<string>, seq<SqlValue>), QueryError>, ghost conditions': seq<Condition>)
    requires Tracks(clauses, values, conditions)
    ensures DateError(dateFrom, dateTo).Some? ==> r == Err(DateError(dateFrom, dateTo).value)
    ensures DateError(dateFrom, dateTo).None? ==>
      && conditions' == conditions + DateConditions(dateFrom, dateTo)
      && r.Ok? && Tracks(r.value.0, r.value.1, conditions')
  {
    var clauses, values := clauses, values;
    ghost var shape := if dateFrom.Some? || dateTo.Some? then [Condition(DateShapeClause, None)] else [];
    ghost var from := if dateFrom.Some? then [Condition(DateFromClause, Some(Text(dateFrom.value)))] else [];
    ghost var to := if dateTo.Some? then [Condition(DateToClause, Some(Text(dateTo.value)))] else [];
    assert DateConditions(dateFrom, dateTo) == shape + from + to;

    clauses, conditions' := PushShape(clauses, values, conditions, dateFrom.Some? || dateTo.Some?);
    assert conditions' == conditions + shape;

    if dateFrom.Some? {
      var pushed: Result<(seq<string>, seq<SqlValue>), QueryError>;
      pushed, conditions' := PushBound(clauses, values, conditions', DateFromClause, "date_from", dateFrom.value);
      if pushed.Err? {
        return pushed, conditions';
      }
      clauses, values := pushed.value.0, pushed.value.1;
    }
    assert conditions' == conditions + shape + from;

    if dateTo.Some? {
      var pushed: Result<(seq<string>, seq<SqlValue>), QueryError>;
      pushed, conditions' := PushBound(clauses, values, conditions', DateToClause, "date_to", dateTo.value);
      if pushed.Err? {
        return pushed, conditions';
      }
      clauses, values := pushed.value.0, pushed.value.1;
    }
    assert conditions' == conditions + shape + from + to;
    r := Ok((clauses, values));
  }

  /** The shape check of the date step, added whenever either bound is given; it binds nothing. */
  method PushShape(clauses: seq<string>, values: seq<SqlValue>, ghost conditions: seq<Condition>, hasDateFilter: bool)
    returns (clauses': seq<string>, ghost conditions': seq<Condition>)
    requires Tracks(clauses, values, conditions)
    ensures conditions' == conditions + if hasDateFilter then [Condition(DateShapeClause, None)] else []
    ensures Tracks(clauses', values, conditions')
  {
    clauses', conditions' := clauses, conditions;
    if hasDateFilter {
      TrackOne(clauses, values, conditions, Condition(DateShapeClause, None));
      clauses' := clauses + [DATE_SHAPE_CLAUSE];
      conditions' := conditions + [Condition(DateShapeClause, None)];
    }
  }

  lemma Single(c: Condition)
    ensures ClausesOf([c]) == [ClauseText(c.kind)]
    ensures ValuesOf([c]) == if c.bound.Some? then [c.bound.value] else []
  {
    assert [c][1..] == [];
  }

  lemma TrackOne(clauses: seq<string>, values: seq<SqlValue>, conditions: seq<Condition>, c: Condition)
    requires Tracks(clauses, values, conditions)
    ensures Tracks(clauses + [ClauseText(c.kind)], values + (if c.bound.Some? then [c.bound.value] else []), conditions + [c])
  {
    Single(c);
    Track(clauses, values, conditions, [c]);
  }

  lemma Track(clauses: seq<string>, values: seq<SqlValue>, conditions: seq<Condition>, step: seq<Condition>)
    requires Tracks(clauses, values, conditions)
    ensures Tracks(clauses + ClausesOf(step), values + ValuesOf(step), conditions + step)
  {
    ValuesOfAppend(conditions, step);
  }

  lemma {:induction false} ValuesOfAppend(a: seq<Condition>, b: seq<Condition>)
    ensures ValuesOf(a + b) == ValuesOf(a) + ValuesOf(b)
    ensures ClausesOf(a + b) == ClausesOf(a) + ClausesOf(b)
  {
    if a != [] {
      assert (a + b)[1..] == a[1..] + b;
      ValuesOfAppend(a[1..], b);
    } else {
      assert a + b == b;
    }
  }

  // ---------------------------------------------------------------------
  // Properties of the WHERE clause

  /** The number of conditions before index `i` that bind a value. */
  function BoundBefore(conditions: seq<Condition>, i: nat): nat
    requires i <= |conditions|
  {
    |ValuesOf(conditions[..i])|
  }

  /**
   * Placeholders and values line up: the condition at index `i`, when it
   * binds, binds the value that follows those of the binding conditions
   * before it, and no value is left over after the last binding condition.
   */
  lemma {:induction false} BindingOrder(conditions: seq<Condition>)
    ensures forall i :: 0 <= i < |conditions| && conditions[i].bound.Some? ==>
      BoundBefore(conditions, i) < |ValuesOf(conditions)|
      && ValuesOf(conditions)[BoundBefore(conditions, i)] == conditions[i].bound.value
    ensures BoundBefore(conditions, |conditions|) == |ValuesOf(conditions)|
  {
    assert conditions[..|conditions|] == conditions;
    if conditions != [] {
      var tail := conditions[1..];
      BindingOrder(tail);
      var head := if conditions[0].bound.Some? then [conditions[0].bound.value] else [];
      forall i | 0 <= i < |conditions| && conditions[i].bound.Some?
        ensures BoundBefore(conditions, i) < |ValuesOf(conditions)|
        ensures ValuesOf(conditions)[BoundBefore(conditions, i)] == conditions[i].bound.value
      {
        if i == 0 {
          assert conditions[..0] == [];
        } else {
          assert conditions[..i][1..] == tail[..i - 1];
          assert tail[i - 1] == conditions[i];
          assert BoundBefore(conditions, i) == |head| + BoundBefore(tail, i - 1);
        }
      }
    }
  }

  /** The placeholders of a list of clauses, in total. */
  function PlaceholdersIn(clauses: seq<string>): nat {
    if clauses == [] then 0 else Placeholders(clauses[0]) + PlaceholdersIn(clauses[1..])
  }

  /** Joining with a placeholder-free separator adds no placeholder. */
  lemma {:induction false} JoinPlaceholders(parts: seq<string>, sep: string)
    requires Placeholders(sep) == 0
    ensures Placeholders(Join(parts, sep)) == PlaceholdersIn(parts)
  {
    if |parts| == 1 {
      assert parts[1..] == [];
    } else if |parts| > 1 {
      JoinPlaceholders(parts[1..], sep);
      PlaceholdersAppend(parts[0], sep);
      PlaceholdersAppend(parts[0] + sep, Join(parts[1..], sep));
    }
  }

  /** Conditions whose clauses hold one placeholder exactly when they bind a value. */
  ghost predicate PlaceholderPerValue(conditions: seq<Condition>) {
    forall i :: 0 <= i < |conditions| ==>
      Placeholders(ClauseText(conditions[i].kind)) == if conditions[i].bound.Some? then 1 else 0
  }

  lemma {:induction false} PlaceholdersCountValues(conditions: seq<Condition>)
    requires PlaceholderPerValue(conditions)
    ensures PlaceholdersIn(ClausesOf(conditions)) == |ValuesOf(conditions)|
  {
    if conditions != [] {
      PlaceholdersCountValues(conditions[1..]);
    }
  }

  /**
   * The placeholders of the WHERE text and the values pair up: there are as many
   * `?` as values, and the clauses before condition `i` hold as many `?` as there
   * are values before the one condition `i` binds (see `BindingOrder`).
   */
  lemma WherePlaceholders(filter: GameFilter)
    requires BuildWhere(filter).Ok?
    ensures Placeholders(BuildWhere(filter).value.0) == |BuildWhere(filter).value.1|
    ensures var cs := Conditions(filter).value;
      forall i :: 0 <= i <= |cs| ==> PlaceholdersIn(ClausesOf(cs[..i])) == BoundBefore(cs, i)
  {
    var cs := Conditions(filter).value;
    NormalizedConditionsBind(Normalize(filter));
    forall i | 0 <= i < |cs|
      ensures Placeholders(ClauseText(cs[i].kind)) == if cs[i].bound.Some? then 1 else 0
    {
      assert cs[i] in cs;
      ClausePlaceholders(cs[i].kind);
    }
    ConditionPlaceholders(cs);
  }

  lemma PrefixPlaceholders(cs: seq<Condition>, i: nat)
    requires PlaceholderPerValue(cs) && i <= |cs|
    ensures PlaceholdersIn(ClausesOf(cs[..i])) == BoundBefore(cs, i)
  {
    assert PlaceholderPerValue(cs[..i]) by {
      forall j | 0 <= j < i ensures cs[..i][j] == cs[j] {}
    }
    PlaceholdersCountValues(cs[..i]);
  }

  /** `WherePlaceholders` for any list of conditions whose clauses hold one placeholder per bound value. */
  lemma ConditionPlaceholders(cs: seq<Condition>)
    requires PlaceholderPerValue(cs)
    ensures Placeholders(WhereString(ClausesOf(cs))) == |ValuesOf(cs)|
    ensures forall i :: 0 <= i <= |cs| ==> PlaceholdersIn(ClausesOf(cs[..i])) == BoundBefore(cs, i)
  {
    PlaceholdersCountValues(cs);
    forall i | 0 <= i <= |cs| ensures PlaceholdersIn(ClausesOf(cs[..i])) == BoundBefore(cs, i) {
      PrefixPlaceholders(cs, i);
    }
    WhereStringPlaceholders(ClausesOf(cs));
  }

  /** The WHERE text holds exactly the placeholders of its clauses. */
  lemma WhereStringPlaceholders(clauses: seq<string>)
    ensures Placeholders(WhereString(clauses)) == PlaceholdersIn(clauses)
  {
    if clauses != [] {
      var and := " AND ";
      assert forall k :: 0 <= k < |and| ==> and[k] != '?';
      NoPlaceholders(and);
      JoinPlaceholders(clauses, and);
      var lead := " WHERE ";
      assert forall k :: 0 <= k < |lead| ==> lead[k] != '?';
      NoPlaceholders(lead);
      PlaceholdersAppend(lead, Join(clauses, and));
    }
  }

  /** Only the date-shape check binds nothing. */
  lemma NormalizedConditionsBind(n: GameFilter)
    requires NormalizedConditions(n).Ok?
    ensures forall c :: c in NormalizedConditions(n).value ==> (c.bound.Some? <==> c.kind != DateShapeClause)
  {
  }

  /** No WHERE clause and no values exactly when every text filter is absent or blank and any result is allowed. */
  lemma EmptyWhereIff(filter: GameFilter)
    ensures BuildWhere(filter) == Ok(("", [])) <==> Normalize(filter) == DEFAULT_FILTER
  {
    var n := Normalize(filter);
    if n == DEFAULT_FILTER {
      assert Conditions(filter) == Ok([]);
    }
    if BuildWhere(filter) == Ok(("", [])) {
      var cs := Conditions(filter).value;
      assert WhereString(ClausesOf(cs)) == "";
      assert cs == [];
    }
  }

  /** Normalising the filter first changes nothing: `build_where_clause` trims and drops blank filters itself. */
  lemma BuildWhereNormalizes(filter: GameFilter)
    ensures BuildWhere(Normalize(filter)) == BuildWhere(filter)
  {
    NormalizedFilterTextIdempotent(filter.searchText);
    NormalizedFilterTextIdempotent(filter.eco);
    NormalizedFilterTextIdempotent(filter.eventOrSite);
    NormalizedFilterTextIdempotent(filter.dateFrom);
    NormalizedFilterTextIdempotent(filter.dateTo);
    assert Normalize(Normalize(filter)) == Normalize(filter);
  }

  /** The error cases: a given date bound that is not a full PGN date fails the query, `date_from` first, naming the trimmed text. */
  lemma BuildWhereErrors(filter: GameFilter)
    ensures var from, to := Normalize(filter).dateFrom, Normalize(filter).dateTo;
      && (BuildWhere(filter).Err? <==> (from.Some? && !IsPgnDate(from.value)) || (to.Some? && !IsPgnDate(to.value)))
      && (from.Some? && !IsPgnDate(from.value) ==> BuildWhere(filter) == Err(InvalidDateFormat("date_from", from.value)))
      && ((from.None? || IsPgnDate(from.value)) && to.Some? && !IsPgnDate(to.value) ==>
            BuildWhere(filter) == Err(InvalidDateFormat("date_to", to.value)))
  {
    var n := Normalize(filter);
    DateErrorIff(n.dateFrom, n.dateTo);
  }

  lemma DateErrorIff(from: Option<string>, to: Option<string>)
    ensures && (DateError(from, to).Some? <==> (from.Some? && !IsPgnDate(from.value)) || (to.Some? && !IsPgnDate(to.value)))
      && (from.Some? && !IsPgnDate(from.value) ==> DateError(from, to) == Some(InvalidDateFormat("date_from", from.value)))
      && ((from.None? || IsPgnDate(from.value)) && to.Some? && !IsPgnDate(to.value) ==>
            DateError(from, to) == Some(InvalidDateFormat("date_to", to.value)))
  {
    if from.Some? {
      ValidateDateIff("date_from", from.value);
    }
    if to.Some? {
      ValidateDateIff("date_to", to.value);
    }
  }

  /**
   * When the query is accepted, the date-shape condition is present exactly when a date
   * bound is, and each given bound binds its trimmed text; the values are one fewer
   * than the conditions when a date bound is given, as many otherwise.
   */
  lemma DateConditionsShape(filter: GameFilter)
    requires BuildWhere(filter).Ok?
    ensures var n := Normalize(filter);
      var cs := Conditions(filter).value;
      && (Condition(DateShapeClause, None) in cs <==> n.dateFrom.Some? || n.dateTo.Some?)
      && (n.dateFrom.Some? ==> Condition(DateFromClause, Some(Text(n.dateFrom.value))) in cs)
      && (n.dateTo.Some? ==> Condition(DateToClause, Some(Text(n.dateTo.value))) in cs)
      && |ValuesOf(cs)| == |cs| - (if n.dateFrom.Some? || n.dateTo.Some? then 1 else 0)
  {
    NormalizedDateShape(Normalize(filter));
  }

  lemma NormalizedDateShape(n: GameFilter)
    requires NormalizedConditions(n).Ok?
    ensures var cs := NormalizedConditions(n).value;
      && (Condition(DateShapeClause, None) in cs <==> n.dateFrom.Some? || n.dateTo.Some?)
      && (n.dateFrom.Some? ==> Condition(DateFromClause, Some(Text(n.dateFrom.value))) in cs)
      && (n.dateTo.Some? ==> Condition(DateToClause, Some(Text(n.dateTo.value))) in cs)
      && |ValuesOf(cs)| == |cs| - (if n.dateFrom.Some? || n.dateTo.Some? then 1 else 0)
  {
    var like := LikeCondition(SearchClause, n.searchText) + ResultCondition(n.result)
      + LikeCondition(EcoClause, n.eco) + LikeCondition(EventOrSiteClause, n.eventOrSite);
    var dates := DateConditions(n.dateFrom, n.dateTo);
    assert NormalizedConditions(n).value == like + dates;
    assert forall i :: 0 <= i < |like| ==> like[i].bound.Some?;
    AllBound(like);
    ValuesOfAppend(like, dates);
    DateConditionsOf(n.dateFrom, n.dateTo);
  }

  /**
   * The ECO and event-or-site filters: each binds one `LIKE` condition to its trimmed text wrapped in `%`
   * exactly when it is given and not blank, and no condition of its kind is there otherwise.
   */
  lemma LikeFiltersShape(filter: GameFilter)
    requires BuildWhere(filter).Ok?
    ensures var cs := Conditions(filter).value;
      && (filter.eco.Some? && !IsBlank(filter.eco.value) ==>
            Condition(EcoClause, Some(Text("%" + Trim(filter.eco.value) + "%"))) in cs)
      && (forall c :: c in cs && c.kind == EcoClause ==>
            filter.eco.Some? && !IsBlank(filter.eco.value)
            && c == Condition(EcoClause, Some(Text("%" + Trim(filter.eco.value) + "%"))))
      && (filter.eventOrSite.Some? && !IsBlank(filter.eventOrSite.value) ==>
            Condition(EventOrSiteClause, Some(Text("%" + Trim(filter.eventOrSite.value) + "%"))) in cs)
      && (forall c :: c in cs && c.kind == EventOrSiteClause ==>
            filter.eventOrSite.Some? && !IsBlank(filter.eventOrSite.value)
            && c == Condition(EventOrSiteClause, Some(Text("%" + Trim(filter.eventOrSite.value) + "%"))))
  {
    var n := Normalize(filter);
    NormalizedLikeShape(n, EcoClause, n.eco);
    NormalizedLikeShape(n, EventOrSiteClause, n.eventOrSite);
  }

  /** On a normalised filter, the ECO or event-or-site condition is there exactly when its text is, bound to that text in `%`. */
  lemma NormalizedLikeShape(n: GameFilter, kind: ClauseKind, text: Option<string>)
    requires NormalizedConditions(n).Ok?
    requires (kind == EcoClause && text == n.eco) || (kind == EventOrSiteClause && text == n.eventOrSite)
    ensures var cs := NormalizedConditions(n).value;
      && (text.Some? ==> Condition(kind, Some(Text("%" + text.value + "%"))) in cs)
      && (forall c :: c in cs && c.kind == kind ==> text.Some? && c == Condition(kind, Some(Text("%" + text.value + "%"))))
  {
    var search := LikeCondition(SearchClause, n.searchText);
    var result := ResultCondition(n.result);
    var eco := LikeCondition(EcoClause, n.eco);
    var place := LikeCondition(EventOrSiteClause, n.eventOrSite);
    var dates := DateConditions(n.dateFrom, n.dateTo);
    var cs := NormalizedConditions(n).value;
    assert cs == search + result + eco + place + dates;
    forall c | c in cs && c.kind == kind
      ensures text.Some? && c == Condition(kind, Some(Text("%" + text.value + "%")))
    {
      assert c !in search && c !in result && c !in dates;
      assert c in eco || c in place;
    }
    if text.Some? {
      assert Condition(kind, Some(Text("%" + text.value + "%"))) in (if kind == EcoClause then eco else place);
    }
  }

  /** The date conditions: the shape check exactly when a bound is given, each given bound, and a value per bound. */
  lemma DateConditionsOf(from: Option<string>, to: Option<string>)
    ensures var dates := DateConditions(from, to);
      && (Condition(DateShapeClause, None) in dates <==> from.Some? || to.Some?)
      && (from.Some? ==> Condition(DateFromClause, Some(Text(from.value))) in dates)
      && (to.Some? ==> Condition(DateToClause, Some(Text(to.value))) in dates)
      && |ValuesOf(dates)| == |dates| - (if from.Some? || to.Some? then 1 else 0)
  {
    var dates := DateConditions(from, to);
    if from.Some? || to.Some? {
      var rest := (if from.Some? then [Condition(DateFromClause, Some(Text(from.value)))] else [])
        + (if to.Some? then [Condition(DateToClause, Some(Text(to.value)))] else []);
      assert dates == [Condition(DateShapeClause, None)] + rest;
      ValuesOfAppend([Condition(DateShapeClause, None)], rest);
      Single(Condition(DateShapeClause, None));
      AllBound(rest);
    }
  }

  /** A condition list in which every condition binds a value binds as many values as it has conditions. */
  lemma {:induction false} AllBound(conditions: seq<Condition>)
    requires forall i :: 0 <= i < |conditions| ==> conditions[i].bound.Some?
    ensures |ValuesOf(conditions)| == |conditions|
  {
    if conditions != [] {
      AllBound(conditions[1..]);
    }
  }

  /** A search text comes first: its condition leads the clause and binds the trimmed text wrapped in `%`. */
  lemma SearchComesFirst(filter: GameFilter)
    requires BuildWhere(filter).Ok?
    requires filter.searchText.Some? && !IsBlank(filter.searchText.value)
    ensures var (where, values) := BuildWhere(filter).value;
      && StartsWith(where, " WHERE " + SEARCH_CLAUSE)
      && values != [] && values[0] == Text("%" + Trim(filter.searchText.value) + "%")
  {
    var cs := Conditions(filter).value;
    var first := Condition(SearchClause, Some(Text("%" + Trim(filter.searchText.value) + "%")));
    SearchConditionLeads(filter);
    assert cs == [first] + cs[1..];
    ValuesOfAppend([first], cs[1..]);
    Single(first);
    var clauses := ClausesOf(cs);
    assert clauses[0] == SEARCH_CLAUSE;
    JoinStartsWith(clauses, " AND ");
    PrefixConcat(" WHERE ", SEARCH_CLAUSE, Join(clauses, " AND "));
  }

  lemma SearchConditionLeads(filter: GameFilter)
    requires Conditions(filter).Ok?
    requires filter.searchText.Some? && !IsBlank(filter.searchText.value)
    ensures var cs := Conditions(filter).value;
      cs != [] && cs[0] == Condition(SearchClause, Some(Text("%" + Trim(filter.searchText.value) + "%")))
  {
    SearchLeadsNormalized(Normalize(filter));
  }

  lemma SearchLeadsNormalized(n: GameFilter)
    requires NormalizedConditions(n).Ok? && n.searchText.Some?
    ensures var cs := NormalizedConditions(n).value;
      cs != [] && cs[0] == Condition(SearchClause, Some(Text("%" + n.searchText.value + "%")))
  {
    var rest := ResultCondition(n.result) + LikeCondition(EcoClause, n.eco)
      + LikeCondition(EventOrSiteClause, n.eventOrSite) + DateConditions(n.dateFrom, n.dateTo);
    assert NormalizedConditions(n).value == LikeCondition(SearchClause, n.searchText) + rest;
  }

  lemma JoinStartsWith(parts: seq<string>, sep: string)
    requires parts != []
    ensures StartsWith(Join(parts, sep), parts[0])
  {
  }

  lemma PrefixConcat(a: string, b: string, c: string)
    requires StartsWith(c, b)
    ensures StartsWith(a + c, a + b)
  {
    assert (a + c)[..|a + b|] == a + c[..|b|];
  }

  /** A filter on the result alone gives the single result condition bound to the stored PGN result. */
  lemma ResultOnly(result: ResultFilter)
    ensures BuildWhere(GameFilter(None, result, None, None, None, None)) ==
      match result
      case Any => Ok(("", []))
      case WhiteWin => Ok((" WHERE result = ?", [Text("1-0")]))
      case BlackWin => Ok((" WHERE result = ?", [Text("0-1")]))
      case Draw => Ok((" WHERE result = ?", [Text("1/2-1/2")]))
  {
    ResultOnlyConditions(result);
    if result != Any {
      Single(ResultCondition(result)[0]);
      assert ClausesOf(ResultCondition(result)) == [RESULT_CLAUSE];
      assert WhereString([RESULT_CLAUSE]) == " WHERE result = ?";
    }
  }

  lemma ResultOnlyConditions(result: ResultFilter)
    ensures Conditions(GameFilter(None, result, None, None, None, None)) == Ok(ResultCondition(result))
  {
    var f := GameFilter(None, result, None, None, None, None);
    assert Normalize(f) == f;
    assert LikeCondition(SearchClause, None) == [] && DateConditions(None, None) == [];
    assert [] + ResultCondition(result) + [] + [] + [] == ResultCondition(result);
  }

  /** A hyphenated `date_from` is refused before any SQL is built, naming the field and the text. */
  lemma HyphenatedDateRefused()
    ensures BuildWhere(GameFilter(None, Any, None, None, Some("2024-01-01"), None))
      == Err(InvalidDateFormat("date_from", "2024-01-01"))
  {
    var date := "2024-01-01";
    assert date[0] == '2' && date[|date| - 1] == '1';
    TrimOfTrimmed(date);
    DateExamples();
  }
}
