/**
 * Reading a built query back into the clauses it carries. The parse is the
 * inverse of the builder whenever no column name, sort field or direction
 * contains a space and no filter value contains a single quote; a value with
 * a quote breaks out of its literal, and then two different parameter bags
 * can produce the very same statement.
 */
module UsersQueryParse {
  import opened Wrappers
  import opened Decimal
  import opened Text
  import opened UsersQuery

  /** The clauses a query carries, in the order they appear. */
  datatype Clauses = Clauses(
    conditions: seq<Entry>,
    order: Option<(string, string)>,
    limit: Option<int>,
    offset: Option<int>)

  /** What the parameters ask for once JavaScript truthiness has been applied. */
  function Requested(p: UserParameters): Clauses {
    Clauses(
      if p.filter.Some? then p.filter.value else [],
      if StringTruthy(p.sortBy) && StringTruthy(p.direction) then Some((p.sortBy.value, p.direction.value)) else None,
      if NumberTruthy(p.limit) then p.limit else None,
      if NumberTruthy(p.skip) then p.skip else None)
  }

  predicate SafeEntry(e: Entry) {
    ' ' !in e.0 && '\'' !in e.1
  }

  /** No interpolated text can be mistaken for the query's own punctuation. */
  predicate SafeParameters(p: UserParameters) {
    && (p.filter.Some? ==> forall e :: e in p.filter.value ==> SafeEntry(e))
    && (p.sortBy.Some? ==> ' ' !in p.sortBy.value)
    && (p.direction.Some? ==> ' ' !in p.direction.value)
  }

  /** `keyword k = 'v'` at the front of `s`: the entry and what follows it. */
  function ParseCondition(s: string, keyword: string): (r: Option<(Entry, string)>)
    requires keyword <= s
    ensures r.Some? ==> |r.value.1| < |s|
  {
    var (key, afterKey) := CharsBefore(s[|keyword|..], ' ');
    if !(" = '" <= afterKey) then None
    else
      var (value, afterValue) := CharsBefore(afterKey[4..], '\'');
      if afterValue == [] then None else Some(((key, value), afterValue[1..]))
  }

  /** The run of conditions at the front of `s`, the first under WHERE and the rest under AND. */
  function ParseConditions(s: string, index: nat): Option<(seq<Entry>, string)>
    decreases |s|
  {
    var keyword := if index == 0 then WhereKeyword else AndKeyword;
    if !(keyword <= s) then Some(([], s))
    else match ParseCondition(s, keyword)
      case None => None
      case Some((e, rest)) =>
        match ParseConditions(rest, index + 1)
        case None => None
        case Some((es, tail)) => Some(([e] + es, tail))
  }

  function ParseOrder(s: string): Option<(Option<(string, string)>, string)> {
    if !(OrderKeyword <= s) then Some((None, s))
    else
      var (column, afterColumn) := CharsBefore(s[|OrderKeyword|..], ' ');
      if afterColumn == [] then None
      else
        var (direction, rest) := CharsBefore(afterColumn[1..], ' ');
        Some((Some((column, direction)), rest))
  }

  function ParseNumber(s: string, keyword: string): Option<(Option<int>, string)> {
    if !(keyword <= s) then Some((None, s))
    else
      var (token, rest) := CharsBefore(s[|keyword|..], ' ');
      match ParseInt(token)
      case None => None
      case Some(n) => Some((Some(n), rest))
  }

  function ParseQuery(q: string): Option<Clauses> {
    if !(Base <= q) then None
    else match ParseConditions(q[|Base|..], 0)
      case None => None
      case Some((conditions, afterWhere)) =>
        match ParseOrder(afterWhere)
        case None => None
        case Some((order, afterOrder)) =>
          match ParseNumber(afterOrder, LimitKeyword)
          case None => None
          case Some((limit, afterLimit)) =>
            match ParseNumber(afterLimit, OffsetKeyword)
            case None => None
            case Some((offset, afterOffset)) =>
              if afterOffset == [] then Some(Clauses(conditions, order, limit, offset)) else None
  }

  lemma ParseRenderedCondition(keyword: string, e: Entry, rest: string)
    requires SafeEntry(e)
    ensures keyword <= keyword + Rendered(e) + rest
    ensures ParseCondition(keyword + Rendered(e) + rest, keyword) == Some((e, rest))
  {
    var s := keyword + Rendered(e) + rest;
    var afterKey := " = '" + e.1 + "'" + rest;
    assert s[|keyword|..] == e.0 + afterKey;
    CharsBeforeConcat(e.0, afterKey, ' ');
    assert afterKey[4..] == e.1 + ("'" + rest);
    CharsBeforeConcat(e.1, "'" + rest, '\'');
    assert ("'" + rest)[1..] == rest;
  }

  lemma {:induction false} ParseAndChain(entries: seq<Entry>, rest: string, index: nat)
    requires index >= 1
    requires forall e :: e in entries ==> SafeEntry(e)
    requires !(AndKeyword <= rest)
    ensures ParseConditions(AndChain(entries) + rest, index) == Some((entries, rest))
    decreases |entries|
  {
    if entries == [] {
      assert AndChain(entries) + rest == rest;
    } else {
      var tail := AndChain(entries[1..]) + rest;
      assert AndChain(entries) + rest == AndKeyword + Rendered(entries[0]) + tail;
      ParseRenderedCondition(AndKeyword, entries[0], tail);
      ParseAndChain(entries[1..], rest, index + 1);
      assert [entries[0]] + entries[1..] == entries;
    }
  }

  lemma ParseFilterText(filter: Option<seq<Entry>>, rest: string)
    requires filter.Some? ==> forall e :: e in filter.value ==> SafeEntry(e)
    requires !(WhereKeyword <= rest) && !(AndKeyword <= rest)
    ensures ParseConditions(FilterText(filter) + rest, 0)
         == Some((if filter.Some? then filter.value else [], rest))
  {
    FilterTextShape(filter);
    if filter.Some? && filter.value != [] {
      var entries := filter.value;
      ParseFirstCondition(entries[0], AndChain(entries[1..]), rest, entries[1..]);
      assert [entries[0]] + entries[1..] == entries;
    } else {
      assert FilterText(filter) + rest == rest;
    }
  }

  lemma ParseFirstCondition(first: Entry, later: string, rest: string, laterEntries: seq<Entry>)
    requires SafeEntry(first)
    requires later == AndChain(laterEntries)
    requires forall e :: e in laterEntries ==> SafeEntry(e)
    requires !(AndKeyword <= rest)
    ensures ParseConditions(WhereKeyword + Rendered(first) + later + rest, 0)
         == Some(([first] + laterEntries, rest))
  {
    var tail := later + rest;
    assert WhereKeyword + Rendered(first) + later + rest == WhereKeyword + Rendered(first) + tail;
    ParseRenderedCondition(WhereKeyword, first, tail);
    ParseAndChain(laterEntries, rest, 1);
  }

  lemma ParseOrderText(sortBy: Option<string>, direction: Option<string>, rest: string)
    requires sortBy.Some? ==> ' ' !in sortBy.value
    requires direction.Some? ==> ' ' !in direction.value
    requires rest == [] || rest[0] == ' '
    requires !(OrderKeyword <= rest)
    ensures ParseOrder(OrderText(sortBy, direction) + rest)
         == Some((if StringTruthy(sortBy) && StringTruthy(direction)
                  then Some((sortBy.value, direction.value)) else None, rest))
  {
    if StringTruthy(sortBy) && StringTruthy(direction) {
      ParseOrderClause(sortBy.value, direction.value, rest);
    } else {
      assert OrderText(sortBy, direction) + rest == rest;
    }
  }

  lemma ParseOrderClause(column: string, direction: string, rest: string)
    requires ' ' !in column && ' ' !in direction
    requires rest == [] || rest[0] == ' '
    ensures ParseOrder(OrderKeyword + column + " " + direction + rest) == Some((Some((column, direction)), rest))
  {
    var afterColumn := " " + direction + rest;
    var s := OrderKeyword + column + " " + direction + rest;
    assert s == OrderKeyword + (column + afterColumn);
    assert s[|OrderKeyword|..] == column + afterColumn;
    CharsBeforeConcat(column, afterColumn, ' ');
    assert afterColumn[1..] == direction + rest;
    CharsBeforeConcat(direction, rest, ' ');
  }

  lemma ParseNumberText(keyword: string, n: Option<int>, rest: string)
    requires rest == [] || rest[0] == ' '
    requires !(keyword <= rest)
    ensures ParseNumber((if NumberTruthy(n) then keyword + IntToString(n.value) else "") + rest, keyword)
         == Some((if NumberTruthy(n) then n else None, rest))
  {
    if NumberTruthy(n) {
      var s := keyword + IntToString(n.value) + rest;
      assert s[|keyword|..] == IntToString(n.value) + rest;
      CharsBeforeConcat(IntToString(n.value), rest, ' ');
      IntToStringRoundTrip(n.value);
    } else {
      assert "" + rest == rest;
    }
  }

  /** The texts that may follow the filter never begin like a condition. */
  lemma AfterFilterIsNoCondition(o: string, l: string, s: string, p: UserParameters)
    requires o == OrderText(p.sortBy, p.direction) && l == LimitText(p.limit) && s == OffsetText(p.skip)
    ensures !(WhereKeyword <= o + (l + s)) && !(AndKeyword <= o + (l + s))
  {
    if o != [] {
      assert (o + (l + s))[1] == 'O';
    } else if l != [] {
      assert (o + (l + s))[1] == 'L';
    } else if s != [] {
      assert (o + (l + s))[1] == 'O';
    }
  }

  /** What follows the ORDER BY position starts with a space and is no ORDER BY. */
  lemma AfterOrderIsNoOrder(l: string, s: string, p: UserParameters)
    requires l == LimitText(p.limit) && s == OffsetText(p.skip)
    ensures (l + s == [] || (l + s)[0] == ' ') && !(OrderKeyword <= l + s)
  {
    if l != [] {
      assert (l + s)[1] == 'L';
    } else if s != [] {
      assert (l + s)[2] == 'F';
    }
  }

  /** What follows the LIMIT position starts with a space and is no LIMIT. */
  lemma AfterLimitIsNoLimit(s: string, p: UserParameters)
    requires s == OffsetText(p.skip)
    ensures (s == [] || s[0] == ' ') && !(LimitKeyword <= s)
  {
    if s != [] {
      assert s[1] == 'O';
    }
  }

  /** Running the four clause parses in sequence is running the query parse. */
  lemma ParseQueryInSteps(q: string, body: string, c: Clauses, r1: string, r2: string, r3: string)
    requires q == Base + body
    requires ParseConditions(body, 0) == Some((c.conditions, r1))
    requires ParseOrder(r1) == Some((c.order, r2))
    requires ParseNumber(r2, LimitKeyword) == Some((c.limit, r3))
    requires ParseNumber(r3, OffsetKeyword) == Some((c.offset, []))
    ensures ParseQuery(q) == Some(c)
  {
  }

  /** The ORDER BY, LIMIT and OFFSET parses read back their own clauses. */
  lemma ParseClausesAfterFilter(p: UserParameters, o: string, l: string, s: string)
    requires SafeParameters(p)
    requires o == OrderText(p.sortBy, p.direction) && l == LimitText(p.limit) && s == OffsetText(p.skip)
    ensures ParseOrder(o + (l + s)) == Some((Requested(p).order, l + s))
    ensures ParseNumber(l + s, LimitKeyword) == Some((Requested(p).limit, s))
    ensures ParseNumber(s, OffsetKeyword) == Some((Requested(p).offset, []))
  {
    AfterOrderIsNoOrder(l, s, p);
    ParseOrderText(p.sortBy, p.direction, l + s);
    AfterLimitIsNoLimit(s, p);
    ParseNumberText(LimitKeyword, p.limit, s);
    ParseNumberText(OffsetKeyword, p.skip, []);
    assert s + [] == s;
  }

  /**
   * The parse recovers from the built query exactly the clauses the
   * parameters ask for, in their fixed order, and nothing else.
   */
  lemma ParseBuiltQuery(p: UserParameters)
    requires SafeParameters(p)
    ensures ParseQuery(QueryText(p)) == Some(Requested(p))
  {
    var f, o, l, s := FilterText(p.filter), OrderText(p.sortBy, p.direction), LimitText(p.limit), OffsetText(p.skip);
    Regroup(Base, f, o, l, s);
    AfterFilterIsNoCondition(o, l, s, p);
    ParseFilterText(p.filter, o + (l + s));
    ParseClausesAfterFilter(p, o, l, s);
    ParseQueryInSteps(QueryText(p), f + (o + (l + s)), Requested(p), o + (l + s), l + s, s);
  }

  /** The query depends on the parameters only through what they ask for. */
  lemma QueryTextDependsOnRequested(p1: UserParameters, p2: UserParameters)
    requires Requested(p1) == Requested(p2)
    ensures QueryText(p1) == QueryText(p2)
  {
  }

  /** Two safe parameter bags build the same query exactly when they ask for the same clauses. */
  lemma SameQueryIffSameRequest(p1: UserParameters, p2: UserParameters)
    requires SafeParameters(p1) && SafeParameters(p2)
    ensures QueryText(p1) == QueryText(p2) <==> Requested(p1) == Requested(p2)
  {
    ParseBuiltQuery(p1);
    ParseBuiltQuery(p2);
    if Requested(p1) == Requested(p2) {
      QueryTextDependsOnRequested(p1, p2);
    }
  }

  /**
   * A value holding a quote ends its literal early: one condition whose value
   * smuggles in ` AND b = 'y` builds the same query as two honest conditions.
   */
  lemma QuotedValueInjectsCondition()
    ensures var injected := UserParameters(Some([("a", "x' AND b = 'y")]), None, None, None, None);
      var honest := UserParameters(Some([("a", "x"), ("b", "y")]), None, None, None, None);
      QueryText(injected) == QueryText(honest) && Requested(injected) != Requested(honest)
  {
    InjectedConditionText();
    HonestConditionsText();
  }

  lemma InjectedConditionText()
    ensures WhereText([("a", "x' AND b = 'y")]) == " WHERE a = 'x' AND b = 'y'"
  {
    var one := [("a", "x' AND b = 'y")];
    assert one[..0] == [];
  }

  lemma HonestConditionsText()
    ensures WhereText([("a", "x"), ("b", "y")]) == " WHERE a = 'x' AND b = 'y'"
  {
    var two := [("a", "x"), ("b", "y")];
    assert two[..1] == [("a", "x")] && two[..1][..0] == [];
    assert WhereText(two) == " WHERE a = 'x'" + " AND b = 'y'";
  }
}
