/**
 * The dynamic SELECT that `UserRepository.findAndSort` assembles from its
 * parameters before handing it to the driver. Every optional clause is
 * guarded by a JavaScript truthiness test, and filter values are pasted
 * between single quotes without any escaping.
 */
module UsersQuery {
  import opened Wrappers
  import opened Decimal

  /** One `[column, value]` pair of `Object.entries(parameters.filter)`. */
  type Entry = (string, string)

  /**
   * The `UserParameters` bag. `filter` is the entry sequence of the filter
   * object in the order `Object.entries` yields it; `None` stands for a
   * missing (`undefined` or `null`) field.
   */
  datatype UserParameters = UserParameters(
    filter: Option<seq<Entry>>,
    sortBy: Option<string>,
    direction: Option<string>,
    limit: Option<int>,
    skip: Option<int>)

  const Base: string := "SELECT * FROM users"
  const WhereKeyword: string := " WHERE "
  const AndKeyword: string := " AND "
  const OrderKeyword: string := " ORDER BY "
  const LimitKeyword: string := " LIMIT "
  const OffsetKeyword: string := " OFFSET "

  /** A string field is truthy when present and not the empty string. */
  predicate StringTruthy(s: Option<string>) {
    s.Some? && s.value != ""
  }

  /** A number field is truthy when present and not zero. */
  predicate NumberTruthy(n: Option<int>) {
    n.Some? && n.value != 0
  }

  /** `k = 'v'`: the value between single quotes, unescaped. */
  function Rendered(e: Entry): string {
    e.0 + " = '" + e.1 + "'"
  }

  /** What the reducer appends for the entry at position `index`. */
  function Condition(index: nat, e: Entry): string {
    (if index == 0 then WhereKeyword else AndKeyword) + Rendered(e)
  }

  /** The text the reduce over the entries adds to the accumulator, folded from the left. */
  function WhereText(entries: seq<Entry>): string
  {
    if entries == [] then ""
    else WhereText(entries[..|entries| - 1]) + Condition(|entries| - 1, entries[|entries| - 1])
  }

  function FilterText(filter: Option<seq<Entry>>): string {
    if filter.Some? then WhereText(filter.value) else ""
  }

  function OrderText(sortBy: Option<string>, direction: Option<string>): string {
    if StringTruthy(sortBy) && StringTruthy(direction)
    then OrderKeyword + sortBy.value + " " + direction.value
    else ""
  }

  function LimitText(limit: Option<int>): string {
    if NumberTruthy(limit) then LimitKeyword + IntToString(limit.value) else ""
  }

  function OffsetText(skip: Option<int>): string {
    if NumberTruthy(skip) then OffsetKeyword + IntToString(skip.value) else ""
  }

  /** The query `findAndSort` sends: base, filter, order, limit, offset, in that order. */
  function QueryText(p: UserParameters): string {
    Base + FilterText(p.filter) + OrderText(p.sortBy, p.direction)
      + LimitText(p.limit) + OffsetText(p.skip)
  }

  /**
   * The reduce over the filter's entries: the accumulator starts as the
   * query so far and each entry appends its condition.
   */
  method ReduceEntries(initial: string, entries: seq<Entry>) returns (acc: string)
    ensures acc == initial + WhereText(entries)
  {
    acc := initial;
    var index := 0;
    while index < |entries|
      invariant 0 <= index <= |entries|
      invariant acc == initial + WhereText(entries[..index])
    {
      var (k, v) := entries[index];
      if index == 0 {
        acc := acc + (" WHERE " + k + " = '" + v + "'");
      } else {
        acc := acc + (" AND " + k + " = '" + v + "'");
      }
      assert entries[..index + 1][..index] == entries[..index];
      index := index + 1;
    }
    assert entries[..index] == entries;
  }

  /**
   * The builder as `findAndSort` runs it: a mutable `query` grown by the
   * reducer over the filter entries and then by three guarded appends.
   */
  method BuildFindAndSortQuery(parameters: UserParameters) returns (query: string)
    ensures query == QueryText(parameters)
  {
    query := Base;
    if parameters.filter.Some? {
      query := ReduceEntries(query, parameters.filter.value);
    }
    ghost var sofar := Base + FilterText(parameters.filter);
    assert query == sofar;
    if StringTruthy(parameters.sortBy) && StringTruthy(parameters.direction) {
      query := query + (" ORDER BY " + parameters.sortBy.value + " " + parameters.direction.value);
    }
    sofar := sofar + OrderText(parameters.sortBy, parameters.direction);
    assert query == sofar;
    if NumberTruthy(parameters.limit) {
      query := query + (" LIMIT " + IntToString(parameters.limit.value));
    }
    sofar := sofar + LimitText(parameters.limit);
    assert query == sofar;
    if NumberTruthy(parameters.skip) {
      query := query + (" OFFSET " + IntToString(parameters.skip.value));
    }
  }

  /** Whatever the parameters, the query begins with the fixed base. */
  lemma QueryStartsWithBase(p: UserParameters)
    ensures Base <= QueryText(p)
    ensures QueryText(p)[..|Base|] == "SELECT * FROM users"
  {
  }

  /** Reference rendering of a run of later conditions: ` AND k = 'v'` before each entry. */
  function AndChain(entries: seq<Entry>): string
  {
    if entries == [] then "" else AndKeyword + Rendered(entries[0]) + AndChain(entries[1..])
  }

  lemma {:induction false} AndChainSnoc(entries: seq<Entry>, e: Entry)
    ensures AndChain(entries + [e]) == AndChain(entries) + AndKeyword + Rendered(e)
  {
    if entries != [] {
      assert (entries + [e])[1..] == entries[1..] + [e];
      AndChainSnoc(entries[1..], e);
    }
  }

  /**
   * A missing filter or one with no entries adds nothing; otherwise ` WHERE `
   * stands once, before the first entry, and ` AND ` before each later one,
   * every entry rendered as `k = 'v'` in entry order.
   */
  lemma {:induction false} FilterTextShape(filter: Option<seq<Entry>>)
    ensures filter.None? || filter.value == [] ==> FilterText(filter) == ""
    ensures filter.Some? && filter.value != [] ==>
      FilterText(filter) == WhereKeyword + Rendered(filter.value[0]) + AndChain(filter.value[1..])
  {
    if filter.Some? {
      WhereTextShape(filter.value);
    }
  }

  lemma {:induction false} WhereTextShape(entries: seq<Entry>)
    ensures entries != [] ==>
      WhereText(entries) == WhereKeyword + Rendered(entries[0]) + AndChain(entries[1..])
    decreases |entries|
  {
    if |entries| >= 2 {
      var front, last := entries[..|entries| - 1], entries[|entries| - 1];
      var head := WhereKeyword + Rendered(entries[0]);
      WhereTextShape(front);
      assert front[0] == entries[0];
      assert entries[1..] == front[1..] + [last];
      AndChainSnoc(front[1..], last);
      calc {
        WhereText(entries);
        WhereText(front) + Condition(|entries| - 1, last);
        (head + AndChain(front[1..])) + (AndKeyword + Rendered(last));
        head + (AndChain(front[1..]) + AndKeyword + Rendered(last));
        head + AndChain(entries[1..]);
      }
    } else if |entries| == 1 {
      assert entries[..0] == [];
      assert entries[1..] == [];
    }
  }

  /**
   * JavaScript truthiness: an empty sort column or direction, a zero limit
   * and a zero skip produce exactly the query of a missing field.
   */
  lemma FalsyFieldsAreAbsent(p: UserParameters)
    ensures QueryText(p.(sortBy := Some(""))) == QueryText(p.(sortBy := None))
    ensures QueryText(p.(direction := Some(""))) == QueryText(p.(direction := None))
    ensures QueryText(p.(limit := Some(0))) == QueryText(p.(limit := None))
    ensures QueryText(p.(skip := Some(0))) == QueryText(p.(skip := None))
    ensures QueryText(p.(filter := Some([]))) == QueryText(p.(filter := None))
  {
  }

  /** A column with no direction, or a direction with no column, adds no ORDER BY. */
  lemma OrderNeedsBothFields(p: UserParameters)
    requires !StringTruthy(p.sortBy) || !StringTruthy(p.direction)
    ensures QueryText(p) == Base + FilterText(p.filter) + LimitText(p.limit) + OffsetText(p.skip)
  {
  }

  /**
   * A skip without a limit is still written: the query ends in a bare
   * OFFSET clause, which MySQL refuses without a LIMIT before it.
   */
  lemma OffsetWithoutLimitQuery()
    ensures QueryText(UserParameters(None, None, None, None, Some(1))) == "SELECT * FROM users" + " OFFSET 1"
  {
    assert IntToString(1) == "1";
  }

  /** Filter by role, sort by age ascending, two rows after the first. */
  lemma AdminsByAgeQuery()
    ensures QueryText(UserParameters(Some([("user_role", "admin")]), Some("age"), Some("ASC"), Some(2), Some(1)))
         == "SELECT * FROM users" + " WHERE user_role = 'admin'" + " ORDER BY age ASC" + " LIMIT 2" + " OFFSET 1"
  {
    var entries := [("user_role", "admin")];
    assert entries[..0] == [];
    assert WhereText(entries) == " WHERE user_role = 'admin'";
    assert IntToString(2) == "2" && IntToString(1) == "1";
  }
}
