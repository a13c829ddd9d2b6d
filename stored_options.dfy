/** The stored option-chain tools: the parameterised query over stored
    option contracts (fixed condition fragments, each with one `%s`
    placeholder, and a parallel list of values), the parameters of the
    snapshot listing, the conversion of result rows to JSON-ready values and
    the registration of the tools. Running the SQL is not modelled: the
    model produces the statement and its parameters. */
module StoredOptions {
  import opened Common

  // ---------------------------------------------------------------------------
  // Placeholders

  /** The number of `%s` placeholders in a string. */
  function Placeholders(s: string): nat
  {
    if |s| < 2 then 0
    else (if s[0] == '%' && s[1] == 's' then 1 else 0) + Placeholders(s[1..])
  }

  /** Placeholders of a concatenation: those of each part, plus one if the
      seam itself forms one. */
  lemma {:induction false} PlaceholdersConcat(a: string, b: string)
    ensures Placeholders(a + b) ==
            Placeholders(a) + Placeholders(b) + (if a != [] && b != [] && a[|a| - 1] == '%' && b[0] == 's' then 1 else 0)
  {
    if a == [] {
      assert a + b == b;
    } else if b == [] {
      assert a + b == a;
    } else {
      var c := a + b;
      assert c[1..] == a[1..] + b;
      PlaceholdersConcat(a[1..], b);
      if |a| == 1 {
        assert a[1..] + b == b;
        assert c[0] == a[0] && c[1] == b[0];
      } else {
        assert c[0] == a[0] && c[1] == a[1];
        assert a[1..][|a[1..]| - 1] == a[|a| - 1];
      }
    }
  }

  /** A string without `%` has no placeholder. */
  lemma {:induction false} NoPercentNoPlaceholder(s: string)
    requires '%' !in s
    ensures Placeholders(s) == 0
  {
    if |s| >= 2 {
      assert s[1..][0] == s[1];
      NoPercentNoPlaceholder(s[1..]);
    }
  }

  /** A fixed condition fragment: text without `%` followed by one `%s`. */
  predicate IsFragment(c: string) {
    |c| >= 2 && c[|c| - 2..] == "%s" && '%' !in c[..|c| - 2]
  }

  lemma FragmentHasOnePlaceholder(c: string)
    requires IsFragment(c)
    ensures Placeholders(c) == 1
  {
    var text := c[..|c| - 2];
    assert c == text + "%s";
    NoPercentNoPlaceholder(text);
    PlaceholdersConcat(text, "%s");
    assert Placeholders("%s") == 1 by {
      assert "%s"[1..] == "s";
    }
  }

  const SEPARATOR: string := " AND "

  lemma SeparatorHasNoPlaceholder()
    ensures Placeholders(SEPARATOR) == 0
    ensures SEPARATOR[0] == ' ' && SEPARATOR[|SEPARATOR| - 1] == ' '
  {
    assert '%' !in SEPARATOR;
    NoPercentNoPlaceholder(SEPARATOR);
  }

  /** A fragment followed by the separator still has one placeholder, and
      ends in a space. */
  lemma FragmentThenSeparator(c: string)
    requires IsFragment(c)
    ensures Placeholders(c + SEPARATOR) == 1
    ensures (c + SEPARATOR)[|c + SEPARATOR| - 1] == ' '
  {
    FragmentHasOnePlaceholder(c);
    SeparatorHasNoPlaceholder();
    PlaceholdersConcat(c, SEPARATOR);
  }

  /** Fragments joined with ` AND ` have one placeholder each. */
  lemma {:induction false} JoinedPlaceholders(parts: seq<string>)
    requires forall i :: 0 <= i < |parts| ==> IsFragment(parts[i])
    ensures Placeholders(Join(parts, SEPARATOR)) == |parts|
  {
    if |parts| == 1 {
      FragmentHasOnePlaceholder(parts[0]);
    } else if |parts| > 1 {
      var head := parts[0] + SEPARATOR;
      var rest := Join(parts[1..], SEPARATOR);
      assert Join(parts, SEPARATOR) == head + rest;
      assert forall i :: 0 <= i < |parts[1..]| ==> IsFragment(parts[1..][i]) by {
        forall i | 0 <= i < |parts[1..]| ensures IsFragment(parts[1..][i]) {
          assert parts[1..][i] == parts[i + 1];
        }
      }
      JoinedPlaceholders(parts[1..]);
      FragmentThenSeparator(parts[0]);
      PlaceholdersConcat(head, rest);
    }
  }

  // ---------------------------------------------------------------------------
  // Query parameters

  /** A value bound to a placeholder. */
  datatype Param = Text(text: string) | Number(number: real) | Integer(integer: int)

  /** The optional filters of `query_stored_options`. */
  datatype Filters = Filters(
    putCall: Option<string>,
    strikePrice: Option<real>,
    minStrike: Option<real>,
    maxStrike: Option<real>,
    expirationDate: Option<string>,
    minDelta: Option<real>,
    maxDelta: Option<real>,
    minOpenInterest: Option<int>,
    minVolume: Option<int>)

  /** Python truthiness of an optional string: present and not empty. */
  predicate Truthy(s: Option<string>) {
    s.Some? && s.value != ""
  }

  const PLACEHOLDER: string := "%s"

  /** A test followed by the placeholder is a fragment, and the test is the
      only text that gives that fragment. */
  lemma FragmentOf(test: string)
    requires '%' !in test
    ensures IsFragment(test + PLACEHOLDER)
    ensures forall other :: other + PLACEHOLDER == test + PLACEHOLDER ==> other == test
  {
    var c := test + PLACEHOLDER;
    assert c[..|c| - 2] == test;
    assert c[|c| - 2..] == PLACEHOLDER;
    forall other | other + PLACEHOLDER == test + PLACEHOLDER ensures other == test {
      assert (other + PLACEHOLDER)[..|other|] == other;
    }
  }

  const SYMBOL_TEST: string := "oc.underlying_symbol = "
  const SYMBOL_FRAGMENT: string := SYMBOL_TEST + PLACEHOLDER

  /** The test of each filter, in the order they are tested. */
  const FILTER_TESTS: seq<string> := [
    "oc.put_call = ",
    "oc.strike_price = ",
    "oc.strike_price >= ",
    "oc.strike_price <= ",
    "oc.expiration_date = ",
    "ABS(oc.delta) >= ",
    "ABS(oc.delta) <= ",
    "oc.open_interest >= ",
    "oc.total_volume >= "
  ]

  /** The condition fragment of each filter: its test and one placeholder. */
  const FILTER_FRAGMENTS: seq<string> := [
    FILTER_TESTS[0] + PLACEHOLDER, FILTER_TESTS[1] + PLACEHOLDER, FILTER_TESTS[2] + PLACEHOLDER,
    FILTER_TESTS[3] + PLACEHOLDER, FILTER_TESTS[4] + PLACEHOLDER, FILTER_TESTS[5] + PLACEHOLDER,
    FILTER_TESTS[6] + PLACEHOLDER, FILTER_TESTS[7] + PLACEHOLDER, FILTER_TESTS[8] + PLACEHOLDER
  ]

  lemma TestsAreDistinct()
    ensures forall k :: 0 <= k < |FILTER_TESTS| ==> '%' !in FILTER_TESTS[k]
    ensures forall j, k :: 0 <= j < k < |FILTER_TESTS| ==> FILTER_TESTS[j] != FILTER_TESTS[k]
    ensures SYMBOL_TEST !in FILTER_TESTS && '%' !in SYMBOL_TEST
  {
  }

  /** Every fragment is fixed text with one placeholder, and no two filters
      share a fragment, nor does a filter share the symbol's. */
  lemma FragmentsAreFixed()
    ensures IsFragment(SYMBOL_FRAGMENT)
    ensures forall k :: 0 <= k < |FILTER_FRAGMENTS| ==> IsFragment(FILTER_FRAGMENTS[k])
    ensures forall j, k :: 0 <= j < k < |FILTER_FRAGMENTS| ==> FILTER_FRAGMENTS[j] != FILTER_FRAGMENTS[k]
    ensures SYMBOL_FRAGMENT !in FILTER_FRAGMENTS
  {
    TestsAreDistinct();
    FragmentOf(SYMBOL_TEST);
    assert forall k :: 0 <= k < |FILTER_FRAGMENTS| ==> FILTER_FRAGMENTS[k] == FILTER_TESTS[k] + PLACEHOLDER;
    forall k | 0 <= k < |FILTER_FRAGMENTS|
      ensures IsFragment(FILTER_FRAGMENTS[k]) && FILTER_FRAGMENTS[k] != SYMBOL_FRAGMENT
    {
      FragmentOf(FILTER_TESTS[k]);
    }
    forall j, k | 0 <= j < k < |FILTER_FRAGMENTS| ensures FILTER_FRAGMENTS[j] != FILTER_FRAGMENTS[k] {
      FragmentOf(FILTER_TESTS[k]);
    }
  }

  /** A string filter's value: kept when present and not empty. */
  function TextFilter(s: Option<string>, upper: bool): (r: Option<Param>)
    ensures r.Some? <==> Truthy(s)
    ensures r.Some? ==> r.value == Text(if upper then Upper(s.value) else s.value)
  {
    if Truthy(s) then Some(Text(if upper then Upper(s.value) else s.value)) else None
  }

  /** A numeric filter's value: kept whenever present, zero included. */
  function NumberFilter(x: Option<real>): (r: Option<Param>)
    ensures r.Some? <==> x.Some?
    ensures r.Some? ==> r.value == Number(x.value)
  {
    if x.Some? then Some(Number(x.value)) else None
  }

  function IntegerFilter(x: Option<int>): (r: Option<Param>)
    ensures r.Some? <==> x.Some?
    ensures r.Some? ==> r.value == Integer(x.value)
  {
    if x.Some? then Some(Integer(x.value)) else None
  }

  /** The value each filter contributes, or `None` when it is skipped: the
      string filters are skipped when absent or empty (the put/call filter is
      upper-cased), the numeric ones only when absent, so a zero is kept. */
  function Supplied(f: Filters): (r: seq<Option<Param>>)
    ensures |r| == 9
  {
    [ TextFilter(f.putCall, true), NumberFilter(f.strikePrice), NumberFilter(f.minStrike),
      NumberFilter(f.maxStrike), TextFilter(f.expirationDate, false), NumberFilter(f.minDelta),
      NumberFilter(f.maxDelta), IntegerFilter(f.minOpenInterest), IntegerFilter(f.minVolume) ]
  }

  /** The fragments of the first `n` filters that are supplied, in order. */
  function FragmentsUpTo(supplied: seq<Option<Param>>, n: nat): seq<string>
    requires n <= |supplied| <= |FILTER_FRAGMENTS|
  {
    if n == 0 then []
    else FragmentsUpTo(supplied, n - 1) + (if supplied[n - 1].Some? then [FILTER_FRAGMENTS[n - 1]] else [])
  }

  /** The values of the first `n` filters that are supplied, in order. */
  function ValuesUpTo(supplied: seq<Option<Param>>, n: nat): seq<Param>
    requires n <= |supplied|
  {
    if n == 0 then []
    else ValuesUpTo(supplied, n - 1) + (if supplied[n - 1].Some? then [supplied[n - 1].value] else [])
  }

  /** The conditions and the parameters agree position by position: each
      supplied filter adds its fragment and its value at the same index. */
  lemma {:induction false} FragmentsMatchValues(supplied: seq<Option<Param>>, n: nat)
    requires n <= |supplied| <= |FILTER_FRAGMENTS|
    ensures |FragmentsUpTo(supplied, n)| == |ValuesUpTo(supplied, n)|
    ensures forall i :: 0 <= i < |FragmentsUpTo(supplied, n)| ==>
              exists k :: 0 <= k < n && supplied[k].Some?
                          && FragmentsUpTo(supplied, n)[i] == FILTER_FRAGMENTS[k]
                          && ValuesUpTo(supplied, n)[i] == supplied[k].value
  {
    if n > 0 {
      FragmentsMatchValues(supplied, n - 1);
      var frags := FragmentsUpTo(supplied, n - 1);
      var vals := ValuesUpTo(supplied, n - 1);
      var frs, vls := FragmentsUpTo(supplied, n), ValuesUpTo(supplied, n);
      assert |frags| == |vals|;
      forall i | 0 <= i < |frs|
        ensures exists k :: 0 <= k < n && supplied[k].Some? && frs[i] == FILTER_FRAGMENTS[k] && vls[i] == supplied[k].value
      {
        if i < |frags| {
          assert frs[i] == frags[i] && vls[i] == vals[i];
          var k :| 0 <= k < n - 1 && supplied[k].Some? && frags[i] == FILTER_FRAGMENTS[k] && vals[i] == supplied[k].value;
          assert 0 <= k < n && supplied[k].Some? && frs[i] == FILTER_FRAGMENTS[k] && vls[i] == supplied[k].value;
        } else {
          assert supplied[n - 1].Some? && frs[i] == FILTER_FRAGMENTS[n - 1] && vls[i] == supplied[n - 1].value;
        }
      }
    }
  }

  /** A filter's fragment is among the conditions exactly when it is supplied. */
  lemma {:induction false} FragmentPresentIffSupplied(supplied: seq<Option<Param>>, n: nat, k: nat)
    requires n <= |supplied| <= |FILTER_FRAGMENTS| && k < |FILTER_FRAGMENTS|
    ensures FILTER_FRAGMENTS[k] in FragmentsUpTo(supplied, n) <==> k < n && supplied[k].Some?
  {
    FragmentsAreFixed();
    if n > 0 {
      FragmentPresentIffSupplied(supplied, n - 1, k);
    }
  }

  /** Every condition of the first `n` filters is a fixed fragment. */
  lemma {:induction false} FragmentsUpToAreFixed(supplied: seq<Option<Param>>, n: nat)
    requires n <= |supplied| <= |FILTER_FRAGMENTS|
    ensures forall i :: 0 <= i < |FragmentsUpTo(supplied, n)| ==> IsFragment(FragmentsUpTo(supplied, n)[i])
  {
    FragmentsAreFixed();
    if n > 0 {
      FragmentsUpToAreFixed(supplied, n - 1);
    }
  }

  /** The statement around the joined conditions, in clauses; the selected
      columns are those of `QUERY_COLUMNS`. */
  const SELECT_CLAUSE: string := "SELECT ... "
  const FROM_CLAUSE: string := "FROM option_contracts oc "
  const JOIN_CLAUSE: string := "JOIN option_chain_snapshots s "
  const ON_CLAUSE: string := "ON s.id = oc.snapshot_id WHERE "
  const ORDER_CLAUSE: string := " ORDER BY s.fetch_timestamp DESC, "
  const ORDER_KEYS: string := "oc.expiration_date, oc.strike_price LIMIT "
  const QUERY_HEAD: string := SELECT_CLAUSE + FROM_CLAUSE + JOIN_CLAUSE + ON_CLAUSE
  const QUERY_ORDER: string := ORDER_CLAUSE + ORDER_KEYS
  const QUERY_TAIL: string := QUERY_ORDER + PLACEHOLDER

  function QueryText(where: string): string {
    QUERY_HEAD + where + QUERY_TAIL
  }

  /** Text without `%` in front adds no placeholder. */
  lemma PrefixAddsNone(text: string, rest: string)
    requires '%' !in text
    ensures Placeholders(text + rest) == Placeholders(rest)
  {
    NoPercentNoPlaceholder(text);
    PlaceholdersConcat(text, rest);
  }

  /** Text without `%` that starts with a blank, followed by one `%s`, adds
      exactly that placeholder behind anything. */
  lemma SuffixAddsOne(front: string, text: string)
    requires '%' !in text && text != [] && text[0] == ' '
    ensures Placeholders(front + (text + PLACEHOLDER)) == Placeholders(front) + 1
  {
    NoPercentNoPlaceholder(text);
    PlaceholdersConcat(text, PLACEHOLDER);
    assert Placeholders(PLACEHOLDER) == 1 by {
      assert PLACEHOLDER[1..] == "s";
    }
    assert (text + PLACEHOLDER)[0] == ' ';
    PlaceholdersConcat(front, text + PLACEHOLDER);
  }

  // Each clause is free of `%`; one lemma per clause keeps each proof small.
  lemma SelectHasNoPercent() ensures '%' !in SELECT_CLAUSE {}
  lemma FromHasNoPercent() ensures '%' !in FROM_CLAUSE {}
  lemma JoinHasNoPercent() ensures '%' !in JOIN_CLAUSE {}
  lemma OnHasNoPercent() ensures '%' !in ON_CLAUSE {}
  lemma OrderHasNoPercent() ensures '%' !in ORDER_CLAUSE && ORDER_CLAUSE[0] == ' ' {}
  lemma OrderKeysHaveNoPercent() ensures '%' !in ORDER_KEYS {}

  lemma QueryHeadHasNoPercent()
    ensures '%' !in QUERY_HEAD
  {
    SelectHasNoPercent();
    FromHasNoPercent();
    JoinHasNoPercent();
    OnHasNoPercent();
  }

  /** The text before the conditions holds no placeholder, so it adds none to
      what follows it. */
  lemma QueryHeadAddsNone(where: string)
    ensures Placeholders(QUERY_HEAD + where) == Placeholders(where)
  {
    QueryHeadHasNoPercent();
    PrefixAddsNone(QUERY_HEAD, where);
  }

  /** The text after the conditions holds one placeholder, the limit's, and
      starts with a blank, so it adds exactly that one to what precedes it. */
  lemma QueryTailAddsOne(front: string)
    ensures Placeholders(front + QUERY_TAIL) == Placeholders(front) + 1
  {
    OrderHasNoPercent();
    OrderKeysHaveNoPercent();
    assert QUERY_ORDER[0] == ORDER_CLAUSE[0];
    SuffixAddsOne(front, QUERY_ORDER);
  }

  /** A statement around `where` has one placeholder more than `where`. */
  lemma QueryTextPlaceholders(where: string)
    requires where != []
    ensures Placeholders(QueryText(where)) == Placeholders(where) + 1
  {
    QueryHeadAddsNone(where);
    QueryTailAddsOne(QUERY_HEAD + where);
  }

  /** What `query_stored_options` does: with the placeholder database it
      answers with an error and runs nothing; otherwise it runs one statement
      with its parameters. */
  datatype QueryPlan = NotConfigured(error: string) | Execute(sql: string, params: seq<Param>)

  datatype Database = NoOpDatabase | ConfiguredDatabase

  const NOT_CONFIGURED: string := "Database not configured. Set SCHWAB_DB_* env vars to enable."

  /** One filter test of the query builder: when the filter is supplied, its
      fixed fragment joins the conditions and its value joins the parameters;
      otherwise both stay as they are. */
  method AddFilter(conditions: seq<string>, params: seq<Param>, supplied: seq<Option<Param>>, n: nat)
    returns (conditions': seq<string>, params': seq<Param>)
    requires n < |supplied| <= |FILTER_FRAGMENTS|
    requires |params| >= 1 && conditions == [SYMBOL_FRAGMENT] + FragmentsUpTo(supplied, n)
    requires params == [params[0]] + ValuesUpTo(supplied, n)
    ensures conditions' == [SYMBOL_FRAGMENT] + FragmentsUpTo(supplied, n + 1)
    ensures params' == [params[0]] + ValuesUpTo(supplied, n + 1)
  {
    if supplied[n].Some? {
      conditions' := conditions + [FILTER_FRAGMENTS[n]];
      params' := params + [supplied[n].value];
    } else {
      conditions', params' := conditions, params;
    }
  }

  /** `query_stored_options` up to the call of the database: the symbol
      condition first, then, filter by filter in the order the function
      tests them, one condition and one value per supplied filter, then the
      limit as the last value. Which filters count as supplied is `Supplied`. */
  method QueryStoredOptions(db: Database, symbol: string, f: Filters, limit: int) returns (plan: QueryPlan)
    ensures db.NoOpDatabase? ==> plan == NotConfigured(NOT_CONFIGURED)
    ensures db.ConfiguredDatabase? ==>
              plan == Execute(QueryText(Join([SYMBOL_FRAGMENT] + FragmentsUpTo(Supplied(f), 9), SEPARATOR)),
                              [Text(Upper(symbol))] + ValuesUpTo(Supplied(f), 9) + [Integer(limit)])
  {
    if db.NoOpDatabase? {
      return NotConfigured(NOT_CONFIGURED);
    }
    var supplied := Supplied(f);
    var conditions := [SYMBOL_FRAGMENT];
    var params := [Text(Upper(symbol))];
    conditions, params := AddFilter(conditions, params, supplied, 0);  // put_call
    conditions, params := AddFilter(conditions, params, supplied, 1);  // strike_price
    conditions, params := AddFilter(conditions, params, supplied, 2);  // min_strike
    conditions, params := AddFilter(conditions, params, supplied, 3);  // max_strike
    conditions, params := AddFilter(conditions, params, supplied, 4);  // expiration_date
    conditions, params := AddFilter(conditions, params, supplied, 5);  // min_delta
    conditions, params := AddFilter(conditions, params, supplied, 6);  // max_delta
    conditions, params := AddFilter(conditions, params, supplied, 7);  // min_open_interest
    conditions, params := AddFilter(conditions, params, supplied, 8);  // min_volume
    var where := Join(conditions, SEPARATOR);
    params := params + [Integer(limit)];
    plan := Execute(QueryText(where), params);
  }

  /** The symbol condition and the supplied filters' conditions are all
      fragments. */
  lemma ConditionsAreFragments(supplied: seq<Option<Param>>)
    requires |supplied| == 9
    ensures forall i :: 0 <= i < 1 + |FragmentsUpTo(supplied, 9)| ==>
              IsFragment(([SYMBOL_FRAGMENT] + FragmentsUpTo(supplied, 9))[i])
  {
    var filters := FragmentsUpTo(supplied, 9);
    var conditions := [SYMBOL_FRAGMENT] + filters;
    FragmentsAreFixed();
    FragmentsUpToAreFixed(supplied, 9);
    forall i | 0 <= i < |conditions| ensures IsFragment(conditions[i]) {
      if i > 0 {
        assert conditions[i] == filters[i - 1];
      }
    }
  }

  /** Conditions joined with ` AND ` give a non-empty text with one
      placeholder per condition. */
  lemma WhereOfFragments(conditions: seq<string>)
    requires conditions != [] && forall i :: 0 <= i < |conditions| ==> IsFragment(conditions[i])
    ensures Join(conditions, SEPARATOR) != []
    ensures Placeholders(Join(conditions, SEPARATOR)) == |conditions|
  {
    assert IsFragment(conditions[0]);
    JoinedPlaceholders(conditions);
  }

  /** Every placeholder of the statement has exactly one parameter: one per
      condition, and the limit's, which comes last. */
  lemma QueryPlaceholdersMatchParams(symbol: string, f: Filters, limit: int)
    ensures var conditions := [SYMBOL_FRAGMENT] + FragmentsUpTo(Supplied(f), 9);
            var params := [Text(Upper(symbol))] + ValuesUpTo(Supplied(f), 9) + [Integer(limit)];
            && Placeholders(QueryText(Join(conditions, SEPARATOR))) == |params|
            && params[0] == Text(Upper(symbol)) && params[|params| - 1] == Integer(limit)
            && conditions[0] == SYMBOL_FRAGMENT
  {
    var supplied := Supplied(f);
    ConditionsAreFragments(supplied);
    var conditions := [SYMBOL_FRAGMENT] + FragmentsUpTo(supplied, 9);
    WhereOfFragments(conditions);
    QueryTextPlaceholders(Join(conditions, SEPARATOR));
    FragmentsMatchValues(supplied, 9);
  }

  /** Each filter adds its condition exactly when it is supplied: an empty
      put/call or expiration is skipped, a numeric filter of zero is kept. */
  lemma FilterConditionIffSupplied(f: Filters, k: nat)
    requires k < |FILTER_FRAGMENTS|
    ensures FILTER_FRAGMENTS[k] in FragmentsUpTo(Supplied(f), 9) <==> Supplied(f)[k].Some?
    ensures f.minOpenInterest == Some(0) ==> FILTER_FRAGMENTS[7] in FragmentsUpTo(Supplied(f), 9)
    ensures f.putCall == Some("") ==> FILTER_FRAGMENTS[0] !in FragmentsUpTo(Supplied(f), 9)
  {
    FragmentPresentIffSupplied(Supplied(f), 9, k);
    FragmentPresentIffSupplied(Supplied(f), 9, 7);
    FragmentPresentIffSupplied(Supplied(f), 9, 0);
  }

  /** `list_option_snapshots`: the placeholder database answers with an
      error; otherwise the symbol (upper-cased) and the limit are bound when
      a symbol is given, the limit alone when not. */
  function SnapshotParams(db: Database, symbol: Option<string>, limit: int): (r: Option<seq<Param>>)
    ensures db.NoOpDatabase? <==> r.None?
    ensures db.ConfiguredDatabase? && Truthy(symbol) ==> r == Some([Text(Upper(symbol.value)), Integer(limit)])
    ensures db.ConfiguredDatabase? && !Truthy(symbol) ==> r == Some([Integer(limit)])
  {
    if db.NoOpDatabase? then None
    else if Truthy(symbol) then Some([Text(Upper(symbol.value)), Integer(limit)])
    else Some([Integer(limit)])
  }

  /** `compare_option_snapshots`: the placeholder database answers with an
      error; otherwise the contract symbol, as given, and the limit are
      bound. */
  function CompareParams(db: Database, symbol: string, limit: int): (r: Option<seq<Param>>)
    ensures db.NoOpDatabase? <==> r.None?
    ensures r.Some? ==> |r.value| == 2 && r.value[0] == Text(symbol) && r.value[1] == Integer(limit)
  {
    if db.NoOpDatabase? then None else Some([Text(symbol), Integer(limit)])
  }

  // ---------------------------------------------------------------------------
  // Rows

  type Year = y: int | 1 <= y <= 9999 witness 1
  type Month = m: int | 1 <= m <= 12 witness 1
  type Day = d: int | 1 <= d <= 31 witness 1
  type Hour = h: int | 0 <= h <= 23
  type Minute = m: int | 0 <= m <= 59
  type Microsecond = u: int | 0 <= u <= 999999
  /** A UTC offset in minutes, less than a day either way. */
  type Offset = o: int | -1439 <= o <= 1439

  /** A database value: a date, a date-time (with its UTC offset if it is
      aware), or a value that is already JSON-ready. */
  datatype Value =
    | Date(year: Year, month: Month, day: Day)
    | DateTime(dYear: Year, dMonth: Month, dDay: Day, hour: Hour, minute: Minute, second: Minute,
               microsecond: Microsecond, offset: Option<Offset>)
    | Str(s: string)
    | Num(r: real)
    | Int(i: int)
    | Null

  function Pow10(w: nat): nat {
    if w == 0 then 1 else 10 * Pow10(w - 1)
  }

  function DigitChar(d: nat): (c: char)
    requires d < 10
    ensures '0' <= c <= '9'
  {
    ('0' as int + d) as char
  }

  /** `n` in decimal, zero-padded to `w` digits. */
  function Padded(n: nat, w: nat): (s: string)
    requires n < Pow10(w)
    ensures |s| == w
    ensures forall i :: 0 <= i < |s| ==> '0' <= s[i] <= '9'
  {
    if w == 0 then "" else Padded(n / 10, w - 1) + [DigitChar(n % 10)]
  }

  /** The number a string of decimal digits denotes. */
  function DigitsValue(s: string): nat
    requires forall i :: 0 <= i < |s| ==> '0' <= s[i] <= '9'
  {
    if s == [] then 0 else DigitsValue(s[..|s| - 1]) * 10 + (s[|s| - 1] as int - '0' as int)
  }

  /** Zero-padding loses nothing: reading the digits back gives the number. */
  lemma {:induction false} PaddedRoundTrip(n: nat, w: nat)
    requires n < Pow10(w)
    ensures DigitsValue(Padded(n, w)) == n
  {
    if w > 0 {
      PaddedRoundTrip(n / 10, w - 1);
      var s := Padded(n, w);
      assert s[..|s| - 1] == Padded(n / 10, w - 1);
    }
  }

  /** `date.isoformat()`: `YYYY-MM-DD`. */
  function IsoDate(year: Year, month: Month, day: Day): (s: string)
    ensures |s| == 10 && s[4] == '-' && s[7] == '-'
  {
    Padded(year, 4) + "-" + Padded(month, 2) + "-" + Padded(day, 2)
  }

  /** Reading a `YYYY-MM-DD` string back, as `date.fromisoformat` does for
      this form. */
  function ParseIsoDate(s: string): Option<(int, int, int)>
  {
    if |s| == 10 && s[4] == '-' && s[7] == '-'
       && (forall i :: 0 <= i < 10 && i != 4 && i != 7 ==> '0' <= s[i] <= '9')
    then Some((DigitsValue(s[..4]), DigitsValue(s[5..7]), DigitsValue(s[8..])))
    else None
  }

  /** A serialised date reads back as the same date. */
  lemma IsoDateRoundTrip(year: Year, month: Month, day: Day)
    ensures ParseIsoDate(IsoDate(year, month, day)) == Some((year as int, month as int, day as int))
  {
    var s := IsoDate(year, month, day);
    assert s[..4] == Padded(year, 4);
    assert s[5..7] == Padded(month, 2);
    assert s[8..] == Padded(day, 2);
    PaddedRoundTrip(year, 4);
    PaddedRoundTrip(month, 2);
    PaddedRoundTrip(day, 2);
  }

  /** The `+HH:MM` / `-HH:MM` suffix of an aware date-time. */
  function OffsetText(offset: Offset): (s: string)
    ensures |s| == 6
  {
    var magnitude := if offset < 0 then -offset else offset;
    (if offset < 0 then "-" else "+") + Padded(magnitude / 60, 2) + ":" + Padded(magnitude % 60, 2)
  }

  /** `datetime.isoformat()`: the date, `T`, the time to the second, the
      microseconds when non-zero, and the UTC offset when aware. */
  function IsoDateTime(v: Value): (s: string)
    requires v.DateTime?
    ensures IsoDate(v.dYear, v.dMonth, v.dDay) + "T" <= s
    ensures |s| == 19 + (if v.microsecond != 0 then 7 else 0) + (if v.offset.Some? then 6 else 0)
  {
    IsoDate(v.dYear, v.dMonth, v.dDay) + "T"
    + Padded(v.hour, 2) + ":" + Padded(v.minute, 2) + ":" + Padded(v.second, 2)
    + (if v.microsecond != 0 then "." + Padded(v.microsecond, 6) else "")
    + (if v.offset.Some? then OffsetText(v.offset.value) else "")
  }

  /** The date part of a serialised date-time reads back as its date. */
  lemma IsoDateTimeKeepsDate(v: Value)
    requires v.DateTime?
    ensures ParseIsoDate(IsoDateTime(v)[..10]) == Some((v.dYear as int, v.dMonth as int, v.dDay as int))
  {
    var date := IsoDate(v.dYear, v.dMonth, v.dDay);
    assert IsoDateTime(v)[..10] == date by {
      assert date + "T" <= IsoDateTime(v);
      assert (date + "T")[..10] == date;
    }
    IsoDateRoundTrip(v.dYear, v.dMonth, v.dDay);
  }

  /** A value is JSON-ready when it is neither a date nor a date-time. */
  predicate JsonReady(v: Value) {
    !v.Date? && !v.DateTime?
  }

  /** One value of `_serialize_row`: dates and date-times become their ISO
      text, every other value stays as it is. */
  function SerializeValue(v: Value): (r: Value)
    ensures JsonReady(r)
    ensures JsonReady(v) ==> r == v
    ensures v.Date? ==> r == Str(IsoDate(v.year, v.month, v.day))
    ensures v.DateTime? ==> r.Str? && IsoDate(v.dYear, v.dMonth, v.dDay) + "T" <= r.s
  {
    match v
    case Date(y, m, d) => Str(IsoDate(y, m, d))
    case DateTime(_, _, _, _, _, _, _, _) => Str(IsoDateTime(v))
    case _ => v
  }

  /** `_serialize_row`: the row, value by value, with dates and date-times
      turned into ISO text; the result has the row's length. */
  method SerializeRow(row: seq<Value>) returns (result: seq<Value>)
    ensures |result| == |row|
    ensures forall i :: 0 <= i < |row| ==> result[i] == SerializeValue(row[i])
  {
    result := [];
    for i := 0 to |row|
      invariant |result| == i
      invariant forall k :: 0 <= k < i ==> result[k] == SerializeValue(row[k])
    {
      var val := row[i];
      if val.Date? {
        result := result + [Str(IsoDate(val.year, val.month, val.day))];
      } else if val.DateTime? {
        result := result + [Str(IsoDateTime(val))];
      } else {
        result := result + [val];
      }
    }
  }

  /** A serialised row is JSON-ready, and serialising it again changes
      nothing; a value that was JSON-ready already is kept as it was. */
  lemma SerializeIdempotent(row: seq<Value>)
    ensures forall i :: 0 <= i < |row| ==> JsonReady(SerializeValue(row[i]))
    ensures forall i :: 0 <= i < |row| ==> SerializeValue(SerializeValue(row[i])) == SerializeValue(row[i])
  {
  }

  const QUERY_COLUMNS: seq<string> := [
    "fetch_timestamp", "underlying_price", "put_call", "symbol", "expiration_date", "strike_price",
    "bid", "ask", "last", "mark", "total_volume", "open_interest", "delta", "gamma", "theta", "vega",
    "volatility"
  ]

  /** Columns paired with values of the same number, a later column
      overriding an earlier one of the same name. */
  function PairUp(columns: seq<string>, values: seq<Value>): (r: map<string, Value>)
    requires |columns| == |values|
    ensures forall c :: c in r <==> c in columns
  {
    if columns == [] then map[]
    else
      var n := |columns|;
      var init := PairUp(columns[..n - 1], values[..n - 1]);
      assert forall c :: c in columns <==> c in columns[..n - 1] || c == columns[n - 1] by {
        assert columns == columns[..n - 1] + [columns[n - 1]];
      }
      init[columns[n - 1] := values[n - 1]]
  }

  /** `dict(zip(columns, values))`: the pairs up to the shorter of the two. */
  function ZipRecord(columns: seq<string>, values: seq<Value>): (r: map<string, Value>)
    ensures var n := if |columns| < |values| then |columns| else |values|;
            forall c :: c in r <==> c in columns[..n]
  {
    var n := if |columns| < |values| then |columns| else |values|;
    PairUp(columns[..n], values[..n])
  }

  /** With distinct columns every column maps to its own value. */
  lemma {:induction false} PairUpExact(columns: seq<string>, values: seq<Value>)
    requires |columns| == |values| && Distinct(columns)
    ensures forall i :: 0 <= i < |columns| ==> PairUp(columns, values)[columns[i]] == values[i]
  {
    if columns != [] {
      var n := |columns|;
      var cs, vs := columns[..n - 1], values[..n - 1];
      assert Distinct(cs) by {
        forall i, j | 0 <= i < j < |cs| ensures cs[i] != cs[j] {
          assert cs[i] == columns[i] && cs[j] == columns[j];
        }
      }
      PairUpExact(cs, vs);
      forall i | 0 <= i < n ensures PairUp(columns, values)[columns[i]] == values[i] {
        if i < n - 1 {
          assert cs[i] == columns[i] && vs[i] == values[i];
        }
        LastOverrides(columns, values, i);
      }
    }
  }

  /** The last pair overrides; an earlier, different column keeps the value
      it had before. */
  lemma LastOverrides(columns: seq<string>, values: seq<Value>, i: nat)
    requires |columns| == |values| && 0 <= i < |columns| && Distinct(columns)
    requires var n := |columns|;
             i < n - 1 ==> PairUp(columns[..n - 1], values[..n - 1])[columns[i]] == values[i]
    ensures PairUp(columns, values)[columns[i]] == values[i]
  {
    var n := |columns|;
    if i < n - 1 {
      assert columns[i] != columns[n - 1];
    }
  }

  /** With distinct columns and one value per column, every column maps to
      its own value. */
  lemma ZipRecordExact(columns: seq<string>, values: seq<Value>)
    requires |columns| == |values| && Distinct(columns)
    ensures forall i :: 0 <= i < |columns| ==> ZipRecord(columns, values)[columns[i]] == values[i]
  {
    assert columns[..|columns|] == columns && values[..|values|] == values;
    PairUpExact(columns, values);
  }

  lemma QueryColumnsDistinct()
    ensures Distinct(QUERY_COLUMNS)
  {
  }

  /** Every row of `query_stored_options` has one value per selected column,
      so its record maps each column to that column's value. */
  lemma QueryRecordHasEveryColumn(row: seq<Value>)
    requires |row| == |QUERY_COLUMNS|
    ensures forall i :: 0 <= i < |QUERY_COLUMNS| ==> ZipRecord(QUERY_COLUMNS, row)[QUERY_COLUMNS[i]] == row[i]
  {
    QueryColumnsDistinct();
    ZipRecordExact(QUERY_COLUMNS, row);
  }

  /** The three read-only tools, all registered whatever `allow_write` says. */
  const STORED_OPTION_TOOLS: seq<string> := ["query_stored_options", "list_option_snapshots", "compare_option_snapshots"]

  function Register(allowWrite: bool): (r: seq<string>)
    ensures r == STORED_OPTION_TOOLS
  {
    STORED_OPTION_TOOLS
  }
}
