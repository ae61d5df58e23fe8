/**
 * The period reports (`bao_cao_thang`, `bao_cao_quy`, `bao_cao_nam`): totals
 * over the records of one calendar month, quarter or year. The reports are
 * returned as values; the printed layout is not modelled.
 */
module Reports {
  import opened Dates
  import opened Records

  /** The period a report covers. */
  datatype Period = Month(month: int, year: int) | Quarter(quarter: int, year: int) | Year(year: int)

  /** The month of the first and the last month of a quarter (`thang_dau`, `thang_cuoi`). */
  function QuarterFirstMonth(q: int): int { (q - 1) * 3 + 1 }
  function QuarterLastMonth(q: int): int { q * 3 }

  /** Whether a record falls in a period, tested as the report loops test it. */
  predicate InPeriod(r: Rec, p: Period) {
    match p
    case Month(m, y) => r.createdAt.month == m && r.createdAt.year == y
    case Quarter(q, y) => QuarterFirstMonth(q) <= r.createdAt.month <= QuarterLastMonth(q) && r.createdAt.year == y
    case Year(y) => r.createdAt.year == y
  }

  /** Revenue, cost and number of transactions (`so_giao_dich`). */
  datatype Totals = Totals(revenue: int, cost: int, count: nat)

  function Zero(): Totals { Totals(0, 0, 0) }

  function Plus(a: Totals, b: Totals): Totals {
    Totals(a.revenue + b.revenue, a.cost + b.cost, a.count + b.count)
  }

  /** The contribution of one record. */
  function One(r: Rec): Totals {
    Totals(r.revenue, r.cost, 1)
  }

  /** The totals over the records of `s` in period `p`, accumulated from the first record on. */
  function Tally(s: seq<Rec>, p: Period): Totals
  {
    if s == [] then Zero()
    else
      var t := Tally(s[..|s| - 1], p);
      if InPeriod(s[|s| - 1], p) then Plus(t, One(s[|s| - 1])) else t
  }

  /** The records of `s` in period `p`, in ledger order. */
  function Filter(s: seq<Rec>, p: Period): seq<Rec>
  {
    if s == [] then []
    else Filter(s[..|s| - 1], p) + (if InPeriod(s[|s| - 1], p) then [s[|s| - 1]] else [])
  }

  /** Exactly the records of the period survive the filter. */
  lemma {:induction false} FilterMembers(s: seq<Rec>, p: Period)
    ensures forall r :: r in Filter(s, p) <==> r in s && InPeriod(r, p)
  {
    if s != [] {
      var s' := s[..|s| - 1];
      FilterMembers(s', p);
      assert s == s' + [s[|s| - 1]];
    }
  }

  /** The filter keeps every record of the period as often as the ledger holds
      it, and no other record. */
  lemma {:induction false} FilterCounts(s: seq<Rec>, p: Period)
    ensures forall r :: multiset(Filter(s, p))[r] == if InPeriod(r, p) then multiset(s)[r] else 0
  {
    if s != [] {
      var s', x := s[..|s| - 1], s[|s| - 1];
      FilterCounts(s', p);
      assert s == s' + [x];
      assert multiset(s) == multiset(s') + multiset{x};
      assert multiset(Filter(s, p)) == multiset(Filter(s', p)) + if InPeriod(x, p) then multiset{x} else multiset{};
    }
  }

  /** A report's totals are the sums of `total_revenue` and `total_cost` over
      exactly the records of its period, and its count is how many there are. */
  lemma {:induction false} TallyIsSumOverPeriod(s: seq<Rec>, p: Period)
    ensures Tally(s, p) == Totals(SumRevenue(Filter(s, p)), SumCost(Filter(s, p)), |Filter(s, p)|)
  {
    if s != [] {
      var s' := s[..|s| - 1];
      TallyIsSumOverPeriod(s', p);
      var f' := Filter(s', p);
      if InPeriod(s[|s| - 1], p) {
        assert (f' + [s[|s| - 1]])[..|f'|] == f';
      } else {
        assert f' + [] == f';
      }
    }
  }

  /** Tally of a ledger extended by one record. */
  lemma TallySnoc(s: seq<Rec>, r: Rec, p: Period)
    ensures Tally(s + [r], p) == if InPeriod(r, p) then Plus(Tally(s, p), One(r)) else Tally(s, p)
  {
    assert (s + [r])[..|s|] == s;
  }

  /** A quarter is its three months. */
  lemma {:induction false} QuarterIsThreeMonths(s: seq<Rec>, q: int, y: int)
    ensures Tally(s, Quarter(q, y))
            == Plus(Plus(Tally(s, Month(3 * q - 2, y)), Tally(s, Month(3 * q - 1, y))), Tally(s, Month(3 * q, y)))
  {
    if s != [] {
      var s', r := s[..|s| - 1], s[|s| - 1];
      QuarterIsThreeMonths(s', q, y);
      var a, b, c := Month(3 * q - 2, y), Month(3 * q - 1, y), Month(3 * q, y);
      var ta, tb, tc := Tally(s', a), Tally(s', b), Tally(s', c);
      var tq := Tally(s', Quarter(q, y));
      assert tq == Plus(Plus(ta, tb), tc);
      assert QuarterFirstMonth(q) == 3 * q - 2 && QuarterLastMonth(q) == 3 * q;
      var m := r.createdAt.month;
      if r.createdAt.year != y || m < 3 * q - 2 || m > 3 * q {
        assert Tally(s, Quarter(q, y)) == tq;
        assert Tally(s, a) == ta && Tally(s, b) == tb && Tally(s, c) == tc;
      } else if m == 3 * q - 2 {
        assert Tally(s, Quarter(q, y)) == Plus(tq, One(r));
        assert Tally(s, a) == Plus(ta, One(r)) && Tally(s, b) == tb && Tally(s, c) == tc;
      } else if m == 3 * q - 1 {
        assert Tally(s, Quarter(q, y)) == Plus(tq, One(r));
        assert Tally(s, a) == ta && Tally(s, b) == Plus(tb, One(r)) && Tally(s, c) == tc;
      } else {
        assert Tally(s, Quarter(q, y)) == Plus(tq, One(r));
        assert Tally(s, a) == ta && Tally(s, b) == tb && Tally(s, c) == Plus(tc, One(r));
      }
    }
  }

  /** For a quarter in 1..4, the quarter test is the usual quarter of the month. */
  lemma QuarterOfMonth(m: MonthNum, q: int)
    requires 1 <= q <= 4
    ensures QuarterFirstMonth(q) <= m <= QuarterLastMonth(q) <==> (m - 1) / 3 + 1 == q
  {
  }

  /** A quarter outside 1..4 selects no record at all: the report is empty. */
  lemma {:induction false} QuarterOutOfRangeIsEmpty(s: seq<Rec>, q: int, y: int)
    requires q < 1 || q > 4
    ensures Tally(s, Quarter(q, y)) == Zero()
  {
    if s != [] {
      QuarterOutOfRangeIsEmpty(s[..|s| - 1], q, y);
    }
  }

  /** What a report states besides its breakdown. */
  datatype Summary = Summary(revenue: int, cost: int, profit: int, count: nat, showsMargin: bool)

  /** `s` reports totals `t`: profit is revenue minus cost, and the margin line
      is present exactly when revenue is positive. */
  predicate Describes(s: Summary, t: Totals) {
    && s.revenue == t.revenue && s.cost == t.cost && s.count == t.count
    && s.profit == t.revenue - t.cost
    && (s.showsMargin <==> t.revenue > 0)
  }

  /** `bao_cao_thang`. */
  method MonthReport(data: seq<Rec>, month: int, year: int) returns (s: Summary)
    ensures Describes(s, Tally(data, Month(month, year)))
  {
    var revenue, cost, count := 0, 0, 0;
    for i := 0 to |data|
      invariant Totals(revenue, cost, count) == Tally(data[..i], Month(month, year))
    {
      assert data[..i + 1][..i] == data[..i];
      var item := data[i];
      if item.createdAt.month == month && item.createdAt.year == year {
        revenue := revenue + item.revenue;
        cost := cost + item.cost;
        count := count + 1;
      }
    }
    assert data[..|data|] == data;
    var profit := revenue - cost;
    s := Summary(revenue, cost, profit, count, revenue > 0);
  }

  /** `bao_cao_quy`. */
  method QuarterReport(data: seq<Rec>, quarter: int, year: int) returns (s: Summary)
    ensures Describes(s, Tally(data, Quarter(quarter, year)))
  {
    var first := (quarter - 1) * 3 + 1;
    var last := quarter * 3;
    var revenue, cost, count := 0, 0, 0;
    for i := 0 to |data|
      invariant Totals(revenue, cost, count) == Tally(data[..i], Quarter(quarter, year))
    {
      assert data[..i + 1][..i] == data[..i];
      var item := data[i];
      if first <= item.createdAt.month <= last && item.createdAt.year == year {
        revenue := revenue + item.revenue;
        cost := cost + item.cost;
        count := count + 1;
      }
    }
    assert data[..|data|] == data;
    var profit := revenue - cost;
    s := Summary(revenue, cost, profit, count, revenue > 0);
  }

  /** One line of the per-month breakdown: month, revenue, cost, profit, transactions. */
  datatype MonthRow = MonthRow(month: int, revenue: int, cost: int, profit: int, count: nat)

  /** `row` is the breakdown line for totals `t`. */
  predicate RowOf(row: MonthRow, t: Totals) {
    row.revenue == t.revenue && row.cost == t.cost && row.count == t.count
    && row.profit == t.revenue - t.cost
  }

  /** The year report: its summary, the per-month dictionary (`bao_cao_thang_data`)
      and its lines in the order they are emitted. */
  datatype YearlyReport = YearlyReport(summary: Summary, byMonth: map<int, Totals>, rows: seq<MonthRow>)

  /** The months that occur among the records of year `y`. */
  ghost function MonthsIn(s: seq<Rec>, y: int): set<int> {
    set r | r in s && r.createdAt.year == y :: r.createdAt.month as int
  }

  /** The per-month dictionary: a key for each month present in year `y`,
      holding that month's totals. */
  ghost function Breakdown(s: seq<Rec>, y: int): map<int, Totals> {
    map m | m in MonthsIn(s, y) :: Tally(s, Month(m, y))
  }

  /** A month with no record in the ledger tallies to nothing. */
  lemma {:induction false} AbsentMonthIsZero(s: seq<Rec>, m: int, y: int)
    requires m !in MonthsIn(s, y)
    ensures Tally(s, Month(m, y)) == Zero()
  {
    if s != [] {
      var s' := s[..|s| - 1];
      assert MonthsIn(s', y) <= MonthsIn(s, y);
      AbsentMonthIsZero(s', m, y);
    }
  }

  /** How one more record changes the per-month dictionary: its month gets a
      key, starting from zero, and the record's amounts are added to it. */
  lemma BreakdownSnoc(s: seq<Rec>, r: Rec, y: int)
    ensures var b := Breakdown(s, y);
            var m := r.createdAt.month as int;
            Breakdown(s + [r], y)
            == if r.createdAt.year == y
               then b[m := Plus(if m in b then b[m] else Zero(), One(r))]
               else b
  {
    var b, b' := Breakdown(s, y), Breakdown(s + [r], y);
    var m := r.createdAt.month as int;
    if r.createdAt.year == y {
      assert MonthsIn(s + [r], y) == MonthsIn(s, y) + {m};
      if m !in b {
        AbsentMonthIsZero(s, m, y);
      }
      forall k | k in b'
        ensures b'[k] == b[m := Plus(if m in b then b[m] else Zero(), One(r))][k]
      {
        TallySnoc(s, r, Month(k, y));
      }
    } else {
      assert MonthsIn(s + [r], y) == MonthsIn(s, y);
      forall k | k in b' ensures b'[k] == b[k] {
        TallySnoc(s, r, Month(k, y));
      }
    }
  }

  /** The per-month dictionary as the loop fills it, one record after the other. */
  function Accumulate(s: seq<Rec>, y: int): map<int, Totals> {
    if s == [] then map[]
    else
      var b := Accumulate(s[..|s| - 1], y);
      var r := s[|s| - 1];
      var m := r.createdAt.month as int;
      if r.createdAt.year == y then b[m := Plus(if m in b then b[m] else Zero(), One(r))] else b
  }

  /** One more record: the loop's step on the dictionary. */
  lemma AccumulateSnoc(s: seq<Rec>, r: Rec, y: int)
    ensures var b := Accumulate(s, y);
            var m := r.createdAt.month as int;
            Accumulate(s + [r], y)
            == if r.createdAt.year == y then b[m := Plus(if m in b then b[m] else Zero(), One(r))] else b
  {
    assert (s + [r])[..|s|] == s;
  }

  /** Filling the dictionary record by record yields the breakdown. */
  lemma {:induction false} AccumulateIsBreakdown(s: seq<Rec>, y: int)
    ensures Accumulate(s, y) == Breakdown(s, y)
  {
    if s == [] {
      assert MonthsIn(s, y) == {};
    } else {
      var s' := s[..|s| - 1];
      AccumulateIsBreakdown(s', y);
      assert s == s' + [s[|s| - 1]];
      BreakdownSnoc(s', s[|s| - 1], y);
    }
  }

  /** The totals of the months `ks`, added from the first to the last. */
  ghost function SumOver(ks: seq<int>, s: seq<Rec>, y: int): Totals {
    if ks == [] then Zero()
    else Plus(SumOver(ks[..|ks| - 1], s, y), Tally(s, Month(ks[|ks| - 1], y)))
  }

  /** The totals of the breakdown lines, added from the first to the last. */
  function RowsTotal(rows: seq<MonthRow>): Totals {
    if rows == [] then Zero()
    else
      var row := rows[|rows| - 1];
      Plus(RowsTotal(rows[..|rows| - 1]), Totals(row.revenue, row.cost, row.count))
  }

  predicate Distinct(ks: seq<int>) {
    forall i, j :: 0 <= i < j < |ks| ==> ks[i] != ks[j]
  }

  lemma {:induction false} SumOverEmpty(ks: seq<int>, s: seq<Rec>, y: int)
    requires s == []
    ensures SumOver(ks, s, y) == Zero()
  {
    if ks != [] {
      SumOverEmpty(ks[..|ks| - 1], s, y);
      assert Tally(s, Month(ks[|ks| - 1], y)) == Zero();
    }
  }

  /** A distinct sequence without its last element is distinct and lacks that element. */
  lemma DistinctSplit(ks: seq<int>)
    requires Distinct(ks) && ks != []
    ensures Distinct(ks[..|ks| - 1]) && ks[|ks| - 1] !in ks[..|ks| - 1]
  {
  }

  /** What one record contributes to the months `ks`. */
  function Contribution(ks: seq<int>, r: Rec, y: int): Totals {
    if r.createdAt.year == y && r.createdAt.month as int in ks then One(r) else Zero()
  }

  /** One more record adds to the months `ks` exactly once, when its month is among them. */
  lemma {:induction false} SumOverSnoc(ks: seq<int>, s: seq<Rec>, r: Rec, y: int)
    requires Distinct(ks)
    ensures SumOver(ks, s + [r], y) == Plus(SumOver(ks, s, y), Contribution(ks, r, y))
  {
    if ks != [] {
      var ks', k := ks[..|ks| - 1], ks[|ks| - 1];
      DistinctSplit(ks);
      SumOverSnoc(ks', s, r, y);
      TallySnoc(s, r, Month(k, y));
      assert ks == ks' + [k];
      var m := r.createdAt.month as int;
      assert m in ks <==> m in ks' || m == k;
      var old', new' := Tally(s, Month(k, y)), Tally(s + [r], Month(k, y));
      var rest := SumOver(ks', s, y);
      assert SumOver(ks, s, y) == Plus(rest, old');
      assert SumOver(ks, s + [r], y) == Plus(Plus(rest, Contribution(ks', r, y)), new');
      if r.createdAt.year == y && m == k {
        assert Contribution(ks', r, y) == Zero() && new' == Plus(old', One(r));
      } else {
        assert Contribution(ks', r, y) == Contribution(ks, r, y) && new' == old';
      }
    }
  }

  /** The months of a year, each taken once and all present, add up to the year. */
  lemma {:induction false} YearIsSumOfMonths(ks: seq<int>, s: seq<Rec>, y: int)
    requires Distinct(ks)
    requires forall r :: r in s && r.createdAt.year == y ==> r.createdAt.month as int in ks
    ensures SumOver(ks, s, y) == Tally(s, Year(y))
  {
    if s == [] {
      SumOverEmpty(ks, s, y);
    } else {
      var s', r := s[..|s| - 1], s[|s| - 1];
      assert s == s' + [r];
      YearIsSumOfMonths(ks, s', y);
      SumOverSnoc(ks, s', r, y);
      TallySnoc(s', r, Year(y));
      assert Contribution(ks, r, y) == if r.createdAt.year == y then One(r) else Zero();
    }
  }

  predicate Ascending(xs: seq<int>) {
    forall j, k :: 0 <= j < k < |xs| ==> xs[j] <= xs[k]
  }

  predicate StrictlyAscending(xs: seq<int>) {
    forall j, k :: 0 <= j < k < |xs| ==> xs[j] < xs[k]
  }

  /** `x` put into the ascending sequence `xs` in front of the first element not below it. */
  function Insert(x: int, xs: seq<int>): (r: seq<int>)
    ensures |r| == |xs| + 1
    ensures forall m :: m in r <==> m == x || m in xs
    ensures Ascending(xs) ==> Ascending(r)
    ensures StrictlyAscending(xs) && x !in xs ==> StrictlyAscending(r)
    ensures multiset(r) == multiset(xs) + multiset{x}
  {
    if xs == [] then [x]
    else if x <= xs[0] then ConsFront(x, xs); [x] + xs
    else
      var rest := Insert(x, xs[1..]);
      InsertStep(x, xs, rest);
      [xs[0]] + rest
  }

  /** The step of `Insert` past the head of `xs`, given what the recursive call promises. */
  lemma InsertStep(x: int, xs: seq<int>, rest: seq<int>)
    requires xs != [] && xs[0] < x
    requires |rest| == |xs| && multiset(rest) == multiset(xs[1..]) + multiset{x}
    requires forall m :: m in rest <==> m == x || m in xs[1..]
    requires Ascending(xs[1..]) ==> Ascending(rest)
    requires StrictlyAscending(xs[1..]) && x !in xs[1..] ==> StrictlyAscending(rest)
    ensures var r := [xs[0]] + rest;
            && |r| == |xs| + 1
            && (forall m :: m in r <==> m == x || m in xs)
            && (Ascending(xs) ==> Ascending(r))
            && (StrictlyAscending(xs) && x !in xs ==> StrictlyAscending(r))
            && multiset(r) == multiset(xs) + multiset{x}
  {
    assert xs == [xs[0]] + xs[1..];
    ConsOrdered(xs, x, rest);
  }

  /** An element not above the head of `xs` can go in front of it. */
  lemma ConsFront(x: int, xs: seq<int>)
    requires xs != [] && x <= xs[0]
    ensures forall m :: m in [x] + xs <==> m == x || m in xs
    ensures Ascending(xs) ==> Ascending([x] + xs)
    ensures StrictlyAscending(xs) && x !in xs ==> StrictlyAscending([x] + xs)
  {
    var r := [x] + xs;
    if Ascending(xs) {
      forall j, k | 0 <= j < k < |r| ensures r[j] <= r[k] {
        assert r[k] == xs[k - 1];
        if j > 0 { assert r[j] == xs[j - 1]; }
      }
    }
    if StrictlyAscending(xs) && x !in xs {
      assert x != xs[0];
      forall j, k | 0 <= j < k < |r| ensures r[j] < r[k] {
        assert r[k] == xs[k - 1];
        if j > 0 { assert r[j] == xs[j - 1]; }
      }
    }
  }

  /** Putting the head of `xs` in front of a sequence whose elements are `x`
      (above that head) or later elements of `xs` keeps the order. */
  lemma ConsOrdered(xs: seq<int>, x: int, rest: seq<int>)
    requires xs != [] && xs[0] < x
    requires forall m :: m in rest ==> m == x || m in xs[1..]
    ensures Ascending(xs) && Ascending(rest) ==> Ascending([xs[0]] + rest)
    ensures StrictlyAscending(xs) && StrictlyAscending(rest) ==> StrictlyAscending([xs[0]] + rest)
  {
    var r := [xs[0]] + rest;
    if Ascending(xs) && Ascending(rest) {
      forall j, k | 0 <= j < k < |r| ensures r[j] <= r[k] {
        if j == 0 {
          assert r[k] == rest[k - 1] && rest[k - 1] in rest;
        } else {
          assert r[j] == rest[j - 1] && r[k] == rest[k - 1];
        }
      }
    }
    if StrictlyAscending(xs) && StrictlyAscending(rest) {
      forall j, k | 0 <= j < k < |r| ensures r[j] < r[k] {
        if j == 0 {
          assert r[k] == rest[k - 1] && rest[k - 1] in rest;
        } else {
          assert r[j] == rest[j - 1] && r[k] == rest[k - 1];
        }
      }
    }
  }

  /** `sorted(keys)`: the same keys in ascending order; distinct keys come out
      strictly ascending. */
  function SortAscending(xs: seq<int>): (r: seq<int>)
    ensures |r| == |xs|
    ensures forall m :: m in r <==> m in xs
    ensures Ascending(r)
    ensures Distinct(xs) ==> StrictlyAscending(r)
    ensures multiset(r) == multiset(xs)
  {
    if xs == [] then []
    else
      var prefix := xs[..|xs| - 1];
      assert Distinct(xs) ==> Distinct(prefix) && xs[|xs| - 1] !in prefix;
      assert xs == prefix + [xs[|xs| - 1]];
      assert forall m :: m in xs <==> m in prefix || m == xs[|xs| - 1];
      Insert(xs[|xs| - 1], SortAscending(prefix))
  }

  lemma StrictlyAscendingIsDistinct(xs: seq<int>)
    requires StrictlyAscending(xs)
    ensures Distinct(xs)
  {
  }

  /** The sorted keys of a dictionary are strictly ascending and are its keys. */
  lemma SortedKeys(keys: seq<int>, byMonth: map<int, Totals>)
    requires Distinct(keys) && forall m :: m in keys <==> m in byMonth
    ensures var months := SortAscending(keys);
            && StrictlyAscending(months)
            && (forall m :: m in months <==> m in byMonth)
            && forall k :: 0 <= k < |months| ==> months[k] in byMonth
  {
    var months := SortAscending(keys);
    forall k | 0 <= k < |months| ensures months[k] in byMonth {
      assert months[k] in months;
    }
  }

  /** `bao_cao_nam`. */
  method YearReport(data: seq<Rec>, year: int) returns (rep: YearlyReport)
    ensures Describes(rep.summary, Tally(data, Year(year)))
    ensures rep.byMonth == Breakdown(data, year)
    ensures forall j, k :: 0 <= j < k < |rep.rows| ==> rep.rows[j].month < rep.rows[k].month
    ensures forall j :: 0 <= j < |rep.rows| ==>
              rep.rows[j].month in rep.byMonth && RowOf(rep.rows[j], rep.byMonth[rep.rows[j].month])
    ensures forall m :: m in rep.byMonth ==> exists j :: 0 <= j < |rep.rows| && rep.rows[j].month == m
    ensures RowsTotal(rep.rows) == Tally(data, Year(year))
  {
    var totals, byMonth, keys := Aggregate(data, year);
    var summary := Summary(totals.revenue, totals.cost, totals.revenue - totals.cost, totals.count, totals.revenue > 0);
    var months := SortAscending(keys);
    SortedKeys(keys, byMonth);
    var rows := Rows(byMonth, months);
    BreakdownTallies(data, year);
    RowsFinal(rows, months, byMonth, data, year);
    rep := YearlyReport(summary, byMonth, rows);
  }

  /** The accumulation loop of `bao_cao_nam`: the year's totals and the per-month
      dictionary, whose keys are also returned in insertion order. */
  method Aggregate(data: seq<Rec>, year: int) returns (totals: Totals, byMonth: map<int, Totals>, keys: seq<int>)
    ensures totals == Tally(data, Year(year))
    ensures byMonth == Breakdown(data, year)
    ensures Distinct(keys) && forall m :: m in keys <==> m in byMonth
  {
    var revenue, cost, count := 0, 0, 0;
    byMonth, keys := map[], [];
    for i := 0 to |data|
      invariant Totals(revenue, cost, count) == Tally(data[..i], Year(year))
      invariant byMonth == Accumulate(data[..i], year)
      invariant Distinct(keys) && forall m :: m in keys <==> m in byMonth
    {
      var item := data[i];
      assert data[..i + 1][..i] == data[..i];
      if item.createdAt.year == year {
        revenue := revenue + item.revenue;
        cost := cost + item.cost;
        count := count + 1;
        var m := item.createdAt.month as int;
        ghost var before := byMonth;
        if m !in byMonth {
          byMonth := byMonth[m := Totals(0, 0, 0)];
          keys := keys + [m];
        }
        var t := byMonth[m];
        assert t == if m in before then before[m] else Zero();
        byMonth := byMonth[m := Totals(t.revenue + item.revenue, t.cost + item.cost, t.count + 1)];
        assert byMonth == before[m := Plus(t, One(item))];
      }
    }
    assert data[..|data|] == data;
    AccumulateIsBreakdown(data, year);
    totals := Totals(revenue, cost, count);
  }

  /** The breakdown lines for the months `months`, in that order. */
  method Rows(byMonth: map<int, Totals>, months: seq<int>) returns (rows: seq<MonthRow>)
    requires forall k :: 0 <= k < |months| ==> months[k] in byMonth
    ensures |rows| == |months|
    ensures forall k :: 0 <= k < |rows| ==> rows[k].month == months[k] && RowOf(rows[k], byMonth[months[k]])
  {
    rows := [];
    for j := 0 to |months|
      invariant |rows| == j
      invariant forall k :: 0 <= k < j ==> rows[k].month == months[k] && RowOf(rows[k], byMonth[months[k]])
    {
      var t := byMonth[months[j]];
      rows := rows + [MonthRow(months[j], t.revenue, t.cost, t.revenue - t.cost, t.count)];
    }
  }

  /** Lines carrying the totals of the months `months`, in that order, add up
      to those months' totals. */
  lemma {:induction false} RowsSumOver(rows: seq<MonthRow>, months: seq<int>, s: seq<Rec>, y: int)
    requires |rows| == |months|
    requires forall k :: 0 <= k < |rows| ==> RowOf(rows[k], Tally(s, Month(months[k], y)))
    ensures RowsTotal(rows) == SumOver(months, s, y)
  {
    if rows != [] {
      var n := |rows| - 1;
      RowsSumOver(rows[..n], months[..n], s, y);
    }
  }

  /** What the finished lines give: ascending months, each line its month's
      totals, every key a line, and the lines adding up to the year. */
  lemma RowsFinal(rows: seq<MonthRow>, months: seq<int>, byMonth: map<int, Totals>, data: seq<Rec>, year: int)
    requires Tallies(byMonth, data, year)
    requires StrictlyAscending(months) && forall m :: m in months <==> m in byMonth
    requires |rows| == |months| && forall k :: 0 <= k < |rows| ==> rows[k].month == months[k]
    requires forall k :: 0 <= k < |rows| ==> months[k] in byMonth && RowOf(rows[k], byMonth[months[k]])
    ensures forall j, k :: 0 <= j < k < |rows| ==> rows[j].month < rows[k].month
    ensures forall j :: 0 <= j < |rows| ==> rows[j].month in byMonth && RowOf(rows[j], byMonth[rows[j].month])
    ensures forall m :: m in byMonth ==> exists j :: 0 <= j < |rows| && rows[j].month == m
    ensures RowsTotal(rows) == Tally(data, Year(year))
  {
    RowsMatch(rows, months, byMonth);
    RowsCover(rows, months, byMonth);
    MonthsCovered(data, year, byMonth, months);
    StrictlyAscendingIsDistinct(months);
    RowsSumOver(rows, months, data, year);
    YearIsSumOfMonths(months, data, year);
  }

  /** Lines built month by month carry their own month's totals. */
  lemma RowsMatch(rows: seq<MonthRow>, months: seq<int>, byMonth: map<int, Totals>)
    requires |rows| == |months| && forall k :: 0 <= k < |rows| ==> rows[k].month == months[k]
    requires forall k :: 0 <= k < |rows| ==> months[k] in byMonth && RowOf(rows[k], byMonth[months[k]])
    ensures forall j :: 0 <= j < |rows| ==> rows[j].month in byMonth && RowOf(rows[j], byMonth[rows[j].month])
  {
  }

  /** `byMonth` holds, for every month its year's records fall in and for no
      other, that month's totals. */
  predicate Tallies(byMonth: map<int, Totals>, s: seq<Rec>, y: int) {
    && (forall m :: m in byMonth ==> byMonth[m] == Tally(s, Month(m, y)))
    && (forall r :: r in s && r.createdAt.year == y ==> r.createdAt.month as int in byMonth)
  }

  /** The breakdown is such a dictionary. */
  lemma BreakdownTallies(s: seq<Rec>, y: int)
    ensures Tallies(Breakdown(s, y), s, y)
  {
    forall r | r in s && r.createdAt.year == y ensures r.createdAt.month as int in Breakdown(s, y) {
      assert r.createdAt.month as int in MonthsIn(s, y);
    }
  }

  /** Lines built for every month of `months` cover every key of the dictionary. */
  lemma RowsCover(rows: seq<MonthRow>, months: seq<int>, byMonth: map<int, Totals>)
    requires |rows| == |months| && forall k :: 0 <= k < |rows| ==> rows[k].month == months[k]
    requires forall m :: m in months <==> m in byMonth
    ensures forall m :: m in byMonth ==> exists j :: 0 <= j < |rows| && rows[j].month == m
  {
    forall m | m in byMonth ensures exists j :: 0 <= j < |rows| && rows[j].month == m {
      var j :| 0 <= j < |months| && months[j] == m;
      assert rows[j].month == m;
    }
  }

  /** Every month a record of the year falls in is among `months`. */
  lemma MonthsCovered(s: seq<Rec>, y: int, byMonth: map<int, Totals>, months: seq<int>)
    requires Tallies(byMonth, s, y)
    requires forall m :: m in months <==> m in byMonth
    ensures forall r :: r in s && r.createdAt.year == y ==> r.createdAt.month as int in months
  {
  }

  /** Three entries dated 2025-07-10, 2025-08-02 and 2025-07-20. */
  function SampleLedger(): seq<Rec> {
    [ Rec(0, 500000, 300000, "", DateTime(2025, 7, 10, 0, 0, 0, 0)),
      Rec(0, 200000, 100000, "", DateTime(2025, 8, 2, 0, 0, 0, 0)),
      Rec(0, 100000, 50000, "", DateTime(2025, 7, 20, 0, 0, 0, 0)) ]
  }

  /** July holds two of them, the third quarter and the year all three. */
  lemma SampleReports()
    ensures Tally(SampleLedger(), Month(7, 2025)) == Totals(600000, 350000, 2)
    ensures Tally(SampleLedger(), Quarter(3, 2025)) == Totals(800000, 450000, 3)
    ensures Tally(SampleLedger(), Year(2025)) == Totals(800000, 450000, 3)
    ensures Tally(SampleLedger(), Quarter(2, 2025)) == Zero()
  {
    var s := SampleLedger();
    var e: seq<Rec> := [];
    assert s == e + [s[0]] + [s[1]] + [s[2]];
    forall p | p in [Month(7, 2025), Quarter(3, 2025), Year(2025), Quarter(2, 2025)]
      ensures Tally(s, p) == Plus(Plus(Plus(Zero(), if InPeriod(s[0], p) then One(s[0]) else Zero()),
                                       if InPeriod(s[1], p) then One(s[1]) else Zero()),
                                  if InPeriod(s[2], p) then One(s[2]) else Zero())
    {
      TallySnoc(e, s[0], p);
      TallySnoc(e + [s[0]], s[1], p);
      TallySnoc(e + [s[0]] + [s[1]], s[2], p);
    }
  }

  /** The year's breakdown of the sample has July and August only. */
  lemma SampleBreakdown()
    ensures Breakdown(SampleLedger(), 2025) == map[7 := Totals(600000, 350000, 2), 8 := Totals(200000, 100000, 1)]
  {
    var s := SampleLedger();
    var e: seq<Rec> := [];
    var s1 := e + [s[0]];
    var s2 := s1 + [s[1]];
    assert s == s2 + [s[2]];
    AccumulateSnoc(e, s[0], 2025);
    assert Accumulate(s1, 2025) == map[7 := One(s[0])];
    AccumulateSnoc(s1, s[1], 2025);
    assert Accumulate(s2, 2025) == map[7 := One(s[0]), 8 := One(s[1])];
    AccumulateSnoc(s2, s[2], 2025);
    assert Accumulate(s, 2025) == map[7 := Plus(One(s[0]), One(s[2])), 8 := One(s[1])];
    AccumulateIsBreakdown(s, 2025);
  }
}
