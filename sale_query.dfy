/** The query operations the services run over the sales table: the `where`
    conditions they add, `count` and `sum` of amount and commission, and
    `orderBy … desc` with `limit`. The table is a sequence of rows in storage
    order. */
module SaleQuery {
  import opened Common
  import opened SaleModel

  // ---------------------------------------------------------------------------
  // Conditions and `where`
  // ---------------------------------------------------------------------------

  /** A condition one `where` call adds to a query on the sales table. */
  datatype Cond =
    | SellerIs(sellerId: nat)              // where('seller_id', id), or $seller->sales()
    | SellerIsNot(sellerId: nat)           // the rows a groupBy leaves for the other groups
    | DateIs(date: Date)                   // whereDate('sale_date', d)
    | DateFrom(date: Date)                 // where('sale_date', '>=', d)
    | DateTo(date: Date)                   // where('sale_date', '<=', d)
    | AmountMin(cents: Cents)              // where('amount', '>=', c)
    | AmountMax(cents: Cents)              // where('amount', '<=', c)
    | DateBetween(first: Date, last: Date) // whereBetween('sale_date', [first, last])

  predicate Holds(c: Cond, s: Sale)
  {
    match c
    case SellerIs(id) => s.sellerId == id
    case SellerIsNot(id) => s.sellerId != id
    case DateIs(d) => s.saleDate == d
    case DateFrom(d) => s.saleDate >= d
    case DateTo(d) => s.saleDate <= d
    case AmountMin(a) => s.amount >= a
    case AmountMax(a) => s.amount <= a
    case DateBetween(first, last) => first <= s.saleDate <= last
  }

  /** The rows satisfying `c`, in storage order. */
  function Where(sales: seq<Sale>, c: Cond): (r: seq<Sale>)
    ensures |r| <= |sales|
    decreases |sales|
  {
    if sales == [] then []
    else if Holds(c, sales[0]) then [sales[0]] + Where(sales[1..], c)
    else Where(sales[1..], c)
  }

  /** `where` keeps exactly the rows satisfying the condition... */
  lemma {:induction false} WhereMembers(sales: seq<Sale>, c: Cond)
    ensures forall s :: s in Where(sales, c) <==> s in sales && Holds(c, s)
    decreases |sales|
  {
    if sales != [] {
      WhereMembers(sales[1..], c);
      assert sales == [sales[0]] + sales[1..];
    }
  }

  /** ... and keeps them in storage order. */
  lemma {:induction false} WhereInOrder(sales: seq<Sale>, c: Cond)
    ensures IsSubsequence(Where(sales, c), sales)
    decreases |sales|
  {
    if sales != [] {
      var rest := Where(sales[1..], c);
      WhereInOrder(sales[1..], c);
      assert [sales[0]] + sales[1..] == sales;
      if Holds(c, sales[0]) {
        SubsequenceKeep(rest, sales[1..], sales[0]);
      } else {
        SubsequenceSkip(rest, sales[1..], sales[0]);
      }
    }
  }

  /** A query built from several `where` calls: every condition must hold. */
  /** `where` keeps every copy of a passing row and no copy of a failing one. */
  lemma {:induction false} WhereMultiset(sales: seq<Sale>, c: Cond)
    ensures forall s :: multiset(Where(sales, c))[s] == if Holds(c, s) then multiset(sales)[s] else 0
    decreases |sales|
  {
    if sales != [] {
      WhereMultiset(sales[1..], c);
      assert sales == [sales[0]] + sales[1..];
    }
  }

  function WhereAll(sales: seq<Sale>, conds: seq<Cond>): (r: seq<Sale>)
    ensures forall s :: s in r <==> s in sales && forall c :: c in conds ==> Holds(c, s)
    decreases |conds|
  {
    if conds == [] then sales
    else
      WhereMembers(sales, conds[0]);
      WhereAll(Where(sales, conds[0]), conds[1..])
  }

  /** Chained `where` calls keep every copy of a row meeting all conditions and
      no copy of any other. */
  lemma {:induction false} WhereAllMultiset(sales: seq<Sale>, conds: seq<Cond>)
    ensures forall s :: multiset(WhereAll(sales, conds))[s] ==
                        if forall c :: c in conds ==> Holds(c, s) then multiset(sales)[s] else 0
    decreases |conds|
  {
    if conds != [] {
      var first := Where(sales, conds[0]);
      WhereMultiset(sales, conds[0]);
      WhereAllMultiset(first, conds[1..]);
      forall s ensures (forall c :: c in conds ==> Holds(c, s)) <==> Holds(conds[0], s) && forall c :: c in conds[1..] ==> Holds(c, s) {
        assert conds == [conds[0]] + conds[1..];
      }
    }
  }

  lemma {:induction false} WhereConcat(a: seq<Sale>, b: seq<Sale>, c: Cond)
    ensures Where(a + b, c) == Where(a, c) + Where(b, c)
    decreases |a|
  {
    if a == [] {
      assert a + b == b;
    } else {
      assert (a + b)[1..] == a[1..] + b;
      WhereConcat(a[1..], b, c);
    }
  }

  /** A row that fails the condition leaves the result as if it were not stored. */
  lemma WhereSkip(a: seq<Sale>, b: seq<Sale>, s: Sale, c: Cond)
    requires !Holds(c, s)
    ensures Where(a + [s] + b, c) == Where(a + b, c)
  {
    WhereConcat(a + [s], b, c);
    WhereConcat(a, [s], c);
    WhereConcat(a, b, c);
  }

  /** A row that satisfies the condition appears in the result at its own place. */
  lemma WhereKeep(a: seq<Sale>, b: seq<Sale>, s: Sale, c: Cond)
    requires Holds(c, s)
    ensures Where(a + [s] + b, c) == Where(a, c) + [s] + Where(b, c)
  {
    WhereConcat(a + [s], b, c);
    WhereConcat(a, [s], c);
  }

  /** Two `where` calls give the same rows in either order. */
  lemma {:induction false} WhereCommute(sales: seq<Sale>, c: Cond, d: Cond)
    ensures Where(Where(sales, c), d) == Where(Where(sales, d), c)
    decreases |sales|
  {
    if sales != [] {
      WhereCommute(sales[1..], c, d);
    }
  }

  /** Filtering twice by the same condition filters once. */
  lemma {:induction false} WhereIdempotent(sales: seq<Sale>, c: Cond)
    ensures Where(Where(sales, c), c) == Where(sales, c)
    decreases |sales|
  {
    if sales != [] {
      WhereIdempotent(sales[1..], c);
    }
  }

  /** Rows of seller `j` are untouched by removing the rows of another seller `k`. */
  lemma {:induction false} WhereOtherSeller(sales: seq<Sale>, k: nat, j: nat)
    requires j != k
    ensures Where(Where(sales, SellerIsNot(k)), SellerIs(j)) == Where(sales, SellerIs(j))
    decreases |sales|
  {
    if sales != [] {
      WhereOtherSeller(sales[1..], k, j);
    }
  }

  // ---------------------------------------------------------------------------
  // count() and sum('amount'), sum('commission')
  // ---------------------------------------------------------------------------

  /** The count of a set of rows and the sums of their amounts and commissions. */
  datatype Totals = Totals(count: nat, amount: Cents, commission: Cents)
  {
    function Plus(other: Totals): Totals
    {
      Totals(count + other.count, amount + other.amount, commission + other.commission)
    }
  }

  lemma PlusAssociative(a: Totals, b: Totals, c: Totals)
    ensures a.Plus(b.Plus(c)) == a.Plus(b).Plus(c)
  {
  }

  lemma PlusExchange(a: Totals, b: Totals, c: Totals)
    ensures a.Plus(b.Plus(c)) == b.Plus(a.Plus(c))
  {
  }

  function RowTotals(s: Sale): Totals
  {
    Totals(1, s.amount, s.commission)
  }

  /** `count()`, `sum('amount')` and `sum('commission')` of a set of rows. */
  function TotalsOf(sales: seq<Sale>): (t: Totals)
    ensures t.count == |sales|
    decreases |sales|
  {
    if sales == [] then Totals(0, 0, 0) else RowTotals(sales[0]).Plus(TotalsOf(sales[1..]))
  }

  lemma {:induction false} TotalsConcat(a: seq<Sale>, b: seq<Sale>)
    ensures TotalsOf(a + b) == TotalsOf(a).Plus(TotalsOf(b))
    decreases |a|
  {
    if a == [] {
      assert a + b == b;
    } else {
      assert (a + b)[0] == a[0] && (a + b)[1..] == a[1..] + b;
      TotalsConcat(a[1..], b);
      PlusAssociative(RowTotals(a[0]), TotalsOf(a[1..]), TotalsOf(b));
    }
  }

  /** Splitting the rows into those of seller `k` and the others splits every sum. */
  lemma {:induction false} TotalsSplitBySeller(sales: seq<Sale>, k: nat)
    ensures TotalsOf(sales) == TotalsOf(Where(sales, SellerIs(k))).Plus(TotalsOf(Where(sales, SellerIsNot(k))))
    decreases |sales|
  {
    if sales == [] {
      NoRowsNoTotals(sales, SellerIs(k));
      NoRowsNoTotals(sales, SellerIsNot(k));
    } else {
      TotalsSplitBySeller(sales[1..], k);
      SplitStep(sales, k);
    }
  }

  /** The inductive step of TotalsSplitBySeller: the head row joins the sums of its own group. */
  lemma SplitStep(sales: seq<Sale>, k: nat)
    requires sales != []
    requires TotalsOf(sales[1..]) == TotalsOf(Where(sales[1..], SellerIs(k))).Plus(TotalsOf(Where(sales[1..], SellerIsNot(k))))
    ensures TotalsOf(sales) == TotalsOf(Where(sales, SellerIs(k))).Plus(TotalsOf(Where(sales, SellerIsNot(k))))
  {
    var x := sales[0];
    var mine, others := Where(sales[1..], SellerIs(k)), Where(sales[1..], SellerIsNot(k));
    var r := RowTotals(x);
    if x.sellerId == k {
      assert ([x] + mine)[0] == x && ([x] + mine)[1..] == mine;
      PlusAssociative(r, TotalsOf(mine), TotalsOf(others));
    } else {
      assert ([x] + others)[0] == x && ([x] + others)[1..] == others;
      PlusExchange(r, TotalsOf(mine), TotalsOf(others));
    }
  }

  /** A stored row that satisfies the condition adds its own count and sums. */
  lemma TotalsWithRow(a: seq<Sale>, b: seq<Sale>, s: Sale, c: Cond)
    requires Holds(c, s)
    ensures TotalsOf(Where(a + [s] + b, c)) == RowTotals(s).Plus(TotalsOf(Where(a + b, c)))
  {
    var wa, wb := Where(a, c), Where(b, c);
    WhereKeep(a, b, s, c);
    WhereConcat(a, b, c);
    TotalsConcat(wa + [s], wb);
    TotalsConcat(wa, [s]);
    TotalsConcat(wa, wb);
    assert TotalsOf([s]) == RowTotals(s);
  }

  /** A query that matches no row counts zero and sums to zero. */
  lemma {:induction false} NoRowsNoTotals(sales: seq<Sale>, c: Cond)
    requires forall s :: s in sales ==> !Holds(c, s)
    ensures Where(sales, c) == []
    ensures TotalsOf(Where(sales, c)) == Totals(0, 0, 0)
    decreases |sales|
  {
    if sales != [] {
      NoRowsNoTotals(sales[1..], c);
    }
  }

  // ---------------------------------------------------------------------------
  // orderBy(… 'desc') and limit(n)
  // ---------------------------------------------------------------------------

  /** The two orderings the services ask for. */
  datatype Order =
    | DateDesc               // orderBy('sale_date', 'desc')
    | DateThenCreatedDesc    // orderBy('sale_date', 'desc')->orderBy('created_at', 'desc')

  /** `a` may be listed before `b` under order `o`. */
  predicate ListedFirst(a: Sale, b: Sale, o: Order)
  {
    a.saleDate > b.saleDate
    || (a.saleDate == b.saleDate && (o == DateDesc || a.createdAt >= b.createdAt))
  }

  predicate SortedBy(xs: seq<Sale>, o: Order)
  {
    forall i, j :: 0 <= i < j < |xs| ==> ListedFirst(xs[i], xs[j], o)
  }

  /** Puts `x` before the first row it may precede. */
  function Insert(x: Sale, ys: seq<Sale>, o: Order): (r: seq<Sale>)
    ensures multiset(r) == multiset(ys) + multiset{x}
    decreases |ys|
  {
    if ys == [] || ListedFirst(x, ys[0], o) then [x] + ys
    else
      assert ys == [ys[0]] + ys[1..];
      [ys[0]] + Insert(x, ys[1..], o)
  }

  lemma {:induction false} InsertSorted(x: Sale, ys: seq<Sale>, o: Order)
    requires SortedBy(ys, o)
    ensures SortedBy(Insert(x, ys, o), o)
    decreases |ys|
  {
    if ys != [] && !ListedFirst(x, ys[0], o) {
      var rest := Insert(x, ys[1..], o);
      InsertSorted(x, ys[1..], o);
      forall z | z in rest ensures ListedFirst(ys[0], z, o) {
        assert z in multiset(rest);
        assert z == x || z in multiset(ys[1..]);
      }
      var r := [ys[0]] + rest;
      forall i, j | 0 <= i < j < |r| ensures ListedFirst(r[i], r[j], o) {
        if i == 0 {
          assert r[j] in rest;
        } else {
          assert r[i] == rest[i - 1] && r[j] == rest[j - 1];
        }
      }
    }
  }

  /** The rows ordered by `o`; rows that tie keep their storage order. */
  function SortBy(xs: seq<Sale>, o: Order): (r: seq<Sale>)
    ensures multiset(r) == multiset(xs)
    decreases |xs|
  {
    if xs == [] then []
    else
      assert xs == [xs[0]] + xs[1..];
      Insert(xs[0], SortBy(xs[1..], o), o)
  }

  lemma {:induction false} SortBySorted(xs: seq<Sale>, o: Order)
    ensures SortedBy(SortBy(xs, o), o)
    decreases |xs|
  {
    if xs != [] {
      SortBySorted(xs[1..], o);
      InsertSorted(xs[0], SortBy(xs[1..], o), o);
    }
  }

  /** `limit(n)`: the first `n` rows. */
  function Limit(xs: seq<Sale>, n: nat): (r: seq<Sale>)
    ensures |r| == if |xs| < n then |xs| else n
    ensures r <= xs
  {
    if |xs| <= n then xs else xs[..n]
  }
}
