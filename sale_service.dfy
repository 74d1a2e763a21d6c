/** The sales service: the filtered, ordered and paged listing of sales, and
    the ledger of sales with its create, update and delete operations. */
module SaleService {
  import opened Common
  import opened SaleModel
  import opened SaleQuery

  // ---------------------------------------------------------------------------
  // getAll: conditional where calls, orderBy('sale_date', 'desc'), paginate
  // ---------------------------------------------------------------------------

  /** The listing parameters. A filter that is missing or blank is None. */
  datatype SaleFilters = SaleFilters(
    sellerId: Option<nat>,
    dateFrom: Option<Date>,
    dateTo: Option<Date>,
    amountMin: Option<Cents>,
    amountMax: Option<Cents>,
    perPage: PageSizeParam)

  /** The `where` calls the listing adds, one per filled parameter, in order. */
  function FilterConditions(f: SaleFilters): seq<Cond>
  {
    (if f.sellerId.Some? then [SellerIs(f.sellerId.value)] else [])
    + (if f.dateFrom.Some? then [DateFrom(f.dateFrom.value)] else [])
    + (if f.dateTo.Some? then [DateTo(f.dateTo.value)] else [])
    + (if f.amountMin.Some? then [AmountMin(f.amountMin.value)] else [])
    + (if f.amountMax.Some? then [AmountMax(f.amountMax.value)] else [])
  }

  /** A sale passes the filters: every supplied filter holds, bounds inclusive. */
  predicate PassesFilters(f: SaleFilters, s: Sale)
  {
    && (f.sellerId.None? || s.sellerId == f.sellerId.value)
    && (f.dateFrom.None? || s.saleDate >= f.dateFrom.value)
    && (f.dateTo.None? || s.saleDate <= f.dateTo.value)
    && (f.amountMin.None? || s.amount >= f.amountMin.value)
    && (f.amountMax.None? || s.amount <= f.amountMax.value)
  }

  lemma ConditionsMeanFilters(f: SaleFilters, s: Sale)
    ensures (forall c :: c in FilterConditions(f) ==> Holds(c, s)) <==> PassesFilters(f, s)
  {
    var conds := FilterConditions(f);
    if f.sellerId.Some? { assert SellerIs(f.sellerId.value) in conds; }
    if f.dateFrom.Some? { assert DateFrom(f.dateFrom.value) in conds; }
    if f.dateTo.Some? { assert DateTo(f.dateTo.value) in conds; }
    if f.amountMin.Some? { assert AmountMin(f.amountMin.value) in conds; }
    if f.amountMax.Some? { assert AmountMax(f.amountMax.value) in conds; }
  }

  /** The whole listing before paging: exactly the sales passing every
      supplied filter, latest sale date first. */
  function ListSales(sales: seq<Sale>, f: SaleFilters): (r: seq<Sale>)
    ensures forall s :: s in r <==> s in sales && PassesFilters(f, s)
    ensures forall s :: multiset(r)[s] == if PassesFilters(f, s) then multiset(sales)[s] else 0
    ensures SortedBy(r, DateDesc)
  {
    var matching := WhereAll(sales, FilterConditions(f));
    WhereAllMultiset(sales, FilterConditions(f));
    forall s ensures s in matching <==> s in sales && PassesFilters(f, s) {
      ConditionsMeanFilters(f, s);
    }
    SortBySorted(matching, DateDesc);
    var r := SortBy(matching, DateDesc);
    assert forall s :: s in r <==> s in multiset(matching);
    r
  }

  /** Without filters the listing holds every sale. */
  lemma NoFiltersListsAll(sales: seq<Sale>, perPage: PageSizeParam)
    ensures multiset(ListSales(sales, SaleFilters(None, None, None, None, None, perPage))) == multiset(sales)
  {
    var f := SaleFilters(None, None, None, None, None, perPage);
    assert FilterConditions(f) == [];
  }

  /** A page of a sorted listing is sorted. */
  lemma PageSorted(list: seq<Sale>, page: nat, perPage: nat)
    requires page >= 1 && perPage >= 1
    requires SortedBy(list, DateDesc)
    ensures SortedBy(Paginate(list, page, perPage), DateDesc)
  {
    WindowSorted(list, Paginate(list, page, perPage), PageStart(page, perPage));
  }

  /** Consecutive rows taken from a sorted listing are sorted. */
  lemma WindowSorted(list: seq<Sale>, r: seq<Sale>, from: nat)
    requires SortedBy(list, DateDesc)
    requires forall k :: 0 <= k < |r| ==> from + k < |list| && r[k] == list[from + k]
    ensures SortedBy(r, DateDesc)
  {
    forall i, j | 0 <= i < j < |r| ensures ListedFirst(r[i], r[j], DateDesc) {
      var a, b := r[i], r[j];
      assert from + i < from + j < |list|;
      assert a == list[from + i] && b == list[from + j];
    }
  }

  /** `getAll`: page `page` of the listing, `per_page` rows a page (20 when it
      is not sent, the model's 15 when it is sent empty or 0). */
  function GetAll(sales: seq<Sale>, f: SaleFilters, page: nat): (r: seq<Sale>)
    requires page >= 1
    ensures |r| <= PerPage(f.perPage)
    ensures forall s :: s in r ==> s in sales && PassesFilters(f, s)
    ensures SortedBy(r, DateDesc)
    ensures f.perPage.NotSent? && page == 1 && |ListSales(sales, f)| >= 20 ==> |r| == 20
    ensures f.perPage.SentEmpty? && page == 1 && |ListSales(sales, f)| >= 15 ==> |r| == 15
    ensures PageOf(r, ListSales(sales, f), PageStart(page, PerPage(f.perPage)), PerPage(f.perPage))
  {
    var list := ListSales(sales, f);
    var perPage := PerPage(f.perPage);
    PageSorted(list, page, perPage);
    PageMembers(list, page, perPage);
    FirstPageFull(list, perPage);
    Paginate(list, page, perPage)
  }

  /** Every sale passing the filters is on some page of the listing. */
  lemma SaleOnSomePage(sales: seq<Sale>, f: SaleFilters, s: Sale)
    requires s in sales && PassesFilters(f, s)
    ensures exists page: nat :: page >= 1 && s in GetAll(sales, f, page)
  {
    var list, perPage := ListSales(sales, f), PerPage(f.perPage);
    ItemOnSomePage(list, perPage, s);
    var page: nat :| page >= 1 && s in Paginate(list, page, perPage);
    assert s in GetAll(sales, f, page);
  }

  // ---------------------------------------------------------------------------
  // The ledger: create, update, delete
  // ---------------------------------------------------------------------------

  /** The attributes an update carries; None for an attribute not in the request data. */
  datatype SalePatch = SalePatch(
    sellerId: Option<nat>,
    amount: Option<Cents>,
    commission: Option<Cents>,
    saleDate: Option<Date>)

  /** What an update does to a row, stated on the fields: the attributes in
      the patch replace the stored ones, and a patch with an amount gets the
      rule's commission for that amount whatever commission it carries. */
  function Patched(row: Sale, p: SalePatch): (r: Sale)
    ensures r.id == row.id && r.createdAt == row.createdAt
  {
    Sale(row.id,
         OrElse(p.sellerId, row.sellerId),
         OrElse(p.amount, row.amount),
         if p.amount.Some? then CalculateCommission(p.amount.value) else OrElse(p.commission, row.commission),
         OrElse(p.saleDate, row.saleDate),
         row.createdAt)
  }

  /** `$sale->update($data)` fills the row with the data before the hooks run. */
  function Fill(row: Sale, data: SalePatch): Sale
  {
    row.(sellerId := OrElse(data.sellerId, row.sellerId),
         amount := OrElse(data.amount, row.amount),
         commission := OrElse(data.commission, row.commission),
         saleDate := OrElse(data.saleDate, row.saleDate))
  }

  /** The service's own step before saving: an amount in the data brings its commission along. */
  function WithServiceCommission(data: SalePatch): SalePatch
  {
    if data.amount.Some? then data.(commission := Some(CalculateCommission(data.amount.value))) else data
  }

  /** The service step, the fill and the `updating` hook together store the patched row. */
  lemma {:induction false} UpdateStoresPatched(row: Sale, p: SalePatch)
    ensures Updating(row, Fill(row, WithServiceCommission(p))) == Patched(row, p)
  {
    var dirty := Fill(row, WithServiceCommission(p));
    if p.amount.Some? {
      assert dirty.commission == CalculateCommission(dirty.amount);
    }
  }

  /** An amount in the patch leaves the row's commission derived from its amount. */
  lemma PatchedAmountDerivesCommission(row: Sale, p: SalePatch)
    requires p.amount.Some?
    ensures CommissionMatchesAmount(Patched(row, p))
    ensures Patched(row, p).amount == p.amount.value
  {
  }

  /** A patch without amount or commission leaves the commission as stored. */
  lemma PatchedKeepsCommission(row: Sale, p: SalePatch)
    requires p.amount.None? && p.commission.None?
    ensures Patched(row, p).commission == row.commission
    ensures CommissionMatchesAmount(row) ==> CommissionMatchesAmount(Patched(row, p))
  {
  }

  /** Applying the same patch twice changes nothing the first application did not. */
  lemma PatchedIdempotent(row: Sale, p: SalePatch)
    ensures Patched(Patched(row, p), p) == Patched(row, p)
  {
  }

  /** The position of the row with id `id`, if any. */
  function IndexOfId(sales: seq<Sale>, id: nat): (r: Option<nat>)
    ensures r.Some? ==> r.value < |sales| && sales[r.value].id == id
    ensures r.None? ==> forall i :: 0 <= i < |sales| ==> sales[i].id != id
  {
    IndexWhere(sales, (s: Sale) => s.id == id)
  }

  /** The rows other than those with id `id`, in order. */
  function WithoutId(sales: seq<Sale>, id: nat): (r: seq<Sale>)
    ensures |r| <= |sales|
    decreases |sales|
  {
    if sales == [] then []
    else if sales[0].id == id then WithoutId(sales[1..], id)
    else [sales[0]] + WithoutId(sales[1..], id)
  }

  lemma {:induction false} WithoutIdMembers(sales: seq<Sale>, id: nat)
    ensures forall s :: s in WithoutId(sales, id) <==> s in sales && s.id != id
    decreases |sales|
  {
    if sales != [] {
      WithoutIdMembers(sales[1..], id);
      assert sales == [sales[0]] + sales[1..];
    }
  }

  /** Ids strictly increase along the table, so each id names at most one row. */
  predicate IdsAscending(sales: seq<Sale>)
  {
    forall i, j :: 0 <= i < j < |sales| ==> sales[i].id < sales[j].id
  }

  /** Deleting by id from a table with distinct ids removes exactly the one
      row with that id and keeps the others in order. */
  lemma {:induction false} DeleteRemovesOne(sales: seq<Sale>, id: nat)
    requires IdsAscending(sales)
    requires IndexOfId(sales, id).Some?
    ensures var i := IndexOfId(sales, id).value;
            WithoutId(sales, id) == sales[..i] + sales[i + 1..]
    decreases |sales|
  {
    var tail := sales[1..];
    AscendingTail(sales);
    if sales[0].id != id {
      assert IndexOfId(tail, id).Some?;
      DeleteRemovesOne(tail, id);
      var i := IndexOfId(tail, id).value;
      assert IndexOfId(sales, id).value == i + 1;
      assert WithoutId(sales, id) == [sales[0]] + WithoutId(tail, id);
      assert sales[..i + 1] == [sales[0]] + tail[..i];
      assert sales[i + 2..] == tail[i + 1..];
    } else {
      assert IndexOfId(sales, id).value == 0;
      forall k | 0 <= k < |tail| ensures tail[k].id != id {
        assert sales[0].id < sales[k + 1].id;
      }
      WithoutIdNone(tail, id);
    }
  }

  lemma AscendingTail(sales: seq<Sale>)
    requires sales != [] && IdsAscending(sales)
    ensures IdsAscending(sales[1..])
  {
    forall i, j | 0 <= i < j < |sales| - 1 ensures sales[1..][i].id < sales[1..][j].id {
      assert sales[1..][i] == sales[i + 1] && sales[1..][j] == sales[j + 1];
    }
  }

  lemma {:induction false} WithoutIdNone(sales: seq<Sale>, id: nat)
    requires forall i :: 0 <= i < |sales| ==> sales[i].id != id
    ensures WithoutId(sales, id) == sales
    decreases |sales|
  {
    if sales != [] {
      WithoutIdNone(sales[1..], id);
    }
  }

  lemma {:induction false} WithoutIdAscending(sales: seq<Sale>, id: nat)
    requires IdsAscending(sales)
    ensures IdsAscending(WithoutId(sales, id))
    decreases |sales|
  {
    if sales != [] {
      var rest := WithoutId(sales[1..], id);
      WithoutIdAscending(sales[1..], id);
      WithoutIdMembers(sales[1..], id);
      if sales[0].id != id {
        var r := [sales[0]] + rest;
        forall i, j | 0 <= i < j < |r| ensures r[i].id < r[j].id {
          if i == 0 {
            assert r[j] in rest;
            assert r[j] in sales[1..];
          } else {
            assert r[i] == rest[i - 1] && r[j] == rest[j - 1];
          }
        }
      }
    }
  }

  /** Replacing a row by one with the same id keeps the ids ascending. */
  lemma ReplaceRowKeepsIds(sales: seq<Sale>, i: nat, row: Sale)
    requires i < |sales| && row.id == sales[i].id && IdsAscending(sales)
    ensures IdsAscending(sales[i := row])
    ensures forall k :: 0 <= k < |sales| && k != i ==> sales[k].id != row.id
  {
    var r := sales[i := row];
    forall a, b | 0 <= a < b < |r| ensures r[a].id < r[b].id {
      assert r[a].id == sales[a].id && r[b].id == sales[b].id;
    }
  }

  /** The sales table as the service sees it. `derived` holds, as a ghost
      record, the ids whose commission was last set by the rule. */
  class SaleLedger {
    var sales: seq<Sale>
    var nextId: nat
    ghost var derived: set<nat>

    ghost predicate Valid()
      reads this
    {
      && IdsAscending(sales)
      && (forall i :: 0 <= i < |sales| ==> sales[i].id < nextId)
      && (forall i :: 0 <= i < |sales| && sales[i].id in derived ==> CommissionMatchesAmount(sales[i]))
      && (forall d :: d in derived ==> d < nextId)
    }

    constructor ()
      ensures Valid() && sales == [] && nextId == 1
    {
      sales := [];
      nextId := 1;
      derived := {};
    }

    /** `create`: the service supplies the rule's commission when none was given,
        the `creating` hook replaces an empty one, and the row is appended. */
    method Create(data: NewSale, now: int) returns (sale: Sale)
      requires Valid()
      modifies this
      ensures Valid()
      ensures sales == old(sales) + [sale] && nextId == old(nextId) + 1
      ensures sale.id == old(nextId) && sale.createdAt == now
      ensures sale.sellerId == data.sellerId && sale.amount == data.amount && sale.saleDate == data.saleDate
      ensures CommissionEmpty(data.commission) ==> CommissionMatchesAmount(sale)
      ensures !CommissionEmpty(data.commission) ==> sale.commission == data.commission.value
    {
      var attrs := data;
      if attrs.commission.None? {
        attrs := attrs.(commission := Some(CalculateCommission(attrs.amount)));
      }
      sale := Sale(nextId, attrs.sellerId, attrs.amount, CreatingCommission(attrs), attrs.saleDate, now);
      sales := sales + [sale];
      if CommissionEmpty(data.commission) {
        derived := derived + {sale.id};
      }
      nextId := nextId + 1;
    }

    /** `update`: the row with id `id`, if any, becomes its patched self. */
    method Update(id: nat, p: SalePatch) returns (found: bool)
      requires Valid()
      modifies this
      ensures Valid() && nextId == old(nextId)
      ensures found <==> IndexOfId(old(sales), id).Some?
      ensures found ==> var i := IndexOfId(old(sales), id).value;
                        sales == old(sales)[i := Patched(old(sales)[i], p)]
      ensures !found ==> sales == old(sales)
      ensures found && p.amount.Some? ==> CommissionMatchesAmount(sales[IndexOfId(old(sales), id).value])
    {
      var index := IndexOfId(sales, id);
      found := index.Some?;
      if found {
        var i := index.value;
        var row := sales[i];
        var data := WithServiceCommission(p);
        var saved := Updating(row, Fill(row, data));
        UpdateStoresPatched(row, p);
        ReplaceRowKeepsIds(sales, i, saved);
        sales := sales[i := saved];
        if p.amount.Some? {
          PatchedAmountDerivesCommission(row, p);
          derived := derived + {id};
        } else if p.commission.Some? {
          derived := derived - {id};
        } else {
          PatchedKeepsCommission(row, p);
        }
      }
    }

    /** `delete`: the row with id `id` is removed; the others stay, in order. */
    method Delete(id: nat) returns (found: bool)
      requires Valid()
      modifies this
      ensures Valid() && nextId == old(nextId)
      ensures found <==> IndexOfId(old(sales), id).Some?
      ensures found ==> var i := IndexOfId(old(sales), id).value;
                        sales == old(sales)[..i] + old(sales)[i + 1..]
      ensures !found ==> sales == old(sales)
      ensures forall s :: s in sales <==> s in old(sales) && s.id != id
    {
      found := IndexOfId(sales, id).Some?;
      WithoutIdMembers(sales, id);
      WithoutIdAscending(sales, id);
      if found {
        DeleteRemovesOne(sales, id);
      } else {
        WithoutIdNone(sales, id);
      }
      sales := WithoutId(sales, id);
    }
  }
}
