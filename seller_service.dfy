/** The sellers service: the searched and paged seller listing with each
    seller's sale count and commission sum, the seller register with its
    create, update and delete operations, and a seller's sales between two
    optional dates. */
module SellerService {
  import opened Common
  import opened SaleModel
  import opened SaleQuery
  import opened SellerModel

  // ---------------------------------------------------------------------------
  // getAll: withCount('sales'), withSum('sales', 'commission'), prefix search
  // ---------------------------------------------------------------------------

  /** One listed seller: `sales_count`, and `sales_sum_commission`, which is
      null (None) for a seller without sales. */
  datatype SellerRow = SellerRow(seller: Seller, salesCount: nat, salesSumCommission: Option<Cents>)

  /** The search applies when it is given and not the empty string. */
  predicate SearchApplies(search: Option<string>)
  {
    search.Some? && search.value != ""
  }

  /** `name like 'search%' or email like 'search%'`, read as a plain prefix test. */
  predicate SearchMatches(search: Option<string>, seller: Seller)
  {
    !SearchApplies(search) || search.value <= seller.name || search.value <= seller.email
  }

  /** The sellers the search keeps, in register order. */
  function Searched(sellers: seq<Seller>, search: Option<string>): (r: seq<Seller>)
    ensures forall x :: x in r <==> x in sellers && SearchMatches(search, x)
    decreases |sellers|
  {
    if sellers == [] then []
    else
      assert sellers == [sellers[0]] + sellers[1..];
      if SearchMatches(search, sellers[0]) then [sellers[0]] + Searched(sellers[1..], search)
      else Searched(sellers[1..], search)
  }

  lemma {:induction false} SearchedInOrder(sellers: seq<Seller>, search: Option<string>)
    ensures IsSubsequence(Searched(sellers, search), sellers)
    decreases |sellers|
  {
    if sellers != [] {
      SearchedInOrder(sellers[1..], search);
      assert [sellers[0]] + sellers[1..] == sellers;
      if SearchMatches(search, sellers[0]) {
        SubsequenceKeep(Searched(sellers[1..], search), sellers[1..], sellers[0]);
      } else {
        SubsequenceSkip(Searched(sellers[1..], search), sellers[1..], sellers[0]);
      }
    }
  }

  /** A missing or empty search lists every seller. */
  lemma {:induction false} NoSearchListsAll(sellers: seq<Seller>, search: Option<string>)
    requires !SearchApplies(search)
    ensures Searched(sellers, search) == sellers
    decreases |sellers|
  {
    if sellers != [] {
      NoSearchListsAll(sellers[1..], search);
    }
  }

  /** A seller's listing row, with its count and commission sum over all its sales. */
  function RowOf(seller: Seller, sales: seq<Sale>): (row: SellerRow)
    ensures row.seller == seller
  {
    var t := TotalsOf(Where(sales, SellerIs(seller.id)));
    SellerRow(seller, t.count, if t.count == 0 then None else Some(t.commission))
  }

  /** A listed seller's count is zero, and its sum null, exactly when it has no sale. */
  lemma RowOfWithoutSales(seller: Seller, sales: seq<Sale>)
    ensures RowOf(seller, sales).salesCount == 0 <==> forall s :: s in sales ==> s.sellerId != seller.id
    ensures RowOf(seller, sales).salesSumCommission.None? <==> RowOf(seller, sales).salesCount == 0
  {
    var mine := Where(sales, SellerIs(seller.id));
    WhereMembers(sales, SellerIs(seller.id));
    if mine != [] {
      assert mine[0] in mine;
    }
  }

  /** One more sale of the seller adds one to its count and its commission to its sum. */
  lemma RowOfAddsSale(seller: Seller, a: seq<Sale>, b: seq<Sale>, s: Sale)
    requires s.sellerId == seller.id
    ensures RowOf(seller, a + [s] + b).salesCount == RowOf(seller, a + b).salesCount + 1
    ensures RowOf(seller, a + [s] + b).salesSumCommission ==
            Some(s.commission + OrZero(RowOf(seller, a + b).salesSumCommission))
  {
    TotalsWithRow(a, b, s, SellerIs(seller.id));
  }

  function OrZero(o: Option<Cents>): Cents
  {
    OrElse(o, 0)
  }

  /** The rows of the listing before paging. */
  function ListSellers(sellers: seq<Seller>, sales: seq<Sale>, search: Option<string>): (rows: seq<SellerRow>)
    ensures |rows| == |Searched(sellers, search)|
    ensures forall i :: 0 <= i < |rows| ==> rows[i] == RowOf(Searched(sellers, search)[i], sales)
  {
    var kept := Searched(sellers, search);
    seq(|kept|, i requires 0 <= i < |kept| => RowOf(kept[i], sales))
  }

  /** `getAll`: page `page` of the listing, `per_page` rows a page (20 when it
      is not sent, the model's 15 when it is sent empty or 0). */
  function GetAll(sellers: seq<Seller>, sales: seq<Sale>, search: Option<string>, perPage: PageSizeParam, page: nat): (rows: seq<SellerRow>)
    requires page >= 1
    ensures |rows| <= PerPage(perPage)
    ensures forall r :: r in rows ==> r.seller in sellers && SearchMatches(search, r.seller) && r == RowOf(r.seller, sales)
    ensures PageOf(rows, ListSellers(sellers, sales, search), PageStart(page, PerPage(perPage)), PerPage(perPage))
  {
    var all := ListSellers(sellers, sales, search);
    PageMembers(all, page, PerPage(perPage));
    forall r | r in all ensures r.seller in sellers && SearchMatches(search, r.seller) && r == RowOf(r.seller, sales) {
      var i :| 0 <= i < |all| && all[i] == r;
      assert Searched(sellers, search)[i] in Searched(sellers, search);
    }
    Paginate(all, page, PerPage(perPage))
  }

  /** Every registered seller the search keeps has its row on some page. */
  lemma SellerOnSomePage(sellers: seq<Seller>, sales: seq<Sale>, search: Option<string>, perPage: PageSizeParam, seller: Seller)
    requires seller in sellers && SearchMatches(search, seller)
    ensures exists page: nat :: page >= 1 && RowOf(seller, sales) in GetAll(sellers, sales, search, perPage, page)
  {
    var all, size := ListSellers(sellers, sales, search), PerPage(perPage);
    var kept := Searched(sellers, search);
    var i :| 0 <= i < |kept| && kept[i] == seller;
    assert all[i] == RowOf(seller, sales);
    ItemOnSomePage(all, size, RowOf(seller, sales));
    var page: nat :| page >= 1 && RowOf(seller, sales) in Paginate(all, page, size);
    assert RowOf(seller, sales) in GetAll(sellers, sales, search, perPage, page);
  }

  /** A search that applies keeps exactly the sellers whose name or email starts with it. */
  lemma SearchKeepsPrefixMatches(sellers: seq<Seller>, search: string, x: Seller)
    requires search != ""
    ensures x in Searched(sellers, Some(search)) <==> x in sellers && (search <= x.name || search <= x.email)
  {
  }

  // ---------------------------------------------------------------------------
  // getSalesBySeller: the seller's sales, with optional inclusive date bounds
  // ---------------------------------------------------------------------------

  /** `$seller->sales()`, then `whereDate('sale_date', '>=', from)` when
      `date_from` is present and `whereDate('sale_date', '<=', to)` when
      `date_to` is. */
  function SalesBySeller(seller: Seller, sales: seq<Sale>, dateFrom: Option<Date>, dateTo: Option<Date>): (r: seq<Sale>)
    ensures forall s :: s in r <==>
      s in sales && s.sellerId == seller.id
      && (dateFrom.None? || s.saleDate >= dateFrom.value)
      && (dateTo.None? || s.saleDate <= dateTo.value)
  {
    var mine := Where(sales, SellerIs(seller.id));
    var fromCond, toCond := DateFrom(OrElse(dateFrom, 0)), DateTo(OrElse(dateTo, 0));
    var from := if dateFrom.Some? then Where(mine, fromCond) else mine;
    WhereMembers(sales, SellerIs(seller.id));
    WhereMembers(mine, fromCond);
    WhereMembers(from, toCond);
    if dateTo.Some? then Where(from, toCond) else from
  }

  /** The seller's sales come back in storage order. */
  lemma SalesBySellerInOrder(seller: Seller, sales: seq<Sale>, dateFrom: Option<Date>, dateTo: Option<Date>)
    ensures IsSubsequence(SalesBySeller(seller, sales, dateFrom, dateTo), sales)
  {
    var mine := Where(sales, SellerIs(seller.id));
    var from := if dateFrom.Some? then Where(mine, DateFrom(dateFrom.value)) else mine;
    WhereInOrder(sales, SellerIs(seller.id));
    if dateFrom.Some? {
      WhereInOrder(mine, DateFrom(dateFrom.value));
      SubsequenceTransitive(from, mine, sales);
    }
    if dateTo.Some? {
      WhereInOrder(from, DateTo(dateTo.value));
      SubsequenceTransitive(Where(from, DateTo(dateTo.value)), from, sales);
    }
  }

  // ---------------------------------------------------------------------------
  // The seller register: create, update, delete
  // ---------------------------------------------------------------------------

  function IndexOfSeller(sellers: seq<Seller>, id: nat): (r: Option<nat>)
    ensures r.Some? ==> r.value < |sellers| && sellers[r.value].id == id
    ensures r.None? ==> forall i :: 0 <= i < |sellers| ==> sellers[i].id != id
  {
    IndexWhere(sellers, (s: Seller) => s.id == id)
  }

  /** `$seller->update($data)`: the supplied attributes replace the stored ones. */
  function UpdatedSeller(seller: Seller, name: Option<string>, email: Option<string>): (r: Seller)
    ensures r.id == seller.id
    ensures name.None? ==> r.name == seller.name
    ensures email.None? ==> r.email == seller.email
    ensures name.Some? ==> r.name == name.value
    ensures email.Some? ==> r.email == email.value
  {
    Seller(seller.id, if name.Some? then name.value else seller.name, if email.Some? then email.value else seller.email)
  }

  predicate IdsAscending(sellers: seq<Seller>)
  {
    forall i, j :: 0 <= i < j < |sellers| ==> sellers[i].id < sellers[j].id
  }

  /** Removing the seller at `i` keeps the others, in order, and no other seller has its id. */
  lemma RemovedInOrder(sellers: seq<Seller>, i: nat)
    requires i < |sellers| && IdsAscending(sellers)
    ensures IdsAscending(sellers[..i] + sellers[i + 1..])
    ensures forall x :: x in sellers[..i] + sellers[i + 1..] ==> x in sellers && x.id != sellers[i].id
  {
    var rest := sellers[..i] + sellers[i + 1..];
    forall a, b | 0 <= a < b < |rest| ensures rest[a].id < rest[b].id {
      var a', b' := if a < i then a else a + 1, if b < i then b else b + 1;
      assert rest[a] == sellers[a'] && rest[b] == sellers[b'];
    }
    forall x | x in rest ensures x in sellers && x.id != sellers[i].id {
      var k :| 0 <= k < |rest| && rest[k] == x;
      var k' := if k < i then k else k + 1;
      assert sellers[k'] == x;
    }
  }

  class SellerRegistry {
    var sellers: seq<Seller>
    var nextId: nat

    ghost predicate Valid()
      reads this
    {
      && IdsAscending(sellers)
      && (forall i :: 0 <= i < |sellers| ==> sellers[i].id < nextId)
    }

    constructor ()
      ensures Valid() && sellers == [] && nextId == 1
    {
      sellers := [];
      nextId := 1;
    }

    /** `create`: the seller is registered under the next id. */
    method Create(name: string, email: string) returns (seller: Seller)
      requires Valid()
      modifies this
      ensures Valid() && nextId == old(nextId) + 1
      ensures seller == Seller(old(nextId), name, email)
      ensures sellers == old(sellers) + [seller]
    {
      seller := Seller(nextId, name, email);
      sellers := sellers + [seller];
      nextId := nextId + 1;
    }

    /** `update`: only the supplied attributes change, and only on that seller. */
    method Update(id: nat, name: Option<string>, email: Option<string>) returns (found: bool)
      requires Valid()
      modifies this
      ensures Valid() && nextId == old(nextId)
      ensures found <==> IndexOfSeller(old(sellers), id).Some?
      ensures found ==> var i := IndexOfSeller(old(sellers), id).value;
                        sellers == old(sellers)[i := UpdatedSeller(old(sellers)[i], name, email)]
      ensures !found ==> sellers == old(sellers)
    {
      var index := IndexOfSeller(sellers, id);
      found := index.Some?;
      if found {
        var i := index.value;
        sellers := sellers[i := UpdatedSeller(sellers[i], name, email)];
      }
    }

    /** `delete`: that seller leaves the register; the others stay, in order. */
    method Delete(id: nat) returns (found: bool)
      requires Valid()
      modifies this
      ensures Valid() && nextId == old(nextId)
      ensures found <==> IndexOfSeller(old(sellers), id).Some?
      ensures found ==> var i := IndexOfSeller(old(sellers), id).value;
                        sellers == old(sellers)[..i] + old(sellers)[i + 1..]
      ensures !found ==> sellers == old(sellers)
      ensures forall x :: x in sellers ==> x in old(sellers) && x.id != id
    {
      var index := IndexOfSeller(sellers, id);
      found := index.Some?;
      if found {
        var i := index.value;
        RemovedInOrder(sellers, i);
        sellers := sellers[..i] + sellers[i + 1..];
      }
    }
  }
}
