/** Shared vocabulary of the back office model: optional values, calendar days,
    money in cents, decimal digits, order-preserving sub-lists and pages. */
module Common {

  datatype Option<+T> = None | Some(value: T)

  /** The outcome of an operation that can be refused with an error. */
  datatype Result<+T, +E> = Ok(value: T) | Err(error: E)

  /** The value, or `d` when there is none. */
  function OrElse<T>(o: Option<T>, d: T): T
  {
    if o.Some? then o.value else d
  }

  /** A calendar day, as a day number: the day after `d` is `d + 1`. */
  type Date = int

  /** A money amount in whole cents (the DECIMAL(…,2) columns). */
  type Cents = int

  // ---------------------------------------------------------------------------
  // Looking a row up
  // ---------------------------------------------------------------------------

  /** The position of the first element satisfying `p` (`findIndex`, a lookup by
      primary key), None when no element does. */
  function IndexWhere<T>(xs: seq<T>, p: T -> bool): (r: Option<nat>)
    ensures r.Some? ==> r.value < |xs| && p(xs[r.value])
                        && forall j :: 0 <= j < r.value ==> !p(xs[j])
    ensures r.None? ==> forall j :: 0 <= j < |xs| ==> !p(xs[j])
    decreases |xs|
  {
    if xs == [] then None
    else if p(xs[0]) then Some(0)
    else
      match IndexWhere(xs[1..], p)
      case None => None
      case Some(i) => Some(i + 1)
  }

  /** A match at `i` with none before it is the one the lookup finds. */
  lemma FirstMatchIsIndex<T>(xs: seq<T>, p: T -> bool, i: nat)
    requires i < |xs| && p(xs[i])
    requires forall j :: 0 <= j < i ==> !p(xs[j])
    ensures IndexWhere(xs, p) == Some(i)
  {
    var r := IndexWhere(xs, p);
    assert r.Some? && r.value <= i && r.value >= i;
  }

  // ---------------------------------------------------------------------------
  // Order-preserving sub-lists
  // ---------------------------------------------------------------------------

  /** `sub` is `xs` with some elements left out and the rest kept in order. */
  predicate IsSubsequence<T(==)>(sub: seq<T>, xs: seq<T>)
    decreases |xs|
  {
    if sub == [] then true
    else if xs == [] then false
    else if sub[0] == xs[0] then IsSubsequence(sub[1..], xs[1..])
    else IsSubsequence(sub, xs[1..])
  }

  lemma {:induction false} SubsequenceDropHead<T>(sub: seq<T>, xs: seq<T>)
    requires sub != [] && IsSubsequence(sub, xs)
    ensures IsSubsequence(sub[1..], xs)
    decreases |xs|, 0
  {
    if sub[0] == xs[0] {
      SubsequenceSkip(sub[1..], xs[1..], xs[0]);
      assert [xs[0]] + xs[1..] == xs;
    } else {
      SubsequenceDropHead(sub, xs[1..]);
      SubsequenceSkip(sub[1..], xs[1..], xs[0]);
      assert [xs[0]] + xs[1..] == xs;
    }
  }

  /** A sub-list stays a sub-list when an element is put in front of the list. */
  lemma {:induction false} SubsequenceSkip<T>(sub: seq<T>, xs: seq<T>, x: T)
    requires IsSubsequence(sub, xs)
    ensures IsSubsequence(sub, [x] + xs)
    decreases |xs|, 1
  {
    var ys := [x] + xs;
    assert ys[1..] == xs;
    if sub != [] && sub[0] == x {
      SubsequenceDropHead(sub, xs);
    }
  }

  /** A list with its head kept is a sub-list when the tail is. */
  lemma SubsequenceKeep<T>(sub: seq<T>, xs: seq<T>, x: T)
    requires IsSubsequence(sub, xs)
    ensures IsSubsequence([x] + sub, [x] + xs)
  {
    assert ([x] + sub)[1..] == sub;
    assert ([x] + xs)[1..] == xs;
  }

  lemma {:induction false} SubsequenceTransitive<T>(a: seq<T>, b: seq<T>, c: seq<T>)
    requires IsSubsequence(a, b) && IsSubsequence(b, c)
    ensures IsSubsequence(a, c)
    decreases |c|
  {
    if a != [] {
      assert [c[0]] + c[1..] == c;
      if b[0] == c[0] {
        if a[0] == b[0] {
          SubsequenceTransitive(a[1..], b[1..], c[1..]);
        } else {
          SubsequenceTransitive(a, b[1..], c[1..]);
          SubsequenceSkip(a, c[1..], c[0]);
        }
      } else {
        SubsequenceTransitive(a, b, c[1..]);
        SubsequenceSkip(a, c[1..], c[0]);
      }
    }
  }

  lemma {:induction false} SubsequenceOfSelf<T>(xs: seq<T>)
    ensures IsSubsequence(xs, xs)
    decreases |xs|
  {
    if xs != [] {
      SubsequenceOfSelf(xs[1..]);
    }
  }

  // ---------------------------------------------------------------------------
  // Decimal digits
  // ---------------------------------------------------------------------------

  function DigitChar(d: nat): (c: char)
    requires d < 10
    ensures '0' <= c <= '9'
  {
    ('0' as int + d) as char
  }

  predicate IsDigit(c: char) { '0' <= c <= '9' }

  function DigitValue(c: char): (d: nat)
    requires IsDigit(c)
    ensures d < 10
  {
    c as int - '0' as int
  }

  predicate AllDigits(s: string) { forall i :: 0 <= i < |s| ==> IsDigit(s[i]) }

  /** The decimal numeral of `n`, without leading zeros. */
  function NatToString(n: nat): (s: string)
    ensures s != [] && AllDigits(s)
    decreases n
  {
    if n < 10 then [DigitChar(n)] else NatToString(n / 10) + [DigitChar(n % 10)]
  }

  /** The number a string of decimal digits denotes. */
  function DigitsValue(s: string): nat
    requires AllDigits(s)
    decreases |s|
  {
    if s == [] then 0 else DigitsValue(s[..|s| - 1]) * 10 + DigitValue(s[|s| - 1])
  }

  lemma {:induction false} NatToStringRoundTrip(n: nat)
    ensures DigitsValue(NatToString(n)) == n
    decreases n
  {
    var s := NatToString(n);
    if n >= 10 {
      NatToStringRoundTrip(n / 10);
      assert s[..|s| - 1] == NatToString(n / 10);
    }
  }

  /** The decimal numeral of an integer, with a leading '-' when negative
      (JavaScript's `Number.prototype.toString` on an integer). */
  function IntToString(i: int): (s: string)
    ensures s != []
    ensures i < 0 <==> s[0] == '-'
  {
    if i < 0 then "-" + NatToString(-i) else NatToString(i)
  }

  // ---------------------------------------------------------------------------
  // Pages of a listing
  // ---------------------------------------------------------------------------

  /** `r` is the window of `items` that starts at position `from` and holds
      `size` items, or as many as the listing has left. */
  ghost predicate PageOf<T>(r: seq<T>, items: seq<T>, from: nat, size: nat)
  {
    && |r| == (if from >= |items| then 0 else if from + size <= |items| then size else |items| - from)
    && forall k :: 0 <= k < |r| ==> from + k < |items| && r[k] == items[from + k]
  }

  /** The position in the listing where page `page` (counted from 1) starts. */
  function PageStart(page: nat, perPage: nat): nat
    requires page >= 1
  {
    (page - 1) * perPage
  }

  /** Page `page` (counted from 1) of `perPage` items of a listing. */
  function Paginate<T>(items: seq<T>, page: nat, perPage: nat): (r: seq<T>)
    requires page >= 1 && perPage >= 1
    ensures |r| <= perPage
    ensures PageOf(r, items, PageStart(page, perPage), perPage)
  {
    var from := PageStart(page, perPage);
    if from >= |items| then []
    else if from + perPage <= |items| then items[from..from + perPage]
    else items[from..]
  }

  /** A page holds only items of the listing. */
  lemma PageMembers<T>(list: seq<T>, page: nat, perPage: nat)
    requires page >= 1 && perPage >= 1
    ensures forall s :: s in Paginate(list, page, perPage) ==> s in list
  {
    var r := Paginate(list, page, perPage);
    var from := PageStart(page, perPage);
    forall s | s in r ensures s in list {
      var k :| 0 <= k < |r| && r[k] == s;
      assert list[from + k] == s;
    }
  }

  /** Every item of a listing is on a page: item `i` is entry `i % perPage`
      of page `i / perPage + 1`. */
  lemma ItemOnItsPage<T>(items: seq<T>, perPage: nat, i: nat)
    requires perPage >= 1 && i < |items|
    ensures var r := Paginate(items, i / perPage + 1, perPage);
            i % perPage < |r| && r[i % perPage] == items[i]
  {
    var page, k := i / perPage + 1, i % perPage;
    assert PageStart(page, perPage) + k == i;
    var r := Paginate(items, page, perPage);
    assert PageStart(page, perPage) <= i;
    assert k < |r|;
  }

  /** Every item of a listing is on some page of it. */
  lemma ItemOnSomePage<T>(items: seq<T>, perPage: nat, x: T)
    requires perPage >= 1 && x in items
    ensures exists page: nat :: page >= 1 && x in Paginate(items, page, perPage)
  {
    var i :| 0 <= i < |items| && items[i] == x;
    var page, k := PageOfPosition(perPage, i);
    var r := Paginate(items, page, perPage);
    assert k < |r| && r[k] == x;
  }

  /** The page and the place on it of position `i`, found one page at a time. */
  lemma {:induction false} PageOfPosition(perPage: nat, i: nat) returns (page: nat, k: nat)
    requires perPage >= 1
    ensures page >= 1 && k < perPage && PageStart(page, perPage) + k == i
    decreases i
  {
    if i < perPage {
      page, k := 1, i;
      assert PageStart(1, perPage) == 0;
    } else {
      var before, place := PageOfPosition(perPage, i - perPage);
      page, k := before + 1, place;
      assert PageStart(page, perPage) == PageStart(before, perPage) + perPage;
    }
  }

  /** The first page is full when the listing has at least a page of items. */
  lemma FirstPageFull<T>(items: seq<T>, perPage: nat)
    requires perPage >= 1
    ensures perPage <= |items| ==> |Paginate(items, 1, perPage)| == perPage
  {
    assert PageStart(1, perPage) == 0;
  }

  /** A `per_page` query parameter: not sent, sent empty (null once the
      framework has turned the empty string into null), or a number. */
  datatype PageSizeParam = NotSent | SentEmpty | Sent(size: nat)

  /** The services' `input('per_page', 20)` default. */
  const ServicePerPage := 20

  /** The model's page size, which `paginate` uses when given null or 0. */
  const ModelPerPage := 15

  /** The page size a listing is cut into. */
  function PerPage(param: PageSizeParam): (n: nat)
    ensures n >= 1
    ensures param.NotSent? ==> n == ServicePerPage
    ensures param.SentEmpty? ==> n == ModelPerPage
    ensures param.Sent? ==> n == (if param.size == 0 then ModelPerPage else param.size)
  {
    match param
    case NotSent => ServicePerPage
    case SentEmpty => ModelPerPage
    case Sent(size) => if size == 0 then ModelPerPage else size
  }
}
