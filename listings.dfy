/**
 * Orderings and selections that several pages share: loans listed featured
 * first and then most recently updated, and the active banks and loan
 * types in their display order.
 */
module Listings {
  import opened Optional
  import opened Entities
  import opened Ordering

  /** `OrderByDescending(l => l.IsFeatured).ThenByDescending(l => l.UpdatedAt)`. */
  function FeaturedFirst(l: Loan): seq<int> {
    [if l.isFeatured then 0 else 1, -(l.updatedAt as int)]
  }

  /** In a list sorted featured first, no featured loan follows an ordinary one, and within each group the most recently updated comes first. */
  lemma FeaturedFirstOrder(s: seq<Loan>, i: int, j: int)
    requires SortedBy(s, FeaturedFirst) && 0 <= i < j < |s|
    ensures s[i].isFeatured || !s[j].isFeatured
    ensures s[i].isFeatured == s[j].isFeatured ==> s[i].updatedAt >= s[j].updatedAt
  {
    var a, b := s[i], s[j];
    assert KeyLe(FeaturedFirst(a), FeaturedFirst(b));
    KeyLePair(if a.isFeatured then 0 else 1, -(a.updatedAt as int), if b.isFeatured then 0 else 1, -(b.updatedAt as int));
  }

  /** `OrderByDescending(at)`: the newest row first (rows with equal times in an unspecified order). */
  function NewestFirst<T>(s: seq<T>, at: T -> int): (r: seq<T>)
    ensures multiset(r) == multiset(s)
    ensures forall i, j :: 0 <= i < j < |r| ==> at(r[i]) >= at(r[j])
  {
    var r := SortBy(s, x => [-at(x)]);
    forall i, j | 0 <= i < j < |r| ensures at(r[i]) >= at(r[j]) {
      KeyLeSingle(-at(r[i]), -at(r[j]));
    }
    r
  }

  function BankDisplayOrder(b: Bank): seq<int> { [b.displayOrder] }

  function LoanTypeDisplayOrder(lt: LoanType): seq<int> { [lt.displayOrder] }

  predicate ActiveBank(b: Bank) { b.isActive }

  predicate ActiveLoanType(lt: LoanType) { lt.isActive }

  /** `Banks.Where(b => b.IsActive).OrderBy(b => b.DisplayOrder)`. */
  function ActiveBanks(banks: seq<Bank>): (r: seq<Bank>)
    ensures forall i :: 0 <= i < |r| ==> r[i] in banks && r[i].isActive
    ensures forall i :: 0 <= i < |banks| && banks[i].isActive ==> banks[i] in r
    ensures forall i, j :: 0 <= i < j < |r| ==> r[i].displayOrder <= r[j].displayOrder
    ensures |r| == |Filter(banks, ActiveBank)|
  {
    var r := OrderedWhere(banks, ActiveBank, BankDisplayOrder);
    forall i, j | 0 <= i < j < |r| ensures r[i].displayOrder <= r[j].displayOrder {
      KeyLeSingle(r[i].displayOrder, r[j].displayOrder);
    }
    r
  }

  /** `LoanTypes.Where(lt => lt.IsActive).OrderBy(lt => lt.DisplayOrder)`. */
  function ActiveLoanTypes(types: seq<LoanType>): (r: seq<LoanType>)
    ensures forall i :: 0 <= i < |r| ==> r[i] in types && r[i].isActive
    ensures forall i :: 0 <= i < |types| && types[i].isActive ==> types[i] in r
    ensures forall i, j :: 0 <= i < j < |r| ==> r[i].displayOrder <= r[j].displayOrder
    ensures |r| == |Filter(types, ActiveLoanType)|
  {
    var r := OrderedWhere(types, ActiveLoanType, LoanTypeDisplayOrder);
    forall i, j | 0 <= i < j < |r| ensures r[i].displayOrder <= r[j].displayOrder {
      KeyLeSingle(r[i].displayOrder, r[j].displayOrder);
    }
    r
  }

  /** `Where(p).OrderByDescending(at).Take(n)`: at most `n` qualifying rows, the largest `at` first. */
  function TopNewest<T>(s: seq<T>, p: T -> bool, at: T -> int, n: nat): (r: seq<T>)
    ensures |r| <= n
    ensures forall i :: 0 <= i < |r| ==> r[i] in s && p(r[i])
    ensures forall i, j :: 0 <= i < j < |r| ==> at(r[i]) >= at(r[j])
  {
    var q := NewestFirst(Filter(s, p), at);
    var r := Take(q, n);
    forall i | 0 <= i < |r| ensures r[i] in s && p(r[i]) {
      assert r[i] in multiset(q);
    }
    r
  }

  /** No row in `r` has a smaller `at` than `x`. */
  predicate Outranks<T>(r: seq<T>, at: T -> int, x: T) {
    forall i :: 0 <= i < |r| ==> at(r[i]) >= at(x)
  }

  /** A qualifying row is left out only when the list is full of rows at least as large. */
  lemma TopNewestOmits<T>(s: seq<T>, p: T -> bool, at: T -> int, n: nat, x: T)
    requires x in s && p(x) && x !in TopNewest(s, p, at, n)
    ensures |TopNewest(s, p, at, n)| == n && Outranks(TopNewest(s, p, at, n), at, x)
  {
    var f := Filter(s, p);
    var q := NewestFirst(f, at);
    assert x in f;
    assert x in multiset(q);
    var j :| 0 <= j < |q| && q[j] == x;
  }

  /** `a` comes before `b` under OrderByDescending(first).ThenByDescending(second). */
  predicate RanksBefore<T>(first: T -> int, second: T -> int, a: T, b: T) {
    first(a) > first(b) || (first(a) == first(b) && second(a) >= second(b))
  }

  /** `OrderByDescending(first).ThenByDescending(second)`. */
  function RankedBy<T>(s: seq<T>, first: T -> int, second: T -> int): (r: seq<T>)
    ensures multiset(r) == multiset(s)
    ensures forall i, j :: 0 <= i < j < |r| ==> RanksBefore(first, second, r[i], r[j])
  {
    var r := SortBy(s, x => [-first(x), -second(x)]);
    forall i, j | 0 <= i < j < |r| ensures RanksBefore(first, second, r[i], r[j]) {
      KeyLePair(-first(r[i]), -second(r[i]), -first(r[j]), -second(r[j]));
    }
    r
  }

  /** `Where(p).OrderByDescending(first).ThenByDescending(second).Take(n)`. */
  function TopRanked<T>(s: seq<T>, p: T -> bool, first: T -> int, second: T -> int, n: nat): (r: seq<T>)
    ensures |r| <= n
    ensures forall i :: 0 <= i < |r| ==> r[i] in s && p(r[i])
    ensures forall i, j :: 0 <= i < j < |r| ==> RanksBefore(first, second, r[i], r[j])
  {
    var q := RankedBy(Filter(s, p), first, second);
    var r := Take(q, n);
    forall i | 0 <= i < |r| ensures r[i] in s && p(r[i]) {
      assert r[i] in multiset(q);
    }
    r
  }

  /** A qualifying row is left out only when the list is full of rows that rank before it. */
  lemma TopRankedOmits<T>(s: seq<T>, p: T -> bool, first: T -> int, second: T -> int, n: nat, x: T)
    requires x in s && p(x) && x !in TopRanked(s, p, first, second, n)
    ensures |TopRanked(s, p, first, second, n)| == n
    ensures forall i :: 0 <= i < |TopRanked(s, p, first, second, n)| ==>
      RanksBefore(first, second, TopRanked(s, p, first, second, n)[i], x)
  {
    var f := Filter(s, p);
    var q := RankedBy(f, first, second);
    assert x in f;
    assert x in multiset(q);
    var j :| 0 <= j < |q| && q[j] == x;
  }

  /** `Loans.Where(l => l.BankId == bankId && l.IsActive)`, in table order. */
  function ActiveLoansOf(loans: seq<Loan>, bankId: int): (r: seq<Loan>)
    ensures forall l :: l in r <==> l in loans && l.bankId == bankId && l.isActive
  {
    var p := (l: Loan) => l.bankId == bankId && l.isActive;
    FilterMembers(loans, p);
    Filter(loans, p)
  }

  /** A bank as the bank list shows it, with its active loans attached. */
  datatype BankCard = BankCard(bank: Bank, loans: seq<Loan>)

  /** `bank.Loans = Loans.Where(l => l.BankId == bank.Id && l.IsActive)`. */
  function CardOf(loans: seq<Loan>, b: Bank): BankCard {
    BankCard(b, ActiveLoansOf(loans, b.id))
  }

  /** The active banks in display order, each carrying only its own active loans. */
  function BanksWithLoans(banks: seq<Bank>, loans: seq<Loan>): (r: seq<BankCard>)
    ensures |r| == |ActiveBanks(banks)|
    ensures forall k :: 0 <= k < |r| ==> r[k].bank == ActiveBanks(banks)[k]
    ensures forall k :: 0 <= k < |r| ==> r[k].loans == ActiveLoansOf(loans, r[k].bank.id)
  {
    Select(ActiveBanks(banks), (b: Bank) => CardOf(loans, b))
  }

  /** The list shows every active bank and no other, in display order. */
  lemma BanksWithLoansShows(banks: seq<Bank>, loans: seq<Loan>)
    ensures forall k :: 0 <= k < |BanksWithLoans(banks, loans)| ==>
      BanksWithLoans(banks, loans)[k].bank in banks && BanksWithLoans(banks, loans)[k].bank.isActive
    ensures forall i :: 0 <= i < |banks| && banks[i].isActive ==>
      exists k :: 0 <= k < |BanksWithLoans(banks, loans)| && BanksWithLoans(banks, loans)[k].bank == banks[i]
    ensures forall j, k :: 0 <= j < k < |BanksWithLoans(banks, loans)| ==>
      BanksWithLoans(banks, loans)[j].bank.displayOrder <= BanksWithLoans(banks, loans)[k].bank.displayOrder
  {
    var r := BanksWithLoans(banks, loans);
    var active := ActiveBanks(banks);
    forall i | 0 <= i < |banks| && banks[i].isActive ensures exists k :: 0 <= k < |r| && r[k].bank == banks[i] {
      var k :| 0 <= k < |active| && active[k] == banks[i];
      assert r[k].bank == banks[i];
    }
  }
}
