/**
 * The site's database (Data/ApplicationDbContext.cs) over SQLite.
 *
 * `OnModelCreating` declares unique indexes on Bank.Slug, LoanType.Slug,
 * Loan.Slug, BlogPost.Slug, NewsletterSubscriber.Email and
 * AdminUser.Username, and cascading foreign keys from Loan.BankId and
 * Loan.LoanTypeId. SQLite enforces all of them when changes are saved, and a
 * save that would break one fails as a whole. Keys are AUTOINCREMENT
 * integers, so a deleted row's id is never handed out again.
 */
module Store {
  import opened Optional
  import opened Entities
  import opened Ordering

  /** The next id each table hands out (SQLite's `sqlite_sequence`). */
  datatype Counters = Counters(bank: int, loanType: int, loan: int, subscriber: int, visit: int, post: int, admin: int)

  /** The contents of every table, in store (rowid) order. */
  datatype Tables = Tables(
    banks: seq<Bank>,
    loanTypes: seq<LoanType>,
    loans: seq<Loan>,
    subscribers: seq<NewsletterSubscriber>,
    visits: seq<PageVisit>,
    posts: seq<BlogPost>,
    admins: seq<AdminUser>,
    next: Counters)

  function BankId(b: Bank): int { b.id }
  function LoanTypeId(lt: LoanType): int { lt.id }
  function LoanId(l: Loan): int { l.id }
  function SubscriberId(s: NewsletterSubscriber): int { s.id }
  function VisitId(v: PageVisit): int { v.id }
  function PostId(p: BlogPost): int { p.id }
  function AdminId(a: AdminUser): int { a.id }

  function BankSlug(b: Bank): string { b.slug }
  function LoanTypeSlug(lt: LoanType): string { lt.slug }
  function LoanSlug(l: Loan): string { l.slug }
  function PostSlug(p: BlogPost): string { p.slug }
  function SubscriberEmail(s: NewsletterSubscriber): string { s.email }
  function AdminUsername(a: AdminUser): string { a.username }

  // ------------------------------------------------------------------ keys

  /** Ids are positive, below the table's counter, and ascend in store order. */
  predicate IdsIncreasing<T>(s: seq<T>, id: T -> int, next: int) {
    0 < next
    && (forall i :: 0 <= i < |s| ==> 0 < id(s[i]) < next)
    && (forall i, j :: 0 <= i < j < |s| ==> id(s[i]) < id(s[j]))
  }

  predicate HasId<T>(s: seq<T>, id: T -> int, x: int) {
    exists i :: 0 <= i < |s| && id(s[i]) == x
  }

  /** The primary keys and AUTOINCREMENT counters of every table. */
  predicate Keys(t: Tables) {
    IdsIncreasing(t.banks, BankId, t.next.bank)
    && IdsIncreasing(t.loanTypes, LoanTypeId, t.next.loanType)
    && IdsIncreasing(t.loans, LoanId, t.next.loan)
    && IdsIncreasing(t.subscribers, SubscriberId, t.next.subscriber)
    && IdsIncreasing(t.visits, VisitId, t.next.visit)
    && IdsIncreasing(t.posts, PostId, t.next.post)
    && IdsIncreasing(t.admins, AdminId, t.next.admin)
  }

  // ----------------------------------------------------------- constraints

  /** A unique index: no two rows share the key. */
  predicate Unique<T>(s: seq<T>, key: T -> string) {
    forall i, j :: 0 <= i < j < |s| ==> key(s[i]) != key(s[j])
  }

  /** Every loan's bank and loan type exist. */
  predicate LoansReferenced(t: Tables) {
    forall i :: 0 <= i < |t.loans| ==>
      HasId(t.banks, BankId, t.loans[i].bankId) && HasId(t.loanTypes, LoanTypeId, t.loans[i].loanTypeId)
  }

  /** What SQLite checks when changes are saved: the unique indexes and the foreign keys. */
  predicate Constraints(t: Tables) {
    Unique(t.banks, BankSlug)
    && Unique(t.loanTypes, LoanTypeSlug)
    && Unique(t.loans, LoanSlug)
    && Unique(t.posts, PostSlug)
    && Unique(t.subscribers, SubscriberEmail)
    && Unique(t.admins, AdminUsername)
    && LoansReferenced(t)
  }

  predicate Consistent(t: Tables) {
    Keys(t) && Constraints(t)
  }

  // --------------------------------------------------------------- lookups

  /** `FindAsync(id)`: the position of the row with primary key `x`. */
  function Find<T>(s: seq<T>, id: T -> int, x: int): (r: Option<nat>)
    ensures r.Some? ==> r.value < |s| && id(s[r.value]) == x
    ensures r.None? <==> !HasId(s, id, x)
  {
    FirstIndex(s, e => id(e) == x)
  }

  /** `AnyAsync(e => e.Key == k)`. */
  predicate KeyTaken<T>(s: seq<T>, key: T -> string, k: string) {
    exists i :: 0 <= i < |s| && key(s[i]) == k
  }

  /** `AnyAsync(e => e.Key == k && e.Id != id)`: taken by a row other than `id`. */
  predicate KeyTakenByOther<T>(s: seq<T>, key: T -> string, id: T -> int, k: string, x: int) {
    exists i :: 0 <= i < |s| && key(s[i]) == k && id(s[i]) != x
  }

  // ------------------------------------------------------------ row changes

  /** `Add` then save: the row gets the table's next id. */
  function Append<T>(s: seq<T>, row: T): seq<T> { s + [row] }

  /** Removing a bank removes, by cascade, every loan of that bank. */
  function RemoveBank(t: Tables, id: int): (r: Tables)
    ensures r == t.(banks := r.banks, loans := r.loans)
    ensures forall i :: 0 <= i < |r.banks| ==> r.banks[i] in t.banks && r.banks[i].id != id
    ensures forall i :: 0 <= i < |t.banks| && t.banks[i].id != id ==> t.banks[i] in r.banks
    ensures forall i :: 0 <= i < |r.loans| ==> r.loans[i] in t.loans && r.loans[i].bankId != id
    ensures forall i :: 0 <= i < |t.loans| && t.loans[i].bankId != id ==> t.loans[i] in r.loans
  {
    t.(banks := Filter(t.banks, (b: Bank) => b.id != id),
       loans := Filter(t.loans, (l: Loan) => l.bankId != id))
  }

  /** Removing a loan type removes, by cascade, every loan of that type. */
  function RemoveLoanType(t: Tables, id: int): (r: Tables)
    ensures r == t.(loanTypes := r.loanTypes, loans := r.loans)
    ensures forall i :: 0 <= i < |r.loanTypes| ==> r.loanTypes[i] in t.loanTypes && r.loanTypes[i].id != id
    ensures forall i :: 0 <= i < |t.loanTypes| && t.loanTypes[i].id != id ==> t.loanTypes[i] in r.loanTypes
    ensures forall i :: 0 <= i < |r.loans| ==> r.loans[i] in t.loans && r.loans[i].loanTypeId != id
    ensures forall i :: 0 <= i < |t.loans| && t.loans[i].loanTypeId != id ==> t.loans[i] in r.loans
  {
    t.(loanTypes := Filter(t.loanTypes, (lt: LoanType) => lt.id != id),
       loans := Filter(t.loans, (l: Loan) => l.loanTypeId != id))
  }

  // ---------------------------------------------------------------- lemmas

  lemma AppendKeys<T>(s: seq<T>, id: T -> int, next: int, row: T)
    requires IdsIncreasing(s, id, next) && id(row) == next
    ensures IdsIncreasing(Append(s, row), id, next + 1)
  {
  }

  lemma UpdateKeys<T>(s: seq<T>, id: T -> int, next: int, i: int, row: T)
    requires IdsIncreasing(s, id, next) && 0 <= i < |s| && id(row) == id(s[i])
    ensures IdsIncreasing(s[i := row], id, next)
  {
  }

  /** Deleting rows keeps the remaining ids ascending. */
  lemma {:induction false} FilterKeys<T>(s: seq<T>, id: T -> int, next: int, p: T -> bool)
    requires IdsIncreasing(s, id, next)
    ensures IdsIncreasing(Filter(s, p), id, next)
  {
    if s != [] {
      FilterKeys(s[1..], id, next, p);
      var rest := Filter(s[1..], p);
      if p(s[0]) {
        forall k | 0 <= k < |rest| ensures id(s[0]) < id(rest[k]) {
          var j :| 0 <= j < |s[1..]| && s[1..][j] == rest[k];
          assert s[j + 1] == rest[k];
        }
        ConsKeys(s[0], rest, id, next);
        assert Filter(s, p) == [s[0]] + rest;
      } else {
        assert Filter(s, p) == rest;
      }
    }
  }

  /** A row whose id is below every id of an ascending table can go in front of it. */
  lemma ConsKeys<T>(x: T, rest: seq<T>, id: T -> int, next: int)
    requires IdsIncreasing(rest, id, next) && 0 < id(x) < next
    requires forall k :: 0 <= k < |rest| ==> id(x) < id(rest[k])
    ensures IdsIncreasing([x] + rest, id, next)
  {
    var r := [x] + rest;
    forall a, b | 0 <= a < b < |r| ensures id(r[a]) < id(r[b]) {
      if a > 0 {
        assert r[a] == rest[a - 1];
      }
      assert r[b] == rest[b - 1];
    }
    forall a | 0 <= a < |r| ensures 0 < id(r[a]) < next {
      if a > 0 {
        assert r[a] == rest[a - 1];
      }
    }
  }

  /** Deleting rows keeps a unique index unique. */
  lemma {:induction false} FilterUnique<T>(s: seq<T>, key: T -> string, p: T -> bool)
    requires Unique(s, key)
    ensures Unique(Filter(s, p), key)
  {
    if s != [] {
      FilterUnique(s[1..], key, p);
      var rest := Filter(s[1..], p);
      if p(s[0]) {
        var r := [s[0]] + rest;
        assert Filter(s, p) == r;
        forall a, b | 0 <= a < b < |r| ensures key(r[a]) != key(r[b]) {
          if a == 0 {
            var k :| 0 <= k < |s[1..]| && s[1..][k] == r[b];
            assert s[k + 1] == r[b];
          } else {
            assert r[a] == rest[a - 1] && r[b] == rest[b - 1];
          }
        }
      } else {
        assert Filter(s, p) == rest;
      }
    }
  }

  /** A slug or email not yet taken can be added without breaking the unique index. */
  lemma AppendUnique<T>(s: seq<T>, key: T -> string, row: T)
    requires Unique(s, key) && !KeyTaken(s, key, key(row))
    ensures Unique(Append(s, row), key)
  {
    var r := Append(s, row);
    forall i, j | 0 <= i < j < |r| ensures key(r[i]) != key(r[j]) {
      if j == |s| {
        assert r[i] == s[i];
      }
    }
  }

  /** Changing one row to a key no other row has keeps the index unique. */
  lemma UpdateUnique<T>(s: seq<T>, key: T -> string, id: T -> int, next: int, i: int, row: T)
    requires Unique(s, key) && IdsIncreasing(s, id, next) && 0 <= i < |s| && id(row) == id(s[i])
    requires !KeyTakenByOther(s, key, id, key(row), id(row))
    ensures Unique(s[i := row], key)
  {
    var r := s[i := row];
    forall a, b | 0 <= a < b < |r| ensures key(r[a]) != key(r[b]) {
      if a == i {
        assert id(s[b]) != id(row);
      } else if b == i {
        assert id(s[a]) != id(row);
      }
    }
  }

  /** Rewriting a loan's non-key columns (its view count, its active flag) never violates a constraint. */
  lemma SameKeysLoanConsistent(t: Tables, i: int, row: Loan)
    requires Consistent(t) && 0 <= i < |t.loans|
    requires row.id == t.loans[i].id && row.slug == t.loans[i].slug
    requires row.bankId == t.loans[i].bankId && row.loanTypeId == t.loans[i].loanTypeId
    ensures Consistent(t.(loans := t.loans[i := row]))
  {
    UpdateKeys(t.loans, LoanId, t.next.loan, i, row);
    UpdateUnique(t.loans, LoanSlug, LoanId, t.next.loan, i, row);
  }

  /** Rewriting a post's non-key columns (its view count) never violates a constraint. */
  lemma SameKeysPostConsistent(t: Tables, i: int, row: BlogPost)
    requires Consistent(t) && 0 <= i < |t.posts|
    requires row.id == t.posts[i].id && row.slug == t.posts[i].slug
    ensures Consistent(t.(posts := t.posts[i := row]))
  {
    UpdateKeys(t.posts, PostId, t.next.post, i, row);
    UpdateUnique(t.posts, PostSlug, PostId, t.next.post, i, row);
  }

  /** Deleting a bank never violates a constraint: its loans go with it. */
  lemma RemoveBankConsistent(t: Tables, id: int)
    requires Consistent(t)
    ensures Consistent(RemoveBank(t, id))
  {
    var r := RemoveBank(t, id);
    FilterKeys(t.banks, BankId, t.next.bank, (b: Bank) => b.id != id);
    FilterKeys(t.loans, LoanId, t.next.loan, (l: Loan) => l.bankId != id);
    FilterUnique(t.banks, BankSlug, (b: Bank) => b.id != id);
    FilterUnique(t.loans, LoanSlug, (l: Loan) => l.bankId != id);
    forall i | 0 <= i < |r.loans|
      ensures HasId(r.banks, BankId, r.loans[i].bankId)
    {
      var l := r.loans[i];
      var k :| 0 <= k < |t.loans| && t.loans[k] == l;
      var j :| 0 <= j < |t.banks| && t.banks[j].id == l.bankId;
      var m :| 0 <= m < |r.banks| && r.banks[m] == t.banks[j];
    }
  }

  /** Deleting a loan type never violates a constraint: its loans go with it. */
  lemma RemoveLoanTypeConsistent(t: Tables, id: int)
    requires Consistent(t)
    ensures Consistent(RemoveLoanType(t, id))
  {
    var r := RemoveLoanType(t, id);
    FilterKeys(t.loanTypes, LoanTypeId, t.next.loanType, (lt: LoanType) => lt.id != id);
    FilterKeys(t.loans, LoanId, t.next.loan, (l: Loan) => l.loanTypeId != id);
    FilterUnique(t.loanTypes, LoanTypeSlug, (lt: LoanType) => lt.id != id);
    FilterUnique(t.loans, LoanSlug, (l: Loan) => l.loanTypeId != id);
    forall i | 0 <= i < |r.loans|
      ensures HasId(r.loanTypes, LoanTypeId, r.loans[i].loanTypeId)
    {
      var l := r.loans[i];
      var k :| 0 <= k < |t.loans| && t.loans[k] == l;
      var j :| 0 <= j < |t.loanTypes| && t.loanTypes[j].id == l.loanTypeId;
      var m :| 0 <= m < |r.loanTypes| && r.loanTypes[m] == t.loanTypes[j];
    }
  }

  // ------------------------------------------------------- inserts and edits

  /** `Loans.Add(row)`: the row is stored under the table's next id. */
  function AddLoan(t: Tables, row: Loan): Tables {
    t.(loans := Append(t.loans, row.(id := t.next.loan)), next := t.next.(loan := t.next.loan + 1))
  }

  function AddBank(t: Tables, row: Bank): Tables {
    t.(banks := Append(t.banks, row.(id := t.next.bank)), next := t.next.(bank := t.next.bank + 1))
  }

  function AddLoanType(t: Tables, row: LoanType): Tables {
    t.(loanTypes := Append(t.loanTypes, row.(id := t.next.loanType)), next := t.next.(loanType := t.next.loanType + 1))
  }

  function AddPost(t: Tables, row: BlogPost): Tables {
    t.(posts := Append(t.posts, row.(id := t.next.post)), next := t.next.(post := t.next.post + 1))
  }

  function AddSubscriber(t: Tables, row: NewsletterSubscriber): Tables {
    t.(subscribers := Append(t.subscribers, row.(id := t.next.subscriber)), next := t.next.(subscriber := t.next.subscriber + 1))
  }

  /** A unique index accepts an appended row exactly when its key is not taken yet. */
  lemma AppendUniqueIff<T>(s: seq<T>, key: T -> string, row: T)
    requires Unique(s, key)
    ensures Unique(Append(s, row), key) <==> !KeyTaken(s, key, key(row))
  {
    var r := Append(s, row);
    if KeyTaken(s, key, key(row)) {
      var i :| 0 <= i < |s| && key(s[i]) == key(row);
      assert key(r[i]) == key(r[|s|]);
    } else {
      AppendUnique(s, key, row);
    }
  }

  /** A unique index accepts a rewritten row exactly when no other row has its key. */
  lemma UpdateUniqueIff<T>(s: seq<T>, key: T -> string, id: T -> int, next: int, i: int, row: T)
    requires Unique(s, key) && IdsIncreasing(s, id, next) && 0 <= i < |s| && id(row) == id(s[i])
    ensures Unique(s[i := row], key) <==> !KeyTakenByOther(s, key, id, key(row), id(row))
  {
    if KeyTakenByOther(s, key, id, key(row), id(row)) {
      var j :| 0 <= j < |s| && key(s[j]) == key(row) && id(s[j]) != id(row);
      var r := s[i := row];
      assert j != i && r[j] == s[j] && r[i] == row;
      if j < i { assert key(r[j]) == key(r[i]); } else { assert key(r[i]) == key(r[j]); }
    } else {
      UpdateUnique(s, key, id, next, i, row);
    }
  }

  /** Adding a loan satisfies every constraint exactly when its slug is free and its bank and type exist. */
  lemma AddLoanConsistent(t: Tables, row: Loan)
    requires Consistent(t)
    ensures Keys(AddLoan(t, row))
    ensures Constraints(AddLoan(t, row)) <==>
      !KeyTaken(t.loans, LoanSlug, row.slug)
      && HasId(t.banks, BankId, row.bankId) && HasId(t.loanTypes, LoanTypeId, row.loanTypeId)
  {
    var r := AddLoan(t, row);
    var stored := row.(id := t.next.loan);
    AppendKeys(t.loans, LoanId, t.next.loan, stored);
    AppendUniqueIff(t.loans, LoanSlug, stored);
    assert r.loans[|t.loans|] == stored;
    assert forall i :: 0 <= i < |t.loans| ==> r.loans[i] == t.loans[i];
  }

  /** Adding a bank satisfies every constraint exactly when its slug is free. */
  lemma AddBankConsistent(t: Tables, row: Bank)
    requires Consistent(t)
    ensures Keys(AddBank(t, row))
    ensures Constraints(AddBank(t, row)) <==> !KeyTaken(t.banks, BankSlug, row.slug)
  {
    var r := AddBank(t, row);
    var stored := row.(id := t.next.bank);
    AppendKeys(t.banks, BankId, t.next.bank, stored);
    AppendUniqueIff(t.banks, BankSlug, stored);
    forall i | 0 <= i < |r.loans| ensures HasId(r.banks, BankId, r.loans[i].bankId) {
      var j :| 0 <= j < |t.banks| && t.banks[j].id == t.loans[i].bankId;
      assert r.banks[j] == t.banks[j];
    }
  }

  /** Adding a loan type satisfies every constraint exactly when its slug is free. */
  lemma AddLoanTypeConsistent(t: Tables, row: LoanType)
    requires Consistent(t)
    ensures Keys(AddLoanType(t, row))
    ensures Constraints(AddLoanType(t, row)) <==> !KeyTaken(t.loanTypes, LoanTypeSlug, row.slug)
  {
    var r := AddLoanType(t, row);
    var stored := row.(id := t.next.loanType);
    AppendKeys(t.loanTypes, LoanTypeId, t.next.loanType, stored);
    AppendUniqueIff(t.loanTypes, LoanTypeSlug, stored);
    forall i | 0 <= i < |r.loans| ensures HasId(r.loanTypes, LoanTypeId, r.loans[i].loanTypeId) {
      var j :| 0 <= j < |t.loanTypes| && t.loanTypes[j].id == t.loans[i].loanTypeId;
      assert r.loanTypes[j] == t.loanTypes[j];
    }
  }

  /** Adding a post satisfies every constraint exactly when its slug is free. */
  lemma AddPostConsistent(t: Tables, row: BlogPost)
    requires Consistent(t)
    ensures Keys(AddPost(t, row))
    ensures Constraints(AddPost(t, row)) <==> !KeyTaken(t.posts, PostSlug, row.slug)
  {
    var stored := row.(id := t.next.post);
    AppendKeys(t.posts, PostId, t.next.post, stored);
    AppendUniqueIff(t.posts, PostSlug, stored);
  }

  /** Adding a subscriber satisfies every constraint exactly when the email is not subscribed yet. */
  lemma AddSubscriberConsistent(t: Tables, row: NewsletterSubscriber)
    requires Consistent(t)
    ensures Keys(AddSubscriber(t, row))
    ensures Constraints(AddSubscriber(t, row)) <==> !KeyTaken(t.subscribers, SubscriberEmail, row.email)
  {
    var stored := row.(id := t.next.subscriber);
    AppendKeys(t.subscribers, SubscriberId, t.next.subscriber, stored);
    AppendUniqueIff(t.subscribers, SubscriberEmail, stored);
  }

  /** Rewriting a loan in place satisfies every constraint exactly when no other loan has its slug and its bank and type exist. */
  lemma ReplaceLoanConsistent(t: Tables, i: int, row: Loan)
    requires Consistent(t) && 0 <= i < |t.loans| && row.id == t.loans[i].id
    ensures Keys(t.(loans := t.loans[i := row]))
    ensures Constraints(t.(loans := t.loans[i := row])) <==>
      !KeyTakenByOther(t.loans, LoanSlug, LoanId, row.slug, row.id)
      && HasId(t.banks, BankId, row.bankId) && HasId(t.loanTypes, LoanTypeId, row.loanTypeId)
  {
    var r := t.(loans := t.loans[i := row]);
    UpdateKeys(t.loans, LoanId, t.next.loan, i, row);
    UpdateUniqueIff(t.loans, LoanSlug, LoanId, t.next.loan, i, row);
    assert r.loans[i] == row;
  }

  /** Rewriting a bank in place (its id kept) satisfies every constraint exactly when no other bank has its slug. */
  lemma ReplaceBankConsistent(t: Tables, i: int, row: Bank)
    requires Consistent(t) && 0 <= i < |t.banks| && row.id == t.banks[i].id
    ensures Keys(t.(banks := t.banks[i := row]))
    ensures Constraints(t.(banks := t.banks[i := row])) <==> !KeyTakenByOther(t.banks, BankSlug, BankId, row.slug, row.id)
  {
    var r := t.(banks := t.banks[i := row]);
    UpdateKeys(t.banks, BankId, t.next.bank, i, row);
    UpdateUniqueIff(t.banks, BankSlug, BankId, t.next.bank, i, row);
    forall k | 0 <= k < |r.loans| ensures HasId(r.banks, BankId, r.loans[k].bankId) {
      var j :| 0 <= j < |t.banks| && t.banks[j].id == t.loans[k].bankId;
      assert r.banks[j].id == t.banks[j].id;
    }
  }

  /** Rewriting a loan type in place satisfies every constraint exactly when no other type has its slug. */
  lemma ReplaceLoanTypeConsistent(t: Tables, i: int, row: LoanType)
    requires Consistent(t) && 0 <= i < |t.loanTypes| && row.id == t.loanTypes[i].id
    ensures Keys(t.(loanTypes := t.loanTypes[i := row]))
    ensures Constraints(t.(loanTypes := t.loanTypes[i := row])) <==>
      !KeyTakenByOther(t.loanTypes, LoanTypeSlug, LoanTypeId, row.slug, row.id)
  {
    var r := t.(loanTypes := t.loanTypes[i := row]);
    UpdateKeys(t.loanTypes, LoanTypeId, t.next.loanType, i, row);
    UpdateUniqueIff(t.loanTypes, LoanTypeSlug, LoanTypeId, t.next.loanType, i, row);
    forall k | 0 <= k < |r.loans| ensures HasId(r.loanTypes, LoanTypeId, r.loans[k].loanTypeId) {
      var j :| 0 <= j < |t.loanTypes| && t.loanTypes[j].id == t.loans[k].loanTypeId;
      assert r.loanTypes[j].id == t.loanTypes[j].id;
    }
  }

  /** Rewriting a post in place satisfies every constraint exactly when no other post has its slug. */
  lemma ReplacePostConsistent(t: Tables, i: int, row: BlogPost)
    requires Consistent(t) && 0 <= i < |t.posts| && row.id == t.posts[i].id
    ensures Keys(t.(posts := t.posts[i := row]))
    ensures Constraints(t.(posts := t.posts[i := row])) <==> !KeyTakenByOther(t.posts, PostSlug, PostId, row.slug, row.id)
  {
    UpdateKeys(t.posts, PostId, t.next.post, i, row);
    UpdateUniqueIff(t.posts, PostSlug, PostId, t.next.post, i, row);
  }

  // ---------------------------------------------------------------- deletes

  function RemoveLoan(t: Tables, id: int): (r: Tables)
    ensures r == t.(loans := r.loans)
    ensures forall i :: 0 <= i < |r.loans| ==> r.loans[i] in t.loans && r.loans[i].id != id
    ensures forall i :: 0 <= i < |t.loans| && t.loans[i].id != id ==> t.loans[i] in r.loans
  {
    t.(loans := Filter(t.loans, (l: Loan) => l.id != id))
  }

  function RemovePost(t: Tables, id: int): (r: Tables)
    ensures r == t.(posts := r.posts)
    ensures forall i :: 0 <= i < |r.posts| ==> r.posts[i] in t.posts && r.posts[i].id != id
    ensures forall i :: 0 <= i < |t.posts| && t.posts[i].id != id ==> t.posts[i] in r.posts
  {
    t.(posts := Filter(t.posts, (p: BlogPost) => p.id != id))
  }

  function RemoveSubscriber(t: Tables, id: int): (r: Tables)
    ensures r == t.(subscribers := r.subscribers)
    ensures forall i :: 0 <= i < |r.subscribers| ==> r.subscribers[i] in t.subscribers && r.subscribers[i].id != id
    ensures forall i :: 0 <= i < |t.subscribers| && t.subscribers[i].id != id ==> t.subscribers[i] in r.subscribers
  {
    t.(subscribers := Filter(t.subscribers, (s: NewsletterSubscriber) => s.id != id))
  }

  /** Deleting a loan never violates a constraint: nothing references a loan. */
  lemma RemoveLoanConsistent(t: Tables, id: int)
    requires Consistent(t)
    ensures Consistent(RemoveLoan(t, id))
  {
    FilterKeys(t.loans, LoanId, t.next.loan, (l: Loan) => l.id != id);
    FilterUnique(t.loans, LoanSlug, (l: Loan) => l.id != id);
    var r := RemoveLoan(t, id);
    forall i | 0 <= i < |r.loans|
      ensures HasId(r.banks, BankId, r.loans[i].bankId) && HasId(r.loanTypes, LoanTypeId, r.loans[i].loanTypeId)
    {
      var k :| 0 <= k < |t.loans| && t.loans[k] == r.loans[i];
    }
  }

  lemma RemovePostConsistent(t: Tables, id: int)
    requires Consistent(t)
    ensures Consistent(RemovePost(t, id))
  {
    FilterKeys(t.posts, PostId, t.next.post, (p: BlogPost) => p.id != id);
    FilterUnique(t.posts, PostSlug, (p: BlogPost) => p.id != id);
  }

  lemma RemoveSubscriberConsistent(t: Tables, id: int)
    requires Consistent(t)
    ensures Consistent(RemoveSubscriber(t, id))
  {
    FilterKeys(t.subscribers, SubscriberId, t.next.subscriber, (s: NewsletterSubscriber) => s.id != id);
    FilterUnique(t.subscribers, SubscriberEmail, (s: NewsletterSubscriber) => s.id != id);
  }

  /**
   * The database context. Each DbSet is a sequence of rows; `SaveChanges`
   * commits a proposed set of tables when SQLite's constraints allow it and
   * otherwise leaves everything as it was.
   */
  class ApplicationDbContext {
    var banks: seq<Bank>
    var loanTypes: seq<LoanType>
    var loans: seq<Loan>
    var newsletterSubscribers: seq<NewsletterSubscriber>
    var pageVisits: seq<PageVisit>
    var blogPosts: seq<BlogPost>
    var adminUsers: seq<AdminUser>
    var sequence: Counters

    function State(): Tables
      reads this
    {
      Tables(banks, loanTypes, loans, newsletterSubscribers, pageVisits, blogPosts, adminUsers, sequence)
    }

    predicate Valid()
      reads this
    {
      Consistent(State())
    }

    constructor (seed: Tables)
      requires Consistent(seed)
      ensures State() == seed && Valid()
    {
      banks, loanTypes, loans := seed.banks, seed.loanTypes, seed.loans;
      newsletterSubscribers, pageVisits := seed.subscribers, seed.visits;
      blogPosts, adminUsers, sequence := seed.posts, seed.admins, seed.next;
    }

    /** Commits `proposed` in one transaction, or fails and changes nothing. */
    method SaveChanges(proposed: Tables) returns (ok: bool)
      requires Keys(proposed)
      modifies this
      ensures ok == Constraints(proposed)
      ensures State() == if ok then proposed else old(State())
      ensures Valid() <== ok
      ensures old(Valid()) ==> Valid()
    {
      ok := Constraints(proposed);
      if ok {
        banks, loanTypes, loans := proposed.banks, proposed.loanTypes, proposed.loans;
        newsletterSubscribers, pageVisits := proposed.subscribers, proposed.visits;
        blogPosts, adminUsers, sequence := proposed.posts, proposed.admins, proposed.next;
      }
    }
  }
}
