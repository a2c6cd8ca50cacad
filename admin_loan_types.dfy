/**
 * The admin area's loan-type pages (Areas/Admin/Controllers/LoanTypesController.cs):
 * the list, the create and edit forms, and delete. The controller writes
 * the slug expression inline; it is the same as the other controllers'
 * GenerateSlug. Deleting a loan type deletes its loans.
 */
module AdminLoanTypes {
  import opened Optional
  import opened Entities
  import opened Store
  import opened Slugs
  import opened Ordering
  import opened Listings
  import opened Admin

  /** `Index`: every loan type in display order. */
  function Index(t: Tables): (r: seq<LoanType>)
    ensures multiset(r) == multiset(t.loanTypes)
    ensures forall i, j :: 0 <= i < j < |r| ==> r[i].displayOrder <= r[j].displayOrder
  {
    var r := SortBy(t.loanTypes, LoanTypeDisplayOrder);
    forall i, j | 0 <= i < j < |r| ensures r[i].displayOrder <= r[j].displayOrder {
      KeyLeSingle(r[i].displayOrder, r[j].displayOrder);
    }
    r
  }

  /** `Create(loanType)` [HttpPost]; the id comes from the table's counter. */
  function Created(t: Tables, posted: LoanType, invalid: bool): (r: Response)
    ensures r.outcome.FormShown? <==> invalid || KeyTaken(t.loanTypes, LoanTypeSlug, ChosenSlug(posted.slug, posted.name))
    ensures r.outcome.FormShown? ==> r.outcome.slugTaken == KeyTaken(t.loanTypes, LoanTypeSlug, ChosenSlug(posted.slug, posted.name))
    ensures r.outcome != Saved ==> r.tables == t
    ensures r.outcome == Saved ==> r.tables == AddLoanType(t, posted.(slug := ChosenSlug(posted.slug, posted.name)))
    ensures r.outcome.FormShown? || r.outcome == Saved || r.outcome == ServerError
  {
    var slug := ChosenSlug(posted.slug, posted.name);
    var taken := KeyTaken(t.loanTypes, LoanTypeSlug, slug);
    if taken || invalid then Response(FormShown(taken), t)
    else Commit(t, AddLoanType(t, posted.(slug := slug)))
  }

  /** On a consistent store, a loan type that passes validation with a free slug is always saved. */
  lemma CreatedSavesIff(t: Tables, posted: LoanType, invalid: bool)
    requires Consistent(t)
    ensures Created(t, posted, invalid).outcome == Saved <==>
      !invalid && !KeyTaken(t.loanTypes, LoanTypeSlug, ChosenSlug(posted.slug, posted.name))
    ensures Consistent(Created(t, posted, invalid).tables)
  {
    AddLoanTypeConsistent(t, posted.(slug := ChosenSlug(posted.slug, posted.name)));
  }

  method Create(db: ApplicationDbContext, posted: LoanType, invalid: bool) returns (outcome: Outcome)
    requires db.Valid()
    modifies db
    ensures Response(outcome, db.State()) == Created(old(db.State()), posted, invalid)
  {
    var slug := posted.slug;
    if IsBlank(slug) {
      slug := GenerateSlug(posted.name);
    }
    var t := db.State();
    var taken := KeyTaken(t.loanTypes, LoanTypeSlug, slug);
    if taken || invalid {
      return FormShown(taken);
    }
    var row := posted.(slug := slug);
    AddLoanTypeConsistent(t, row);
    var ok := db.SaveChanges(AddLoanType(t, row));
    outcome := if ok then Saved else ServerError;
  }

  /** The edit form's copy onto the stored loan type: every field but the id. */
  function CopyEditable(existing: LoanType, posted: LoanType, slug: string): (r: LoanType)
    ensures r == posted.(id := existing.id, slug := slug)
  {
    existing.(
      name := posted.name,
      slug := slug,
      description := posted.description,
      iconClass := posted.iconClass,
      isActive := posted.isActive,
      displayOrder := posted.displayOrder)
  }

  /** `Edit(id, loanType)` [HttpPost]. */
  function Edited(t: Tables, id: int, posted: LoanType, invalid: bool): (r: Response)
    ensures id != posted.id ==> r == Response(NotFound, t)
    ensures r.outcome.FormShown? <==> (id == posted.id &&
      (invalid || KeyTakenByOther(t.loanTypes, LoanTypeSlug, LoanTypeId, ChosenSlug(posted.slug, posted.name), id)))
    ensures r.outcome == NotFound <==> id != posted.id || (!r.outcome.FormShown? && !HasId(t.loanTypes, LoanTypeId, id))
    ensures r.outcome != Saved ==> r.tables == t
    ensures r.outcome == Saved ==> exists i :: (0 <= i < |t.loanTypes| && t.loanTypes[i].id == id &&
      r.tables == t.(loanTypes := t.loanTypes[i := CopyEditable(t.loanTypes[i], posted, ChosenSlug(posted.slug, posted.name))]))
  {
    if id != posted.id then Response(NotFound, t)
    else
      var slug := ChosenSlug(posted.slug, posted.name);
      var taken := KeyTakenByOther(t.loanTypes, LoanTypeSlug, LoanTypeId, slug, id);
      if taken || invalid then Response(FormShown(taken), t)
      else match Find(t.loanTypes, LoanTypeId, id)
        case None => Response(NotFound, t)
        case Some(i) => Commit(t, t.(loanTypes := t.loanTypes[i := CopyEditable(t.loanTypes[i], posted, slug)]))
  }

  /** On a consistent store, an edit is saved exactly when the ids agree, validation passes, no other loan type has the slug and the loan type exists. */
  lemma EditedSavesIff(t: Tables, id: int, posted: LoanType, invalid: bool)
    requires Consistent(t)
    ensures Edited(t, id, posted, invalid).outcome == Saved <==>
      id == posted.id && !invalid && HasId(t.loanTypes, LoanTypeId, id)
      && !KeyTakenByOther(t.loanTypes, LoanTypeSlug, LoanTypeId, ChosenSlug(posted.slug, posted.name), id)
    ensures Consistent(Edited(t, id, posted, invalid).tables)
  {
    var slug := ChosenSlug(posted.slug, posted.name);
    var found := Find(t.loanTypes, LoanTypeId, id);
    if id == posted.id && found.Some? {
      var i := found.value;
      ReplaceLoanTypeConsistent(t, i, CopyEditable(t.loanTypes[i], posted, slug));
    }
  }

  method Edit(db: ApplicationDbContext, id: int, posted: LoanType, invalid: bool) returns (outcome: Outcome)
    requires db.Valid()
    modifies db
    ensures Response(outcome, db.State()) == Edited(old(db.State()), id, posted, invalid)
  {
    if id != posted.id {
      return NotFound;
    }
    var slug := posted.slug;
    if IsBlank(slug) {
      slug := GenerateSlug(posted.name);
    }
    assert slug == ChosenSlug(posted.slug, posted.name);
    var t := db.State();
    var taken := KeyTakenByOther(t.loanTypes, LoanTypeSlug, LoanTypeId, slug, id);
    if taken || invalid {
      return FormShown(taken);
    }
    var found := Find(t.loanTypes, LoanTypeId, id);
    if found.None? {
      return NotFound;
    }
    var i := found.value;
    var row := CopyEditable(t.loanTypes[i], posted, slug);
    var proposed := t.(loanTypes := t.loanTypes[i := row]);
    assert Edited(t, id, posted, invalid) == Commit(t, proposed);
    ReplaceLoanTypeConsistent(t, i, row);
    var ok := db.SaveChanges(proposed);
    outcome := if ok then Saved else ServerError;
  }

  /** `Delete(id)`: the loan type goes, and its loans with it. */
  function Deleted(t: Tables, id: int): (r: Response)
    ensures r.outcome == NotFound <==> !HasId(t.loanTypes, LoanTypeId, id)
    ensures r.outcome != Saved ==> r.tables == t
    ensures r.outcome == Saved ==> r.tables == RemoveLoanType(t, id)
  {
    if !HasId(t.loanTypes, LoanTypeId, id) then Response(NotFound, t)
    else Commit(t, RemoveLoanType(t, id))
  }

  /** Deleting a loan type that exists always succeeds on a consistent store; no loan of that type remains, and every other loan stays. */
  lemma DeletedAlwaysSaves(t: Tables, id: int)
    requires Consistent(t) && HasId(t.loanTypes, LoanTypeId, id)
    ensures Deleted(t, id) == Response(Saved, RemoveLoanType(t, id))
    ensures Consistent(Deleted(t, id).tables)
    ensures forall l :: l in Deleted(t, id).tables.loans <==> l in t.loans && l.loanTypeId != id
  {
    RemoveLoanTypeConsistent(t, id);
    var r := RemoveLoanType(t, id);
    forall l | l in t.loans && l.loanTypeId != id ensures l in r.loans {
      var k :| 0 <= k < |t.loans| && t.loans[k] == l;
    }
    forall l | l in r.loans ensures l in t.loans && l.loanTypeId != id {
      var k :| 0 <= k < |r.loans| && r.loans[k] == l;
    }
  }

  method Delete(db: ApplicationDbContext, id: int) returns (outcome: Outcome)
    requires db.Valid()
    modifies db
    ensures Response(outcome, db.State()) == Deleted(old(db.State()), id)
  {
    var t := db.State();
    if Find(t.loanTypes, LoanTypeId, id).None? {
      return NotFound;
    }
    RemoveLoanTypeConsistent(t, id);
    var ok := db.SaveChanges(RemoveLoanType(t, id));
    outcome := if ok then Saved else ServerError;
  }
}
