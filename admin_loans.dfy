/**
 * The admin area's loan pages (Areas/Admin/Controllers/LoansController.cs):
 * the list, the create and edit forms, delete, the active switch, and the
 * JSON export and import of one loan.
 *
 * Each POST handler is a function from the tables before the request to a
 * Response, and a method on the database context whose answer and new state
 * are that Response. `invalid` stands for the model binder's validation
 * result apart from the slug check (a missing title, a number out of range);
 * `now` is DateTime.UtcNow.
 */
module AdminLoans {
  import opened Optional
  import opened Text
  import opened Clock
  import opened Entities
  import opened Store
  import opened Json
  import opened Slugs
  import opened Listings
  import opened Admin

  function UpdatedAt(l: Loan): int { l.updatedAt as int }

  /** `Index`: every loan, the most recently updated first. */
  function Index(t: Tables): (r: seq<Loan>)
    ensures multiset(r) == multiset(t.loans)
    ensures forall i, j :: 0 <= i < j < |r| ==> r[i].updatedAt >= r[j].updatedAt
  {
    var r := NewestFirst(t.loans, UpdatedAt);
    assert forall i :: 0 <= i < |r| ==> UpdatedAt(r[i]) == r[i].updatedAt as int;
    r
  }

  // ------------------------------------------------------------ create

  /** `Create(loan)` [HttpPost]; the id comes from the table's counter. */
  function Created(t: Tables, posted: Loan, invalid: bool, now: Instant): (r: Response)
    ensures r.outcome.FormShown? <==> invalid || KeyTaken(t.loans, LoanSlug, ChosenSlug(posted.slug, posted.title))
    ensures r.outcome.FormShown? ==> r.outcome.slugTaken == KeyTaken(t.loans, LoanSlug, ChosenSlug(posted.slug, posted.title))
    ensures r.outcome != Saved ==> r.tables == t
    ensures r.outcome == Saved ==> r.tables == AddLoan(t, posted.(slug := ChosenSlug(posted.slug, posted.title), createdAt := now, updatedAt := now))
    ensures r.outcome.FormShown? || r.outcome == Saved || r.outcome == ServerError
  {
    var slug := ChosenSlug(posted.slug, posted.title);
    var taken := KeyTaken(t.loans, LoanSlug, slug);
    if taken || invalid then Response(FormShown(taken), t)
    else Commit(t, AddLoan(t, posted.(slug := slug, createdAt := now, updatedAt := now)))
  }

  /** On a consistent store, a create that passes validation is saved exactly when its bank and loan type exist; otherwise the foreign key fails and the exception escapes. */
  lemma CreatedSavesIff(t: Tables, posted: Loan, invalid: bool, now: Instant)
    requires Consistent(t)
    ensures Created(t, posted, invalid, now).outcome == Saved <==>
      !invalid && !KeyTaken(t.loans, LoanSlug, ChosenSlug(posted.slug, posted.title))
      && HasId(t.banks, BankId, posted.bankId) && HasId(t.loanTypes, LoanTypeId, posted.loanTypeId)
    ensures Consistent(Created(t, posted, invalid, now).tables)
  {
    var row := posted.(slug := ChosenSlug(posted.slug, posted.title), createdAt := now, updatedAt := now);
    AddLoanConsistent(t, row);
  }

  method Create(db: ApplicationDbContext, posted: Loan, invalid: bool, now: Instant) returns (outcome: Outcome)
    requires db.Valid()
    modifies db
    ensures Response(outcome, db.State()) == Created(old(db.State()), posted, invalid, now)
  {
    var slug := posted.slug;
    if IsBlank(slug) {
      slug := GenerateSlug(posted.title);
    }
    var t := db.State();
    var taken := KeyTaken(t.loans, LoanSlug, slug);
    if taken || invalid {
      return FormShown(taken);
    }
    var row := posted.(slug := slug, createdAt := now, updatedAt := now);
    AddLoanConsistent(t, row);
    var ok := db.SaveChanges(AddLoan(t, row));
    outcome := if ok then Saved else ServerError;
  }

  // ------------------------------------------------------------ edit

  /** The edit form's copy onto the stored loan: every field from the form except the id, the view count and the creation time, and the update time is now. */
  function CopyEditable(existing: Loan, posted: Loan, slug: string, now: Instant): (r: Loan)
    ensures r == posted.(id := existing.id, slug := slug, viewCount := existing.viewCount,
      createdAt := existing.createdAt, updatedAt := now)
  {
    existing.(
      title := posted.title,
      slug := slug,
      shortDescription := posted.shortDescription,
      fullDescription := posted.fullDescription,
      interestRate := posted.interestRate,
      minAmount := posted.minAmount,
      maxAmount := posted.maxAmount,
      repaymentMonths := posted.repaymentMonths,
      requirements := posted.requirements,
      isActive := posted.isActive,
      isFeatured := posted.isFeatured,
      bankId := posted.bankId,
      loanTypeId := posted.loanTypeId,
      externalUrl := posted.externalUrl,
      metaTitle := posted.metaTitle,
      metaDescription := posted.metaDescription,
      metaKeywords := posted.metaKeywords,
      analysisContent := posted.analysisContent,
      hasCalculator := posted.hasCalculator,
      calcMinMonths := posted.calcMinMonths,
      calcMaxMonths := posted.calcMaxMonths,
      calcMonthStep := posted.calcMonthStep,
      calcAdjustableRate := posted.calcAdjustableRate,
      calcMinRate := posted.calcMinRate,
      calcMaxRate := posted.calcMaxRate,
      relatedArticleIds := posted.relatedArticleIds,
      updatedAt := now)
  }

  /** `Edit(id, loan)` [HttpPost]. */
  function Edited(t: Tables, id: int, posted: Loan, invalid: bool, now: Instant): (r: Response)
    ensures id != posted.id ==> r == Response(NotFound, t)
    ensures r.outcome.FormShown? <==> (id == posted.id &&
      (invalid || KeyTakenByOther(t.loans, LoanSlug, LoanId, ChosenSlug(posted.slug, posted.title), id)))
    ensures r.outcome == NotFound <==> id != posted.id || (!r.outcome.FormShown? && !HasId(t.loans, LoanId, id))
    ensures r.outcome != Saved ==> r.tables == t
    ensures r.outcome == Saved ==> exists i :: (0 <= i < |t.loans| && t.loans[i].id == id &&
      r.tables == t.(loans := t.loans[i := CopyEditable(t.loans[i], posted, ChosenSlug(posted.slug, posted.title), now)]))
  {
    if id != posted.id then Response(NotFound, t)
    else
      var slug := ChosenSlug(posted.slug, posted.title);
      var taken := KeyTakenByOther(t.loans, LoanSlug, LoanId, slug, id);
      if taken || invalid then Response(FormShown(taken), t)
      else match Find(t.loans, LoanId, id)
        case None => Response(NotFound, t)
        case Some(i) => Commit(t, t.(loans := t.loans[i := CopyEditable(t.loans[i], posted, slug, now)]))
  }

  /** In a store with increasing ids, the row found by an id is the only one with it. */
  lemma FindLoan(t: Tables, i: int)
    requires Consistent(t) && 0 <= i < |t.loans|
    ensures Find(t.loans, LoanId, t.loans[i].id) == Some(i)
  {
    assert HasId(t.loans, LoanId, t.loans[i].id);
  }

  /** On a consistent store, an edit is saved exactly when the ids agree, validation passes, no other loan has the slug, the loan exists, and its new bank and loan type exist. */
  lemma EditedSavesIff(t: Tables, id: int, posted: Loan, invalid: bool, now: Instant)
    requires Consistent(t)
    ensures Edited(t, id, posted, invalid, now).outcome == Saved <==>
      id == posted.id && !invalid && HasId(t.loans, LoanId, id)
      && !KeyTakenByOther(t.loans, LoanSlug, LoanId, ChosenSlug(posted.slug, posted.title), id)
      && HasId(t.banks, BankId, posted.bankId) && HasId(t.loanTypes, LoanTypeId, posted.loanTypeId)
    ensures Consistent(Edited(t, id, posted, invalid, now).tables)
  {
    var slug := ChosenSlug(posted.slug, posted.title);
    var found := Find(t.loans, LoanId, id);
    if id == posted.id && found.Some? {
      var i := found.value;
      ReplaceLoanConsistent(t, i, CopyEditable(t.loans[i], posted, slug, now));
    }
  }

  /** Saving a loan's form without touching its slug is never refused as a duplicate slug. */
  lemma EditKeepsOwnSlug(t: Tables, i: int, posted: Loan, now: Instant)
    requires Consistent(t) && 0 <= i < |t.loans|
    requires posted.id == t.loans[i].id && posted.slug == t.loans[i].slug && !IsBlank(posted.slug)
    requires HasId(t.banks, BankId, posted.bankId) && HasId(t.loanTypes, LoanTypeId, posted.loanTypeId)
    ensures Edited(t, posted.id, posted, false, now) == Response(Saved, t.(loans := t.loans[i := CopyEditable(t.loans[i], posted, posted.slug, now)]))
  {
    FindLoan(t, i);
    EditedSavesIff(t, posted.id, posted, false, now);
  }

  method Edit(db: ApplicationDbContext, id: int, posted: Loan, invalid: bool, now: Instant) returns (outcome: Outcome)
    requires db.Valid()
    modifies db
    ensures Response(outcome, db.State()) == Edited(old(db.State()), id, posted, invalid, now)
  {
    if id != posted.id {
      return NotFound;
    }
    var slug := posted.slug;
    if IsBlank(slug) {
      slug := GenerateSlug(posted.title);
    }
    assert slug == ChosenSlug(posted.slug, posted.title);
    var t := db.State();
    var taken := KeyTakenByOther(t.loans, LoanSlug, LoanId, slug, id);
    if taken || invalid {
      return FormShown(taken);
    }
    var found := Find(t.loans, LoanId, id);
    if found.None? {
      return NotFound;
    }
    var i := found.value;
    var row := CopyEditable(t.loans[i], posted, slug, now);
    var proposed := t.(loans := t.loans[i := row]);
    assert Edited(t, id, posted, invalid, now) == Commit(t, proposed);
    ReplaceLoanConsistent(t, i, row);
    var ok := db.SaveChanges(proposed);
    outcome := if ok then Saved else ServerError;
  }

  // ------------------------------------------------------------ delete and the active switch

  /** `Delete(id)`. */
  function Deleted(t: Tables, id: int): (r: Response)
    ensures r.outcome == NotFound <==> !HasId(t.loans, LoanId, id)
    ensures r.outcome != Saved ==> r.tables == t
    ensures r.outcome == Saved ==> r.tables == RemoveLoan(t, id)
  {
    if !HasId(t.loans, LoanId, id) then Response(NotFound, t)
    else Commit(t, RemoveLoan(t, id))
  }

  /** Nothing refers to a loan, so deleting one that exists always succeeds and leaves the store consistent. */
  lemma DeletedAlwaysSaves(t: Tables, id: int)
    requires Consistent(t) && HasId(t.loans, LoanId, id)
    ensures Deleted(t, id) == Response(Saved, RemoveLoan(t, id))
    ensures Consistent(Deleted(t, id).tables)
  {
    RemoveLoanConsistent(t, id);
  }

  method Delete(db: ApplicationDbContext, id: int) returns (outcome: Outcome)
    requires db.Valid()
    modifies db
    ensures Response(outcome, db.State()) == Deleted(old(db.State()), id)
  {
    var t := db.State();
    if Find(t.loans, LoanId, id).None? {
      return NotFound;
    }
    RemoveLoanConsistent(t, id);
    var ok := db.SaveChanges(RemoveLoan(t, id));
    outcome := if ok then Saved else ServerError;
  }

  /** `ToggleActive(id)`: the loan's active flag flips and its update time is now. */
  function Toggled(t: Tables, id: int, now: Instant): (r: Response)
    ensures r.outcome == NotFound <==> !HasId(t.loans, LoanId, id)
    ensures r.outcome != Saved ==> r.tables == t
    ensures r.outcome == Saved ==> exists i :: (0 <= i < |t.loans| && t.loans[i].id == id &&
      r.tables == t.(loans := t.loans[i := t.loans[i].(isActive := !t.loans[i].isActive, updatedAt := now)]))
  {
    match Find(t.loans, LoanId, id)
    case None => Response(NotFound, t)
    case Some(i) => Commit(t, t.(loans := t.loans[i := t.loans[i].(isActive := !t.loans[i].isActive, updatedAt := now)]))
  }

  /** On a consistent store the switch always saves, and switching twice restores the flag: only the update time differs. */
  lemma ToggleTwice(t: Tables, i: int, now1: Instant, now2: Instant)
    requires Consistent(t) && 0 <= i < |t.loans|
    ensures Toggled(t, t.loans[i].id, now1).outcome == Saved
    ensures Toggled(Toggled(t, t.loans[i].id, now1).tables, t.loans[i].id, now2)
      == Response(Saved, t.(loans := t.loans[i := t.loans[i].(updatedAt := now2)]))
  {
    var l := t.loans[i];
    FindLoan(t, i);
    var once := t.(loans := t.loans[i := l.(isActive := !l.isActive, updatedAt := now1)]);
    SameKeysLoanConsistent(t, i, once.loans[i]);
    FindLoan(once, i);
    var twice := once.(loans := once.loans[i := once.loans[i].(isActive := !once.loans[i].isActive, updatedAt := now2)]);
    assert Toggled(t, l.id, now1) == Response(Saved, once);
    SameKeysLoanConsistent(once, i, twice.loans[i]);
    assert Toggled(once, l.id, now2) == Response(Saved, twice);
    assert twice == t.(loans := t.loans[i := l.(updatedAt := now2)]);
  }

  method ToggleActive(db: ApplicationDbContext, id: int, now: Instant) returns (outcome: Outcome)
    requires db.Valid()
    modifies db
    ensures Response(outcome, db.State()) == Toggled(old(db.State()), id, now)
  {
    var t := db.State();
    var found := Find(t.loans, LoanId, id);
    if found.None? {
      return NotFound;
    }
    var i := found.value;
    var loan := t.loans[i];
    loan := loan.(isActive := !loan.isActive, updatedAt := now);
    SameKeysLoanConsistent(t, i, loan);
    var ok := db.SaveChanges(t.(loans := t.loans[i := loan]));
    outcome := if ok then Saved else ServerError;
  }

  // ------------------------------------------------------------ JSON export

  // The data part of the export: each editable field under its property name, in the order the export
  // writes them, grouped as the import reads them.

  function TextsData(l: Loan): seq<Member> {
    [ Member("Title", JString(l.title)),
      Member("Slug", JString(l.slug)),
      Member("ShortDescription", StringValue(l.shortDescription)),
      Member("FullDescription", StringValue(l.fullDescription)) ]
  }

  function TermsData(l: Loan): seq<Member> {
    [ Member("InterestRate", DecimalValue(l.interestRate)),
      Member("MinAmount", OptIntValue(l.minAmount)),
      Member("MaxAmount", OptIntValue(l.maxAmount)),
      Member("RepaymentMonths", OptIntValue(l.repaymentMonths)),
      Member("Requirements", StringValue(l.requirements)) ]
  }

  function ListingData(l: Loan): seq<Member> {
    [ Member("IsActive", JBool(l.isActive)),
      Member("IsFeatured", JBool(l.isFeatured)),
      Member("BankId", IntValue(l.bankId)),
      Member("LoanTypeId", IntValue(l.loanTypeId)),
      Member("ExternalUrl", StringValue(l.externalUrl)) ]
  }

  function SeoData(l: Loan): seq<Member> {
    [ Member("MetaTitle", StringValue(l.metaTitle)),
      Member("MetaDescription", StringValue(l.metaDescription)),
      Member("MetaKeywords", StringValue(l.metaKeywords)),
      Member("AnalysisContent", StringValue(l.analysisContent)) ]
  }

  function CalculatorData(l: Loan): seq<Member> {
    [ Member("HasCalculator", JBool(l.hasCalculator)),
      Member("CalcMinMonths", OptIntValue(l.calcMinMonths)),
      Member("CalcMaxMonths", OptIntValue(l.calcMaxMonths)),
      Member("CalcMonthStep", OptIntValue(l.calcMonthStep)) ]
  }

  function RatesData(l: Loan): seq<Member> {
    [ Member("CalcAdjustableRate", JBool(l.calcAdjustableRate)),
      Member("CalcMinRate", DecimalValue(l.calcMinRate)),
      Member("CalcMaxRate", DecimalValue(l.calcMaxRate)),
      Member("RelatedArticleIds", StringValue(l.relatedArticleIds)) ]
  }

  const TextsKeys: set<string> := {"Title", "Slug", "ShortDescription", "FullDescription"}
  const TermsKeys: set<string> := {"InterestRate", "MinAmount", "MaxAmount", "RepaymentMonths", "Requirements"}
  const ListingKeys: set<string> := {"IsActive", "IsFeatured", "BankId", "LoanTypeId", "ExternalUrl"}
  const SeoKeys: set<string> := {"MetaTitle", "MetaDescription", "MetaKeywords", "AnalysisContent"}
  const CalculatorKeys: set<string> := {"HasCalculator", "CalcMinMonths", "CalcMaxMonths", "CalcMonthStep"}
  const RatesKeys: set<string> := {"CalcAdjustableRate", "CalcMinRate", "CalcMaxRate", "RelatedArticleIds"}

  /** The data groups in the order the export writes them, each with the names it holds. */
  function ExportRuns(l: Loan): seq<seq<Member>> {
    [TextsData(l), TermsData(l), ListingData(l), SeoData(l), CalculatorData(l), RatesData(l)]
  }

  const RunKeys: seq<set<string>> := [TextsKeys, TermsKeys, ListingKeys, SeoKeys, CalculatorKeys, RatesKeys]

  function ExportData(l: Loan): seq<Member> {
    Concat(ExportRuns(l))
  }

  /** `"{id}: {name}"`, the form of the export's bank and loan-type notes. */
  function IdLabel(id: int, name: string): string {
    IntToString(id) + ": " + name
  }

  function BankLabels(banks: seq<Bank>): (r: seq<Json>)
    ensures |r| <= |banks|
  {
    if banks == [] then []
    else (if banks[0].isActive then [JString(IdLabel(banks[0].id, banks[0].name))] else []) + BankLabels(banks[1..])
  }

  function LoanTypeLabels(types: seq<LoanType>): (r: seq<Json>)
    ensures |r| <= |types|
  {
    if types == [] then []
    else (if types[0].isActive then [JString(IdLabel(types[0].id, types[0].name))] else []) + LoanTypeLabels(types[1..])
  }

  /**
   * The entries whose names start with '_', written before the data: the
   * usage guide and the per-field help (fixed texts, given as `guide` and
   * `help`), the active banks and loan types, and the loan's current bank
   * and type (an empty name when the row is missing).
   */
  function ExportNotes(t: Tables, l: Loan, guide: Json, help: Json): seq<Member> {
    var bank := Find(t.banks, BankId, l.bankId);
    var loanType := Find(t.loanTypes, LoanTypeId, l.loanTypeId);
    var bankName := if bank.Some? then t.banks[bank.value].name else "";
    var typeName := if loanType.Some? then t.loanTypes[loanType.value].name else "";
    [ Member("_راهنما", guide),
      Member("_فیلدها", help),
      Member("_بانک‌ها", JArray(BankLabels(t.banks))),
      Member("_انواع‌وام", JArray(LoanTypeLabels(t.loanTypes))),
      Member("_بانک_فعلی", JString(IdLabel(l.bankId, bankName))),
      Member("_نوع_فعلی", JString(IdLabel(l.loanTypeId, typeName))) ]
  }

  /** `ExportJson(id)`: the document, or None for a missing loan (404). */
  function Exported(t: Tables, id: int, guide: Json, help: Json): (r: Option<Json>)
    ensures r.Some? <==> HasId(t.loans, LoanId, id)
    ensures r.Some? ==> r.value.JObject?
  {
    match Find(t.loans, LoanId, id)
    case None => None
    case Some(i) => Some(JObject(ExportNotes(t, t.loans[i], guide, help) + ExportData(t.loans[i])))
  }

  // ------------------------------------------------------------ JSON import

  /** `ImportJson`, the text members: the title and slug keep their value on a JSON null; the descriptions take it. */
  function ImportTexts(l: Loan, root: Json): (r: Result<Loan, JsonError>)
    ensures r.Ok? ==> r.value == l.(title := r.value.title, slug := r.value.slug,
      shortDescription := r.value.shortDescription, fullDescription := r.value.fullDescription)
  {
    var title :- ReadProperty(root, "Title", l.title, (v: Json) => GetStringOr(v, l.title));
    var slug :- ReadProperty(root, "Slug", l.slug, (v: Json) => GetStringOr(v, l.slug));
    var shortDescription :- ReadProperty(root, "ShortDescription", l.shortDescription, GetString);
    var fullDescription :- ReadProperty(root, "FullDescription", l.fullDescription, GetString);
    Ok(l.(title := title, slug := slug, shortDescription := shortDescription, fullDescription := fullDescription))
  }

  /** `ImportJson`, the terms: the rate, amounts and term are read without a null test, so a JSON null fails the import. */
  function ImportTerms(l: Loan, root: Json): (r: Result<Loan, JsonError>)
    ensures r.Ok? ==> r.value == l.(interestRate := r.value.interestRate, minAmount := r.value.minAmount,
      maxAmount := r.value.maxAmount, repaymentMonths := r.value.repaymentMonths, requirements := r.value.requirements)
  {
    var interestRate :- ReadProperty(root, "InterestRate", l.interestRate, (v: Json) => Required(v, ReadDecimal));
    var minAmount :- ReadProperty(root, "MinAmount", l.minAmount, (v: Json) => Required(v, GetInt64));
    var maxAmount :- ReadProperty(root, "MaxAmount", l.maxAmount, (v: Json) => Required(v, GetInt64));
    var repaymentMonths :- ReadProperty(root, "RepaymentMonths", l.repaymentMonths, (v: Json) => Required(v, GetInt32));
    var requirements :- ReadProperty(root, "Requirements", l.requirements, GetString);
    Ok(l.(interestRate := interestRate, minAmount := minAmount, maxAmount := maxAmount,
      repaymentMonths := repaymentMonths, requirements := requirements))
  }

  /** `ImportJson`, the listing members. */
  function ImportListing(l: Loan, root: Json): (r: Result<Loan, JsonError>)
    ensures r.Ok? ==> r.value == l.(isActive := r.value.isActive, isFeatured := r.value.isFeatured,
      bankId := r.value.bankId, loanTypeId := r.value.loanTypeId, externalUrl := r.value.externalUrl)
  {
    var isActive :- ReadProperty(root, "IsActive", l.isActive, GetBoolean);
    var isFeatured :- ReadProperty(root, "IsFeatured", l.isFeatured, GetBoolean);
    var bankId :- ReadProperty(root, "BankId", l.bankId, GetInt32);
    var loanTypeId :- ReadProperty(root, "LoanTypeId", l.loanTypeId, GetInt32);
    var externalUrl :- ReadProperty(root, "ExternalUrl", l.externalUrl, GetString);
    Ok(l.(isActive := isActive, isFeatured := isFeatured, bankId := bankId, loanTypeId := loanTypeId,
      externalUrl := externalUrl))
  }

  /** `ImportJson`, the SEO members. */
  function ImportSeo(l: Loan, root: Json): (r: Result<Loan, JsonError>)
    ensures r.Ok? ==> r.value == l.(metaTitle := r.value.metaTitle, metaDescription := r.value.metaDescription,
      metaKeywords := r.value.metaKeywords, analysisContent := r.value.analysisContent)
  {
    var metaTitle :- ReadProperty(root, "MetaTitle", l.metaTitle, GetString);
    var metaDescription :- ReadProperty(root, "MetaDescription", l.metaDescription, GetString);
    var metaKeywords :- ReadProperty(root, "MetaKeywords", l.metaKeywords, GetString);
    var analysisContent :- ReadProperty(root, "AnalysisContent", l.analysisContent, GetString);
    Ok(l.(metaTitle := metaTitle, metaDescription := metaDescription, metaKeywords := metaKeywords,
      analysisContent := analysisContent))
  }

  /** `ImportJson`, the calculator members: the calculator's month bounds test for null first, so a JSON null clears them. */
  function ImportCalculator(l: Loan, root: Json): (r: Result<Loan, JsonError>)
    ensures r.Ok? ==> r.value == l.(hasCalculator := r.value.hasCalculator, calcMinMonths := r.value.calcMinMonths,
      calcMaxMonths := r.value.calcMaxMonths, calcMonthStep := r.value.calcMonthStep)
  {
    var hasCalculator :- ReadProperty(root, "HasCalculator", l.hasCalculator, GetBoolean);
    var calcMinMonths :- ReadProperty(root, "CalcMinMonths", l.calcMinMonths, (v: Json) => Nullable(v, GetInt32));
    var calcMaxMonths :- ReadProperty(root, "CalcMaxMonths", l.calcMaxMonths, (v: Json) => Nullable(v, GetInt32));
    var calcMonthStep :- ReadProperty(root, "CalcMonthStep", l.calcMonthStep, (v: Json) => Nullable(v, GetInt32));
    Ok(l.(hasCalculator := hasCalculator, calcMinMonths := calcMinMonths, calcMaxMonths := calcMaxMonths,
      calcMonthStep := calcMonthStep))
  }

  /** `ImportJson`, the rate bounds: the calculator's rate bounds test for null first too. */
  function ImportRates(l: Loan, root: Json): (r: Result<Loan, JsonError>)
    ensures r.Ok? ==> r.value == l.(calcAdjustableRate := r.value.calcAdjustableRate, calcMinRate := r.value.calcMinRate,
      calcMaxRate := r.value.calcMaxRate, relatedArticleIds := r.value.relatedArticleIds)
  {
    var calcAdjustableRate :- ReadProperty(root, "CalcAdjustableRate", l.calcAdjustableRate, GetBoolean);
    var calcMinRate :- ReadProperty(root, "CalcMinRate", l.calcMinRate, (v: Json) => Nullable(v, ReadDecimal));
    var calcMaxRate :- ReadProperty(root, "CalcMaxRate", l.calcMaxRate, (v: Json) => Nullable(v, ReadDecimal));
    var relatedArticleIds :- ReadProperty(root, "RelatedArticleIds", l.relatedArticleIds, GetString);
    Ok(l.(calcAdjustableRate := calcAdjustableRate, calcMinRate := calcMinRate, calcMaxRate := calcMaxRate,
      relatedArticleIds := relatedArticleIds))
  }

  /**
   * The body of ImportJson's try block up to the save: the properties
   * present overwrite their fields one after the other, the first failure
   * throws, and the update time is now.
   */
  function Imported(l: Loan, root: Json, now: Instant): (r: Result<Loan, JsonError>)
    ensures !root.JObject? ==> r.Err?
    ensures r.Ok? ==> (r.value.id == l.id && r.value.viewCount == l.viewCount
      && r.value.createdAt == l.createdAt && r.value.updatedAt == now)
  {
    var a :- ImportTexts(l, root);
    var b :- ImportTerms(a, root);
    var c :- ImportListing(b, root);
    var d :- ImportSeo(c, root);
    var e :- ImportCalculator(d, root);
    var f :- ImportRates(e, root);
    Ok(f.(updatedAt := now))
  }

  /**
   * `ImportJson(id, jsonData)`; `document` is the parsed text, None when
   * JsonDocument.Parse throws. Every failure inside the try block, the
   * save's included, leaves the tables as they were.
   */
  function ImportResponse(t: Tables, id: int, document: Option<Json>, now: Instant): (r: Response)
    ensures r.outcome == NotFound <==> !HasId(t.loans, LoanId, id)
    ensures r.outcome != Saved ==> r.tables == t
    ensures r.outcome == NotFound || r.outcome == Saved || r.outcome == ImportRejected
    ensures r.outcome == Saved ==> exists i :: (0 <= i < |t.loans| && t.loans[i].id == id && document.Some? &&
      Imported(t.loans[i], document.value, now).Ok? && r.tables == t.(loans := t.loans[i := Imported(t.loans[i], document.value, now).value]))
  {
    match Find(t.loans, LoanId, id)
    case None => Response(NotFound, t)
    case Some(i) =>
      if document.None? then Response(ImportRejected, t)
      else match Imported(t.loans[i], document.value, now)
        case Err(_) => Response(ImportRejected, t)
        case Ok(row) => CommitImport(t, t.(loans := t.loans[i := row]))
  }

  method ImportJson(db: ApplicationDbContext, id: int, document: Option<Json>, now: Instant) returns (outcome: Outcome)
    requires db.Valid()
    modifies db
    ensures Response(outcome, db.State()) == ImportResponse(old(db.State()), id, document, now)
  {
    var t := db.State();
    var found := Find(t.loans, LoanId, id);
    if found.None? {
      return NotFound;
    }
    var i := found.value;
    if document.None? {
      return ImportRejected;
    }
    var imported := Imported(t.loans[i], document.value, now);
    if imported.Err? {
      return ImportRejected;
    }
    ReplaceLoanConsistent(t, i, imported.value);
    var ok := db.SaveChanges(t.(loans := t.loans[i := imported.value]));
    outcome := if ok then Saved else ImportRejected;
  }

  // ------------------------------------------------------------ the export and import agree

  /**
   * The loan fields the import reads with `GetDecimal`, `GetInt64` and
   * `GetInt32` without a null test: the rate, both amounts and the term.
   * A null among them in the exported document makes its re-import fail.
   */
  predicate TermsPresent(l: Loan) {
    l.interestRate.Some? && l.minAmount.Some? && l.maxAmount.Some? && l.repaymentMonths.Some?
  }

  lemma TextsOfExport(l: Loan, src: Loan, root: Json)
    requires root.JObject?
    requires Lookup(root.members, "Title") == Some(JString(src.title))
    requires Lookup(root.members, "Slug") == Some(JString(src.slug))
    requires Lookup(root.members, "ShortDescription") == Some(StringValue(src.shortDescription))
    requires Lookup(root.members, "FullDescription") == Some(StringValue(src.fullDescription))
    ensures ImportTexts(l, root) == Ok(l.(title := src.title, slug := src.slug,
      shortDescription := src.shortDescription, fullDescription := src.fullDescription))
  {
    ValueRoundTrips(src.shortDescription, None);
    ValueRoundTrips(src.fullDescription, None);
  }

  lemma TermsOfExport(l: Loan, src: Loan, root: Json)
    requires root.JObject?
    requires Lookup(root.members, "InterestRate") == Some(DecimalValue(src.interestRate))
    requires Lookup(root.members, "MinAmount") == Some(OptIntValue(src.minAmount))
    requires Lookup(root.members, "MaxAmount") == Some(OptIntValue(src.maxAmount))
    requires Lookup(root.members, "RepaymentMonths") == Some(OptIntValue(src.repaymentMonths))
    requires Lookup(root.members, "Requirements") == Some(StringValue(src.requirements))
    ensures ImportTerms(l, root) == if TermsPresent(src) then Ok(l.(interestRate := src.interestRate,
      minAmount := src.minAmount, maxAmount := src.maxAmount, repaymentMonths := src.repaymentMonths,
      requirements := src.requirements)) else Err(WrongKind)
  {
    NumberRoundTrips(src.interestRate, None);
    ValueRoundTrips(src.requirements, src.minAmount);
    ValueRoundTrips(src.requirements, src.maxAmount);
    ValueRoundTrips(src.requirements, src.repaymentMonths);
  }

  lemma ListingOfExport(l: Loan, src: Loan, root: Json)
    requires root.JObject?
    requires Lookup(root.members, "IsActive") == Some(JBool(src.isActive))
    requires Lookup(root.members, "IsFeatured") == Some(JBool(src.isFeatured))
    requires Lookup(root.members, "BankId") == Some(IntValue(src.bankId))
    requires Lookup(root.members, "LoanTypeId") == Some(IntValue(src.loanTypeId))
    requires Lookup(root.members, "ExternalUrl") == Some(StringValue(src.externalUrl))
    ensures ImportListing(l, root) == Ok(l.(isActive := src.isActive, isFeatured := src.isFeatured,
      bankId := src.bankId, loanTypeId := src.loanTypeId, externalUrl := src.externalUrl))
  {
    IntValueRoundTrip(src.bankId);
    IntValueRoundTrip(src.loanTypeId);
    ValueRoundTrips(src.externalUrl, None);
  }

  lemma SeoOfExport(l: Loan, src: Loan, root: Json)
    requires root.JObject?
    requires Lookup(root.members, "MetaTitle") == Some(StringValue(src.metaTitle))
    requires Lookup(root.members, "MetaDescription") == Some(StringValue(src.metaDescription))
    requires Lookup(root.members, "MetaKeywords") == Some(StringValue(src.metaKeywords))
    requires Lookup(root.members, "AnalysisContent") == Some(StringValue(src.analysisContent))
    ensures ImportSeo(l, root) == Ok(l.(metaTitle := src.metaTitle, metaDescription := src.metaDescription,
      metaKeywords := src.metaKeywords, analysisContent := src.analysisContent))
  {
    ValueRoundTrips(src.metaTitle, None);
    ValueRoundTrips(src.metaDescription, None);
    ValueRoundTrips(src.metaKeywords, None);
    ValueRoundTrips(src.analysisContent, None);
  }

  lemma CalculatorOfExport(l: Loan, src: Loan, root: Json)
    requires root.JObject?
    requires Lookup(root.members, "HasCalculator") == Some(JBool(src.hasCalculator))
    requires Lookup(root.members, "CalcMinMonths") == Some(OptIntValue(src.calcMinMonths))
    requires Lookup(root.members, "CalcMaxMonths") == Some(OptIntValue(src.calcMaxMonths))
    requires Lookup(root.members, "CalcMonthStep") == Some(OptIntValue(src.calcMonthStep))
    ensures ImportCalculator(l, root) == Ok(l.(hasCalculator := src.hasCalculator,
      calcMinMonths := src.calcMinMonths, calcMaxMonths := src.calcMaxMonths, calcMonthStep := src.calcMonthStep))
  {
    ValueRoundTrips(None, src.calcMinMonths);
    ValueRoundTrips(None, src.calcMaxMonths);
    ValueRoundTrips(None, src.calcMonthStep);
  }

  lemma RatesOfExport(l: Loan, src: Loan, root: Json)
    requires root.JObject?
    requires Lookup(root.members, "CalcAdjustableRate") == Some(JBool(src.calcAdjustableRate))
    requires Lookup(root.members, "CalcMinRate") == Some(DecimalValue(src.calcMinRate))
    requires Lookup(root.members, "CalcMaxRate") == Some(DecimalValue(src.calcMaxRate))
    requires Lookup(root.members, "RelatedArticleIds") == Some(StringValue(src.relatedArticleIds))
    ensures ImportRates(l, root) == Ok(l.(calcAdjustableRate := src.calcAdjustableRate,
      calcMinRate := src.calcMinRate, calcMaxRate := src.calcMaxRate, relatedArticleIds := src.relatedArticleIds))
  {
    ValueRoundTrips(src.relatedArticleIds, None);
    NumberRoundTrips(src.calcMinRate, None);
    NumberRoundTrips(src.calcMaxRate, None);
  }

  /** No name is listed for two groups. */
  lemma RunKeysDisjoint()
    ensures forall j, j', key :: 0 <= j < j' < 6 && key in RunKeys[j] ==> key !in RunKeys[j']
  {
  }

  /** Each group of the export holds only the names listed for it. */
  lemma ExportRunsNamed(src: Loan)
    ensures forall j, i :: 0 <= j < 6 && 0 <= i < |ExportRuns(src)[j]| ==> ExportRuns(src)[j][i].name in RunKeys[j]
  {
  }

  // Whatever entries come first, a document ending in `src`'s export yields its data to the lookups each import stage makes.

  lemma CarriedTexts(src: Loan, notes: seq<Member>)
    ensures Lookup(notes + ExportData(src), "Title") == Some(JString(src.title))
    ensures Lookup(notes + ExportData(src), "Slug") == Some(JString(src.slug))
    ensures Lookup(notes + ExportData(src), "ShortDescription") == Some(StringValue(src.shortDescription))
    ensures Lookup(notes + ExportData(src), "FullDescription") == Some(StringValue(src.fullDescription))
  {
    ExportRunsNamed(src);
    RunKeysDisjoint();
    LookupLast(TextsData(src), 0);
    LookupLast(TextsData(src), 1);
    LookupLast(TextsData(src), 2);
    LookupLast(TextsData(src), 3);
    LookupInRuns(notes, ExportRuns(src), RunKeys, 0, "Title");
    LookupInRuns(notes, ExportRuns(src), RunKeys, 0, "Slug");
    LookupInRuns(notes, ExportRuns(src), RunKeys, 0, "ShortDescription");
    LookupInRuns(notes, ExportRuns(src), RunKeys, 0, "FullDescription");
  }

  lemma CarriedTerms(src: Loan, notes: seq<Member>)
    ensures Lookup(notes + ExportData(src), "InterestRate") == Some(DecimalValue(src.interestRate))
    ensures Lookup(notes + ExportData(src), "MinAmount") == Some(OptIntValue(src.minAmount))
    ensures Lookup(notes + ExportData(src), "MaxAmount") == Some(OptIntValue(src.maxAmount))
  {
    ExportRunsNamed(src);
    RunKeysDisjoint();
    LookupLast(TermsData(src), 0);
    LookupLast(TermsData(src), 1);
    LookupLast(TermsData(src), 2);
    LookupInRuns(notes, ExportRuns(src), RunKeys, 1, "InterestRate");
    LookupInRuns(notes, ExportRuns(src), RunKeys, 1, "MinAmount");
    LookupInRuns(notes, ExportRuns(src), RunKeys, 1, "MaxAmount");
  }

  lemma CarriedRequirements(src: Loan, notes: seq<Member>)
    ensures Lookup(notes + ExportData(src), "RepaymentMonths") == Some(OptIntValue(src.repaymentMonths))
    ensures Lookup(notes + ExportData(src), "Requirements") == Some(StringValue(src.requirements))
  {
    ExportRunsNamed(src);
    RunKeysDisjoint();
    LookupLast(TermsData(src), 3);
    LookupLast(TermsData(src), 4);
    LookupInRuns(notes, ExportRuns(src), RunKeys, 1, "RepaymentMonths");
    LookupInRuns(notes, ExportRuns(src), RunKeys, 1, "Requirements");
  }

  lemma CarriedListing(src: Loan, notes: seq<Member>)
    ensures Lookup(notes + ExportData(src), "IsActive") == Some(JBool(src.isActive))
    ensures Lookup(notes + ExportData(src), "IsFeatured") == Some(JBool(src.isFeatured))
    ensures Lookup(notes + ExportData(src), "BankId") == Some(IntValue(src.bankId))
    ensures Lookup(notes + ExportData(src), "LoanTypeId") == Some(IntValue(src.loanTypeId))
    ensures Lookup(notes + ExportData(src), "ExternalUrl") == Some(StringValue(src.externalUrl))
  {
    ExportRunsNamed(src);
    RunKeysDisjoint();
    LookupLast(ListingData(src), 0);
    LookupLast(ListingData(src), 1);
    LookupLast(ListingData(src), 2);
    LookupLast(ListingData(src), 3);
    LookupLast(ListingData(src), 4);
    LookupInRuns(notes, ExportRuns(src), RunKeys, 2, "IsActive");
    LookupInRuns(notes, ExportRuns(src), RunKeys, 2, "IsFeatured");
    LookupInRuns(notes, ExportRuns(src), RunKeys, 2, "BankId");
    LookupInRuns(notes, ExportRuns(src), RunKeys, 2, "LoanTypeId");
    LookupInRuns(notes, ExportRuns(src), RunKeys, 2, "ExternalUrl");
  }

  lemma CarriedSeo(src: Loan, notes: seq<Member>)
    ensures Lookup(notes + ExportData(src), "MetaTitle") == Some(StringValue(src.metaTitle))
    ensures Lookup(notes + ExportData(src), "MetaDescription") == Some(StringValue(src.metaDescription))
    ensures Lookup(notes + ExportData(src), "MetaKeywords") == Some(StringValue(src.metaKeywords))
    ensures Lookup(notes + ExportData(src), "AnalysisContent") == Some(StringValue(src.analysisContent))
  {
    ExportRunsNamed(src);
    RunKeysDisjoint();
    LookupLast(SeoData(src), 0);
    LookupLast(SeoData(src), 1);
    LookupLast(SeoData(src), 2);
    LookupLast(SeoData(src), 3);
    LookupInRuns(notes, ExportRuns(src), RunKeys, 3, "MetaTitle");
    LookupInRuns(notes, ExportRuns(src), RunKeys, 3, "MetaDescription");
    LookupInRuns(notes, ExportRuns(src), RunKeys, 3, "MetaKeywords");
    LookupInRuns(notes, ExportRuns(src), RunKeys, 3, "AnalysisContent");
  }

  lemma CarriedCalculator(src: Loan, notes: seq<Member>)
    ensures Lookup(notes + ExportData(src), "HasCalculator") == Some(JBool(src.hasCalculator))
    ensures Lookup(notes + ExportData(src), "CalcMinMonths") == Some(OptIntValue(src.calcMinMonths))
    ensures Lookup(notes + ExportData(src), "CalcMaxMonths") == Some(OptIntValue(src.calcMaxMonths))
    ensures Lookup(notes + ExportData(src), "CalcMonthStep") == Some(OptIntValue(src.calcMonthStep))
  {
    ExportRunsNamed(src);
    RunKeysDisjoint();
    LookupLast(CalculatorData(src), 0);
    LookupLast(CalculatorData(src), 1);
    LookupLast(CalculatorData(src), 2);
    LookupLast(CalculatorData(src), 3);
    LookupInRuns(notes, ExportRuns(src), RunKeys, 4, "HasCalculator");
    LookupInRuns(notes, ExportRuns(src), RunKeys, 4, "CalcMinMonths");
    LookupInRuns(notes, ExportRuns(src), RunKeys, 4, "CalcMaxMonths");
    LookupInRuns(notes, ExportRuns(src), RunKeys, 4, "CalcMonthStep");
  }

  lemma CarriedRates(src: Loan, notes: seq<Member>)
    ensures Lookup(notes + ExportData(src), "CalcAdjustableRate") == Some(JBool(src.calcAdjustableRate))
    ensures Lookup(notes + ExportData(src), "CalcMinRate") == Some(DecimalValue(src.calcMinRate))
    ensures Lookup(notes + ExportData(src), "CalcMaxRate") == Some(DecimalValue(src.calcMaxRate))
    ensures Lookup(notes + ExportData(src), "RelatedArticleIds") == Some(StringValue(src.relatedArticleIds))
  {
    ExportRunsNamed(src);
    RunKeysDisjoint();
    LookupLast(RatesData(src), 0);
    LookupLast(RatesData(src), 1);
    LookupLast(RatesData(src), 2);
    LookupLast(RatesData(src), 3);
    LookupInRuns(notes, ExportRuns(src), RunKeys, 5, "CalcAdjustableRate");
    LookupInRuns(notes, ExportRuns(src), RunKeys, 5, "CalcMinRate");
    LookupInRuns(notes, ExportRuns(src), RunKeys, 5, "CalcMaxRate");
    LookupInRuns(notes, ExportRuns(src), RunKeys, 5, "RelatedArticleIds");
  }

  /** Importing a document that ends in the export of `src` into `current` gives what the edit form gives when it posts `src`, or fails when `src` lacks a rate, an amount or a term. */
  lemma ImportOfExport(current: Loan, src: Loan, notes: seq<Member>, now: Instant)
    ensures Imported(current, JObject(notes + ExportData(src)), now) ==
      if TermsPresent(src) then Ok(CopyEditable(current, src, src.slug, now)) else Err(WrongKind)
  {
    var root := JObject(notes + ExportData(src));
    CarriedTexts(src, notes);
    TextsOfExport(current, src, root);
    var a := ImportTexts(current, root).value;
    CarriedTerms(src, notes);
    CarriedRequirements(src, notes);
    TermsOfExport(a, src, root);
    if TermsPresent(src) {
      var b := ImportTerms(a, root).value;
      CarriedListing(src, notes);
      ListingOfExport(b, src, root);
      var c := ImportListing(b, root).value;
      CarriedSeo(src, notes);
      SeoOfExport(c, src, root);
      var d := ImportSeo(c, root).value;
      CarriedCalculator(src, notes);
      CalculatorOfExport(d, src, root);
      var e := ImportCalculator(d, root).value;
      CarriedRates(src, notes);
      RatesOfExport(e, src, root);
    }
  }

  /** The export of a loan imported back into it changes nothing but the update time, whenever its rate, amounts and term are set. */
  lemma ExportImportRoundTrip(t: Tables, i: int, guide: Json, help: Json, now: Instant)
    requires Consistent(t) && 0 <= i < |t.loans| && TermsPresent(t.loans[i])
    ensures ImportResponse(t, t.loans[i].id, Exported(t, t.loans[i].id, guide, help), now)
      == Response(Saved, t.(loans := t.loans[i := t.loans[i].(updatedAt := now)]))
  {
    var l := t.loans[i];
    FindLoan(t, i);
    ImportOfExport(l, l, ExportNotes(t, l, guide, help), now);
    assert CopyEditable(l, l, l.slug, now) == l.(updatedAt := now);
    SameKeysLoanConsistent(t, i, l.(updatedAt := now));
  }

  /** A loan with no minimum amount exports a null the import cannot read back, so re-importing its own export is rejected. */
  lemma NullMinAmountRejected(t: Tables, i: int, guide: Json, help: Json, now: Instant)
    requires Consistent(t) && 0 <= i < |t.loans| && t.loans[i].minAmount.None?
    ensures ImportResponse(t, t.loans[i].id, Exported(t, t.loans[i].id, guide, help), now) == Response(ImportRejected, t)
  {
    var l := t.loans[i];
    FindLoan(t, i);
    ImportOfExport(l, l, ExportNotes(t, l, guide, help), now);
  }

  /** An empty object changes nothing but the update time. */
  lemma EmptyImport(l: Loan, now: Instant)
    ensures Imported(l, JObject([]), now) == Ok(l.(updatedAt := now))
  {
  }
}
