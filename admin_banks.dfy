/**
 * The admin area's bank pages (Areas/Admin/Controllers/BanksController.cs):
 * the list, the create and edit forms with their parent-bank choices,
 * delete, and the JSON export and import of one bank.
 *
 * As for loans, each POST handler is a function from the tables before the
 * request to a Response, and a method on the database context whose answer
 * and new state are that Response. Banks have no update time; a bank's only
 * key besides its id is its slug, and deleting a bank deletes its loans.
 */
module AdminBanks {
  import opened Optional
  import opened Text
  import opened Clock
  import opened Entities
  import opened Store
  import opened Json
  import opened Slugs
  import opened Ordering
  import opened Listings
  import opened Admin

  /** `Index`: every bank in display order. */
  function Index(t: Tables): (r: seq<Bank>)
    ensures multiset(r) == multiset(t.banks)
    ensures forall i, j :: 0 <= i < j < |r| ==> r[i].displayOrder <= r[j].displayOrder
  {
    var r := SortBy(t.banks, BankDisplayOrder);
    forall i, j | 0 <= i < j < |r| ensures r[i].displayOrder <= r[j].displayOrder {
      KeyLeSingle(r[i].displayOrder, r[j].displayOrder);
    }
    r
  }

  /** One choice of the parent-bank list: the id and the name. */
  datatype Choice = Choice(id: int, name: string)

  function BankChoice(b: Bank): Choice { Choice(b.id, b.name) }

  predicate IsCommercial(b: Bank) { b.bankType == "bank" }

  /** `PopulateDropdowns`: the banks whose type is "bank" (not neobanks), in display order. */
  function ParentBanks(banks: seq<Bank>): (r: seq<Bank>)
    ensures forall i :: 0 <= i < |r| ==> r[i] in banks && IsCommercial(r[i])
    ensures forall i :: 0 <= i < |banks| && IsCommercial(banks[i]) ==> banks[i] in r
    ensures forall i, j :: 0 <= i < j < |r| ==> r[i].displayOrder <= r[j].displayOrder
  {
    var r := OrderedWhere(banks, IsCommercial, BankDisplayOrder);
    forall i, j | 0 <= i < j < |r| ensures r[i].displayOrder <= r[j].displayOrder {
      KeyLeSingle(r[i].displayOrder, r[j].displayOrder);
    }
    r
  }

  /** The parent-bank list as the form receives it: id and name. */
  function ParentChoices(banks: seq<Bank>): seq<Choice> {
    Select(ParentBanks(banks), BankChoice)
  }

  // ------------------------------------------------------------ create

  /** `Create(bank)` [HttpPost]; the id comes from the table's counter. */
  function Created(t: Tables, posted: Bank, invalid: bool, now: Instant): (r: Response)
    ensures r.outcome.FormShown? <==> invalid || KeyTaken(t.banks, BankSlug, ChosenSlug(posted.slug, posted.name))
    ensures r.outcome.FormShown? ==> r.outcome.slugTaken == KeyTaken(t.banks, BankSlug, ChosenSlug(posted.slug, posted.name))
    ensures r.outcome != Saved ==> r.tables == t
    ensures r.outcome == Saved ==> r.tables == AddBank(t, posted.(slug := ChosenSlug(posted.slug, posted.name), createdAt := now))
    ensures r.outcome.FormShown? || r.outcome == Saved || r.outcome == ServerError
  {
    var slug := ChosenSlug(posted.slug, posted.name);
    var taken := KeyTaken(t.banks, BankSlug, slug);
    if taken || invalid then Response(FormShown(taken), t)
    else Commit(t, AddBank(t, posted.(slug := slug, createdAt := now)))
  }

  /** On a consistent store, a bank that passes validation with a free slug is always saved: a bank refers to nothing. */
  lemma CreatedSavesIff(t: Tables, posted: Bank, invalid: bool, now: Instant)
    requires Consistent(t)
    ensures Created(t, posted, invalid, now).outcome == Saved <==>
      !invalid && !KeyTaken(t.banks, BankSlug, ChosenSlug(posted.slug, posted.name))
    ensures Consistent(Created(t, posted, invalid, now).tables)
  {
    AddBankConsistent(t, posted.(slug := ChosenSlug(posted.slug, posted.name), createdAt := now));
  }

  method Create(db: ApplicationDbContext, posted: Bank, invalid: bool, now: Instant) returns (outcome: Outcome)
    requires db.Valid()
    modifies db
    ensures Response(outcome, db.State()) == Created(old(db.State()), posted, invalid, now)
  {
    var slug := posted.slug;
    if IsBlank(slug) {
      slug := GenerateSlug(posted.name);
    }
    var t := db.State();
    var taken := KeyTaken(t.banks, BankSlug, slug);
    if taken || invalid {
      return FormShown(taken);
    }
    var row := posted.(slug := slug, createdAt := now);
    AddBankConsistent(t, row);
    var ok := db.SaveChanges(AddBank(t, row));
    outcome := if ok then Saved else ServerError;
  }

  // ------------------------------------------------------------ edit

  /** The edit form's copy onto the stored bank: every field from the form except the id and the creation time. */
  function CopyEditable(existing: Bank, posted: Bank, slug: string): (r: Bank)
    ensures r == posted.(id := existing.id, slug := slug, createdAt := existing.createdAt)
  {
    existing.(
      name := posted.name,
      slug := slug,
      logoUrl := posted.logoUrl,
      website := posted.website,
      description := posted.description,
      history := posted.history,
      foundedYear := posted.foundedYear,
      branchCount := posted.branchCount,
      headquartersCity := posted.headquartersCity,
      latitude := posted.latitude,
      longitude := posted.longitude,
      bankType := posted.bankType,
      parentBankId := posted.parentBankId,
      ownershipType := posted.ownershipType,
      isActive := posted.isActive,
      displayOrder := posted.displayOrder,
      address := posted.address,
      phoneNumber := posted.phoneNumber,
      email := posted.email,
      branchesJson := posted.branchesJson,
      metaTitle := posted.metaTitle,
      metaDescription := posted.metaDescription)
  }

  /** `Edit(id, bank)` [HttpPost]. */
  function Edited(t: Tables, id: int, posted: Bank, invalid: bool): (r: Response)
    ensures id != posted.id ==> r == Response(NotFound, t)
    ensures r.outcome.FormShown? <==> (id == posted.id &&
      (invalid || KeyTakenByOther(t.banks, BankSlug, BankId, ChosenSlug(posted.slug, posted.name), id)))
    ensures r.outcome == NotFound <==> id != posted.id || (!r.outcome.FormShown? && !HasId(t.banks, BankId, id))
    ensures r.outcome != Saved ==> r.tables == t
    ensures r.outcome == Saved ==> exists i :: (0 <= i < |t.banks| && t.banks[i].id == id &&
      r.tables == t.(banks := t.banks[i := CopyEditable(t.banks[i], posted, ChosenSlug(posted.slug, posted.name))]))
  {
    if id != posted.id then Response(NotFound, t)
    else
      var slug := ChosenSlug(posted.slug, posted.name);
      var taken := KeyTakenByOther(t.banks, BankSlug, BankId, slug, id);
      if taken || invalid then Response(FormShown(taken), t)
      else match Find(t.banks, BankId, id)
        case None => Response(NotFound, t)
        case Some(i) => Commit(t, t.(banks := t.banks[i := CopyEditable(t.banks[i], posted, slug)]))
  }

  /** In a store with increasing ids, the row found by an id is the only one with it. */
  lemma FindBank(t: Tables, i: int)
    requires Consistent(t) && 0 <= i < |t.banks|
    ensures Find(t.banks, BankId, t.banks[i].id) == Some(i)
  {
    assert HasId(t.banks, BankId, t.banks[i].id);
  }

  /** On a consistent store, an edit is saved exactly when the ids agree, validation passes, no other bank has the slug and the bank exists. */
  lemma EditedSavesIff(t: Tables, id: int, posted: Bank, invalid: bool)
    requires Consistent(t)
    ensures Edited(t, id, posted, invalid).outcome == Saved <==>
      id == posted.id && !invalid && HasId(t.banks, BankId, id)
      && !KeyTakenByOther(t.banks, BankSlug, BankId, ChosenSlug(posted.slug, posted.name), id)
    ensures Consistent(Edited(t, id, posted, invalid).tables)
  {
    var slug := ChosenSlug(posted.slug, posted.name);
    var found := Find(t.banks, BankId, id);
    if id == posted.id && found.Some? {
      var i := found.value;
      ReplaceBankConsistent(t, i, CopyEditable(t.banks[i], posted, slug));
    }
  }

  method Edit(db: ApplicationDbContext, id: int, posted: Bank, invalid: bool) returns (outcome: Outcome)
    requires db.Valid()
    modifies db
    ensures Response(outcome, db.State()) == Edited(old(db.State()), id, posted, invalid)
  {
    if id != posted.id {
      return NotFound;
    }
    var slug := posted.slug;
    if IsBlank(slug) {
      slug := GenerateSlug(posted.name);
    }
    assert slug == ChosenSlug(posted.slug, posted.name);
    var t := db.State();
    var taken := KeyTakenByOther(t.banks, BankSlug, BankId, slug, id);
    if taken || invalid {
      return FormShown(taken);
    }
    var found := Find(t.banks, BankId, id);
    if found.None? {
      return NotFound;
    }
    var i := found.value;
    var row := CopyEditable(t.banks[i], posted, slug);
    var proposed := t.(banks := t.banks[i := row]);
    assert Edited(t, id, posted, invalid) == Commit(t, proposed);
    ReplaceBankConsistent(t, i, row);
    var ok := db.SaveChanges(proposed);
    outcome := if ok then Saved else ServerError;
  }

  // ------------------------------------------------------------ delete

  /** `Delete(id)`: the bank goes, and its loans with it. */
  function Deleted(t: Tables, id: int): (r: Response)
    ensures r.outcome == NotFound <==> !HasId(t.banks, BankId, id)
    ensures r.outcome != Saved ==> r.tables == t
    ensures r.outcome == Saved ==> r.tables == RemoveBank(t, id)
  {
    if !HasId(t.banks, BankId, id) then Response(NotFound, t)
    else Commit(t, RemoveBank(t, id))
  }

  /** Deleting a bank that exists always succeeds on a consistent store; no loan of that bank remains, and every other loan stays. */
  lemma DeletedAlwaysSaves(t: Tables, id: int)
    requires Consistent(t) && HasId(t.banks, BankId, id)
    ensures Deleted(t, id) == Response(Saved, RemoveBank(t, id))
    ensures Consistent(Deleted(t, id).tables)
    ensures forall l :: l in Deleted(t, id).tables.loans <==> l in t.loans && l.bankId != id
  {
    RemoveBankConsistent(t, id);
    var r := RemoveBank(t, id);
    forall l | l in t.loans && l.bankId != id ensures l in r.loans {
      var k :| 0 <= k < |t.loans| && t.loans[k] == l;
    }
    forall l | l in r.loans ensures l in t.loans && l.bankId != id {
      var k :| 0 <= k < |r.loans| && r.loans[k] == l;
    }
  }

  method Delete(db: ApplicationDbContext, id: int) returns (outcome: Outcome)
    requires db.Valid()
    modifies db
    ensures Response(outcome, db.State()) == Deleted(old(db.State()), id)
  {
    var t := db.State();
    if Find(t.banks, BankId, id).None? {
      return NotFound;
    }
    RemoveBankConsistent(t, id);
    var ok := db.SaveChanges(RemoveBank(t, id));
    outcome := if ok then Saved else ServerError;
  }

  // ------------------------------------------------------------ JSON export

  // The data part of the export, in the order the export writes it, grouped as the import reads it.
  // ParentBankId is neither exported nor imported.

  function IdentityData(b: Bank): seq<Member> {
    [ Member("Name", JString(b.name)),
      Member("Slug", JString(b.slug)),
      Member("LogoUrl", StringValue(b.logoUrl)),
      Member("Website", StringValue(b.website)) ]
  }

  function AboutData(b: Bank): seq<Member> {
    [ Member("Description", StringValue(b.description)),
      Member("History", StringValue(b.history)),
      Member("FoundedYear", OptIntValue(b.foundedYear)),
      Member("BranchCount", OptIntValue(b.branchCount)) ]
  }

  function ContactData(b: Bank): seq<Member> {
    [ Member("HeadquartersCity", StringValue(b.headquartersCity)),
      Member("Address", StringValue(b.address)),
      Member("PhoneNumber", StringValue(b.phoneNumber)),
      Member("Email", StringValue(b.email)) ]
  }

  function PlaceData(b: Bank): seq<Member> {
    [ Member("Latitude", DoubleValue(b.latitude)),
      Member("Longitude", DoubleValue(b.longitude)),
      Member("BankType", JString(b.bankType)),
      Member("OwnershipType", StringValue(b.ownershipType)) ]
  }

  function ListingData(b: Bank): seq<Member> {
    [ Member("BranchesJson", StringValue(b.branchesJson)),
      Member("IsActive", JBool(b.isActive)),
      Member("DisplayOrder", IntValue(b.displayOrder)) ]
  }

  function SeoData(b: Bank): seq<Member> {
    [ Member("MetaTitle", StringValue(b.metaTitle)),
      Member("MetaDescription", StringValue(b.metaDescription)) ]
  }

  const IdentityKeys: set<string> := {"Name", "Slug", "LogoUrl", "Website"}
  const AboutKeys: set<string> := {"Description", "History", "FoundedYear", "BranchCount"}
  const ContactKeys: set<string> := {"HeadquartersCity", "Address", "PhoneNumber", "Email"}
  const PlaceKeys: set<string> := {"Latitude", "Longitude", "BankType", "OwnershipType"}
  const ListingKeys: set<string> := {"BranchesJson", "IsActive", "DisplayOrder"}
  const SeoKeys: set<string> := {"MetaTitle", "MetaDescription"}

  function ExportRuns(b: Bank): seq<seq<Member>> {
    [IdentityData(b), AboutData(b), ContactData(b), PlaceData(b), ListingData(b), SeoData(b)]
  }

  const RunKeys: seq<set<string>> := [IdentityKeys, AboutKeys, ContactKeys, PlaceKeys, ListingKeys, SeoKeys]

  function ExportData(b: Bank): seq<Member> {
    Concat(ExportRuns(b))
  }

  /** The usage guide and the per-field help, fixed texts given as `guide` and `help`, come before the data. */
  function ExportNotes(guide: Json, help: Json): seq<Member> {
    [Member("_راهنما", guide), Member("_فیلدها", help)]
  }

  /** `ExportJson(id)`: the document, or None for a missing bank (404). */
  function Exported(t: Tables, id: int, guide: Json, help: Json): (r: Option<Json>)
    ensures r.Some? <==> HasId(t.banks, BankId, id)
    ensures r.Some? ==> r.value.JObject?
  {
    match Find(t.banks, BankId, id)
    case None => None
    case Some(i) => Some(JObject(ExportNotes(guide, help) + ExportData(t.banks[i])))
  }

  // ------------------------------------------------------------ JSON import

  /** How `ImportJson` reads BranchesJson: a JSON string gives its text; anything else, null included, gives its JSON text. */
  function ReadBranches(v: Json): (r: Result<Option<string>, JsonError>)
    ensures r.Ok? && r.value.Some?
    ensures v.JString? ==> r.value == Some(v.s)
    ensures v.JNull? ==> r.value == Some("null")
    ensures !v.JString? ==> r.value == Some(RawText(v))
  {
    NullRawText();
    if v.JString? then GetString(v) else Ok(Some(RawText(v)))
  }

  /** `ImportJson`, the identity members: the name and slug keep their value on a JSON null; the logo and web site take it. */
  function ImportIdentity(b: Bank, root: Json): (r: Result<Bank, JsonError>)
    ensures r.Ok? ==> r.value == b.(name := r.value.name, slug := r.value.slug,
      logoUrl := r.value.logoUrl, website := r.value.website)
  {
    var name :- ReadProperty(root, "Name", b.name, (v: Json) => GetStringOr(v, b.name));
    var slug :- ReadProperty(root, "Slug", b.slug, (v: Json) => GetStringOr(v, b.slug));
    var logoUrl :- ReadProperty(root, "LogoUrl", b.logoUrl, GetString);
    var website :- ReadProperty(root, "Website", b.website, GetString);
    Ok(b.(name := name, slug := slug, logoUrl := logoUrl, website := website))
  }

  /** `ImportJson`, the history members: the founding year and branch count test for null first. */
  function ImportAbout(b: Bank, root: Json): (r: Result<Bank, JsonError>)
    ensures r.Ok? ==> r.value == b.(description := r.value.description, history := r.value.history,
      foundedYear := r.value.foundedYear, branchCount := r.value.branchCount)
  {
    var description :- ReadProperty(root, "Description", b.description, GetString);
    var history :- ReadProperty(root, "History", b.history, GetString);
    var foundedYear :- ReadProperty(root, "FoundedYear", b.foundedYear, (v: Json) => Nullable(v, GetInt32));
    var branchCount :- ReadProperty(root, "BranchCount", b.branchCount, (v: Json) => Nullable(v, GetInt32));
    Ok(b.(description := description, history := history, foundedYear := foundedYear, branchCount := branchCount))
  }

  /** `ImportJson`, the contact members. */
  function ImportContact(b: Bank, root: Json): (r: Result<Bank, JsonError>)
    ensures r.Ok? ==> r.value == b.(headquartersCity := r.value.headquartersCity, address := r.value.address,
      phoneNumber := r.value.phoneNumber, email := r.value.email)
  {
    var headquartersCity :- ReadProperty(root, "HeadquartersCity", b.headquartersCity, GetString);
    var address :- ReadProperty(root, "Address", b.address, GetString);
    var phoneNumber :- ReadProperty(root, "PhoneNumber", b.phoneNumber, GetString);
    var email :- ReadProperty(root, "Email", b.email, GetString);
    Ok(b.(headquartersCity := headquartersCity, address := address, phoneNumber := phoneNumber, email := email))
  }

  /** `ImportJson`, the place members: the coordinates test for null first; the bank type keeps its value on a JSON null. */
  function ImportPlace(b: Bank, root: Json): (r: Result<Bank, JsonError>)
    ensures r.Ok? ==> r.value == b.(latitude := r.value.latitude, longitude := r.value.longitude,
      bankType := r.value.bankType, ownershipType := r.value.ownershipType)
  {
    var latitude :- ReadProperty(root, "Latitude", b.latitude, (v: Json) => Nullable(v, ReadDouble));
    var longitude :- ReadProperty(root, "Longitude", b.longitude, (v: Json) => Nullable(v, ReadDouble));
    var bankType :- ReadProperty(root, "BankType", b.bankType, (v: Json) => GetStringOr(v, b.bankType));
    var ownershipType :- ReadProperty(root, "OwnershipType", b.ownershipType, GetString);
    Ok(b.(latitude := latitude, longitude := longitude, bankType := bankType, ownershipType := ownershipType))
  }

  /** `ImportJson`, the listing members: the display order is read without a null test. */
  function ImportListing(b: Bank, root: Json): (r: Result<Bank, JsonError>)
    ensures r.Ok? ==> r.value == b.(branchesJson := r.value.branchesJson, isActive := r.value.isActive,
      displayOrder := r.value.displayOrder)
  {
    var branchesJson :- ReadProperty(root, "BranchesJson", b.branchesJson, ReadBranches);
    var isActive :- ReadProperty(root, "IsActive", b.isActive, GetBoolean);
    var displayOrder :- ReadProperty(root, "DisplayOrder", b.displayOrder, GetInt32);
    Ok(b.(branchesJson := branchesJson, isActive := isActive, displayOrder := displayOrder))
  }

  /** `ImportJson`, the SEO members. */
  function ImportSeo(b: Bank, root: Json): (r: Result<Bank, JsonError>)
    ensures r.Ok? ==> r.value == b.(metaTitle := r.value.metaTitle, metaDescription := r.value.metaDescription)
  {
    var metaTitle :- ReadProperty(root, "MetaTitle", b.metaTitle, GetString);
    var metaDescription :- ReadProperty(root, "MetaDescription", b.metaDescription, GetString);
    Ok(b.(metaTitle := metaTitle, metaDescription := metaDescription))
  }

  /** The body of ImportJson's try block up to the save: the properties present overwrite their fields one after the other, and the first failure throws. */
  function Imported(b: Bank, root: Json): (r: Result<Bank, JsonError>)
    ensures !root.JObject? ==> r.Err?
    ensures r.Ok? ==> (r.value.id == b.id && r.value.parentBankId == b.parentBankId && r.value.createdAt == b.createdAt)
  {
    var p :- ImportIdentity(b, root);
    var q :- ImportAbout(p, root);
    var c :- ImportContact(q, root);
    var d :- ImportPlace(c, root);
    var e :- ImportListing(d, root);
    ImportSeo(e, root)
  }

  /** `ImportJson(id, jsonData)`; `document` is the parsed text, None when JsonDocument.Parse throws. */
  function ImportResponse(t: Tables, id: int, document: Option<Json>): (r: Response)
    ensures r.outcome == NotFound <==> !HasId(t.banks, BankId, id)
    ensures r.outcome != Saved ==> r.tables == t
    ensures r.outcome == NotFound || r.outcome == Saved || r.outcome == ImportRejected
    ensures r.outcome == Saved ==> exists i :: (0 <= i < |t.banks| && t.banks[i].id == id && document.Some? &&
      Imported(t.banks[i], document.value).Ok? && r.tables == t.(banks := t.banks[i := Imported(t.banks[i], document.value).value]))
  {
    match Find(t.banks, BankId, id)
    case None => Response(NotFound, t)
    case Some(i) =>
      if document.None? then Response(ImportRejected, t)
      else match Imported(t.banks[i], document.value)
        case Err(_) => Response(ImportRejected, t)
        case Ok(row) => CommitImport(t, t.(banks := t.banks[i := row]))
  }

  method ImportJson(db: ApplicationDbContext, id: int, document: Option<Json>) returns (outcome: Outcome)
    requires db.Valid()
    modifies db
    ensures Response(outcome, db.State()) == ImportResponse(old(db.State()), id, document)
  {
    var t := db.State();
    var found := Find(t.banks, BankId, id);
    if found.None? {
      return NotFound;
    }
    var i := found.value;
    if document.None? {
      return ImportRejected;
    }
    var imported := Imported(t.banks[i], document.value);
    if imported.Err? {
      return ImportRejected;
    }
    ReplaceBankConsistent(t, i, imported.value);
    var ok := db.SaveChanges(t.(banks := t.banks[i := imported.value]));
    outcome := if ok then Saved else ImportRejected;
  }

  // ------------------------------------------------------------ the export and import agree

  /** What the import makes of an exported BranchesJson: the text itself, or "null" for a bank without one. */
  function BranchesAfterImport(branches: Option<string>): Option<string> {
    Some(branches.GetOr("null"))
  }

  lemma IdentityOfExport(b: Bank, src: Bank, root: Json)
    requires root.JObject?
    requires Lookup(root.members, "Name") == Some(JString(src.name))
    requires Lookup(root.members, "Slug") == Some(JString(src.slug))
    requires Lookup(root.members, "LogoUrl") == Some(StringValue(src.logoUrl))
    requires Lookup(root.members, "Website") == Some(StringValue(src.website))
    ensures ImportIdentity(b, root) == Ok(b.(name := src.name, slug := src.slug, logoUrl := src.logoUrl, website := src.website))
  {
    ValueRoundTrips(src.logoUrl, None);
    ValueRoundTrips(src.website, None);
  }

  lemma AboutOfExport(b: Bank, src: Bank, root: Json)
    requires root.JObject?
    requires Lookup(root.members, "Description") == Some(StringValue(src.description))
    requires Lookup(root.members, "History") == Some(StringValue(src.history))
    requires Lookup(root.members, "FoundedYear") == Some(OptIntValue(src.foundedYear))
    requires Lookup(root.members, "BranchCount") == Some(OptIntValue(src.branchCount))
    ensures ImportAbout(b, root) == Ok(b.(description := src.description, history := src.history,
      foundedYear := src.foundedYear, branchCount := src.branchCount))
  {
    ValueRoundTrips(src.description, src.foundedYear);
    ValueRoundTrips(src.history, src.branchCount);
  }

  lemma ContactOfExport(b: Bank, src: Bank, root: Json)
    requires root.JObject?
    requires Lookup(root.members, "HeadquartersCity") == Some(StringValue(src.headquartersCity))
    requires Lookup(root.members, "Address") == Some(StringValue(src.address))
    requires Lookup(root.members, "PhoneNumber") == Some(StringValue(src.phoneNumber))
    requires Lookup(root.members, "Email") == Some(StringValue(src.email))
    ensures ImportContact(b, root) == Ok(b.(headquartersCity := src.headquartersCity, address := src.address,
      phoneNumber := src.phoneNumber, email := src.email))
  {
    ValueRoundTrips(src.headquartersCity, None);
    ValueRoundTrips(src.address, None);
    ValueRoundTrips(src.phoneNumber, None);
    ValueRoundTrips(src.email, None);
  }

  lemma PlaceOfExport(b: Bank, src: Bank, root: Json)
    requires root.JObject?
    requires Lookup(root.members, "Latitude") == Some(DoubleValue(src.latitude))
    requires Lookup(root.members, "Longitude") == Some(DoubleValue(src.longitude))
    requires Lookup(root.members, "BankType") == Some(JString(src.bankType))
    requires Lookup(root.members, "OwnershipType") == Some(StringValue(src.ownershipType))
    ensures ImportPlace(b, root) == Ok(b.(latitude := src.latitude, longitude := src.longitude,
      bankType := src.bankType, ownershipType := src.ownershipType))
  {
    NumberRoundTrips(None, src.latitude);
    NumberRoundTrips(None, src.longitude);
    ValueRoundTrips(src.ownershipType, None);
  }

  lemma ListingOfExport(b: Bank, src: Bank, root: Json)
    requires root.JObject?
    requires Lookup(root.members, "BranchesJson") == Some(StringValue(src.branchesJson))
    requires Lookup(root.members, "IsActive") == Some(JBool(src.isActive))
    requires Lookup(root.members, "DisplayOrder") == Some(IntValue(src.displayOrder))
    ensures ImportListing(b, root) == Ok(b.(branchesJson := BranchesAfterImport(src.branchesJson),
      isActive := src.isActive, displayOrder := src.displayOrder))
  {
    IntValueRoundTrip(src.displayOrder);
  }

  lemma SeoOfExport(b: Bank, src: Bank, root: Json)
    requires root.JObject?
    requires Lookup(root.members, "MetaTitle") == Some(StringValue(src.metaTitle))
    requires Lookup(root.members, "MetaDescription") == Some(StringValue(src.metaDescription))
    ensures ImportSeo(b, root) == Ok(b.(metaTitle := src.metaTitle, metaDescription := src.metaDescription))
  {
    ValueRoundTrips(src.metaTitle, None);
    ValueRoundTrips(src.metaDescription, None);
  }

  /** No name is listed for two groups. */
  lemma RunKeysDisjoint()
    ensures forall j, j', key :: 0 <= j < j' < 6 && key in RunKeys[j] ==> key !in RunKeys[j']
  {
  }

  /** Each group of the export holds only the names listed for it. */
  lemma ExportRunsNamed(src: Bank)
    ensures forall j, i :: 0 <= j < 6 && 0 <= i < |ExportRuns(src)[j]| ==> ExportRuns(src)[j][i].name in RunKeys[j]
  {
  }

  // Whatever entries come first, a document ending in `src`'s export yields its data to the lookups each import stage makes.

  lemma CarriedIdentity(src: Bank, notes: seq<Member>)
    ensures Lookup(notes + ExportData(src), "Name") == Some(JString(src.name))
    ensures Lookup(notes + ExportData(src), "Slug") == Some(JString(src.slug))
    ensures Lookup(notes + ExportData(src), "LogoUrl") == Some(StringValue(src.logoUrl))
    ensures Lookup(notes + ExportData(src), "Website") == Some(StringValue(src.website))
  {
    ExportRunsNamed(src);
    RunKeysDisjoint();
    LookupLast(IdentityData(src), 0);
    LookupLast(IdentityData(src), 1);
    LookupLast(IdentityData(src), 2);
    LookupLast(IdentityData(src), 3);
    LookupInRuns(notes, ExportRuns(src), RunKeys, 0, "Name");
    LookupInRuns(notes, ExportRuns(src), RunKeys, 0, "Slug");
    LookupInRuns(notes, ExportRuns(src), RunKeys, 0, "LogoUrl");
    LookupInRuns(notes, ExportRuns(src), RunKeys, 0, "Website");
  }

  lemma CarriedAbout(src: Bank, notes: seq<Member>)
    ensures Lookup(notes + ExportData(src), "Description") == Some(StringValue(src.description))
    ensures Lookup(notes + ExportData(src), "History") == Some(StringValue(src.history))
    ensures Lookup(notes + ExportData(src), "FoundedYear") == Some(OptIntValue(src.foundedYear))
    ensures Lookup(notes + ExportData(src), "BranchCount") == Some(OptIntValue(src.branchCount))
  {
    ExportRunsNamed(src);
    RunKeysDisjoint();
    LookupLast(AboutData(src), 0);
    LookupLast(AboutData(src), 1);
    LookupLast(AboutData(src), 2);
    LookupLast(AboutData(src), 3);
    LookupInRuns(notes, ExportRuns(src), RunKeys, 1, "Description");
    LookupInRuns(notes, ExportRuns(src), RunKeys, 1, "History");
    LookupInRuns(notes, ExportRuns(src), RunKeys, 1, "FoundedYear");
    LookupInRuns(notes, ExportRuns(src), RunKeys, 1, "BranchCount");
  }

  lemma CarriedContact(src: Bank, notes: seq<Member>)
    ensures Lookup(notes + ExportData(src), "HeadquartersCity") == Some(StringValue(src.headquartersCity))
    ensures Lookup(notes + ExportData(src), "Address") == Some(StringValue(src.address))
    ensures Lookup(notes + ExportData(src), "PhoneNumber") == Some(StringValue(src.phoneNumber))
    ensures Lookup(notes + ExportData(src), "Email") == Some(StringValue(src.email))
  {
    ExportRunsNamed(src);
    RunKeysDisjoint();
    LookupLast(ContactData(src), 0);
    LookupLast(ContactData(src), 1);
    LookupLast(ContactData(src), 2);
    LookupLast(ContactData(src), 3);
    LookupInRuns(notes, ExportRuns(src), RunKeys, 2, "HeadquartersCity");
    LookupInRuns(notes, ExportRuns(src), RunKeys, 2, "Address");
    LookupInRuns(notes, ExportRuns(src), RunKeys, 2, "PhoneNumber");
    LookupInRuns(notes, ExportRuns(src), RunKeys, 2, "Email");
  }

  lemma CarriedPlace(src: Bank, notes: seq<Member>)
    ensures Lookup(notes + ExportData(src), "Latitude") == Some(DoubleValue(src.latitude))
    ensures Lookup(notes + ExportData(src), "Longitude") == Some(DoubleValue(src.longitude))
    ensures Lookup(notes + ExportData(src), "BankType") == Some(JString(src.bankType))
    ensures Lookup(notes + ExportData(src), "OwnershipType") == Some(StringValue(src.ownershipType))
  {
    ExportRunsNamed(src);
    RunKeysDisjoint();
    LookupLast(PlaceData(src), 0);
    LookupLast(PlaceData(src), 1);
    LookupLast(PlaceData(src), 2);
    LookupLast(PlaceData(src), 3);
    LookupInRuns(notes, ExportRuns(src), RunKeys, 3, "Latitude");
    LookupInRuns(notes, ExportRuns(src), RunKeys, 3, "Longitude");
    LookupInRuns(notes, ExportRuns(src), RunKeys, 3, "BankType");
    LookupInRuns(notes, ExportRuns(src), RunKeys, 3, "OwnershipType");
  }

  lemma CarriedListing(src: Bank, notes: seq<Member>)
    ensures Lookup(notes + ExportData(src), "BranchesJson") == Some(StringValue(src.branchesJson))
    ensures Lookup(notes + ExportData(src), "IsActive") == Some(JBool(src.isActive))
    ensures Lookup(notes + ExportData(src), "DisplayOrder") == Some(IntValue(src.displayOrder))
    ensures Lookup(notes + ExportData(src), "MetaTitle") == Some(StringValue(src.metaTitle))
    ensures Lookup(notes + ExportData(src), "MetaDescription") == Some(StringValue(src.metaDescription))
  {
    ExportRunsNamed(src);
    RunKeysDisjoint();
    LookupLast(ListingData(src), 0);
    LookupLast(ListingData(src), 1);
    LookupLast(ListingData(src), 2);
    LookupLast(SeoData(src), 0);
    LookupLast(SeoData(src), 1);
    LookupInRuns(notes, ExportRuns(src), RunKeys, 4, "BranchesJson");
    LookupInRuns(notes, ExportRuns(src), RunKeys, 4, "IsActive");
    LookupInRuns(notes, ExportRuns(src), RunKeys, 4, "DisplayOrder");
    LookupInRuns(notes, ExportRuns(src), RunKeys, 5, "MetaTitle");
    LookupInRuns(notes, ExportRuns(src), RunKeys, 5, "MetaDescription");
  }

  /**
   * Importing a document that ends in the export of `src` into `current`
   * gives `src` under `current`'s id, parent bank and creation time, except
   * that a missing BranchesJson comes back as the text "null".
   */
  lemma ImportOfExport(current: Bank, src: Bank, notes: seq<Member>)
    ensures Imported(current, JObject(notes + ExportData(src))) == Ok(src.(id := current.id,
      parentBankId := current.parentBankId, createdAt := current.createdAt,
      branchesJson := BranchesAfterImport(src.branchesJson)))
  {
    var root := JObject(notes + ExportData(src));
    CarriedIdentity(src, notes);
    IdentityOfExport(current, src, root);
    var p := ImportIdentity(current, root).value;
    CarriedAbout(src, notes);
    AboutOfExport(p, src, root);
    var q := ImportAbout(p, root).value;
    CarriedContact(src, notes);
    ContactOfExport(q, src, root);
    var c := ImportContact(q, root).value;
    CarriedPlace(src, notes);
    PlaceOfExport(c, src, root);
    var d := ImportPlace(c, root).value;
    CarriedListing(src, notes);
    ListingOfExport(d, src, root);
    var e := ImportListing(d, root).value;
    SeoOfExport(e, src, root);
  }

  /** The export of a bank imported back into it is always saved and changes nothing, except that a missing BranchesJson becomes the text "null". */
  lemma ExportImportRoundTrip(t: Tables, i: int, guide: Json, help: Json)
    requires Consistent(t) && 0 <= i < |t.banks|
    ensures ImportResponse(t, t.banks[i].id, Exported(t, t.banks[i].id, guide, help))
      == Response(Saved, t.(banks := t.banks[i := t.banks[i].(branchesJson := BranchesAfterImport(t.banks[i].branchesJson))]))
  {
    var b := t.banks[i];
    FindBank(t, i);
    ImportOfExport(b, b, ExportNotes(guide, help));
    ReplaceBankConsistent(t, i, b.(branchesJson := BranchesAfterImport(b.branchesJson)));
    assert !KeyTakenByOther(t.banks, BankSlug, BankId, b.slug, b.id);
  }

  /** An empty object changes nothing. */
  lemma EmptyImport(b: Bank)
    ensures Imported(b, JObject([])) == Ok(b)
  {
  }
}
