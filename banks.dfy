/**
 * The public bank pages (Controllers/BanksController.cs): the bank list with
 * each bank's active loans, a bank's page, and the nearby-branches endpoint,
 * which asks the Overpass map service for bank branches around a point and
 * turns the answer into a list of branches. The HTTP exchange itself is a
 * parameter: `overpass` stands for posting a query to the service and
 * reading back its answer.
 */
module Banks {
  import opened Optional
  import opened Text
  import opened Entities
  import opened Store
  import opened Ordering
  import opened Listings
  import opened Json

  // ---------------------------------------------------------------- Index

  /** `Index`: the active banks in display order, the loop attaching each bank's active loans. */
  method Index(db: ApplicationDbContext) returns (cards: seq<BankCard>)
    ensures cards == BanksWithLoans(db.banks, db.loans)
  {
    var loans := db.loans;
    var banks := ActiveBanks(db.banks);
    cards := AttachLoans(banks, loans);
  }

  /** The `foreach` over the queried banks, giving each its active loans. */
  method AttachLoans(banks: seq<Bank>, loans: seq<Loan>) returns (cards: seq<BankCard>)
    ensures cards == Select(banks, (b: Bank) => CardOf(loans, b))
  {
    cards := [];
    for i := 0 to |banks|
      invariant |cards| == i
      invariant forall k :: 0 <= k < i ==> cards[k] == CardOf(loans, banks[k])
    {
      cards := cards + [CardOf(loans, banks[i])];
    }
  }

  // --------------------------------------------------------------- Detail

  /** `Detail(slug)`: the active bank with the slug and its active loans, featured first; None is NotFound. */
  function Detail(t: Tables, slug: string): (r: Option<(Bank, seq<Loan>)>)
    ensures r.None? <==> forall i :: 0 <= i < |t.banks| ==> !(t.banks[i].slug == slug && t.banks[i].isActive)
    ensures r.Some? ==> r.value.0 in t.banks && r.value.0.slug == slug && r.value.0.isActive
    ensures r.Some? ==> forall i :: 0 <= i < |r.value.1| ==>
      r.value.1[i] in t.loans && r.value.1[i].isActive && r.value.1[i].bankId == r.value.0.id
    ensures r.Some? ==> forall i :: 0 <= i < |t.loans| && t.loans[i].isActive && t.loans[i].bankId == r.value.0.id ==>
      t.loans[i] in r.value.1
    ensures r.Some? ==> forall l :: (multiset(r.value.1)[l] ==
      if l.isActive && l.bankId == r.value.0.id then multiset(t.loans)[l] else 0)
    ensures r.Some? ==> SortedBy(r.value.1, FeaturedFirst)
  {
    match FirstIndex(t.banks, (b: Bank) => b.slug == slug && b.isActive)
    case None => None
    case Some(k) =>
      var bank := t.banks[k];
      FilterCounts(t.loans, (l: Loan) => l.bankId == bank.id && l.isActive);
      Some((bank, OrderedWhere(t.loans, (l: Loan) => l.bankId == bank.id && l.isActive, FeaturedFirst)))
  }

  // ------------------------------------------------------- nearby branches

  const BankWord: string := "بانک "
  const QardWord: string := "قرض\U{200C}الحسنه "

  /** The term searched for: the name without "بانک " and "قرض‌الحسنه ", cut at its first space. */
  function SearchName(name: string): (r: string)
    ensures forall i :: 0 <= i < |r| ==> r[i] != ' '
  {
    BeforeFirst(Replace(Replace(name, BankWord, ""), QardWord, ""), ' ')
  }

  /** A one-word name, bare or after "بانک ", is searched for as that word. */
  lemma SearchNameOfWord(w: string, prefixed: bool)
    requires forall i :: 0 <= i < |w| ==> w[i] != ' '
    ensures SearchName(if prefixed then BankWord + w else w) == w
  {
    assert ' ' in BankWord && ' ' in QardWord by {
      assert BankWord[4] == ' ';
      assert QardWord[10] == ' ';
    }
    var name := if prefixed then BankWord + w else w;
    ReplaceAbsent(w, BankWord, "", ' ');
    ReplaceAbsent(w, QardWord, "", ' ');
    if prefixed {
      ReplaceLeading(BankWord, w, "");
      assert "" + w == w;
    }
    assert Replace(name, BankWord, "") == w;
    var r := BeforeFirst(w, ' ');
    assert r == w[..|w|] == w;
  }

  /**
   * The Overpass QL query: bank nodes and ways within 5000 m of the point
   * whose name matches the search term. The coordinates arrive as the
   * invariant-culture text of the request's doubles.
   */
  function OverpassQuery(bankName: string, lat: string, lng: string): string {
    var filter := "[\"amenity\"=\"bank\"][\"name\"~\"" + bankName + "\"](around:5000," + lat + "," + lng + ");";
    "[out:json][timeout:10];\n(\n  node" + filter + "\n  way" + filter + "\n);\nout center body;"
  }

  /** How the exchange with the map service ends. */
  datatype Overpass =
    | Unreachable                  // PostAsync throws: no connection, or the 15-second timeout
    | NonSuccess                   // an answer with a status outside 200-299
    | Answered(body: Option<Json>) // a 2xx answer; None when its text is not JSON

  /** One branch of the answer; the coordinates keep their JSON number text. */
  datatype Branch = Branch(name: Option<string>, lat: string, lng: string, address: Option<string>)

  const MapServerMessage: string := "خطا در ارتباط با سرور نقشه"
  const SearchFailedMessage: string := "خطا در جستجوی شعب"

  /** The endpoint's answer: 404, `success = false` with a message, or the branches and their count. */
  datatype NearbyReply =
    | NotFound
    | Failed(message: string)
    | Found(branches: seq<Branch>, count: int)

  /** `GetDouble` on an optional property: absent keeps `otherwise`; present must be a number. */
  function NumberOr(v: Option<Json>, otherwise: Option<string>): (r: Result<Option<string>, JsonError>)
    ensures v.None? ==> r == Ok(otherwise)
    ensures v.Some? ==> (r.Ok? <==> v.value.JNumber?)
    ensures v.Some? && r.Ok? ==> r.value == Some(v.value.text)
  {
    if v.None? then Ok(otherwise)
    else
      var x :- GetNumber(v.value);
      Ok(Some(x))
  }

  /** The member `key` of an object; nothing for a missing member or a value that is not an object. */
  function Prop(v: Json, key: string): Option<Json> {
    if v.JObject? then Lookup(v.members, key) else None
  }

  /** `x.GetDouble()` succeeds on an optional property: it is absent, or a number. */
  predicate NumberIfPresent(v: Option<Json>) {
    v.None? || v.value.JNumber?
  }

  /** `x.GetString()` succeeds on an optional tag: it is absent, a string or null. */
  predicate TextIfPresent(v: Option<Json>) {
    v.None? || v.value.JString? || v.value.JNull?
  }

  /**
   * The position before the `lon` override. A non-object fails. A `lat`
   * member must be a number and gives the latitude alone; without one, a
   * `center` member must hold numeric `lat` and `lon` and gives both; without
   * either, nothing is known.
   */
  function Located(el: Json): (r: Result<(Option<string>, Option<string>), JsonError>)
    ensures !el.JObject? ==> r.Err?
    ensures el.JObject? && Prop(el, "lat").Some? ==>
      (r.Ok? <==> Prop(el, "lat").value.JNumber?)
      && (r.Ok? ==> r.value == (Some(Prop(el, "lat").value.text), None))
    ensures el.JObject? && Prop(el, "lat").None? && Prop(el, "center").None? ==> r == Ok((None, None))
    ensures el.JObject? && Prop(el, "lat").None? && Prop(el, "center").Some? ==>
      var center := Prop(el, "center").value;
      (r.Ok? <==> Prop(center, "lat").Some? && Prop(center, "lat").value.JNumber?
                  && Prop(center, "lon").Some? && Prop(center, "lon").value.JNumber?)
      && (r.Ok? ==> r.value == (Some(Prop(center, "lat").value.text), Some(Prop(center, "lon").value.text)))
  {
    var latProp :- TryGetProperty(el, "lat");
    // The element is an object from here on, so its further lookups cannot throw.
    if latProp.Some? then
      var lat :- NumberOr(latProp, None);
      Ok((lat, None))
    else
      match Lookup(el.members, "center")
      case None => Ok((None, None))
      case Some(center) =>
        var latValue :- GetProperty(center, "lat");
        var lat :- GetNumber(latValue);
        var lonValue :- GetProperty(center, "lon");
        var lon :- GetNumber(lonValue);
        Ok((Some(lat), Some(lon)))
  }

  /**
   * A text from the element's `tags`: `fallback` when there are no tags or no
   * such tag, else the tag's string (None for a JSON null). Tags that are not
   * an object, or a tag that is not a string or null, fail.
   */
  function TagText(tags: Option<Json>, key: string, fallback: Option<string>): (r: Result<Option<string>, JsonError>)
    ensures r.Ok? <==> tags.None? || (tags.value.JObject? && TextIfPresent(Prop(tags.value, key)))
    ensures tags.None? || Prop(tags.value, key).None? ==> r.Ok? ==> r.value == fallback
    ensures tags.Some? && Prop(tags.value, key).Some? && Prop(tags.value, key).value.JString? ==>
      r == Ok(Some(Prop(tags.value, key).value.s))
    ensures tags.Some? && Prop(tags.value, key).Some? && Prop(tags.value, key).value.JNull? ==> r == Ok(None)
  {
    if tags.None? then Ok(fallback)
    else
      var tag :- TryGetProperty(tags.value, key);
      if tag.None? then Ok(fallback) else GetString(tag.value)
  }

  /**
   * One element of `elements`. It fails (the handler catches the exception
   * and answers with the search-failed message) unless its position is
   * readable, a `lon` member is a number, and `tags`, if present, is an
   * object whose `name` and `addr:street` are strings or nulls. Read, it is a
   * branch exactly when both coordinates are known; `lon` overrides the
   * center's longitude; the name falls back to the bank's and the address to
   * none.
   */
  function ReadBranch(el: Json, bankName: string): (r: Result<Option<Branch>, JsonError>)
    ensures r.Ok? <==>
      Located(el).Ok? && NumberIfPresent(Prop(el, "lon"))
      && (Prop(el, "tags").None? ||
          (Prop(el, "tags").value.JObject?
           && TextIfPresent(Prop(Prop(el, "tags").value, "name"))
           && TextIfPresent(Prop(Prop(el, "tags").value, "addr:street"))))
    ensures r.Ok? ==> el.JObject?
    ensures r.Ok? ==>
      (r.value.Some? <==> Located(el).value.0.Some? && (Prop(el, "lon").Some? || Located(el).value.1.Some?))
    ensures r.Ok? && r.value.Some? ==>
      var b := r.value.value;
      b.lat == Located(el).value.0.value
      && b.lng == (if Prop(el, "lon").Some? then Prop(el, "lon").value.text else Located(el).value.1.value)
    ensures r.Ok? && r.value.Some? ==>
      var tags := Prop(el, "tags");
      (tags.None? || Prop(tags.value, "name").None? ==> r.value.value.name == Some(bankName))
      && (tags.Some? && Prop(tags.value, "name").Some? ==>
            r.value.value.name == if Prop(tags.value, "name").value.JString? then Some(Prop(tags.value, "name").value.s) else None)
    ensures r.Ok? && r.value.Some? ==>
      var tags := Prop(el, "tags");
      (tags.None? || Prop(tags.value, "addr:street").None? ==> r.value.value.address == None)
      && (tags.Some? && Prop(tags.value, "addr:street").Some? ==>
            r.value.value.address ==
              if Prop(tags.value, "addr:street").value.JString? then Some(Prop(tags.value, "addr:street").value.s) else None)
  {
    var at :- Located(el);
    var lng :- NumberOr(Lookup(el.members, "lon"), at.1);
    var tags := Lookup(el.members, "tags");
    var name :- TagText(tags, "name", Some(bankName));
    var address :- TagText(tags, "addr:street", None);
    if at.0.Some? && lng.Some? then Ok(Some(Branch(name, at.0.value, lng.value, address))) else Ok(None)
  }

  /** A node with numeric `lat` and `lon` and a string name tag is a branch under that name, without an address. */
  lemma NodeIsBranch(lat: string, lon: string, name: string, bankName: string)
    ensures ReadBranch(JObject([Member("lat", JNumber(lat)), Member("lon", JNumber(lon)),
      Member("tags", JObject([Member("name", JString(name))]))]), bankName)
      == Ok(Some(Branch(Some(name), lat, lon, None)))
  {
    var tags := [Member("name", JString(name))];
    var members := [Member("lat", JNumber(lat)), Member("lon", JNumber(lon)), Member("tags", JObject(tags))];
    assert Lookup(members, "tags") == Some(JObject(tags));
    assert Lookup(members, "lon") == Some(JNumber(lon));
    LookupLast(members, 0);
    assert Lookup(tags, "name") == Some(JString(name));
    assert Lookup(tags, "addr:street") == None;
  }

  /** A way is placed at its `center`, and without tags it carries the bank's own name. */
  lemma WayIsBranch(lat: string, lon: string, bankName: string)
    ensures ReadBranch(JObject([Member("center", JObject([Member("lat", JNumber(lat)), Member("lon", JNumber(lon))]))]), bankName)
      == Ok(Some(Branch(Some(bankName), lat, lon, None)))
  {
    var center := [Member("lat", JNumber(lat)), Member("lon", JNumber(lon))];
    var members := [Member("center", JObject(center))];
    assert Lookup(members, "lat") == None;
    assert Lookup(members, "center") == Some(JObject(center));
    assert Lookup(members, "lon") == None;
    assert Lookup(members, "tags") == None;
    assert Lookup(center, "lat") == Some(JNumber(lat));
    assert Lookup(center, "lon") == Some(JNumber(lon));
  }

  /** A node with `lat` but no `lon` is skipped. */
  lemma NodeWithoutLonIsSkipped(lat: string, bankName: string)
    ensures ReadBranch(JObject([Member("lat", JNumber(lat))]), bankName) == Ok(None)
  {
    var members := [Member("lat", JNumber(lat))];
    assert Lookup(members, "lat") == Some(JNumber(lat));
    assert Lookup(members, "lon") == None;
    assert Lookup(members, "tags") == None;
  }

  /** `tags` that is not an object makes the tag lookup throw, and the whole search fails. */
  lemma TagsMustBeAnObject(lat: string, lon: string, bankName: string)
    ensures ReadBranch(JObject([Member("lat", JNumber(lat)), Member("lon", JNumber(lon)), Member("tags", JNull)]), bankName).Err?
  {
    var members := [Member("lat", JNumber(lat)), Member("lon", JNumber(lon)), Member("tags", JNull)];
    assert Lookup(members, "tags") == Some(JNull);
    assert Lookup(members, "lon") == Some(JNumber(lon));
    LookupLast(members, 0);
  }

  /** The `foreach` over `elements`: the branches in order, or None once an element throws. */
  function Branches(elements: seq<Json>, bankName: string): Option<seq<Branch>> {
    if elements == [] then Some([])
    else
      match Branches(elements[..|elements| - 1], bankName)
      case None => None
      case Some(init) =>
        match ReadBranch(elements[|elements| - 1], bankName)
        case Err(_) => None
        case Ok(b) => Some(init + (if b.Some? then [b.value] else []))
  }

  /** An element that throws stops the whole list. */
  lemma {:induction false} BranchesFailFrom(elements: seq<Json>, bankName: string, i: int)
    requires 0 <= i <= |elements| && Branches(elements[..i], bankName).None?
    ensures Branches(elements, bankName).None?
    decreases |elements| - i
  {
    if i < |elements| {
      assert elements[..i + 1][..i] == elements[..i];
      BranchesFailFrom(elements, bankName, i + 1);
    } else {
      assert elements[..i] == elements;
    }
  }

  /** The list holds exactly the branches the elements yield, in order; an element that yields one is never lost. */
  lemma {:induction false} BranchesFromElements(elements: seq<Json>, bankName: string)
    requires Branches(elements, bankName).Some?
    ensures |Branches(elements, bankName).value| <= |elements|
    ensures forall i :: 0 <= i < |elements| ==> ReadBranch(elements[i], bankName).Ok?
    ensures forall b :: b in Branches(elements, bankName).value ==>
      exists i :: 0 <= i < |elements| && ReadBranch(elements[i], bankName) == Ok(Some(b))
    ensures forall i :: 0 <= i < |elements| && ReadBranch(elements[i], bankName).value.Some? ==>
      ReadBranch(elements[i], bankName).value.value in Branches(elements, bankName).value
  {
    if elements != [] {
      var init := elements[..|elements| - 1];
      BranchesFromElements(init, bankName);
      assert forall i :: 0 <= i < |init| ==> init[i] == elements[i];
    }
  }

  /** The decoding loop of the handler, proved against `Branches`. */
  method DecodeBranches(elements: seq<Json>, bankName: string) returns (r: Option<seq<Branch>>)
    ensures r == Branches(elements, bankName)
  {
    var branches: seq<Branch> := [];
    for i := 0 to |elements|
      invariant Branches(elements[..i], bankName) == Some(branches)
    {
      var prefix := elements[..i + 1];
      assert prefix[..|prefix| - 1] == elements[..i] && prefix[|prefix| - 1] == elements[i];
      var b := ReadBranch(elements[i], bankName);
      if b.Err? {
        assert Branches(prefix, bankName).None?;
        BranchesFailFrom(elements, bankName, i + 1);
        return None;
      }
      var found := if b.value.Some? then [b.value.value] else [];
      assert Branches(prefix, bankName) == Some(branches + found);
      branches := branches + found;
    }
    assert elements[..|elements|] == elements;
    r := Some(branches);
  }

  /** `doc.RootElement.GetProperty("elements").EnumerateArray()`. */
  function Elements(root: Json): Option<seq<Json>> {
    match GetProperty(root, "elements")
    case Err(_) => None
    case Ok(v) => if v.JArray? then Some(v.items) else None
  }

  /** `NearbyBranches(slug, lat, lng)`: the reply given the bank table and the map service's behaviour. */
  function Nearby(t: Tables, slug: string, lat: string, lng: string, overpass: string -> Overpass): (r: NearbyReply)
    ensures r == NotFound <==> forall i :: 0 <= i < |t.banks| ==> t.banks[i].slug != slug
    ensures r.Found? ==> r.count == |r.branches|
    ensures r.Failed? ==> r.message == MapServerMessage || r.message == SearchFailedMessage
  {
    match FirstIndex(t.banks, (b: Bank) => b.slug == slug)
    case None => NotFound
    case Some(k) =>
      var bank := t.banks[k];
      match overpass(OverpassQuery(SearchName(bank.name), lat, lng))
      case Unreachable => Failed(SearchFailedMessage)
      case NonSuccess => Failed(MapServerMessage)
      case Answered(None) => Failed(SearchFailedMessage)
      case Answered(Some(root)) =>
        match Elements(root)
        case None => Failed(SearchFailedMessage)
        case Some(elements) =>
          match Branches(elements, bank.name)
          case None => Failed(SearchFailedMessage)
          case Some(branches) => Found(branches, |branches|)
  }

  /** A list whose every element reads without error decodes. */
  lemma {:induction false} BranchesSucceed(elements: seq<Json>, bankName: string)
    requires forall i :: 0 <= i < |elements| ==> ReadBranch(elements[i], bankName).Ok?
    ensures Branches(elements, bankName).Some?
  {
    if elements != [] {
      var init := elements[..|elements| - 1];
      assert forall i :: 0 <= i < |init| ==> init[i] == elements[i];
      BranchesSucceed(init, bankName);
    }
  }

  /**
   * The reply once the first bank with the slug, active or not, is found: the
   * map service is asked under the bank's search name; a failed exchange
   * gives the search-failed message and a non-2xx answer the map-server
   * message. A JSON answer gives branches exactly when its `elements` is an
   * array whose every element reads, and then the branches are exactly the
   * elements that have both coordinates; otherwise the search-failed message.
   */
  lemma NearbyOutcome(t: Tables, slug: string, lat: string, lng: string, overpass: string -> Overpass, k: int)
    requires 0 <= k < |t.banks| && t.banks[k].slug == slug
    requires forall j :: 0 <= j < k ==> t.banks[j].slug != slug
    ensures var answer := overpass(OverpassQuery(SearchName(t.banks[k].name), lat, lng));
      (answer == Unreachable || answer == Answered(None) ==>
         Nearby(t, slug, lat, lng, overpass) == Failed(SearchFailedMessage))
      && (answer == NonSuccess ==> Nearby(t, slug, lat, lng, overpass) == Failed(MapServerMessage))
    ensures var answer := overpass(OverpassQuery(SearchName(t.banks[k].name), lat, lng));
      answer.Answered? && answer.body.Some? ==>
      var elements := Prop(answer.body.value, "elements");
      (Nearby(t, slug, lat, lng, overpass).Found? <==>
         elements.Some? && elements.value.JArray?
         && forall i :: 0 <= i < |elements.value.items| ==> ReadBranch(elements.value.items[i], t.banks[k].name).Ok?)
      && (!Nearby(t, slug, lat, lng, overpass).Found? ==> Nearby(t, slug, lat, lng, overpass) == Failed(SearchFailedMessage))
    ensures var answer := overpass(OverpassQuery(SearchName(t.banks[k].name), lat, lng));
      answer.Answered? && answer.body.Some? && Nearby(t, slug, lat, lng, overpass).Found? ==>
      var items := Prop(answer.body.value, "elements").value.items;
      var branches := Nearby(t, slug, lat, lng, overpass).branches;
      |branches| <= |items|
      && (forall b :: b in branches <==>
            exists i :: 0 <= i < |items| && ReadBranch(items[i], t.banks[k].name) == Ok(Some(b)))
  {
    var found := FirstIndex(t.banks, (b: Bank) => b.slug == slug);
    assert found == Some(k);
    var name := t.banks[k].name;
    var answer := overpass(OverpassQuery(SearchName(name), lat, lng));
    if answer.Answered? && answer.body.Some? {
      var root := answer.body.value;
      if Elements(root).Some? {
        var items := Elements(root).value;
        assert Prop(root, "elements") == Some(JArray(items));
        if Branches(items, name).Some? {
          BranchesFromElements(items, name);
          var branches := Branches(items, name).value;
          forall b | exists i :: 0 <= i < |items| && ReadBranch(items[i], name) == Ok(Some(b))
            ensures b in branches
          {
            var i :| 0 <= i < |items| && ReadBranch(items[i], name) == Ok(Some(b));
            assert ReadBranch(items[i], name).value.Some?;
          }
        } else if forall i :: 0 <= i < |items| ==> ReadBranch(items[i], name).Ok? {
          BranchesSucceed(items, name);
        }
      }
    }
  }

  /** The handler: look the bank up, ask the service, and decode its answer with the loop. */
  method NearbyBranches(db: ApplicationDbContext, slug: string, lat: string, lng: string, overpass: string -> Overpass)
    returns (r: NearbyReply)
    ensures r == Nearby(db.State(), slug, lat, lng, overpass)
  {
    var found := FirstIndex(db.banks, (b: Bank) => b.slug == slug);
    if found.None? {
      return NotFound;
    }
    var bank := db.banks[found.value];
    var bankName := SearchName(bank.name);
    var response := overpass(OverpassQuery(bankName, lat, lng));
    if response.Unreachable? {
      return Failed(SearchFailedMessage);
    }
    if response.NonSuccess? {
      return Failed(MapServerMessage);
    }
    if response.body.None? {
      return Failed(SearchFailedMessage);
    }
    var elements := Elements(response.body.value);
    if elements.None? {
      return Failed(SearchFailedMessage);
    }
    var branches := DecodeBranches(elements.value, bank.name);
    if branches.None? {
      return Failed(SearchFailedMessage);
    }
    r := Found(branches.value, |branches.value|);
  }
}
