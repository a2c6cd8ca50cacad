/**
 * What the admin area's form handlers (Areas/Admin/Controllers/) answer and
 * leave behind. Each handler is modelled by a function from the tables
 * before the request to a Response, and by a method on the database
 * context whose answer and new state are that Response.
 */
module Admin {
  import opened Optional
  import opened Json
  import opened Entities
  import opened Store

  datatype Outcome =
    | NotFound                   // 404
    | FormShown(slugTaken: bool) // the form again, with its validation errors
    | Saved                      // changes saved, redirect with a success message
    | ImportRejected             // the JSON import's catch block: redirect with an error message
    | ServerError                // an exception from SaveChanges escapes the handler (500)

  datatype Response = Response(outcome: Outcome, tables: Tables)

  /** `await _db.SaveChangesAsync()` outside any try block: stored, or an escaping exception and nothing stored. */
  function Commit(t: Tables, proposed: Tables): (r: Response)
    ensures r.outcome == Saved || r.outcome == ServerError
    ensures r.outcome == Saved <==> Constraints(proposed)
    ensures r.tables == if r.outcome == Saved then proposed else t
  {
    if Constraints(proposed) then Response(Saved, proposed) else Response(ServerError, t)
  }

  /** The same save inside the import's try block: a failure is caught and reported. */
  function CommitImport(t: Tables, proposed: Tables): (r: Response)
    ensures r.outcome == Saved || r.outcome == ImportRejected
    ensures r.outcome == Saved <==> Constraints(proposed)
    ensures r.tables == if r.outcome == Saved then proposed else t
  {
    if Constraints(proposed) then Response(Saved, proposed) else Response(ImportRejected, t)
  }

  /** A `decimal?` as the serializer writes it: its number text, or null. */
  function DecimalValue(d: Option<Decimal>): Json {
    match d
    case None => JNull
    case Some(x) => JNumber(x.text)
  }

  /** `GetDecimal()`. */
  function ReadDecimal(v: Json): (r: Result<Decimal, JsonError>)
    ensures r.Ok? <==> v.JNumber?
  {
    var text :- GetNumber(v);
    Ok(Decimal(text))
  }

  /** A `double?` as the serializer writes it. */
  function DoubleValue(d: Option<Double>): Json {
    match d
    case None => JNull
    case Some(x) => JNumber(x.text)
  }

  /** `GetDouble()`. */
  function ReadDouble(v: Json): (r: Result<Double, JsonError>)
    ensures r.Ok? <==> v.JNumber?
  {
    var text :- GetNumber(v);
    Ok(Double(text))
  }

  /** Numbers read back as written; a null read without a null test fails. */
  lemma NumberRoundTrips(d: Option<Decimal>, x: Option<Double>)
    ensures Nullable(DecimalValue(d), ReadDecimal) == Ok(d)
    ensures Required(DecimalValue(d), ReadDecimal) == if d.Some? then Ok(d) else Err(WrongKind)
    ensures Nullable(DoubleValue(x), ReadDouble) == Ok(x)
  {
  }
}
