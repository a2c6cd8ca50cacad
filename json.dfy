/**
 * A parsed JSON document as System.Text.Json's JsonDocument presents it, and
 * the JsonElement accessors the site calls. Each accessor either returns a
 * value or fails the way the library throws (InvalidOperationException for
 * the wrong kind of value, FormatException for a number out of range).
 * Numbers keep their text: the site only ever reads them back as integers
 * or hands them on.
 */
module Json {
  import opened Optional
  import opened Text

  datatype Json =
    | JNull
    | JBool(b: bool)
    | JNumber(text: string)
    | JString(s: string)
    | JArray(items: seq<Json>)
    | JObject(members: seq<Member>)

  /** One `"name": value` pair of an object. */
  datatype Member = Member(name: string, value: Json)

  datatype JsonError = WrongKind | OutOfRange | MissingProperty

  /** The value of the LAST member named `key`, as JsonElement does when a name repeats. */
  function Lookup(members: seq<Member>, key: string): Option<Json> {
    if members == [] then None
    else if members[|members| - 1].name == key then Some(members[|members| - 1].value)
    else Lookup(members[..|members| - 1], key)
  }

  /** A lookup finds a member exactly when one has the name, and then the last such member. */
  lemma {:induction false} LookupFinds(members: seq<Member>, key: string)
    ensures Lookup(members, key).Some? <==> exists i :: 0 <= i < |members| && members[i].name == key
    ensures Lookup(members, key).Some? ==> exists i :: (0 <= i < |members| && members[i] == Member(key, Lookup(members, key).value)
      && forall j :: i < j < |members| ==> members[j].name != key)
  {
    if members != [] && members[|members| - 1].name != key {
      var init := members[..|members| - 1];
      LookupFinds(init, key);
      assert forall i :: 0 <= i < |init| ==> init[i] == members[i];
    }
  }

  /** `TryGetProperty`: only an object has properties; on anything else the call throws. */
  function TryGetProperty(v: Json, key: string): (r: Result<Option<Json>, JsonError>)
    ensures r.Err? <==> !v.JObject?
  {
    if v.JObject? then Ok(Lookup(v.members, key)) else Err(WrongKind)
  }

  /** `GetProperty`: like TryGetProperty, but a missing member throws too. */
  function GetProperty(v: Json, key: string): (r: Result<Json, JsonError>)
    ensures r.Ok? <==> v.JObject? && Lookup(v.members, key).Some?
  {
    if !v.JObject? then Err(WrongKind)
    else match Lookup(v.members, key)
      case None => Err(MissingProperty)
      case Some(x) => Ok(x)
  }

  /** `GetString`: the text of a string, null for a JSON null, and an error for anything else. */
  function GetString(v: Json): (r: Result<Option<string>, JsonError>)
    ensures r.Ok? <==> v.JString? || v.JNull?
  {
    match v
    case JString(s) => Ok(Some(s))
    case JNull => Ok(None)
    case _ => Err(WrongKind)
  }

  function GetBoolean(v: Json): (r: Result<bool, JsonError>)
    ensures r.Ok? <==> v.JBool?
  {
    if v.JBool? then Ok(v.b) else Err(WrongKind)
  }

  /** GetInt32/GetInt64: an integral number within [lo, hi]; a JSON null is the wrong kind. */
  function GetInteger(v: Json, lo: int, hi: int): (r: Result<int, JsonError>)
    ensures r.Ok? ==> v.JNumber? && lo <= r.value <= hi
  {
    if !v.JNumber? then Err(WrongKind)
    else match TryParseInteger(v.text, lo, hi)
      case None => Err(OutOfRange)
      case Some(n) => Ok(n)
  }

  function GetInt32(v: Json): (r: Result<Int32, JsonError>)
    ensures r.Ok? ==> v.JNumber?
  {
    var n :- GetInteger(v, MinInt32, MaxInt32);
    Ok(n)
  }

  function GetInt64(v: Json): (r: Result<Int64, JsonError>)
    ensures r.Ok? ==> v.JNumber?
  {
    var n :- GetInteger(v, MinInt64, MaxInt64);
    Ok(n)
  }

  /** GetDecimal/GetDouble: the text of a number; anything else, null included, is the wrong kind. */
  function GetNumber(v: Json): (r: Result<string, JsonError>)
    ensures r.Ok? <==> v.JNumber?
  {
    if v.JNumber? then Ok(v.text) else Err(WrongKind)
  }

  /** `v.GetString() ?? current`: a JSON null keeps the current value. */
  function GetStringOr(v: Json, current: string): (r: Result<string, JsonError>)
    ensures r.Ok? <==> v.JString? || v.JNull?
    ensures v.JNull? ==> r == Ok(current)
  {
    var s :- GetString(v);
    Ok(s.GetOr(current))
  }

  /** `v.ValueKind == JsonValueKind.Null ? null : read(v)`. */
  function Nullable<T>(v: Json, read: Json -> Result<T, JsonError>): (r: Result<Option<T>, JsonError>)
    ensures v.JNull? ==> r == Ok(None)
  {
    if v.JNull? then Ok(None)
    else
      var x :- read(v);
      Ok(Some(x))
  }

  /** Assigning `read(v)` to a nullable column without a null test: a JSON null fails inside `read`. */
  function Required<T>(v: Json, read: Json -> Result<T, JsonError>): Result<Option<T>, JsonError> {
    var x :- read(v);
    Ok(Some(x))
  }

  /**
   * `if (root.TryGetProperty(key, out var v)) field = read(v);` with the
   * field's value before the statement as `current`.
   */
  function ReadProperty<T>(root: Json, key: string, current: T, read: Json -> Result<T, JsonError>): (r: Result<T, JsonError>)
    ensures !root.JObject? ==> r.Err?
    ensures root.JObject? && Lookup(root.members, key).None? ==> r == Ok(current)
  {
    var v :- TryGetProperty(root, key);
    match v
    case None => Ok(current)
    case Some(x) => read(x)
  }

  // ------------------------------------------------ values as the serializer writes them

  /** A `string?`: its text, or null. */
  function StringValue(s: Option<string>): Json {
    match s
    case None => JNull
    case Some(x) => JString(x)
  }

  /** An integer: its decimal text. */
  function IntValue(n: int): Json {
    JNumber(IntToString(n))
  }

  /** An `int?` or `long?`: its decimal text, or null. */
  function OptIntValue(n: Option<int>): Json {
    match n
    case None => JNull
    case Some(x) => IntValue(x)
  }

  /** GetInt32 and GetInt64 read back the text the serializer writes for an in-range integer. */
  lemma IntValueRoundTrip(n: int)
    ensures MinInt32 <= n <= MaxInt32 ==> GetInt32(IntValue(n)) == Ok(n)
    ensures MinInt64 <= n <= MaxInt64 ==> GetInt64(IntValue(n)) == Ok(n)
  {
    if MinInt32 <= n <= MaxInt32 {
      ParseIntToString(n, MinInt32, MaxInt32);
    }
    if MinInt64 <= n <= MaxInt64 {
      ParseIntToString(n, MinInt64, MaxInt64);
    }
  }

  /** Each reader gets back what the serializer wrote. */
  lemma ValueRoundTrips(s: Option<string>, n: Option<int>)
    ensures GetString(StringValue(s)) == Ok(s)
    ensures n.None? ==> Nullable(OptIntValue(n), GetInt32) == Ok(None) && Required(OptIntValue(n), GetInt64).Err?
    ensures n.Some? && MinInt32 <= n.value <= MaxInt32 ==> Nullable(OptIntValue(n), GetInt32) == Ok(n)
    ensures n.Some? && MinInt32 <= n.value <= MaxInt32 ==> Required(OptIntValue(n), GetInt32) == Ok(n)
    ensures n.Some? && MinInt64 <= n.value <= MaxInt64 ==> Required(OptIntValue(n), GetInt64) == Ok(n)
  {
    if n.Some? {
      IntValueRoundTrip(n.value);
    }
  }

  /** No two members share a name. */
  predicate DistinctNames(members: seq<Member>) {
    forall i, j :: 0 <= i < j < |members| ==> members[i].name != members[j].name
  }

  /** A lookup in two runs of members: the later run wins when it has the name. */
  lemma {:induction false} LookupAppendKey(a: seq<Member>, b: seq<Member>, key: string)
    ensures Lookup(a + b, key) == if Lookup(b, key).Some? then Lookup(b, key) else Lookup(a, key)
    decreases |b|
  {
    if b == [] {
      assert a + b == a;
    } else {
      var n := |a + b|;
      assert (a + b)[n - 1] == b[|b| - 1];
      assert (a + b)[..n - 1] == a + b[..|b| - 1];
      LookupAppendKey(a, b[..|b| - 1], key);
    }
  }

  lemma LookupAppend(a: seq<Member>, b: seq<Member>)
    ensures forall key :: Lookup(a + b, key) == if Lookup(b, key).Some? then Lookup(b, key) else Lookup(a, key)
  {
    forall key ensures Lookup(a + b, key) == if Lookup(b, key).Some? then Lookup(b, key) else Lookup(a, key) {
      LookupAppendKey(a, b, key);
    }
  }

  /** A lookup finds only names the members carry. */
  lemma LookupNames(members: seq<Member>, names: set<string>)
    requires forall i :: 0 <= i < |members| ==> members[i].name in names
    ensures forall key :: Lookup(members, key).Some? ==> key in names
  {
    forall key | Lookup(members, key).Some? ensures key in names {
      LookupFinds(members, key);
    }
  }

  /** Runs of members written one after another. */
  function Concat(runs: seq<seq<Member>>): seq<Member> {
    if runs == [] then [] else Concat(runs[..|runs| - 1]) + runs[|runs| - 1]
  }

  /**
   * A name found in run `k` and named by no later run: whatever comes before
   * the runs, a lookup returns run `k`'s member.
   */
  lemma {:induction false} LookupInRuns(lead: seq<Member>, runs: seq<seq<Member>>, names: seq<set<string>>, k: int, key: string)
    requires |names| == |runs| && 0 <= k < |runs|
    requires forall j, i :: 0 <= j < |runs| && 0 <= i < |runs[j]| ==> runs[j][i].name in names[j]
    requires forall j :: k < j < |runs| ==> key !in names[j]
    requires Lookup(runs[k], key).Some?
    ensures Lookup(lead + Concat(runs), key) == Lookup(runs[k], key)
    decreases |runs|
  {
    var n := |runs|;
    var init := runs[..n - 1];
    assert lead + Concat(runs) == (lead + Concat(init)) + runs[n - 1];
    LookupAppendKey(lead + Concat(init), runs[n - 1], key);
    if k < n - 1 {
      LookupNames(runs[n - 1], names[n - 1]);
      LookupInRuns(lead, init, names[..n - 1], k, key);
    }
  }

  /** A member no later member shadows is the one a lookup of its name finds. */
  lemma LookupLast(members: seq<Member>, i: int)
    requires 0 <= i < |members|
    requires forall j :: i < j < |members| ==> members[j].name != members[i].name
    ensures Lookup(members, members[i].name) == Some(members[i].value)
  {
    var key := members[i].name;
    LookupFinds(members, key);
    var r := Lookup(members, key);
    var k :| 0 <= k < |members| && members[k] == Member(key, r.value)
      && forall j :: k < j < |members| ==> members[j].name != key;
    if k < i {
      assert members[i].name == key;
    } else if k > i {
      assert members[k].name == key;
    }
  }

  /** After any leading members, a member of a name-distinct tail is found by its name. */
  lemma LookupInTail(lead: seq<Member>, tail: seq<Member>, i: int)
    requires DistinctNames(tail) && 0 <= i < |tail|
    ensures Lookup(lead + tail, tail[i].name) == Some(tail[i].value)
  {
    var members := lead + tail;
    assert members[|lead| + i] == tail[i];
    forall j | |lead| + i < j < |members| ensures members[j].name != tail[i].name {
      assert members[j] == tail[j - |lead|];
    }
    LookupLast(members, |lead| + i);
  }

  /** A string literal as it appears in JSON text. */
  function Quote(s: string): string {
    "\"" + Escape(s) + "\""
  }

  /**
   * The characters of a string literal's body: a quote and a backslash are
   * preceded by a backslash, and a control character below U+0020 is written
   * as a `\u00XX` escape, so the text stays valid JSON.
   */
  function Escape(s: string): string {
    if s == [] then []
    else
      (if s[0] == '"' || s[0] == '\\' then ['\\', s[0]]
       else if s[0] < ' ' then ['\\', 'u', '0', '0', HexDigit(s[0] as int / 16), HexDigit(s[0] as int % 16)]
       else [s[0]])
      + Escape(s[1..])
  }

  function HexDigit(d: int): char
    requires 0 <= d < 16
  {
    if d < 10 then ('0' as int + d) as char else ('a' as int + d - 10) as char
  }

  /**
   * The JSON text of a value, written compactly: no whitespace between
   * tokens and the escapes of `Escape`. `GetRawText` returns the element's
   * original text instead; the two denote the same value.
   */
  function RawText(v: Json): string
    decreases v, 1
  {
    match v
    case JNull => "null"
    case JBool(b) => if b then "true" else "false"
    case JNumber(t) => t
    case JString(s) => Quote(s)
    case JArray(items) => "[" + RawItems(items) + "]"
    case JObject(members) => "{" + RawMembers(members) + "}"
  }

  function RawItems(items: seq<Json>): string
    decreases items, 0
  {
    if items == [] then []
    else RawText(items[0]) + (if |items| == 1 then "" else ",") + RawItems(items[1..])
  }

  function RawMembers(members: seq<Member>): string
    decreases members, 0
  {
    if members == [] then []
    else
      Quote(members[0].name) + ":" + RawText(members[0].value) + (if |members| == 1 then "" else ",")
      + RawMembers(members[1..])
  }

  /** A string's escaped body holds no control character, as JSON requires. */
  lemma {:induction false} EscapeHasNoControl(s: string)
    ensures forall i :: 0 <= i < |Escape(s)| ==> Escape(s)[i] >= ' '
  {
    if s != [] {
      EscapeHasNoControl(s[1..]);
      var head := if s[0] == '"' || s[0] == '\\' then ['\\', s[0]]
        else if s[0] < ' ' then ['\\', 'u', '0', '0', HexDigit(s[0] as int / 16), HexDigit(s[0] as int % 16)]
        else [s[0]];
      assert Escape(s) == head + Escape(s[1..]);
    }
  }

  /** The text of a JSON null is the four letters `null`. */
  lemma NullRawText()
    ensures RawText(JNull) == "null"
  {
  }
}
