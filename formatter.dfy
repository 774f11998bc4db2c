/**
 * The JSON response formatter. Every operation builds the PHP array the
 * source hands to `encode`, and the result is the JSON tree `json_encode`
 * makes of it (see Json.FromPhp).
 *
 * The date formatter is a collaborator whose behaviour is not modelled: each
 * operation that renders a date takes it as the parameter `formatDate`.
 */
module JsonFormatter {
  import opened Wrappers
  import opened Php
  import opened Json

  /** A point in time as the models carry it; only the date formatter looks inside. */
  datatype DateTime = DateTime(timestamp: int)

  datatype ErrorModel = ErrorModel(
    httpCode: int, errorMessage: string, date: DateTime, imboErrorCode: Value, imageIdentifier: Value)

  datatype StatusModel = StatusModel(date: DateTime, databaseStatus: bool, storageStatus: bool)

  datatype UserModel = UserModel(publicKey: string, numImages: int, lastModified: DateTime)

  datatype MetadataModel = MetadataModel(data: Value)

  datatype ArrayModel = ArrayModel(data: Value)

  datatype ListModel = ListModel(container: string, list: Value)

  datatype StatsModel = StatsModel(users: Value, numImages: int, numUsers: int, numBytes: int, customStats: Value)

  /** A string-keyed PHP array literal `array('k' => v, ...)`. */
  function Assoc(ms: seq<(string, Value)>): (v: Value)
    ensures v.Arr? && |v.entries| == |ms|
    ensures forall i :: 0 <= i < |ms| ==> v.entries[i] == (StrKey(ms[i].0), ms[i].1)
    ensures |ms| > 0 ==> !IsList(v.entries)
    ensures DistinctNames(ms) ==> DistinctKeys(v.entries)
  {
    var es := seq(|ms|, i requires 0 <= i < |ms| => (StrKey(ms[i].0), ms[i].1));
    assert |ms| > 0 ==> es[0].0 != IntKey(0);
    Arr(es)
  }

  /** What `json_encode` makes of a non-empty string-keyed array literal. */
  lemma AssocEncoding(ms: seq<(string, Value)>)
    requires |ms| > 0
    ensures FromPhp(Assoc(ms)) == JObject(seq(|ms|, i requires 0 <= i < |ms| => (ms[i].0, FromPhp(ms[i].1))))
  {
    var es := Assoc(ms).entries;
    FromPhpAssoc(es);
    var out := FromPhp(Assoc(ms)).members;
    forall i | 0 <= i < |ms|
      ensures out[i] == (ms[i].0, FromPhp(ms[i].1))
    {
      assert out[i].0 == Names(out)[i];
    }
  }

  predicate DistinctNames(ms: seq<(string, Value)>)
  {
    forall a, b :: 0 <= a < b < |ms| ==> ms[a].0 != ms[b].0
  }

  /** The member names of the encoded array literal are its keys, in order. */
  lemma AssocNames(ms: seq<(string, Value)>)
    requires |ms| > 0
    ensures FromPhp(Assoc(ms)).JObject?
    ensures Names(FromPhp(Assoc(ms)).members) == seq(|ms|, i requires 0 <= i < |ms| => ms[i].0)
  {
    AssocEncoding(ms);
  }

  /** Each key of an encoded array literal names the encoding of its value. */
  lemma AssocMember(ms: seq<(string, Value)>, i: nat)
    requires i < |ms| && DistinctNames(ms)
    ensures Get(FromPhp(Assoc(ms)), ms[i].0) == Some(FromPhp(ms[i].1))
  {
    AssocEncoding(ms);
    LookupDistinct(FromPhp(Assoc(ms)).members, i);
  }

  function ContentType(): (r: string)
    ensures r == "application/json"
  {
    "application/json"
  }

  function ErrorMembers(formatDate: DateTime -> string, m: ErrorModel): seq<(string, Value)>
  {
    [ ("code", Int(m.httpCode)),
      ("message", Str(m.errorMessage)),
      ("date", Str(formatDate(m.date))),
      ("imboErrorCode", m.imboErrorCode) ]
  }

  /** The array `formatError` hands to `encode`. */
  function ErrorData(formatDate: DateTime -> string, m: ErrorModel): seq<(string, Value)>
  {
    [("error", Assoc(ErrorMembers(formatDate, m)))]
      + if Truthy(m.imageIdentifier) then [("imageIdentifier", m.imageIdentifier)] else []
  }

  /**
   * The error document: a member `error` holding exactly code, message, date
   * and Imbo error code, and a top-level `imageIdentifier` exactly when the
   * model's image identifier is truthy.
   */
  function FormatError(formatDate: DateTime -> string, m: ErrorModel): (r: Json)
    ensures r.JObject?
    ensures Names(r.members) == if Truthy(m.imageIdentifier) then ["error", "imageIdentifier"] else ["error"]
    ensures Get(r, "error").Some?
    ensures var e := Get(r, "error").value;
      && e.JObject?
      && Names(e.members) == ["code", "message", "date", "imboErrorCode"]
      && Get(e, "code") == Some(JNumber(m.httpCode))
      && Get(e, "message") == Some(JString(m.errorMessage))
      && Get(e, "date") == Some(JString(formatDate(m.date)))
      && Get(e, "imboErrorCode") == Some(FromPhp(m.imboErrorCode))
    ensures Get(r, "imageIdentifier") == if Truthy(m.imageIdentifier) then Some(FromPhp(m.imageIdentifier)) else None
  {
    ErrorShape(formatDate, m);
    ErrorMembersShape(formatDate, m);
    FromPhp(Assoc(ErrorData(formatDate, m)))
  }

  lemma ErrorShape(formatDate: DateTime -> string, m: ErrorModel)
    ensures var r := FromPhp(Assoc(ErrorData(formatDate, m)));
      && r.JObject?
      && Names(r.members) == (if Truthy(m.imageIdentifier) then ["error", "imageIdentifier"] else ["error"])
      && Get(r, "error") == Some(FromPhp(Assoc(ErrorMembers(formatDate, m))))
      && Get(r, "imageIdentifier") == if Truthy(m.imageIdentifier) then Some(FromPhp(m.imageIdentifier)) else None
  {
    var top := ErrorData(formatDate, m);
    AssocNames(top);
    AssocMember(top, 0);
    if Truthy(m.imageIdentifier) {
      AssocMember(top, 1);
    }
  }

  lemma ErrorMembersShape(formatDate: DateTime -> string, m: ErrorModel)
    ensures var e := FromPhp(Assoc(ErrorMembers(formatDate, m)));
      && e.JObject?
      && Names(e.members) == ["code", "message", "date", "imboErrorCode"]
      && Get(e, "code") == Some(JNumber(m.httpCode))
      && Get(e, "message") == Some(JString(m.errorMessage))
      && Get(e, "date") == Some(JString(formatDate(m.date)))
      && Get(e, "imboErrorCode") == Some(FromPhp(m.imboErrorCode))
  {
    var em := ErrorMembers(formatDate, m);
    AssocNames(em);
    AssocMember(em, 0); AssocMember(em, 1); AssocMember(em, 2); AssocMember(em, 3);
  }

  /** The status document: the formatted date and the two backend flags. */
  function FormatStatus(formatDate: DateTime -> string, m: StatusModel): (r: Json)
    ensures r.JObject? && Names(r.members) == ["date", "database", "storage"]
    ensures Get(r, "date") == Some(JString(formatDate(m.date)))
    ensures Get(r, "database") == Some(JBool(m.databaseStatus))
    ensures Get(r, "storage") == Some(JBool(m.storageStatus))
  {
    var ms := [
      ("date", Str(formatDate(m.date))),
      ("database", Bool(m.databaseStatus)),
      ("storage", Bool(m.storageStatus))];
    AssocNames(ms);
    AssocMember(ms, 0); AssocMember(ms, 1); AssocMember(ms, 2);
    FromPhp(Assoc(ms))
  }

  /** The user document: public key, image count and the formatted modification date. */
  function FormatUser(formatDate: DateTime -> string, m: UserModel): (r: Json)
    ensures r.JObject? && Names(r.members) == ["publicKey", "numImages", "lastModified"]
    ensures Get(r, "publicKey") == Some(JString(m.publicKey))
    ensures Get(r, "numImages") == Some(JNumber(m.numImages))
    ensures Get(r, "lastModified") == Some(JString(formatDate(m.lastModified)))
  {
    var ms := [
      ("publicKey", Str(m.publicKey)),
      ("numImages", Int(m.numImages)),
      ("lastModified", Str(formatDate(m.lastModified)))];
    AssocNames(ms);
    AssocMember(ms, 0); AssocMember(ms, 1); AssocMember(ms, 2);
    FromPhp(Assoc(ms))
  }

  /**
   * Keyed data that is present is encoded as it is; absent or empty data is
   * replaced by an empty object first, so it encodes as `{}`, never `[]`.
   */
  function EncodeOrEmptyObject(data: Value): (r: Json)
    ensures Truthy(data) ==> r == FromPhp(data)
    ensures !Truthy(data) ==> r == JObject([])
    ensures r != JArray([])
  {
    EmptyEncodings(OrEmptyObject(data));
    FromPhp(OrEmptyObject(data))
  }

  /** The metadata document: the model's data, or `{}` when it is empty. */
  function FormatMetadata(m: MetadataModel): (r: Json)
    ensures Truthy(m.data) ==> r == FromPhp(m.data)
    ensures !Truthy(m.data) ==> r == JObject([])
    ensures r != JArray([])
  {
    EncodeOrEmptyObject(m.data)
  }

  /** The generic array document: the model's data, or `{}` when it is empty. */
  function FormatArrayModel(m: ArrayModel): (r: Json)
    ensures Truthy(m.data) ==> r == FromPhp(m.data)
    ensures !Truthy(m.data) ==> r == JObject([])
    ensures r != JArray([])
  {
    EncodeOrEmptyObject(m.data)
  }

  /**
   * The list document: an array with the single key `container` holding the
   * list, which encodes as an object with one member. A container named "0" is coerced to the integer key 0,
   * which makes the array a list, so that one name gives a one-element array.
   */
  function FormatListModel(m: ListModel): (r: Json)
    ensures m.container != "0" ==> r == JObject([(m.container, FromPhp(m.list))])
    ensures m.container == "0" ==> r == JArray([FromPhp(m.list)])
  {
    KeyStringRoundTrip(m.container);
    ZeroKey(m.container);
    SingleEntryEncoding(ArrayKey(m.container), m.list);
    FromPhp(Arr([(ArrayKey(m.container), m.list)]))
  }

  /**
   * The statistics document: the users data as it is, the three totals
   * copied unchanged under `total`, and the custom statistics, `{}` when unset.
   */
  function FormatStats(m: StatsModel): (r: Json)
    ensures r.JObject? && Names(r.members) == ["users", "total", "custom"]
    ensures Get(r, "users") == Some(FromPhp(m.users))
    ensures Get(r, "total").Some?
    ensures var t := Get(r, "total").value;
      && t.JObject? && Names(t.members) == ["numImages", "numUsers", "numBytes"]
      && Get(t, "numImages") == Some(JNumber(m.numImages))
      && Get(t, "numUsers") == Some(JNumber(m.numUsers))
      && Get(t, "numBytes") == Some(JNumber(m.numBytes))
    ensures Get(r, "custom") == Some(EncodeOrEmptyObject(m.customStats))
  {
    StatsShape(m);
    StatsTotalsShape(m);
    FromPhp(Assoc(StatsData(m)))
  }

  function StatsTotals(m: StatsModel): seq<(string, Value)>
  {
    [("numImages", Int(m.numImages)), ("numUsers", Int(m.numUsers)), ("numBytes", Int(m.numBytes))]
  }

  /** The array `formatStats` hands to `encode`. */
  function StatsData(m: StatsModel): seq<(string, Value)>
  {
    [("users", m.users), ("total", Assoc(StatsTotals(m))), ("custom", OrEmptyObject(m.customStats))]
  }

  lemma StatsShape(m: StatsModel)
    ensures var r := FromPhp(Assoc(StatsData(m)));
      && r.JObject? && Names(r.members) == ["users", "total", "custom"]
      && Get(r, "users") == Some(FromPhp(m.users))
      && Get(r, "total") == Some(FromPhp(Assoc(StatsTotals(m))))
      && Get(r, "custom") == Some(EncodeOrEmptyObject(m.customStats))
  {
    var d := StatsData(m);
    AssocNames(d);
    AssocMember(d, 0); AssocMember(d, 1); AssocMember(d, 2);
  }

  lemma StatsTotalsShape(m: StatsModel)
    ensures var t := FromPhp(Assoc(StatsTotals(m)));
      && t.JObject? && Names(t.members) == ["numImages", "numUsers", "numBytes"]
      && Get(t, "numImages") == Some(JNumber(m.numImages))
      && Get(t, "numUsers") == Some(JNumber(m.numUsers))
      && Get(t, "numBytes") == Some(JNumber(m.numBytes))
  {
    var t := StatsTotals(m);
    AssocNames(t);
    AssocMember(t, 0); AssocMember(t, 1); AssocMember(t, 2);
  }
}
