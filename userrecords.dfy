/** The pure rules of the users router (routes/users.js): `pick`, the list's page and limit
    clamps, and how POST validates its body, chooses the identity query and builds the update. */
module UserRecords {
  import opened JsString
  import opened MongoDoc

  /** A JSON value of a request body or a stored user document. A key that is absent from an
      object is JavaScript's `undefined`. */
  datatype Json =
    | JNull
    | JBool(b: bool)
    | JNum(n: int)
    | JStr(s: string)
    | JTime(t: nat)
    | JList(items: seq<Json>)
    | JObj(fields: map<string, Json>)

  /** A request body or a stored document. */
  type Doc = map<string, Json>

  /** JavaScript truthiness; a Date is always truthy. */
  predicate Truthy(v: Json) {
    match v
    case JNull => false
    case JBool(b) => b
    case JNum(n) => n != 0
    case JStr(s) => |s| > 0
    case _ => true
  }

  /** `obj[k]` is truthy; an absent key is `undefined`, which is falsy. */
  predicate TruthyAt(obj: Doc, k: string) {
    k in obj && Truthy(obj[k])
  }

  /** `pick(obj, keys)` (routes/users.js:8-9): the keys of `keys` whose value is not `undefined`,
      with their values, and nothing else. */
  function Pick(obj: Doc, keys: seq<string>): (r: Doc)
    ensures r.Keys == (set k | k in keys && k in obj)
    ensures forall k :: k in r ==> r[k] == obj[k]
    decreases |keys|
  {
    if keys == [] then map[]
    else
      var acc := Pick(obj, keys[..|keys| - 1]);
      var k := keys[|keys| - 1];
      assert forall j :: j in keys ==> j in keys[..|keys| - 1] || j == k;
      if k in obj then acc[k := obj[k]] else acc
  }

  /** Picking twice with the same keys gives what picking once gave. */
  lemma PickIdempotent(obj: Doc, keys: seq<string>)
    ensures Pick(Pick(obj, keys), keys) == Pick(obj, keys)
  {
  }

  /** Picking from an object that has only picked keys gives the object back. */
  lemma PickWhole(obj: Doc, keys: seq<string>)
    requires forall k :: k in obj ==> k in keys
    ensures Pick(obj, keys) == obj
  {
  }

  /** `Math.max(parseInt(req.query.page || '1', 10), 1)` (routes/users.js:62). `param` is the
      integer the parameter reads as, None when it is absent or empty. */
  function PageNumber(param: Option<int>): (page: int)
    ensures page >= 1
    ensures param.None? ==> page == 1
    ensures param.Some? && param.value >= 1 ==> page == param.value
    ensures param.Some? && param.value < 1 ==> page == 1
  {
    var n := param.GetOr(1);
    if n > 1 then n else 1
  }

  /** `Math.min(Math.max(parseInt(req.query.limit || '20', 10), 1), 100)` (routes/users.js:63). */
  function PageSize(param: Option<int>): (limit: int)
    ensures 1 <= limit <= 100
    ensures param.None? ==> limit == 20
    ensures param.Some? && 1 <= param.value <= 100 ==> limit == param.value
    ensures param.Some? && param.value < 1 ==> limit == 1
    ensures param.Some? && param.value > 100 ==> limit == 100
  {
    var n := param.GetOr(20);
    var atLeastOne := if n > 1 then n else 1;
    if atLeastOne < 100 then atLeastOne else 100
  }

  /** `(page - 1) * limit` (routes/users.js:76): the documents before the requested page. */
  function SkipCount(page: int, limit: int): (skip: nat)
    requires page >= 1 && limit >= 1
    ensures skip == (page - 1) * limit
    ensures page == 1 ==> skip == 0
  {
    (page - 1) * limit
  }

  /** Consecutive pages lie back to back. */
  lemma NextPageFollows(page: int, limit: int)
    requires page >= 1 && limit >= 1
    ensures SkipCount(page + 1, limit) == SkipCount(page, limit) + limit
  {
  }

  /** POST's check (routes/users.js:116-118): rejected with 400 exactly when the email is falsy
      and the provider pair is not complete. */
  predicate Rejects(body: Doc) {
    !TruthyAt(body, "email") && !(TruthyAt(body, "provider") && TruthyAt(body, "providerUserId"))
  }

  /** The identity query of POST (routes/users.js:120-122). */
  datatype Query =
    | ByEmail(email: Json)
    | ByProvider(provider: Json, providerUserId: Json)

  /** By email whenever it is truthy, otherwise by the complete provider pair. */
  function ChooseQuery(body: Doc): (q: Query)
    requires !Rejects(body)
    ensures q.ByEmail? <==> TruthyAt(body, "email")
    ensures q.ByEmail? ==> q.email == body["email"]
    ensures q.ByProvider? ==> (TruthyAt(body, "provider") && TruthyAt(body, "providerUserId")
      && q.provider == body["provider"] && q.providerUserId == body["providerUserId"])
  {
    if TruthyAt(body, "email") then ByEmail(body["email"])
    else ByProvider(body["provider"], body["providerUserId"])
  }

  /** An entry of a user's `providers` array. */
  datatype ProviderEntry = ProviderEntry(provider: Json, providerUserId: Json, connectedAt: nat)

  function EntryJson(e: ProviderEntry): Json {
    JObj(map["provider" := e.provider, "providerUserId" := e.providerUserId,
             "connectedAt" := JTime(e.connectedAt)])
  }

  /** The update document of POST (routes/users.js:124-131). */
  datatype Update = Update(setOnInsert: Doc, setFields: Doc, addProvider: Option<ProviderEntry>)

  /** The fields of a body that POST copies with `$set`. */
  const PostedFields: seq<string> := ["email", "name", "nickname", "profileImageUrl"]

  /** `$setOnInsert: {role: 'user', status: 'active'}`. */
  const InsertDefaults: Doc := map["role" := JStr("user"), "status" := JStr("active")]

  /** The update: `$setOnInsert` defaults, `$set` of the defined posted fields, and a provider
      entry stamped `now` only when both provider fields are truthy. */
  function BuildUpdate(body: Doc, now: nat): (u: Update)
    ensures u.setOnInsert == InsertDefaults
    ensures u.setFields.Keys == (set k | k in PostedFields && k in body)
    ensures forall k :: k in u.setFields ==> u.setFields[k] == body[k]
    ensures u.addProvider.Some? <==> TruthyAt(body, "provider") && TruthyAt(body, "providerUserId")
    ensures u.addProvider.Some? ==>
      (u.addProvider.value == ProviderEntry(body["provider"], body["providerUserId"], now))
  {
    var entry := if TruthyAt(body, "provider") && TruthyAt(body, "providerUserId")
      then Some(ProviderEntry(body["provider"], body["providerUserId"], now))
      else None;
    Update(InsertDefaults, Pick(body, PostedFields), entry)
  }

  /** The `providers` array of a document, empty when it has none. */
  function Providers(doc: Doc): seq<Json> {
    if "providers" in doc && doc["providers"].JList? then doc["providers"].items else []
  }

  /** `$addToSet`: append the element unless an equal one is already there. */
  function AddToSet(items: seq<Json>, x: Json): (r: seq<Json>)
    ensures x in r
    ensures forall y :: y in items ==> y in r
    ensures forall y :: y in r ==> y in items || y == x
    ensures |items| <= |r| <= |items| + 1 && r[..|items|] == items
    ensures x in items ==> |r| == |items|
  {
    if x in items then items else items + [x]
  }

  /** The document after the update: `$setOnInsert` only when inserting, then `$set`, then
      `$addToSet` of the provider entry. */
  function ApplyUpdate(doc: Doc, u: Update, inserting: bool): (d: Doc)
    ensures d.Keys == doc.Keys + (if inserting then u.setOnInsert.Keys else {}) + u.setFields.Keys
      + (if u.addProvider.Some? then {"providers"} else {})
    ensures forall k :: k in u.setFields && k != "providers" ==> k in d && d[k] == u.setFields[k]
    ensures inserting ==>
      forall k :: (k in u.setOnInsert && k !in u.setFields && k != "providers") ==> k in d && d[k] == u.setOnInsert[k]
    ensures forall k ::
      (k in doc && k !in u.setFields && !(inserting && k in u.setOnInsert)
        && !(u.addProvider.Some? && k == "providers")) ==> k in d && d[k] == doc[k]
    ensures u.addProvider.Some? ==> ("providers" in d && d["providers"].JList?
      && EntryJson(u.addProvider.value) in d["providers"].items)
    ensures u.addProvider.Some? && "providers" !in u.setFields && !(inserting && "providers" in u.setOnInsert)
      ==> var before := Providers(doc); var ps := Providers(d);
        |before| <= |ps| <= |before| + 1 && ps[..|before|] == before
  {
    var withDefaults := if inserting then Merge(doc, u.setOnInsert) else doc;
    var withSet := Merge(withDefaults, u.setFields);
    match u.addProvider
    case None => withSet
    case Some(e) => withSet["providers" := JList(AddToSet(Providers(withSet), EntryJson(e)))]
  }

  /** `role` and `status` are written only when the user is inserted: an update leaves them as
      they were, and a posted body cannot set them because `$set` carries only posted fields. */
  lemma RoleAndStatusOnlyOnInsert(doc: Doc, body: Doc, now: nat)
    ensures var d := ApplyUpdate(doc, BuildUpdate(body, now), false);
      forall k :: k in InsertDefaults ==> (k in d <==> k in doc) && (k in doc ==> d[k] == doc[k])
    ensures var d := ApplyUpdate(doc, BuildUpdate(body, now), true);
      d["role"] == JStr("user") && d["status"] == JStr("active")
  {
    RoleAndStatusKeptOnUpdate(doc, body, now);
    RoleAndStatusSetOnInsert(doc, body, now);
  }

  lemma RoleAndStatusKeptOnUpdate(doc: Doc, body: Doc, now: nat)
    ensures var d := ApplyUpdate(doc, BuildUpdate(body, now), false);
      forall k :: k in InsertDefaults ==> (k in d <==> k in doc) && (k in doc ==> d[k] == doc[k])
  {
    var u := BuildUpdate(body, now);
    assert "role" !in u.setFields && "status" !in u.setFields;
  }

  lemma RoleAndStatusSetOnInsert(doc: Doc, body: Doc, now: nat)
    ensures var d := ApplyUpdate(doc, BuildUpdate(body, now), true);
      d["role"] == JStr("user") && d["status"] == JStr("active")
  {
    var u := BuildUpdate(body, now);
    assert "role" !in u.setFields && "status" !in u.setFields;
  }

  /** Without a complete provider pair the providers array is left as it was. */
  lemma ProvidersUntouchedWithoutPair(doc: Doc, body: Doc, now: nat, inserting: bool)
    requires !(TruthyAt(body, "provider") && TruthyAt(body, "providerUserId"))
    ensures var d := ApplyUpdate(doc, BuildUpdate(body, now), inserting);
      ("providers" in d <==> "providers" in doc) && ("providers" in doc ==> d["providers"] == doc["providers"])
  {
    var u := BuildUpdate(body, now);
    assert "providers" !in u.setFields && "providers" !in u.setOnInsert;
  }

  /** A POST touches only the posted fields, the insert defaults and the providers array: every
      other field, the deletion stamp among them, keeps its value. */
  lemma PostKeepsOtherFields(doc: Doc, body: Doc, now: nat, inserting: bool)
    ensures var d := ApplyUpdate(doc, BuildUpdate(body, now), inserting);
      forall k :: (k in doc && k !in PostedFields && k != "providers" && !(inserting && k in InsertDefaults))
        ==> k in d && d[k] == doc[k]
    ensures var d := ApplyUpdate(doc, BuildUpdate(body, now), inserting);
      "deletedAt" in doc ==> "deletedAt" in d && d["deletedAt"] == doc["deletedAt"]
  {
    var u := BuildUpdate(body, now);
    assert "deletedAt" !in PostedFields && "deletedAt" !in InsertDefaults;
  }

  /** A POST whose body has an email writes that email. */
  lemma PostSetsEmail(doc: Doc, body: Doc, now: nat, inserting: bool)
    requires "email" in body
    ensures var d := ApplyUpdate(doc, BuildUpdate(body, now), inserting);
      "email" in d && d["email"] == body["email"]
  {
    assert "email" in BuildUpdate(body, now).setFields;
  }

  /** With a complete provider pair the old providers array stays a prefix of the new one, which
      holds the posted entry and at most one element more. */
  lemma ProvidersAppended(doc: Doc, body: Doc, now: nat, inserting: bool)
    requires TruthyAt(body, "provider") && TruthyAt(body, "providerUserId")
    ensures var d := ApplyUpdate(doc, BuildUpdate(body, now), inserting);
      && "providers" in d && d["providers"].JList?
      && var ps := Providers(d);
      && |Providers(doc)| <= |ps| <= |Providers(doc)| + 1
      && ps[..|Providers(doc)|] == Providers(doc)
      && EntryJson(ProviderEntry(body["provider"], body["providerUserId"], now)) in ps
  {
    var u := BuildUpdate(body, now);
    assert "providers" !in u.setFields && "providers" !in u.setOnInsert;
  }

  /** PATCH's allow-list (routes/users.js:212). */
  const PatchFields: seq<string> := ["name", "nickname", "profileImageUrl", "locale", "timeZone", "status", "region"]

  /** `pick(req.body || {}, allowed)` (routes/users.js:213). */
  function PatchUpdate(body: Option<Doc>): (u: Doc)
    ensures u.Keys == (set k | k in PatchFields && k in body.GetOr(map[]))
    ensures forall k :: k in u ==> u[k] == body.value[k]
  {
    Pick(body.GetOr(map[]), PatchFields)
  }

  /** A PATCH never writes the email, the providers, the role or the deletion stamp. */
  lemma PatchLeavesIdentity(body: Option<Doc>)
    ensures "email" !in PatchUpdate(body) && "providers" !in PatchUpdate(body)
    ensures "role" !in PatchUpdate(body) && "deletedAt" !in PatchUpdate(body)
  {
    assert "email" !in PatchFields && "providers" !in PatchFields;
    assert "role" !in PatchFields && "deletedAt" !in PatchFields;
  }
}
