/** The users collection and the handlers of routes/users.js that read or change it: the list
    (GET /), create-or-upsert (POST /), read (GET /:id), update (PATCH /:id) and soft delete
    (DELETE /:id). Documents are keyed by their id; `order` is their insertion order. */
module UserStore {
  import opened JsString
  import opened UserRecords
  import opened MongoDoc

  /** An HTTP status with an optional JSON user. */
  datatype Response = Response(status: nat, user: Option<Doc>)

  /** The document matches POST's identity query: the same email, or a providers entry with the
      same provider and providerUserId (`$elemMatch`). */
  predicate MatchesQuery(doc: Doc, q: Query) {
    match q
    case ByEmail(e) => "email" in doc && doc["email"] == e
    case ByProvider(p, pid) =>
      exists x :: x in Providers(doc) && x.JObj? && "provider" in x.fields && "providerUserId" in x.fields
        && x.fields["provider"] == p && x.fields["providerUserId"] == pid
  }

  /** The position in `ids` of the first document that matches the query. */
  function FirstMatching(docs: map<nat, Doc>, ids: seq<nat>, q: Query): (r: Option<nat>)
    ensures r.Some? ==> r.value < |ids| && ids[r.value] in docs && MatchesQuery(docs[ids[r.value]], q)
    ensures r.Some? ==> forall j :: 0 <= j < r.value && ids[j] in docs ==> !MatchesQuery(docs[ids[j]], q)
    ensures r.None? <==> forall id :: id in ids && id in docs ==> !MatchesQuery(docs[id], q)
    decreases |ids|
  {
    if ids == [] then None
    else if ids[0] in docs && MatchesQuery(docs[ids[0]], q) then Some(0)
    else
      var r := FirstMatching(docs, ids[1..], q);
      assert forall id :: id in ids ==> id == ids[0] || id in ids[1..];
      if r.Some? then Some(r.value + 1) else None
  }

  /** The document an upsert starts from: the query's equality field and an empty providers
      array (the schema's array default). An `$elemMatch` query contributes no field. */
  function InsertBase(q: Query): (d: Doc)
    ensures "providers" in d && Providers(d) == []
    ensures q.ByEmail? <==> MatchesQuery(d, q)
    ensures q.ByEmail? ==> d["email"] == q.email
  {
    match q
    case ByEmail(e) => map["email" := e, "providers" := JList([])]
    case ByProvider(_, _) => map["providers" := JList([])]
  }

  /** Another document already holds the email of `d` (the unique index of models/User.js:14). */
  predicate EmailClash(docs: map<nat, Doc>, id: nat, d: Doc) {
    "email" in d && exists j :: j in docs && j != id && "email" in docs[j] && docs[j]["email"] == d["email"]
  }

  /** No two documents hold the same email. */
  predicate UniqueEmails(docs: map<nat, Doc>) {
    forall i, j :: i in docs && j in docs && i != j && "email" in docs[i] && "email" in docs[j] ==>
      docs[i]["email"] != docs[j]["email"]
  }

  /** What POST does. */
  datatype PostOutcome =
    | Rejected                                  // 400 before any database call
    | Conflict                                  // the write hits the unique email index: 500
    | Written(id: nat, doc: Doc, inserted: bool) // 201 with the document after the update

  /** POST / (routes/users.js:112-141) on the collection: validate, find the first match of the
      identity query, update it or insert a new document under `newId`. */
  function PostOutcomeOf(docs: map<nat, Doc>, order: seq<nat>, newId: nat, body: Doc, now: nat): (o: PostOutcome)
    ensures o.Written? ==> !EmailClash(docs, o.id, o.doc)
    ensures o.Written? && o.inserted ==> o.id == newId
    ensures o.Written? && !o.inserted ==> o.id in docs && o.id in order
  {
    if Rejects(body) then Rejected
    else
      var q := ChooseQuery(body);
      var u := BuildUpdate(body, now);
      match FirstMatching(docs, order, q)
      case Some(i) =>
        var id := order[i];
        var d := ApplyUpdate(docs[id], u, false);
        if EmailClash(docs, id, d) then Conflict else Written(id, d, false)
      case None =>
        var d := ApplyUpdate(InsertBase(q), u, true);
        if EmailClash(docs, newId, d) then Conflict else Written(newId, d, true)
  }

  /** POST answers 400 exactly when the body has neither a truthy email nor a complete provider
      pair, and otherwise writes or conflicts. */
  lemma PostRejectsIff(docs: map<nat, Doc>, order: seq<nat>, newId: nat, body: Doc, now: nat)
    ensures PostOutcomeOf(docs, order, newId, body, now) == Rejected <==> Rejects(body)
  {
  }

  /** POST updates the first document matching its identity query, and inserts only when none
      matches; an update never writes role or status, an insert sets them to user and active. */
  lemma PostTargetsFirstMatch(docs: map<nat, Doc>, order: seq<nat>, newId: nat, body: Doc, now: nat)
    requires PostOutcomeOf(docs, order, newId, body, now).Written?
    ensures var w := PostOutcomeOf(docs, order, newId, body, now);
      var hit := FirstMatching(docs, order, ChooseQuery(body));
      && (w.inserted <==> hit.None?)
      && (!w.inserted ==> w.id == order[hit.value] && (forall k :: k in InsertDefaults ==>
            (k in w.doc <==> k in docs[w.id]) && (k in docs[w.id] ==> w.doc[k] == docs[w.id][k])))
      && (w.inserted ==> w.id == newId && w.doc["role"] == JStr("user") && w.doc["status"] == JStr("active"))
  {
    var hit := FirstMatching(docs, order, ChooseQuery(body));
    if hit.Some? {
      RoleAndStatusKeptOnUpdate(docs[order[hit.value]], body, now);
    } else {
      RoleAndStatusSetOnInsert(InsertBase(ChooseQuery(body)), body, now);
    }
  }

  /** The document POST writes matches its own identity query: the email is `$set` from the
      body, or the provider pair is in the providers array after `$addToSet`. */
  lemma WrittenMatchesQuery(docs: map<nat, Doc>, order: seq<nat>, newId: nat, body: Doc, now: nat)
    requires PostOutcomeOf(docs, order, newId, body, now).Written?
    ensures MatchesQuery(PostOutcomeOf(docs, order, newId, body, now).doc, ChooseQuery(body))
  {
    var hit := FirstMatching(docs, order, ChooseQuery(body));
    if hit.Some? {
      UpdateMatchesQuery(docs[order[hit.value]], body, now, false);
    } else {
      UpdateMatchesQuery(InsertBase(ChooseQuery(body)), body, now, true);
    }
  }

  /** Whatever document POST's update is applied to, the result matches the identity query. */
  lemma UpdateMatchesQuery(doc: Doc, body: Doc, now: nat, inserting: bool)
    requires !Rejects(body)
    ensures MatchesQuery(ApplyUpdate(doc, BuildUpdate(body, now), inserting), ChooseQuery(body))
  {
    if ChooseQuery(body).ByEmail? {
      PostSetsEmail(doc, body, now, inserting);
    } else {
      ProvidersAppended(doc, body, now, inserting);
    }
  }

  /** Posting the same identity again after a write updates the written user instead of
      inserting another one. */
  lemma RepostUpdates(docs: map<nat, Doc>, order: seq<nat>, newId: nat, body: Doc, now: nat)
    requires PostOutcomeOf(docs, order, newId, body, now).Written?
    ensures var w := PostOutcomeOf(docs, order, newId, body, now);
      var docs2 := docs[w.id := w.doc];
      var order2 := if w.inserted then order + [w.id] else order;
      FirstMatching(docs2, order2, ChooseQuery(body)).Some?
  {
    var w := PostOutcomeOf(docs, order, newId, body, now);
    WrittenMatchesQuery(docs, order, newId, body, now);
    var order2 := if w.inserted then order + [w.id] else order;
    if w.inserted {
      assert order2[|order|] == w.id;
    }
    StoredMatchFound(docs[w.id := w.doc], order2, ChooseQuery(body), w.id);
  }

  /** A stored document in the order that matches the query is found. */
  lemma StoredMatchFound(docs: map<nat, Doc>, order: seq<nat>, q: Query, id: nat)
    requires id in order && id in docs && MatchesQuery(docs[id], q)
    ensures FirstMatching(docs, order, q).Some?
  {
  }

  /** The `$set` of soft delete (routes/users.js:243). */
  function DeletionStamp(now: nat): Doc {
    map["status" := JStr("deleted"), "deletedAt" := JTime(now)]
  }

  /** GET /:id (routes/users.js:163-170). `id` is None when it is not a valid ObjectId. */
  function Fetch(docs: map<nat, Doc>, id: Option<nat>): (res: Response)
    ensures id.None? ==> res == Response(400, None)
    ensures id.Some? && (id.value !in docs || TruthyAt(docs[id.value], "deletedAt")) ==>
      res == Response(404, None)
    ensures id.Some? && id.value in docs && !TruthyAt(docs[id.value], "deletedAt") ==>
      res == Response(200, Some(docs[id.value]))
  {
    match id
    case None => Response(400, None)
    case Some(i) =>
      if i !in docs || TruthyAt(docs[i], "deletedAt") then Response(404, None)
      else Response(200, Some(docs[i]))
  }

  /** A string field of the document passes the list's `$regex` test; `rx(pattern, text)` stands
      for the case-insensitive regular-expression test that is not modelled. */
  predicate FieldMatches(doc: Doc, field: string, q: string, rx: (string, string) -> bool) {
    field in doc && doc[field].JStr? && rx(q, doc[field].s)
  }

  /** The list's condition (routes/users.js:66-73): no `deletedAt` field, and when `q` is
      non-empty a match in the name, email or nickname. */
  predicate Listed(doc: Doc, q: string, rx: (string, string) -> bool) {
    "deletedAt" !in doc
    && (q == "" || FieldMatches(doc, "name", q, rx) || FieldMatches(doc, "email", q, rx)
        || FieldMatches(doc, "nickname", q, rx))
  }

  /** The ids of the listed documents, newest first. */
  function NewestFirst(docs: map<nat, Doc>, order: seq<nat>, q: string, rx: (string, string) -> bool)
    : (r: seq<nat>)
    ensures |r| <= |order|
    ensures forall id :: id in r <==> id in order && id in docs && Listed(docs[id], q, rx)
    decreases |order|
  {
    if order == [] then []
    else
      var id := order[|order| - 1];
      var older := NewestFirst(docs, order[..|order| - 1], q, rx);
      assert forall x :: x in order <==> x in order[..|order| - 1] || x == id;
      if id in docs && Listed(docs[id], q, rx) then [id] + older else older
  }

  /** With a blank `q` the list holds every stored user that is not soft-deleted. */
  lemma BlankQueryListsLive(docs: map<nat, Doc>, order: seq<nat>, rx: (string, string) -> bool, id: nat)
    ensures id in NewestFirst(docs, order, "", rx) <==> id in order && id in docs && "deletedAt" !in docs[id]
  {
  }

  /** Listing distributes over consecutive parts of the insertion order, the later part first:
      a document inserted later is listed before every document inserted earlier. */
  lemma {:induction false} NewestFirstAppend(docs: map<nat, Doc>, a: seq<nat>, b: seq<nat>, q: string,
                                             rx: (string, string) -> bool)
    ensures NewestFirst(docs, a + b, q, rx) == NewestFirst(docs, b, q, rx) + NewestFirst(docs, a, q, rx)
    decreases |b|
  {
    if b == [] {
      assert a + b == a;
    } else {
      var b' := b[..|b| - 1];
      assert (a + b)[..|a + b| - 1] == a + b';
      assert (a + b)[|a + b| - 1] == b[|b| - 1];
      NewestFirstAppend(docs, a, b', q, rx);
    }
  }

  /** No id occurs twice. */
  predicate Distinct(ids: seq<nat>) {
    forall i, j :: 0 <= i < j < |ids| ==> ids[i] != ids[j]
  }

  /** Ids that are distinct in the insertion order are listed at most once. */
  lemma {:induction false} NewestFirstDistinct(docs: map<nat, Doc>, order: seq<nat>, q: string,
                                               rx: (string, string) -> bool)
    requires Distinct(order)
    ensures Distinct(NewestFirst(docs, order, q, rx))
    decreases |order|
  {
    if order != [] {
      var init := order[..|order| - 1];
      assert Distinct(init) by {
        forall i, j | 0 <= i < j < |init| ensures init[i] != init[j] {
          assert init[i] == order[i] && init[j] == order[j];
        }
      }
      NewestFirstDistinct(docs, init, q, rx);
      var id := order[|order| - 1];
      var older := NewestFirst(docs, init, q, rx);
      assert id !in init;
      if id in docs && Listed(docs[id], q, rx) {
        var r := [id] + older;
        forall i, j | 0 <= i < j < |r| ensures r[i] != r[j] {
          if i == 0 {
            assert r[j] == older[j - 1] && older[j - 1] in older;
          } else {
            assert r[i] == older[i - 1] && r[j] == older[j - 1];
          }
        }
        assert NewestFirst(docs, order, q, rx) == r;
      }
    }
  }

  /** The stored documents of `ids`, in the same order. */
  function Documents(docs: map<nat, Doc>, ids: seq<nat>): (r: seq<Doc>)
    requires forall id :: id in ids ==> id in docs
    ensures |r| == |ids|
    ensures forall i :: 0 <= i < |ids| ==> r[i] == docs[ids[i]]
  {
    seq(|ids|, i requires 0 <= i < |ids| => docs[ids[i]])
  }

  /** `.skip(skip).limit(limit)`: at most `limit` elements starting at `skip`. */
  function Window<T>(xs: seq<T>, skip: nat, limit: nat): (r: seq<T>)
    ensures |r| <= limit
    ensures skip >= |xs| ==> r == []
    ensures skip < |xs| ==> |r| == (if skip + limit <= |xs| then limit else |xs| - skip)
    ensures forall i :: 0 <= i < |r| ==> r[i] == xs[skip + i]
  {
    if skip >= |xs| then []
    else if skip + limit <= |xs| then xs[skip..skip + limit]
    else xs[skip..]
  }

  /** The list response (routes/users.js:60-82). */
  datatype Listing = Listing(items: seq<Doc>, page: int, limit: int, total: nat)

  /** GET / : page and limit clamped, `q` trimmed, the matching non-deleted documents newest
      first, the requested page of them, and the total count of matches. */
  function List(docs: map<nat, Doc>, order: seq<nat>, pageParam: Option<int>, limitParam: Option<int>,
                qParam: Option<string>, rx: (string, string) -> bool): (r: Listing)
    ensures r.page >= 1 && 1 <= r.limit <= 100
    ensures |r.items| <= r.limit
    ensures r.total == |NewestFirst(docs, order, Strip(qParam.GetOr("")), rx)|
    ensures forall d :: d in r.items ==> Listed(d, Strip(qParam.GetOr("")), rx)
    ensures r.page == PageNumber(pageParam) && r.limit == PageSize(limitParam)
    ensures r.items == Window(Documents(docs, NewestFirst(docs, order, Strip(qParam.GetOr("")), rx)),
                              SkipCount(r.page, r.limit), r.limit)
  {
    var page := PageNumber(pageParam);
    var limit := PageSize(limitParam);
    var q := Strip(qParam.GetOr(""));
    var ids := NewestFirst(docs, order, q, rx);
    var found := Documents(docs, ids);
    var items := Window(found, SkipCount(page, limit), limit);
    assert forall d :: d in items ==> exists i :: 0 <= i < |ids| && d == docs[ids[i]];
    Listing(items, page, limit, |ids|)
  }

  /** A listed user is one GET returns. */
  lemma ListedIsFetchable(docs: map<nat, Doc>, order: seq<nat>, q: string, rx: (string, string) -> bool, id: nat)
    requires id in NewestFirst(docs, order, q, rx)
    ensures Fetch(docs, Some(id)) == Response(200, Some(docs[id]))
  {
  }

  /** After a soft delete the user is still stored, with status deleted, but GET answers 404
      and the list leaves it out. */
  lemma DeletedIsHidden(docs: map<nat, Doc>, order: seq<nat>, id: nat, now: nat, q: string,
                        rx: (string, string) -> bool)
    requires id in docs
    ensures var after := docs[id := Merge(docs[id], DeletionStamp(now))];
      && id in after && after[id]["status"] == JStr("deleted")
      && Fetch(after, Some(id)) == Response(404, None)
      && id !in NewestFirst(after, order, q, rx)
  {
    var stamp := DeletionStamp(now);
    assert "deletedAt" in stamp && "status" in stamp;
  }

  /** A PATCH, which cannot write deletedAt, leaves a deleted user hidden. */
  lemma PatchKeepsDeletedHidden(docs: map<nat, Doc>, order: seq<nat>, id: nat, body: Option<Doc>, q: string,
                                rx: (string, string) -> bool)
    requires id in docs && "deletedAt" in docs[id] && TruthyAt(docs[id], "deletedAt")
    ensures var after := docs[id := Merge(docs[id], PatchUpdate(body))];
      && Fetch(after, Some(id)) == Response(404, None)
      && id !in NewestFirst(after, order, q, rx)
  {
    PatchLeavesIdentity(body);
  }

  /** Ids are below `nextId`, `order` lists each stored id exactly once, and emails are
      unique. */
  predicate Consistent(docs: map<nat, Doc>, order: seq<nat>, nextId: nat) {
    && (forall id :: id in docs ==> id < nextId)
    && (forall i :: 0 <= i < |order| ==> order[i] in docs)
    && (forall id :: id in docs ==> id in order)
    && Distinct(order)
    && UniqueEmails(docs)
  }

  /** Rewriting a stored document keeps the collection consistent unless its email clashes. */
  lemma RewriteKeepsConsistent(docs: map<nat, Doc>, order: seq<nat>, nextId: nat, id: nat, d: Doc)
    requires Consistent(docs, order, nextId) && id in docs && !EmailClash(docs, id, d)
    ensures Consistent(docs[id := d], order, nextId)
  {
  }

  /** Inserting under `nextId` keeps the collection consistent unless the email clashes. */
  lemma InsertKeepsConsistent(docs: map<nat, Doc>, order: seq<nat>, nextId: nat, d: Doc)
    requires Consistent(docs, order, nextId) && !EmailClash(docs, nextId, d)
    ensures Consistent(docs[nextId := d], order + [nextId], nextId + 1)
  {
    var order' := order + [nextId];
    assert forall i :: 0 <= i < |order| ==> order'[i] == order[i];
  }

  /** The users collection. */
  class Users {
    var docs: map<nat, Doc>
    var order: seq<nat>
    var nextId: nat

    /** Ids are below `nextId`, `order` lists each stored id once, and emails are unique. */
    ghost predicate Valid()
      reads this
    {
      Consistent(docs, order, nextId)
    }

    constructor()
      ensures Valid() && docs == map[] && order == [] && nextId == 0
    {
      docs, order, nextId := map[], [], 0;
    }

    /** POST / (routes/users.js:112-141). */
    method Post(body: Doc, now: nat) returns (res: Response)
      requires Valid()
      modifies this
      ensures Valid()
      ensures match PostOutcomeOf(old(docs), old(order), old(nextId), body, now)
        case Rejected =>
          res == Response(400, None) && docs == old(docs) && order == old(order) && nextId == old(nextId)
        case Conflict =>
          res == Response(500, None) && docs == old(docs) && order == old(order) && nextId == old(nextId)
        case Written(id, d, inserted) =>
          && res == Response(201, Some(d))
          && docs == old(docs)[id := d]
          && order == (if inserted then old(order) + [id] else old(order))
          && nextId == (if inserted then old(nextId) + 1 else old(nextId))
    {
      var outcome := PostOutcomeOf(docs, order, nextId, body, now);
      match outcome
      case Rejected =>
        res := Response(400, None);
      case Conflict =>
        res := Response(500, None);
      case Written(id, d, inserted) =>
        if inserted {
          Insert(d);
        } else {
          Rewrite(id, d);
        }
        res := Response(201, Some(d));
    }

    /** Store `d` under `id`, which holds a document already. */
    method Rewrite(id: nat, d: Doc)
      requires Valid() && id in docs && !EmailClash(docs, id, d)
      modifies this
      ensures Valid()
      ensures docs == old(docs)[id := d] && order == old(order) && nextId == old(nextId)
    {
      RewriteKeepsConsistent(docs, order, nextId, id, d);
      docs := docs[id := d];
    }

    /** Store `d` under a new id, the last in insertion order. */
    method Insert(d: Doc)
      requires Valid() && !EmailClash(docs, nextId, d)
      modifies this
      ensures Valid()
      ensures docs == old(docs)[old(nextId) := d] && order == old(order) + [old(nextId)]
      ensures nextId == old(nextId) + 1
    {
      InsertKeepsConsistent(docs, order, nextId, d);
      docs, order, nextId := docs[nextId := d], order + [nextId], nextId + 1;
    }

    /** PATCH /:id (routes/users.js:208-219): only allow-listed fields are written; a missing
        user gives 404. A soft-deleted user is patched like any other. */
    method Patch(id: Option<nat>, body: Option<Doc>) returns (res: Response)
      requires Valid()
      modifies this
      ensures Valid()
      ensures order == old(order) && nextId == old(nextId)
      ensures id.None? ==> res == Response(400, None) && docs == old(docs)
      ensures id.Some? && id.value !in old(docs) ==> res == Response(404, None) && docs == old(docs)
      ensures id.Some? && id.value in old(docs) ==>
        && docs == old(docs)[id.value := Merge(old(docs)[id.value], PatchUpdate(body))]
        && res == Response(200, Some(docs[id.value]))
    {
      if id.None? {
        return Response(400, None);
      }
      var i := id.value;
      if i !in docs {
        return Response(404, None);
      }
      PatchLeavesIdentity(body);
      var d := Merge(docs[i], PatchUpdate(body));
      docs := docs[i := d];
      res := Response(200, Some(d));
    }

    /** DELETE /:id (routes/users.js:237-250): the user stays, stamped deleted at `now`. */
    method Delete(id: Option<nat>, now: nat) returns (res: Response)
      requires Valid()
      modifies this
      ensures Valid()
      ensures order == old(order) && nextId == old(nextId)
      ensures id.None? ==> res == Response(400, None) && docs == old(docs)
      ensures id.Some? && id.value !in old(docs) ==> res == Response(404, None) && docs == old(docs)
      ensures id.Some? && id.value in old(docs) ==>
        && docs == old(docs)[id.value := Merge(old(docs)[id.value], DeletionStamp(now))]
        && docs.Keys == old(docs).Keys
        && res == Response(204, None)
    {
      if id.None? {
        return Response(400, None);
      }
      var i := id.value;
      if i !in docs {
        return Response(404, None);
      }
      var stamp := DeletionStamp(now);
      assert "email" !in stamp;
      docs := docs[i := Merge(docs[i], stamp)];
      res := Response(204, None);
    }
  }
}
