/** What the MongoDB update operators used by the scraper and the users router do to a document,
    whatever its field values are. */
module MongoDoc {

  /** `$set`: the fields of `patch` overwrite those of `doc`; other fields of `doc` stay. */
  function Merge<V>(doc: map<string, V>, patch: map<string, V>): (d: map<string, V>)
    ensures d.Keys == doc.Keys + patch.Keys
    ensures forall k :: k in patch ==> d[k] == patch[k]
    ensures forall k :: k in doc && k !in patch ==> d[k] == doc[k]
  {
    map k | k in doc.Keys + patch.Keys :: if k in patch then patch[k] else doc[k]
  }
}
