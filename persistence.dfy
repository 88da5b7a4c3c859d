/**
 * The stored links file: loading it at startup with a schema check and an
 * empty fallback, and the document written after every change.
 */
module Persistence {
  import opened Options
  import opened Json
  import opened Links

  /** One stored value passes the schema: an object whose `ios`, `android` and `default` are strings. */
  predicate IsEntryJson(j: Json) {
    && j.JObj?
    && Key(Ios) in j.members && j.members[Key(Ios)].JStr?
    && Key(Android) in j.members && j.members[Key(Android)].JStr?
    && Key(Default) in j.members && j.members[Key(Default)].JStr?
  }

  /** The entry a stored value describes; members other than the three URLs are dropped. */
  function EntryOfJson(j: Json): Entry
    requires IsEntryJson(j)
  {
    Entry(j.members[Key(Ios)].s, j.members[Key(Android)].s, j.members[Key(Default)].s)
  }

  /** The whole document passes the schema: an object every value of which is a stored entry. */
  predicate IsLinksDocument(doc: Json) {
    doc.JObj? && forall slug :: slug in doc.members ==> IsEntryJson(doc.members[slug])
  }

  /**
   * Startup load. `doc` is the parsed file, or None when reading or parsing failed.
   * A document that passes the schema gives exactly its slugs, each with the three
   * stored strings; anything else gives the empty registry. Loading never fails.
   */
  function Load(doc: Option<Json>): (links: map<string, Entry>)
    ensures doc.Some? && IsLinksDocument(doc.value) ==>
      && links.Keys == doc.value.members.Keys
      && forall slug :: slug in links ==>
           forall p :: doc.value.members[slug].members[Key(p)] == JStr(Target(links[slug], p))
    ensures !(doc.Some? && IsLinksDocument(doc.value)) ==> links == map[]
  {
    if doc.Some? && IsLinksDocument(doc.value) then
      map slug | slug in doc.value.members :: EntryOfJson(doc.value.members[slug])
    else
      map[]
  }

  /** The stored form of one entry. */
  function EntryToJson(e: Entry): (j: Json)
    ensures IsEntryJson(j) && EntryOfJson(j) == e
  {
    JObj(map[Key(Android) := JStr(e.android), Key(Ios) := JStr(e.ios), Key(Default) := JStr(e.default)])
  }

  /** The document written after every change: the whole map, one member per slug. */
  function Serialize(links: map<string, Entry>): (doc: Json)
    ensures IsLinksDocument(doc) && doc.members.Keys == links.Keys
  {
    JObj(map slug | slug in links :: EntryToJson(links[slug]))
  }

  /** Reloading the written document restores the map it was written from. */
  lemma LoadSerialize(links: map<string, Entry>)
    ensures Load(Some(Serialize(links))) == links
  {
  }
}
