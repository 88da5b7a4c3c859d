/**
 * The link registry: the slug-to-entry map with its registration and
 * resolution handlers, and the auto-persisted copy of the map.
 */
module Registry {
  import opened Options
  import opened Json
  import opened Links
  import opened Persistence
  import opened Resolution

  /** A handler's response: a bare status code, or a redirect to a URL. */
  datatype Outcome = Status(code: int) | Redirect(url: string)

  /** What registration decides: insert this entry, or answer with this status. */
  datatype Decision = Accept(entry: Entry) | Reject(outcome: Outcome)

  /**
   * Registration of `body` under `slug`, checked in the handler's order: an empty
   * slug (422), a slug already present (403), a body failing the schema (422), a
   * body with no non-empty URL (422); otherwise the reconciled entry.
   */
  function Decide(links: map<string, Entry>, slug: string, body: Json, validUrl: string -> bool): (d: Decision)
    ensures d.Accept? <==>
      && slug != "" && slug !in links
      && ParseBody(body, validUrl).Some? && AnySupplied(ParseBody(body, validUrl).value)
    ensures d.Accept? ==> WellFormed(d.entry, validUrl)
    ensures d.Accept? ==> d.entry == Reconcile(ParseBody(body, validUrl).value)
    ensures d.Reject? ==> d.outcome == (if slug != "" && slug in links then Status(403) else Status(422))
  {
    if slug == "" then Reject(Status(422))
    else if slug in links then Reject(Status(403))
    else match ParseBody(body, validUrl)
      case None => Reject(Status(422))
      case Some(f) =>
        if !AnySupplied(f) then Reject(Status(422))
        else
          ReconcileWellFormed(body, validUrl);
          Accept(Reconcile(f))
  }

  /**
   * Property names every plain JavaScript object inherits from `Object.prototype`.
   * Looking one of them up in the links object yields a truthy inherited value even
   * when no link was registered under that name.
   */
  const InheritedNames: set<string> := {
    "constructor", "__proto__", "hasOwnProperty", "isPrototypeOf", "propertyIsEnumerable",
    "toLocaleString", "toString", "valueOf",
    "__defineGetter__", "__defineSetter__", "__lookupGetter__", "__lookupSetter__"
  }

  /** The handler's conflict test `!!links[slug]` as written: own keys and inherited names. */
  predicate PresentAsWritten(links: map<string, Entry>, slug: string) {
    slug in links || slug in InheritedNames
  }

  /** Registration as written, with the conflict test that also sees inherited names. */
  function DecideAsWritten(links: map<string, Entry>, slug: string, body: Json, validUrl: string -> bool): (d: Decision)
    ensures d.Accept? ==> Decide(links, slug, body, validUrl) == d
    ensures d != Decide(links, slug, body, validUrl) ==>
      slug in InheritedNames && slug !in links && d == Reject(Status(403))
  {
    if slug == "" then Reject(Status(422))
    else if PresentAsWritten(links, slug) then Reject(Status(403))
    else match ParseBody(body, validUrl)
      case None => Reject(Status(422))
      case Some(f) =>
        if !AnySupplied(f) then Reject(Status(422))
        else Accept(Reconcile(f))
  }

  /**
   * On an empty registry, registering a valid URL under the slug `constructor` is
   * refused as a conflict (403) by the code as written, though no link has that
   * name; the registration meant by the create-only rule accepts it.
   */
  lemma InheritedSlugConflicts(url: string, validUrl: string -> bool)
    requires url != "" && validUrl(url)
    ensures var body := JObj(map[Key(Default) := JStr(url)]);
      && DecideAsWritten(map[], "constructor", body, validUrl) == Reject(Status(403))
      && Decide(map[], "constructor", body, validUrl) == Accept(Entry(url, url, url))
  {
  }

  /** A request the server handles. */
  datatype Request = Post(slug: string, body: Json) | Get(slug: string, agent: Agent)

  /**
   * The map after one request: a registration that is accepted adds its slug and
   * nothing else; every other request leaves the map as it was.
   */
  function Step(links: map<string, Entry>, req: Request, validUrl: string -> bool): (after: map<string, Entry>)
    ensures forall slug :: slug in links ==> slug in after && after[slug] == links[slug]
    ensures forall slug :: slug in after && slug !in links ==>
      && req.Post? && slug == req.slug
      && Decide(links, req.slug, req.body, validUrl).Accept?
      && after[slug] == Decide(links, req.slug, req.body, validUrl).entry
    ensures req.Post? && Decide(links, req.slug, req.body, validUrl).Accept? ==>
      req.slug in after && req.slug !in links
    ensures !(req.Post? && Decide(links, req.slug, req.body, validUrl).Accept?) ==> after == links
  {
    match req
    case Get(_, _) => links
    case Post(slug, body) =>
      match Decide(links, slug, body, validUrl)
      case Accept(entry) => links[slug := entry]
      case Reject(_) => links
  }

  /** The map after the server handles `reqs` one at a time. */
  function Run(links: map<string, Entry>, reqs: seq<Request>, validUrl: string -> bool): map<string, Entry>
    decreases |reqs|
  {
    if reqs == [] then links else Run(Step(links, reqs[0], validUrl), reqs[1..], validUrl)
  }

  /** Create-only: whatever requests follow, a slug once present keeps its first entry. */
  lemma {:induction false} RunKeepsEntries(links: map<string, Entry>, reqs: seq<Request>, validUrl: string -> bool, slug: string)
    requires slug in links
    ensures slug in Run(links, reqs, validUrl) && Run(links, reqs, validUrl)[slug] == links[slug]
    decreases |reqs|
  {
    if reqs != [] {
      RunKeepsEntries(Step(links, reqs[0], validUrl), reqs[1..], validUrl, slug);
    }
  }

  /** Every slug added by a run of requests has a non-empty name and a well-formed entry. */
  lemma {:induction false} RunAddsWellFormed(links: map<string, Entry>, reqs: seq<Request>, validUrl: string -> bool, slug: string)
    requires slug in Run(links, reqs, validUrl) && slug !in links
    ensures slug != "" && WellFormed(Run(links, reqs, validUrl)[slug], validUrl)
    decreases |reqs|
  {
    var next := Step(links, reqs[0], validUrl);
    if slug in next {
      RunKeepsEntries(next, reqs[1..], validUrl, slug);
    } else {
      RunAddsWellFormed(next, reqs[1..], validUrl, slug);
    }
  }

  /**
   * After an accepted registration, resolving the slug redirects every visitor to a
   * non-empty valid URL the body supplied: the first one in the fallback order of
   * the visitor's platform.
   */
  lemma RegisterThenResolve(links: map<string, Entry>, slug: string, body: Json, validUrl: string -> bool, agent: Agent)
    requires Decide(links, slug, body, validUrl).Accept?
    ensures var entry := Step(links, Post(slug, body), validUrl)[slug];
      && Target(entry, Classify(agent)) != ""
      && validUrl(Target(entry, Classify(agent)))
      && Some(Target(entry, Classify(agent))) == FirstSupplied(ParseBody(body, validUrl).value, Priority(Classify(agent)))
  {
    ReconcileFollowsPriority(ParseBody(body, validUrl).value, Classify(agent));
  }

  /**
   * The registry of one server process. `links` is the in-memory map; `persisted`
   * is the last document written out, which the process rewrites after every change.
   */
  class LinkRegistry {
    const validUrl: string -> bool
    var links: map<string, Entry>
    /** The map as loaded at startup. */
    ghost const loaded: map<string, Entry>
    ghost var persisted: Json

    /**
     * The loaded entries are never replaced or removed, every entry added since
     * startup is well-formed under a non-empty slug, and the written document is
     * the whole current map.
     */
    ghost predicate Valid()
      reads this
    {
      && (forall slug :: slug in loaded ==> slug in links && links[slug] == loaded[slug])
      && (forall slug :: slug in links && slug !in loaded ==> slug != "" && WellFormed(links[slug], validUrl))
      && persisted == Serialize(links)
    }

    /**
     * Startup: the map is loaded from `doc` (None when the file could not be read or
     * parsed) and immediately written back.
     */
    constructor (doc: Option<Json>, validUrl: string -> bool)
      ensures Valid()
      ensures this.validUrl == validUrl
      ensures links == loaded == Load(doc)
      ensures Load(Some(persisted)) == links
    {
      this.validUrl := validUrl;
      links := Load(doc);
      loaded := Load(doc);
      persisted := Serialize(Load(doc));
      LoadSerialize(Load(doc));
    }

    /**
     * The registration handler. A rejected request changes nothing; an accepted one
     * inserts exactly its slug with the reconciled entry and writes the map out.
     */
    method Register(slug: string, body: Json) returns (outcome: Outcome)
      requires Valid()
      modifies this
      ensures Valid()
      ensures match Decide(old(links), slug, body, validUrl)
        case Accept(entry) => outcome == Status(200) && links == old(links)[slug := entry]
        case Reject(status) => outcome == status && links == old(links) && persisted == old(persisted)
      ensures Load(Some(persisted)) == links
    {
      if slug == "" {
        return Status(422);
      }
      if slug in links {
        return Status(403);
      }
      var parsed := ParseBody(body, validUrl);
      if parsed.None? {
        return Status(422);
      }
      var fields := parsed.value;
      if !AnySupplied(fields) {
        return Status(422);
      }
      var entry := Reconcile(fields);
      ReconcileWellFormed(body, validUrl);
      links := links[slug := entry];
      persisted := Serialize(links);
      LoadSerialize(links);
      return Status(200);
    }

    /**
     * The resolution handler: 404 for an empty or unknown slug, otherwise a redirect
     * to the entry's `android` target for Android clients, its `ios` target for
     * iPhone, iPad and Mac clients, and its `default` target for everyone else.
     */
    method Resolve(slug: string, agent: Agent) returns (outcome: Outcome)
      requires Valid()
      ensures outcome == Status(404) <==> slug == "" || slug !in links
      ensures slug != "" && slug in links ==> outcome == Redirect(Target(links[slug], Classify(agent)))
      ensures outcome.Redirect? && slug !in loaded ==> outcome.url != "" && validUrl(outcome.url)
    {
      if slug == "" {
        return Status(404);
      }
      if slug !in links {
        return Status(404);
      }
      var entry := links[slug];
      if agent.isAndroid {
        return Redirect(entry.android);
      }
      if agent.isiPhone || agent.isiPad || agent.isMac {
        return Redirect(entry.ios);
      }
      return Redirect(entry.default);
    }
  }
}
