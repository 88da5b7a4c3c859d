/**
 * Link entries and the registration body: schema validation of the three
 * optional URL fields and the reconciliation that fills missing platform
 * targets from their siblings.
 */
module Links {
  import opened Options
  import opened Json

  /** The three redirect targets of a platform, in the source's field names. */
  datatype Platform = Android | Ios | Default

  /** A stored link: one redirect target per platform. */
  datatype Entry = Entry(ios: string, android: string, default: string)

  /** A registration body after schema validation: each URL field may be absent. */
  datatype Fields = Fields(ios: Option<string>, android: Option<string>, default: Option<string>)

  /** The JSON member name under which a platform's URL travels. */
  function Key(p: Platform): string {
    match p
    case Android => "android"
    case Ios => "ios"
    case Default => "default"
  }

  function Field(f: Fields, p: Platform): Option<string> {
    match p
    case Android => f.android
    case Ios => f.ios
    case Default => f.default
  }

  function Target(e: Entry, p: Platform): string {
    match p
    case Android => e.android
    case Ios => e.ios
    case Default => e.default
  }

  /** JavaScript truthiness of an optional string: both `undefined` and `""` are falsy. */
  predicate Truthy(x: Option<string>) {
    x.Some? && x.value != ""
  }

  /** The body supplies the URL `s`: some field holds it and it is not empty. */
  predicate Supplies(f: Fields, s: string) {
    || (Truthy(f.ios) && f.ios.value == s)
    || (Truthy(f.android) && f.android.value == s)
    || (Truthy(f.default) && f.default.value == s)
  }

  /** A stored entry as registration produces it: every target non-empty and a valid URL. */
  ghost predicate WellFormed(e: Entry, validUrl: string -> bool) {
    forall p :: Target(e, p) != "" && validUrl(Target(e, p))
  }

  /**
   * JavaScript `x || y`: the left operand when it is truthy, else the right one.
   * The result is truthy when either operand is.
   */
  function Or(x: Option<string>, y: Option<string>): (r: Option<string>)
    ensures Truthy(r) <==> Truthy(x) || Truthy(y)
    ensures r == x || r == y
    ensures Truthy(x) ==> r == x
    ensures !Truthy(x) ==> r == y
  {
    if Truthy(x) then x else y
  }

  /** The registration guard: at least one of the three fields is non-empty. */
  predicate AnySupplied(f: Fields) {
    Truthy(f.android) || Truthy(f.ios) || Truthy(f.default)
  }

  /** One URL member of the body passes the schema: absent, or a string that is a valid URL. */
  predicate UrlMemberOk(members: map<string, Json>, key: string, validUrl: string -> bool) {
    key !in members || (members[key].JStr? && validUrl(members[key].s))
  }

  function UrlMember(members: map<string, Json>, key: string): Option<string> {
    if key in members && members[key].JStr? then Some(members[key].s) else None
  }

  /**
   * Schema validation of a registration body: it must be an object, and each of
   * `ios`, `android` and `default` is either absent or a string that is a valid
   * URL; other members are ignored.
   */
  function ParseBody(body: Json, validUrl: string -> bool): (r: Option<Fields>)
    ensures r.Some? <==>
      body.JObj? && forall p :: Key(p) in body.members ==>
        body.members[Key(p)].JStr? && validUrl(body.members[Key(p)].s)
    ensures r.Some? ==> forall p :: Field(r.value, p).Some? <==> Key(p) in body.members
    ensures r.Some? ==> forall p :: Field(r.value, p).Some? ==>
      body.members[Key(p)] == JStr(Field(r.value, p).value) && validUrl(Field(r.value, p).value)
  {
    if body.JObj?
      && UrlMemberOk(body.members, Key(Ios), validUrl)
      && UrlMemberOk(body.members, Key(Android), validUrl)
      && UrlMemberOk(body.members, Key(Default), validUrl)
    then
      Some(Fields(
        UrlMember(body.members, Key(Ios)),
        UrlMember(body.members, Key(Android)),
        UrlMember(body.members, Key(Default))))
    else
      None
  }

  /**
   * Reconciliation: every platform target is the first non-empty field in its own
   * fallback order, each order read from the supplied fields and not from the other
   * reconciled targets.
   */
  function Reconcile(f: Fields): (e: Entry)
    requires AnySupplied(f)
    ensures forall p :: Target(e, p) != "" && Supplies(f, Target(e, p))
  {
    var android := Or(Or(f.android, f.default), f.ios);
    var ios := Or(Or(f.ios, f.default), f.android);
    var default := Or(Or(f.default, f.android), f.ios);
    Entry(ios.value, android.value, default.value)
  }

  /** The per-platform fallback order of reconciliation. */
  function Priority(p: Platform): seq<Platform> {
    match p
    case Android => [Android, Default, Ios]
    case Ios => [Ios, Default, Android]
    case Default => [Default, Android, Ios]
  }

  /** Reference definition: the value of the first non-empty field in `order`. */
  function FirstSupplied(f: Fields, order: seq<Platform>): (r: Option<string>)
    ensures r.Some? <==> exists i :: 0 <= i < |order| && Truthy(Field(f, order[i]))
    ensures r.Some? ==> r.value != "" && Supplies(f, r.value)
  {
    if order == [] then None
    else if Truthy(Field(f, order[0])) then Field(f, order[0])
    else FirstSupplied(f, order[1..])
  }

  /** Each reconciled target is the first non-empty field in that platform's fallback order. */
  lemma ReconcileFollowsPriority(f: Fields, p: Platform)
    requires AnySupplied(f)
    ensures FirstSupplied(f, Priority(p)) == Some(Target(Reconcile(f), p))
  {
    var order := Priority(p);
    assert order[1..][1..][1..] == [];
    if !Truthy(Field(f, order[0])) && !Truthy(Field(f, order[1])) {
      assert FirstSupplied(f, order) == FirstSupplied(f, order[1..][1..]);
    }
  }

  /** A non-empty field is kept as its own platform's target. */
  lemma ReconcileKeepsSupplied(f: Fields, p: Platform)
    requires Truthy(Field(f, p))
    ensures Target(Reconcile(f), p) == Field(f, p).value
  {
  }

  /** When all three fields are supplied, reconciliation returns them unchanged. */
  lemma ReconcileAllSupplied(f: Fields)
    requires Truthy(f.ios) && Truthy(f.android) && Truthy(f.default)
    ensures Reconcile(f) == Entry(f.ios.value, f.android.value, f.default.value)
  {
  }

  /** A single supplied URL becomes the target of all three platforms. */
  lemma ReconcileSingle(a: string)
    requires a != ""
    ensures Reconcile(Fields(Some(a), None, None)) == Entry(a, a, a)
  {
  }

  /** Without `ios`, the iOS target falls back to `default` before `android`. */
  lemma ReconcileIosPrefersDefault(a: string, d: string)
    requires a != "" && d != ""
    ensures Reconcile(Fields(None, Some(a), Some(d))) == Entry(d, a, d)
  {
  }

  /**
   * A body that passes validation and the empty check reconciles into a well-formed
   * entry: every target is non-empty and a valid URL.
   */
  lemma ReconcileWellFormed(body: Json, validUrl: string -> bool)
    requires ParseBody(body, validUrl).Some? && AnySupplied(ParseBody(body, validUrl).value)
    ensures WellFormed(Reconcile(ParseBody(body, validUrl).value), validUrl)
  {
  }
}
