/**
 * The user record of the title registry: a profile keyed by its wallet
 * address, the derived faucet-eligibility flag, the shaping of its JSON
 * representation, and the hook that makes address lookups case-insensitive.
 *
 * Times are integer milliseconds since the epoch (what `Date.now()` and
 * `Date.prototype.getTime()` return); the current time and the faucet
 * configuration are parameters instead of ambient state.
 */
module UserModel {
  import opened Ascii
  import opened JsValues

  datatype Option<T> = None | Some(value: T)

  /** The faucet section of the process configuration. */
  datatype FaucetConfig = FaucetConfig(enabled: bool, cooldown: int)

  /** A stored user. `id` is the `_id` path, aliased as `address`;
      `giveawaysParticipatedIn` holds ObjectId references to giveaways. */
  datatype User = User(
    id: string,
    email: Option<string>,
    isGalleryEnabled: bool,
    faucetLastRequestedAt: Option<int>,
    giveawaysParticipatedIn: seq<nat>)

  /** Why a user could not be created: the named path failed validation. */
  datatype CreateResult = Created(user: User) | ValidationError(path: string)

  /** What the schema guarantees of every stored user: a present, lower-case address. */
  predicate WellFormed(u: User) {
    u.id != "" && IsLowerCase(u.id)
  }

  // ---------------------------------------------------------------------
  // Schema: defaults, the `lowercase` setter and the `required` validator
  // ---------------------------------------------------------------------

  /** Creates a user from the address it is given (absent when `None`).
      The `lowercase` option folds the address on assignment, every other
      path takes its default, and the `required` validator refuses a missing
      or empty address. */
  function CreateUser(address: Option<string>): (r: CreateResult)
    ensures r.Created? <==> address.Some? && address.value != ""
    ensures r.ValidationError? ==> r.path == "_id"
    ensures r.Created? ==> WellFormed(r.user) && EqualIgnoringCase(r.user.id, address.value)
    ensures r.Created? ==> r.user.email == None && !r.user.isGalleryEnabled
    ensures r.Created? ==> r.user.faucetLastRequestedAt == None && r.user.giveawaysParticipatedIn == []
  {
    match address
    case None => ValidationError("_id")
    case Some(a) =>
      if a == "" then ValidationError("_id")
      else Created(User(ToLower(a), None, false, None, []))
  }

  /** Two addresses that differ only in case give one and the same `_id`, so
      the store sees the second creation as a duplicate of the first. */
  lemma AddressesEqualUpToCaseCollide(a: string, b: string)
    requires CreateUser(Some(a)).Created? && CreateUser(Some(b)).Created?
    ensures CreateUser(Some(a)).user.id == CreateUser(Some(b)).user.id <==> EqualIgnoringCase(a, b)
  {
  }

  // ---------------------------------------------------------------------
  // The `canRequestFaucetTokens` virtual
  // ---------------------------------------------------------------------

  /** Whether `u` may ask the faucet for tokens at time `now`. A granted
      request always means the faucet is on and, if the user asked before,
      that at least `cooldown` milliseconds have passed since. */
  function CanRequestFaucetTokens(u: User, cfg: FaucetConfig, now: int): (r: bool)
    ensures r ==> cfg.enabled
    ensures r && u.faucetLastRequestedAt.Some? ==> u.faucetLastRequestedAt.value + cfg.cooldown <= now
  {
    cfg.enabled &&
    (u.faucetLastRequestedAt.None? || now - u.faucetLastRequestedAt.value >= cfg.cooldown)
  }

  /** A disabled faucet refuses everybody, whatever their last request. */
  lemma DisabledFaucetRefuses(u: User, cfg: FaucetConfig, now: int)
    requires !cfg.enabled
    ensures !CanRequestFaucetTokens(u, cfg, now)
  {
  }

  /** An enabled faucet serves a user who never asked, whatever the cooldown. */
  lemma NeverRequestedMayRequest(u: User, cfg: FaucetConfig, now: int)
    requires cfg.enabled && u.faucetLastRequestedAt == None
    ensures CanRequestFaucetTokens(u, cfg, now)
  {
  }

  /** With the faucet on and a previous request at `last`, the user may ask
      again exactly when at least `cooldown` milliseconds have passed; the
      boundary is inclusive. */
  lemma CooldownBoundary(u: User, cfg: FaucetConfig, now: int, last: int)
    requires cfg.enabled && u.faucetLastRequestedAt == Some(last)
    ensures CanRequestFaucetTokens(u, cfg, now) <==> now - last >= cfg.cooldown
    ensures CanRequestFaucetTokens(u, cfg, last + cfg.cooldown)
    ensures !CanRequestFaucetTokens(u, cfg, last + cfg.cooldown - 1)
  {
  }

  /** Once a user may ask, they may still ask at any later time. */
  lemma EligibilityPersists(u: User, cfg: FaucetConfig, now: int, later: int)
    requires now <= later && CanRequestFaucetTokens(u, cfg, now)
    ensures CanRequestFaucetTokens(u, cfg, later)
  {
  }

  // ---------------------------------------------------------------------
  // Serialisation: the document view and the `toJSON` transform
  // ---------------------------------------------------------------------

  /** The keys the transform removes: the `_id` path, its `id` virtual, and
      the internal list of giveaway references. */
  const InternalKeys: set<string> := {"_id", "id", "giveawaysParticipatedIn"}

  /** The keys of a serialised user after the transform. */
  const ExternalKeys: set<string> :=
    {"address", "email", "isGalleryEnabled", "faucetLastRequestedAt", "canRequestFaucetTokens"}

  /** The `giveawaysParticipatedIn` array of ObjectId references, as values. */
  function EncodeRefs(refs: seq<nat>): (r: seq<Value>)
    ensures |r| == |refs|
    ensures forall i :: 0 <= i < |refs| ==> r[i] == ObjectIdRef(refs[i])
  {
    if refs == [] then [] else [ObjectIdRef(refs[0])] + EncodeRefs(refs[1..])
  }

  /** The plain object the mapper builds for `u` with virtuals included (the
      `toObject` view): every stored path, the `id` and `address` virtuals
      over `_id`, and `canRequestFaucetTokens`. */
  function ToObjectView(u: User, cfg: FaucetConfig, now: int): (r: map<string, Value>)
    ensures r.Keys == InternalKeys + ExternalKeys
    ensures r["_id"] == r["id"] == r["address"] == Str(u.id)
    ensures r["canRequestFaucetTokens"] == Bool(CanRequestFaucetTokens(u, cfg, now))
    ensures r["email"] == (if u.email.Some? then Str(u.email.value) else Null)
    ensures r["isGalleryEnabled"] == Bool(u.isGalleryEnabled)
    ensures r["faucetLastRequestedAt"]
            == (if u.faucetLastRequestedAt.Some? then Date(u.faucetLastRequestedAt.value) else Null)
    ensures r["giveawaysParticipatedIn"] == List(EncodeRefs(u.giveawaysParticipatedIn))
  {
    map[
      "_id" := Str(u.id),
      "id" := Str(u.id),
      "address" := Str(u.id),
      "email" := (if u.email.Some? then Str(u.email.value) else Null),
      "isGalleryEnabled" := Bool(u.isGalleryEnabled),
      "faucetLastRequestedAt" :=
        (if u.faucetLastRequestedAt.Some? then Date(u.faucetLastRequestedAt.value) else Null),
      "giveawaysParticipatedIn" := List(EncodeRefs(u.giveawaysParticipatedIn)),
      "canRequestFaucetTokens" := Bool(CanRequestFaucetTokens(u, cfg, now))
    ]
  }

  /** What the transform leaves of a document: every key but the internal
      ones, each with its value unchanged. */
  function StripInternalKeys(doc: map<string, Value>): (r: map<string, Value>)
    ensures forall k :: k in r <==> k in doc && k !in InternalKeys
    ensures forall k :: k in r ==> r[k] == doc[k]
  {
    doc - InternalKeys
  }

  /** The `toJSON` transform: deletes `_id`, `id` and
      `giveawaysParticipatedIn` from the object being serialised, in place,
      and returns that same object. */
  method Transform(transformed: JsObject) returns (r: JsObject)
    modifies transformed
    ensures r == transformed
    ensures transformed.props == StripInternalKeys(old(transformed.props))
  {
    transformed.Delete("_id");
    transformed.Delete("id");
    transformed.Delete("giveawaysParticipatedIn");
    r := transformed;
  }

  /** The JSON representation of a user: the document view after the transform. */
  function ToJson(u: User, cfg: FaucetConfig, now: int): (r: map<string, Value>)
    ensures r.Keys == ExternalKeys
    ensures r.Keys !! InternalKeys
    ensures r["address"] == Str(u.id)
    ensures r["canRequestFaucetTokens"] == Bool(CanRequestFaucetTokens(u, cfg, now))
    ensures forall k :: k in r ==> r[k] == ToObjectView(u, cfg, now)[k]
  {
    StripInternalKeys(ToObjectView(u, cfg, now))
  }

  /** Serialising a user exposes nothing of the giveaway list: two users that
      differ only in the giveaways they joined serialise alike. */
  lemma ToJsonHidesGiveaways(u: User, cfg: FaucetConfig, now: int, giveaways: seq<nat>)
    ensures ToJson(u.(giveawaysParticipatedIn := giveaways), cfg, now) == ToJson(u, cfg, now)
  {
  }

  // ---------------------------------------------------------------------
  // The pre-query hook `makeQueryAddressesCaseInsensitive`
  // ---------------------------------------------------------------------

  /** The query keys under which the hook folds a string value. */
  const AddressKeys: set<string> := {"id", "_id", "address"}

  /** The condition map after the hook: under each address key a string is
      lowercased; every other value and every other key is kept. */
  function NormalizedQuery(q: map<string, Value>): (r: map<string, Value>)
    ensures r.Keys == q.Keys
    ensures forall k :: k in q && k in AddressKeys && q[k].Str? ==> r[k] == Str(ToLower(q[k].s))
    ensures forall k :: k in q && !(k in AddressKeys && q[k].Str?) ==> r[k] == q[k]
  {
    map k | k in q :: if k in AddressKeys && q[k].Str? then Str(ToLower(q[k].s)) else q[k]
  }

  /** The hook: reads the conditions of the query about to run and replaces,
      in place, each string under `id`, `_id` and `address` by its lower-case
      form. */
  method MakeQueryAddressesCaseInsensitive(query: JsObject)
    modifies query
    ensures query.props == NormalizedQuery(old(query.props))
  {
    if query.HoldsString("id") {
      query.Set("id", Str(ToLower(query.props["id"].s)));
    }
    if query.HoldsString("_id") {
      query.Set("_id", Str(ToLower(query.props["_id"].s)));
    }
    if query.HoldsString("address") {
      query.Set("address", Str(ToLower(query.props["address"].s)));
    }
    assert query.props.Keys == old(query.props).Keys;
  }

  /** Running the hook twice leaves the conditions as running it once. */
  lemma NormalizedQueryIdempotent(q: map<string, Value>)
    ensures NormalizedQuery(NormalizedQuery(q)) == NormalizedQuery(q)
  {
    var once := NormalizedQuery(q);
    forall k | k in once && k in AddressKeys && once[k].Str?
      ensures ToLower(once[k].s) == once[k].s
    {
      ToLowerIdempotent(q[k].s);
    }
  }

  /** Two values under key `k` that the hook treats as the same lookup. */
  predicate AgreeUpToAddressCase(k: string, v: Value, w: Value) {
    if k in AddressKeys && v.Str? && w.Str? then EqualIgnoringCase(v.s, w.s) else v == w
  }

  /** Two condition maps with the same keys whose values agree up to the case
      of the strings under the address keys. */
  predicate SameUpToAddressCase(q: map<string, Value>, p: map<string, Value>) {
    q.Keys == p.Keys && forall k :: k in q ==> AgreeUpToAddressCase(k, q[k], p[k])
  }

  /** Under one key, the hook maps two values to the same value exactly when
      they agree up to address case. */
  lemma NormalizedValueEqualIff(k: string, v: Value, w: Value)
    ensures NormalizedQuery(map[k := v])[k] == NormalizedQuery(map[k := w])[k]
            <==> AgreeUpToAddressCase(k, v, w)
  {
  }

  /** The hook makes two queries equal exactly when they differ at most in
      the case of their address strings. */
  lemma NormalizedQueryEqualIff(q: map<string, Value>, p: map<string, Value>)
    ensures NormalizedQuery(q) == NormalizedQuery(p) <==> SameUpToAddressCase(q, p)
  {
    var nq, np := NormalizedQuery(q), NormalizedQuery(p);
    if SameUpToAddressCase(q, p) {
      forall k | k in q ensures nq[k] == np[k] {
        NormalizedValueEqualIff(k, q[k], p[k]);
      }
    }
    if nq == np {
      forall k | k in q ensures AgreeUpToAddressCase(k, q[k], p[k]) {
        NormalizedValueEqualIff(k, q[k], p[k]);
      }
    }
  }

  /** Looking up by an address string or by its lower-case form is the same
      query once the hook has run. */
  lemma NormalizedQueryIgnoresAddressCase(q: map<string, Value>, k: string, s: string)
    requires k in AddressKeys
    ensures NormalizedQuery(q[k := Str(s)]) == NormalizedQuery(q[k := Str(ToLower(s))])
  {
  }

  /** A lookup by `_id` with any string finds the user created from
      `address` exactly when the two are equal up to case. */
  lemma LookupByIdIsCaseInsensitive(address: string, q: map<string, Value>, s: string)
    requires CreateUser(Some(address)).Created?
    requires "_id" in q && q["_id"] == Str(s)
    ensures NormalizedQuery(q)["_id"] == Str(CreateUser(Some(address)).user.id)
            <==> EqualIgnoringCase(s, address)
  {
  }
}
