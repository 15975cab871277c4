/** The payload factory of src/Factory.php: it assembles the claim collection
    from default claims, custom claims and a generated `jti`, resolves every
    value into a claim object and wraps the result into a validated payload.

    The factory is stateful in the source and so it is here: `claims` is
    created once by the constructor and every `make` puts into the same
    collection, and dropping `exp` rewrites `defaultClaims` for good. The claim
    factory, the validator and the `jti` hash are collaborators passed in as
    `Services`. */
module PayloadFactory {
  import opened Wrappers
  import opened Entries
  import opened Claims

  /** One entry of the `defaultClaims` PHP array: its array key and the claim name. */
  datatype Slot = Slot(key: nat, name: string)

  datatype Factory = Factory(
    ttl: Option<int>,          // null: tokens do not expire
    defaultClaims: seq<Slot>,
    claims: Entries<Value>,    // the collection every make() builds into
    customClaims: Entries<Value>,
    refreshFlow: bool)

  /** What the factory calls but does not implement. */
  datatype Services = Services(
    makeClaim: (string, int) -> Claim,                     // ClaimFactory::make(name) with the clock at the given time
    getClaim: (string, RawValue) -> Claim,                 // ClaimFactory::get(name, value)
    check: (Entries<Claim>, bool, int) -> Option<string>,  // PayloadValidator at the given time: None accepts, Some(reason) rejects; the flag is the refresh flow
    jtiHash: (Entries<Value>, string) -> string)           // md5 of the collection's JSON and a random salt

  /** What one make() sees of the outside world: the clock reading the claim
      factory and the validator work with, and the random salt of the `jti`.
      Every make has its own, so time may pass between two of them. */
  datatype Moment = Moment(now: int, salt: string)

  /** The factory after a make(), and the payload or the validator's reason to reject. */
  datatype Made = Made(factory: Factory, payload: Result<Payload, string>)

  const DEFAULT_TTL: int := 60

  /** A PHP list of names: keys 0, 1, 2, ... in order. */
  function Listed(names: seq<string>): (slots: seq<Slot>)
    ensures |slots| == |names|
    ensures forall i :: 0 <= i < |names| ==> slots[i] == Slot(i, names[i])
  {
    seq(|names|, i requires 0 <= i < |names| => Slot(i, names[i]))
  }

  /** The factory as its constructor leaves it. */
  function New(): (r: Factory)
    ensures r.ttl == Some(DEFAULT_TTL) && r.claims == [] && r.customClaims == [] && !r.refreshFlow
    ensures |r.defaultClaims| == 4 && SlotNames(r.defaultClaims) == ["iss", "iat", "exp", "nbf"]
    ensures forall i :: 0 <= i < |r.defaultClaims| ==> r.defaultClaims[i].key == i
  {
    Factory(Some(DEFAULT_TTL), Listed(["iss", "iat", "exp", "nbf"]), [], [], false)
  }

  function SlotNames(slots: seq<Slot>): (r: seq<string>)
    ensures |r| == |slots|
    ensures forall i :: 0 <= i < |slots| ==> r[i] == slots[i].name
  {
    seq(|slots|, i requires 0 <= i < |slots| => slots[i].name)
  }

  /** `i` is the position of the first slot called `name`. */
  predicate FirstAt(slots: seq<Slot>, name: string, i: int)
  {
    && 0 <= i < |slots|
    && slots[i].name == name
    && forall k :: 0 <= k < i ==> slots[k].name != name
  }

  /** The position array_search finds: the first slot called `name`. */
  function FirstIndex(slots: seq<Slot>, name: string): (r: Option<nat>)
    ensures r.Some? ==> FirstAt(slots, name, r.value)
    ensures r.None? ==> name !in SlotNames(slots)
  {
    if slots == [] then None
    else if slots[0].name == name then Some(0)
    else
      match FirstIndex(slots[1..], name)
      case Some(i) => Some(i + 1)
      case None =>
        assert forall k :: 0 < k < |slots| ==> slots[k].name == slots[1..][k - 1].name;
        None
  }

  /** The default claim names buildClaims iterates over. With a null ttl the
      first `exp` entry is unset, but only when array_search's result is truthy:
      an `exp` under key 0 is found and kept. */
  function EffectiveDefaults(ttl: Option<int>, slots: seq<Slot>): (r: seq<Slot>)
    ensures EXP !in SlotNames(slots) ==> r == slots
    ensures forall i :: FirstAt(slots, EXP, i) ==>
              r == (if ttl.None? && slots[i].key != 0 then slots[..i] + slots[i + 1..] else slots)
    ensures forall n :: n in SlotNames(r) ==> n in SlotNames(slots)
  {
    if ttl.None? then
      match FirstIndex(slots, EXP)
      case Some(i) =>
        if slots[i].key != 0 then
          var r := slots[..i] + slots[i + 1..];
          assert forall j :: 0 <= j < |r| ==> r[j] == slots[if j < i then j else j + 1];
          r
        else slots
      case None => slots
    else slots
  }

  /** The names of the effective defaults, as a set. */
  function DefaultNames(f: Factory): set<string>
  {
    set n | n in SlotNames(EffectiveDefaults(f.ttl, f.defaultClaims))
  }

  /** addClaim: sets one claim and leaves every other claim, and every other field, as it was. */
  function AddClaim(f: Factory, name: string, v: Value): (r: Factory)
    ensures r == f.(claims := r.claims)
    ensures Lookup(r.claims, name) == Some(v)
    ensures forall j :: j != name ==> Lookup(r.claims, j) == Lookup(f.claims, j)
    ensures Keys(r.claims) == Keys(f.claims) + {name}
  {
    f.(claims := Put(f.claims, name, v))
  }

  /** addClaims: the pairs are added one by one, so the last value given for a name wins. */
  function AddClaims(f: Factory, pairs: Entries<Value>): (r: Factory)
    ensures r == f.(claims := r.claims)
    ensures Keys(r.claims) == Keys(f.claims) + Keys(pairs)
    ensures forall j :: j in Keys(pairs) ==> Lookup(r.claims, j) == Latest(pairs, j)
    ensures forall j :: j !in Keys(pairs) ==> Lookup(r.claims, j) == Lookup(f.claims, j)
    ensures Names(f.claims) <= Names(r.claims)
    ensures Keys(pairs) <= Keys(f.claims) ==> Names(r.claims) == Names(f.claims)
    ensures Unique(f.claims) ==> Unique(r.claims)
  {
    f.(claims := PutAll(f.claims, pairs))
  }

  /** addClaims is addClaim of the first pair followed by addClaims of the rest. */
  lemma AddClaimsInOrder(f: Factory, pairs: Entries<Value>)
    requires pairs != []
    ensures AddClaims(f, pairs) == AddClaims(AddClaim(f, pairs[0].0, pairs[0].1), pairs[1..])
  {
    PutAllFirst(f.claims, pairs);
  }

  /** The (name, claim object) pairs of the default loop, in list order. */
  function DefaultPairs(slots: seq<Slot>, makeClaim: string -> Claim): (r: Entries<Value>)
    ensures Names(r) == SlotNames(slots)
    ensures forall i :: 0 <= i < |r| ==> r[i].1 == Built(makeClaim(r[i].0))
  {
    if slots == [] then []
    else
      var rest := DefaultPairs(slots[1..], makeClaim);
      var r := [(slots[0].name, Built(makeClaim(slots[0].name)))] + rest;
      assert r[1..] == rest;
      assert SlotNames(slots) == [slots[0].name] + SlotNames(slots[1..]);
      r
  }

  /** Which value a name ends up with, layer by layer: a custom claim beats a
      default claim, which beats whatever the collection held before. */
  ghost function Layered(f: Factory, svc: Services, now: int, k: string): Option<Value>
  {
    if k in Keys(f.customClaims) then Latest(f.customClaims, k)
    else if k in DefaultNames(f) then Some(Built(svc.makeClaim(k, now)))
    else Lookup(f.claims, k)
  }

  /** The default loop of buildClaims: the effective defaults are stored back
      into the factory, and each default name gets a new claim object made at
      time `now`. */
  function AddDefaultClaims(f: Factory, svc: Services, now: int): (r: Factory)
    ensures r == f.(defaultClaims := r.defaultClaims, claims := r.claims)
    ensures r.defaultClaims == EffectiveDefaults(f.ttl, f.defaultClaims)
    ensures Keys(r.claims) == Keys(f.claims) + DefaultNames(f)
    ensures forall k :: k in DefaultNames(f) ==> Lookup(r.claims, k) == Some(Built(svc.makeClaim(k, now)))
    ensures forall k :: k !in DefaultNames(f) ==> Lookup(r.claims, k) == Lookup(f.claims, k)
    ensures Names(f.claims) <= Names(r.claims)
    ensures DefaultNames(f) <= Keys(f.claims) ==> Names(r.claims) == Names(f.claims)
    ensures Unique(f.claims) ==> Unique(r.claims)
  {
    var defaults := EffectiveDefaults(f.ttl, f.defaultClaims);
    var pairs := DefaultPairs(defaults, (n: string) => svc.makeClaim(n, now));
    assert Keys(pairs) == DefaultNames(f);
    forall k | k in Keys(pairs)
      ensures Latest(pairs, k) == Some(Built(svc.makeClaim(k, now)))
    {
      LatestUniform(pairs, k, (n: string) => Built(svc.makeClaim(n, now)));
    }
    AddClaims(f.(defaultClaims := defaults), pairs)
  }

  /** The last step of buildClaims: a `jti` is generated only when the
      collection has none, from the collection as it stands and a salt, and
      appended after every other claim. */
  function AddJti(f: Factory, svc: Services, salt: string): (r: Factory)
    ensures r == f.(claims := r.claims)
    ensures JTI in Keys(f.claims) ==> r.claims == f.claims
    ensures JTI !in Keys(f.claims) ==>
              && |r.claims| > 0
              && r.claims[..|r.claims| - 1] == f.claims
              && r.claims[|r.claims| - 1] == (JTI, Plain(Text(svc.jtiHash(f.claims, salt))))
    ensures Keys(r.claims) == Keys(f.claims) + {JTI}
    ensures Names(f.claims) <= Names(r.claims)
    ensures Unique(f.claims) ==> Unique(r.claims)
  {
    if JTI in Keys(f.claims) then f
    else
      var r := AddClaim(f, JTI, Plain(Text(svc.jtiHash(f.claims, salt))));
      NamesConcat(f.claims, [(JTI, Plain(Text(svc.jtiHash(f.claims, salt))))]);
      assert r.claims[..|r.claims| - 1] == f.claims;
      r
  }

  /** buildClaims: defaults, then custom claims on top, then a `jti` computed
      last and only when none is present yet. Whatever the collection held
      before stays in it. */
  function BuildClaims(f: Factory, svc: Services, at: Moment): (r: Factory)
    ensures r.ttl == f.ttl && r.customClaims == f.customClaims && r.refreshFlow == f.refreshFlow
    ensures r.defaultClaims == EffectiveDefaults(f.ttl, f.defaultClaims)
    ensures Keys(r.claims) == Keys(f.claims) + DefaultNames(f) + Keys(f.customClaims) + {JTI}
    ensures forall k :: k != JTI ==> Lookup(r.claims, k) == Layered(f, svc, at.now, k)
    ensures JTI in Keys(f.claims) + DefaultNames(f) + Keys(f.customClaims) ==>
              Lookup(r.claims, JTI) == Layered(f, svc, at.now, JTI)
    ensures JTI !in Keys(f.claims) + DefaultNames(f) + Keys(f.customClaims) ==>
              && |r.claims| > 0
              && r.claims[|r.claims| - 1] == (JTI, Plain(Text(svc.jtiHash(r.claims[..|r.claims| - 1], at.salt))))
    ensures Names(f.claims) <= Names(r.claims)
    ensures DefaultNames(f) + Keys(f.customClaims) + {JTI} <= Keys(f.claims) ==> Names(r.claims) == Names(f.claims)
    ensures Unique(f.claims) ==> Unique(r.claims)
  {
    var layered := LayerClaims(f, svc, at.now);
    AddJti(layered, svc, at.salt)
  }

  /** The first two layers of buildClaims: the defaults made at time `now`,
      then the custom claims over them. */
  function LayerClaims(f: Factory, svc: Services, now: int): (r: Factory)
    ensures r == f.(defaultClaims := r.defaultClaims, claims := r.claims)
    ensures r.defaultClaims == EffectiveDefaults(f.ttl, f.defaultClaims)
    ensures Keys(r.claims) == Keys(f.claims) + DefaultNames(f) + Keys(f.customClaims)
    ensures forall k :: Lookup(r.claims, k) == Layered(f, svc, now, k)
    ensures Names(f.claims) <= Names(r.claims)
    ensures DefaultNames(f) + Keys(f.customClaims) <= Keys(f.claims) ==> Names(r.claims) == Names(f.claims)
    ensures Unique(f.claims) ==> Unique(r.claims)
  {
    LayeredLookup(f, svc, now);
    AddClaims(AddDefaultClaims(f, svc, now), f.customClaims)
  }

  /** After the two layers every name holds what Layered says. */
  lemma LayeredLookup(f: Factory, svc: Services, now: int)
    ensures forall k :: Lookup(AddClaims(AddDefaultClaims(f, svc, now), f.customClaims).claims, k) == Layered(f, svc, now, k)
  {
  }

  /** How resolveClaims turns one collection value into a claim object: a claim
      object is kept as it is, a raw value goes through the claim factory. */
  function Resolve(svc: Services, name: string, v: Value): Claim
  {
    match v
    case Built(c) => c
    case Plain(x) => svc.getClaim(name, x)
  }

  /** resolveClaims: the same names in the same order, each value resolved. */
  function ResolveClaims(claims: Entries<Value>, svc: Services): (r: Entries<Claim>)
    ensures Names(r) == Names(claims)
    ensures Keys(r) == Keys(claims)
    ensures forall k :: k in Keys(claims) ==> Lookup(r, k) == Some(Resolve(svc, k, Lookup(claims, k).value))
    ensures Unique(claims) ==> Unique(r)
  {
    MapValuesLookup(claims, (k: string, v: Value) => Resolve(svc, k, v));
    MapValues(claims, (k: string, v: Value) => Resolve(svc, k, v))
  }

  /** withClaims: a payload exists exactly when the validator, in the
      factory's refresh-flow mode and at time `now`, accepts the claims. */
  function WithClaims(f: Factory, svc: Services, now: int, claims: Entries<Claim>): (r: Result<Payload, string>)
    ensures r.Success? <==> svc.check(claims, f.refreshFlow, now).None?
    ensures r.Success? ==> r.value.claims == claims
    ensures r.Failure? ==> r.error == svc.check(claims, f.refreshFlow, now).value
  {
    match svc.check(claims, f.refreshFlow, now)
    case None => Success(Payload(claims))
    case Some(reason) => Failure(reason)
  }

  /** make: build the collection, resolve it and wrap it. The collection is kept
      in the factory afterwards whether or not validation accepts it. */
  function Make(f: Factory, svc: Services, at: Moment): (r: Made)
    ensures r.factory == BuildClaims(f, svc, at)
    ensures Keys(r.factory.claims) == Keys(f.claims) + DefaultNames(f) + Keys(f.customClaims) + {JTI}
    ensures r.factory.ttl == f.ttl && r.factory.customClaims == f.customClaims
    ensures r.factory.refreshFlow == f.refreshFlow
    ensures r.factory.defaultClaims == EffectiveDefaults(f.ttl, f.defaultClaims)
    ensures forall n :: n in SlotNames(r.factory.defaultClaims) ==> n in SlotNames(f.defaultClaims)
    ensures Names(f.claims) <= Names(r.factory.claims)
    ensures Unique(f.claims) ==> Unique(r.factory.claims)
    ensures r.payload.Success? <==> svc.check(ResolveClaims(r.factory.claims, svc), f.refreshFlow, at.now).None?
    ensures r.payload.Success? ==>
              && r.payload.value.claims == ResolveClaims(r.factory.claims, svc)
              && Names(r.payload.value.claims) == Names(r.factory.claims)
              && Keys(r.payload.value.claims) == Keys(f.claims) + DefaultNames(f) + Keys(f.customClaims) + {JTI}
    ensures r.payload.Success? ==>
              forall k :: k in Keys(f.customClaims) ==>
                Lookup(r.payload.value.claims, k) == Some(Resolve(svc, k, Latest(f.customClaims, k).value))
  {
    var built := BuildClaims(f, svc, at);
    var claims := ResolveClaims(built.claims, svc);
    assert forall k :: k in Keys(f.customClaims) ==> Lookup(built.claims, k) == Latest(f.customClaims, k);
    Made(built, WithClaims(built, svc, at.now, claims))
  }

  /** setDefaultClaims installs the names as a list (keys 0, 1, ...); getDefaultClaims reads them back. */
  function SetDefaultClaims(f: Factory, names: seq<string>): (r: Factory)
    ensures r == f.(defaultClaims := r.defaultClaims)
    ensures SlotNames(GetDefaultClaims(r)) == names
    ensures forall i :: 0 <= i < |names| ==> GetDefaultClaims(r)[i].key == i
  {
    f.(defaultClaims := Listed(names))
  }

  function GetDefaultClaims(f: Factory): seq<Slot>
  {
    f.defaultClaims
  }

  /** The RefreshFlow trait's setter. */
  function SetRefreshFlow(f: Factory, flow: bool): Factory
  {
    f.(refreshFlow := flow)
  }

  /** The CustomClaims trait's setter. */
  function SetCustomClaims(f: Factory, custom: Entries<Value>): Factory
  {
    f.(customClaims := custom)
  }

  /** With the constructor's ttl of 60 nothing is dropped: a fresh factory's
      first make holds iss, iat, exp and nbf from the claim factory, and a jti. */
  lemma NewFactoryBuildsDefaults(svc: Services, at: Moment)
    ensures DefaultNames(New()) == {"iss", "iat", "exp", "nbf"}
    ensures Keys(BuildClaims(New(), svc, at).claims) == DefaultNames(New()) + {JTI}
    ensures forall k :: k in DefaultNames(New()) ==>
              Lookup(BuildClaims(New(), svc, at).claims, k) == Some(Built(svc.makeClaim(k, at.now)))
  {
    NewDefaultNames();
    BuildFromEmpty(New(), svc, at);
  }

  /** A build over an empty collection with no custom claims holds exactly the
      default names, each with the claim made at the build's time, and a `jti`. */
  lemma BuildFromEmpty(f: Factory, svc: Services, at: Moment)
    requires f.claims == [] && f.customClaims == []
    ensures Keys(BuildClaims(f, svc, at).claims) == DefaultNames(f) + {JTI}
    ensures forall k :: k in DefaultNames(f) ==> Lookup(BuildClaims(f, svc, at).claims, k) == Some(Built(svc.makeClaim(k, at.now)))
  {
    assert Keys(f.claims) == {} && Keys(f.customClaims) == {};
  }

  /** The standard list, with the standard ttl, keeps all four names. */
  lemma NewDefaultNames()
    ensures DefaultNames(New()) == {"iss", "iat", "exp", "nbf"}
  {
    var slots := New().defaultClaims;
    assert slots == [Slot(0, "iss"), Slot(1, "iat"), Slot(2, "exp"), Slot(3, "nbf")];
    assert EffectiveDefaults(New().ttl, slots) == slots;
    var names := SlotNames(slots);
    assert names == ["iss", "iat", "exp", "nbf"];
    assert forall n :: n in names <==> n == "iss" || n == "iat" || n == "exp" || n == "nbf";
  }

  /** With a null ttl the standard list loses its `exp` (key 2); the remaining
      entries keep their keys, so the array now has a gap. */
  lemma DefaultListWithoutTtl()
    ensures EffectiveDefaults(None, New().defaultClaims) == [Slot(0, "iss"), Slot(1, "iat"), Slot(3, "nbf")]
  {
    var slots := New().defaultClaims;
    assert FirstAt(slots, EXP, 2);
  }

  /** With a null ttl and a single `exp` under a non-zero key, buildClaims adds
      no `exp` of its own, and every other default name is still added. */
  lemma ExpNotAddedWithoutTtl(f: Factory, svc: Services, at: Moment, i: nat)
    requires f.ttl.None?
    requires i < |f.defaultClaims| && f.defaultClaims[i].name == EXP && f.defaultClaims[i].key != 0
    requires forall k :: 0 <= k < |f.defaultClaims| && k != i ==> f.defaultClaims[k].name != EXP
    requires EXP !in Keys(f.claims) && EXP !in Keys(f.customClaims)
    ensures EXP !in Keys(BuildClaims(f, svc, at).claims)
    ensures forall n :: n in SlotNames(f.defaultClaims) && n != EXP ==>
              n in Keys(BuildClaims(f, svc, at).claims)
  {
    ExpDropped(f.ttl, f.defaultClaims, i);
  }

  /** The default names left after a single non-zero-keyed `exp` is dropped:
      every name but `exp`. */
  lemma ExpDropped(ttl: Option<int>, slots: seq<Slot>, i: nat)
    requires ttl.None?
    requires i < |slots| && slots[i].name == EXP && slots[i].key != 0
    requires forall k :: 0 <= k < |slots| && k != i ==> slots[k].name != EXP
    ensures forall n :: n in SlotNames(EffectiveDefaults(ttl, slots)) <==> n in SlotNames(slots) && n != EXP
  {
    assert FirstAt(slots, EXP, i);
    assert EffectiveDefaults(ttl, slots) == slots[..i] + slots[i + 1..];
    DropSlotNames(slots, i);
  }

  /** Removing the only slot with a given name removes that name and keeps every other. */
  lemma DropSlotNames(slots: seq<Slot>, i: nat)
    requires i < |slots|
    requires forall k :: 0 <= k < |slots| && k != i ==> slots[k].name != slots[i].name
    ensures forall n :: n in SlotNames(slots[..i] + slots[i + 1..]) <==> n in SlotNames(slots) && n != slots[i].name
  {
    var kept := slots[..i] + slots[i + 1..];
    forall n | n in SlotNames(kept)
      ensures n in SlotNames(slots) && n != slots[i].name
    {
      var j :| 0 <= j < |kept| && kept[j].name == n;
      assert kept[j] == slots[if j < i then j else j + 1];
    }
    forall n | n in SlotNames(slots) && n != slots[i].name
      ensures n in SlotNames(kept)
    {
      var k :| 0 <= k < |slots| && slots[k].name == n;
      if k < i {
        assert kept[k] == slots[k];
      } else {
        assert kept[k - 1] == slots[k];
      }
    }
  }

  /** array_search returns key 0 for an `exp` listed first, which PHP reads as
      false: that `exp` is not dropped, and buildClaims adds it even with a null ttl. */
  lemma ExpAtKeyZeroKept(f: Factory, svc: Services, at: Moment)
    requires f.ttl.None?
    requires |f.defaultClaims| > 0 && f.defaultClaims[0] == Slot(0, EXP)
    ensures EffectiveDefaults(f.ttl, f.defaultClaims) == f.defaultClaims
    ensures Lookup(BuildClaims(f, svc, at).claims, EXP).Some?
  {
    assert FirstAt(f.defaultClaims, EXP, 0);
    assert SlotNames(f.defaultClaims)[0] == EXP;
    assert EXP in DefaultNames(f);
  }

  /** The defaults a build makes itself, the names the custom claims leave
      open, come out the same at time `now1` as at time `now2`. */
  ghost predicate SameDefaults(f: Factory, svc: Services, now1: int, now2: int)
  {
    forall k :: k in DefaultNames(f) && k !in Keys(f.customClaims) ==> svc.makeClaim(k, now1) == svc.makeClaim(k, now2)
  }

  /** Building a second time over a built collection, with the same custom
      claims and perhaps at a later time: a name keeps its value unless it is a
      default the custom claims leave open, and such a name gets the claim made
      at the second build's time. */
  lemma RebuildKeepsClaim(f: Factory, svc: Services, at1: Moment, at2: Moment, k: string)
    ensures var once := BuildClaims(f, svc, at1);
            Lookup(BuildClaims(once, svc, at2).claims, k) ==
              if k in DefaultNames(once) && k !in Keys(f.customClaims) then Some(Built(svc.makeClaim(k, at2.now)))
              else Lookup(once.claims, k)
  {
    DefaultNamesShrink(f, svc, at1);
    var once := BuildClaims(f, svc, at1);
    var twice := BuildClaims(once, svc, at2);
    if k in Keys(once.claims) {
      assert Lookup(twice.claims, k) == Layered(once, svc, at2.now, k);
      if k in Keys(f.customClaims) {
        assert Lookup(once.claims, k) == Layered(f, svc, at1.now, k);
      }
    } else {
      assert k != JTI;
    }
  }

  /** Hence a second build changes nothing in the collection when the defaults
      it makes itself come out as they did the first time: when the clock has
      not moved, or when the custom claims cover every default. */
  lemma RebuildKeepsClaims(f: Factory, svc: Services, at1: Moment, at2: Moment)
    requires Unique(f.claims)
    ensures SameDefaults(f, svc, at1.now, at2.now) ==>
              BuildClaims(BuildClaims(f, svc, at1), svc, at2).claims == BuildClaims(f, svc, at1).claims
  {
    if SameDefaults(f, svc, at1.now, at2.now) {
      var once := BuildClaims(f, svc, at1);
      var twice := BuildClaims(once, svc, at2);
      RebuildKeepsNames(f, svc, at1, at2);
      RebuildKeepsEvery(f, svc, at1, at2);
      SameEntries(once.claims, twice.claims);
    }
  }

  /** Every name of the collection is untouched by the second build when the
      defaults come out as they did. */
  lemma RebuildKeepsEvery(f: Factory, svc: Services, at1: Moment, at2: Moment)
    requires SameDefaults(f, svc, at1.now, at2.now)
    ensures forall k :: Lookup(BuildClaims(BuildClaims(f, svc, at1), svc, at2).claims, k) == Lookup(BuildClaims(f, svc, at1).claims, k)
  {
    forall k
      ensures Lookup(BuildClaims(BuildClaims(f, svc, at1), svc, at2).claims, k) == Lookup(BuildClaims(f, svc, at1).claims, k)
    {
      RebuildKeepsDefault(f, svc, at1, at2, k);
    }
  }

  /** One name of the collection is untouched by the second build when the
      defaults come out as they did. */
  lemma RebuildKeepsDefault(f: Factory, svc: Services, at1: Moment, at2: Moment, k: string)
    ensures SameDefaults(f, svc, at1.now, at2.now) ==>
              Lookup(BuildClaims(BuildClaims(f, svc, at1), svc, at2).claims, k) == Lookup(BuildClaims(f, svc, at1).claims, k)
  {
    var once := BuildClaims(f, svc, at1);
    RebuildKeepsClaim(f, svc, at1, at2, k);
    DefaultNamesShrink(f, svc, at1);
    if k in DefaultNames(once) && k !in Keys(f.customClaims) {
      assert Lookup(once.claims, k) == Layered(f, svc, at1.now, k);
    }
  }

  /** A second build adds no name and moves none. */
  lemma RebuildKeepsNames(f: Factory, svc: Services, at1: Moment, at2: Moment)
    ensures Names(BuildClaims(BuildClaims(f, svc, at1), svc, at2).claims) == Names(BuildClaims(f, svc, at1).claims)
  {
    var once := BuildClaims(f, svc, at1);
    DefaultNamesShrink(f, svc, at1);
    assert DefaultNames(once) + Keys(once.customClaims) + {JTI} <= Keys(once.claims);
  }

  /** The default names a built factory will use are among those it used. */
  lemma DefaultNamesShrink(f: Factory, svc: Services, at: Moment)
    ensures DefaultNames(BuildClaims(f, svc, at)) <= DefaultNames(f)
  {
    var once := BuildClaims(f, svc, at);
    forall n | n in DefaultNames(once)
      ensures n in DefaultNames(f)
    {
      assert n in SlotNames(EffectiveDefaults(once.ttl, once.defaultClaims));
      assert n in SlotNames(once.defaultClaims);
    }
  }
}
