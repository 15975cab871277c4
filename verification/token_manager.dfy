/** The token manager of src/Manager.php: encode, decode, refresh and
    invalidate, orchestrated over the JWT provider, the payload factory and the
    blacklist.

    Every operation takes the manager's state and returns the state afterwards
    together with a result or an error. The state matters on the error path
    too: in the source an exception leaves the objects as far as they got, so
    a failed `refresh` has still switched the refresh flow on, and a payload
    the blacklist rejects has still been built into the factory's collection. */
module TokenManager {
  import opened Wrappers
  import opened Entries
  import opened Claims
  import PayloadFactory
  import opened BlacklistStore

  datatype Token = Token(value: string)

  datatype Error =
    | ProviderFailed(reason: string)   // the JWT provider could not sign or read the token
    | InvalidPayload(reason: string)   // the payload validator rejected the claims
    | TokenBlacklisted                 // TokenBlacklistedException
    | BlacklistDisabled                // JWTException from invalidate

  /** The JWT provider: signing and verification are its business. */
  datatype Provider = Provider(
    encode: Entries<RawValue> -> Result<string, string>,
    decode: string -> Result<Entries<RawValue>, string>)

  datatype Services = Services(
    provider: Provider,
    claims: PayloadFactory.Services,
    identity: Payload -> Id)   // the key the blacklist files a payload under

  datatype Manager = Manager(
    blacklistEnabled: bool,
    persistentClaims: seq<string>,
    customClaims: Entries<Value>,
    refreshFlow: bool,
    blacklist: Blacklist,
    factory: PayloadFactory.Factory)

  /** The state after an operation, and its result or error. */
  datatype Step<T> = Step(state: Manager, result: Result<T, Error>)

  type Moment = PayloadFactory.Moment

  /** When the three payloads a refresh builds are made, each with its own
      clock reading and at: the decode of the old token, the decode inside
      invalidate, and the new payload. */
  datatype Moments = Moments(decode: Moment, invalidate: Moment, issue: Moment)

  /** The manager as its constructor leaves it: the blacklist on, no
      persistent and no custom claims, the refresh flow off. */
  function New(blacklist: Blacklist, factory: PayloadFactory.Factory): (r: Manager)
    ensures r.blacklistEnabled && r.persistentClaims == [] && r.customClaims == [] && !r.refreshFlow
    ensures r.blacklist == blacklist && r.factory == factory
  {
    Manager(true, [], [], false, blacklist, factory)
  }

  function SetBlacklistEnabled(m: Manager, enabled: bool): (r: Manager)
    ensures r.blacklistEnabled == enabled
    ensures r.(blacklistEnabled := m.blacklistEnabled) == m
  {
    m.(blacklistEnabled := enabled)
  }

  /** The RefreshFlow trait's setter, on the manager. */
  function SetRefreshFlow(m: Manager, flow: bool): Manager
  {
    m.(refreshFlow := flow)
  }

  function SetPersistentClaims(m: Manager, names: seq<string>): (r: Manager)
    ensures r.persistentClaims == names
    ensures r.(persistentClaims := m.persistentClaims) == m
  {
    m.(persistentClaims := names)
  }

  /** The CustomClaims trait's setter, on the manager. */
  function SetCustomClaims(m: Manager, custom: Entries<Value>): (r: Manager)
    ensures r.customClaims == custom
    ensures r.(customClaims := m.customClaims) == m
  {
    m.(customClaims := custom)
  }

  /** encode: the token string is the provider's signature over the payload's
      plain claim array; a provider failure is passed on. */
  function Encode(svc: Services, p: Payload): (r: Result<Token, Error>)
    ensures r.Success? <==> svc.provider.encode(Get(p)).Success?
    ensures r.Success? ==> r.value.value == svc.provider.encode(Get(p)).value
    ensures r.Failure? ==> r.error == ProviderFailed(svc.provider.encode(Get(p)).error)
  {
    match svc.provider.encode(Get(p))
    case Success(s) => Success(Token(s))
    case Failure(why) => Failure(ProviderFailed(why))
  }

  /** The first half of decode: the provider reads the token, and its claims go
      to the factory as custom claims for a make() in the manager's
      refresh-flow mode. The blacklist is neither read nor changed. */
  function ReadToken(m: Manager, svc: Services, t: Token, at: Moment): (r: Step<Payload>)
    ensures svc.provider.decode(t.value).Failure? ==>
              r == Step(m, Failure(ProviderFailed(svc.provider.decode(t.value).error)))
    ensures r.state == m.(factory := r.state.factory)
    ensures r.result.Failure? ==> r.result.error.ProviderFailed? || r.result.error.InvalidPayload?
    ensures r.result.Success? ==>
              && svc.provider.decode(t.value).Success?
              && svc.claims.check(r.result.value.claims, m.refreshFlow, at.now).None?
    ensures r.result.Success? ==>
              var raw := svc.provider.decode(t.value).value;
              forall k :: k in Keys(raw) ==>
                Lookup(r.result.value.claims, k) == Some(svc.claims.getClaim(k, Latest(raw, k).value))
    ensures r.result.Success? ==> r.result.value.claims == PayloadFactory.ResolveClaims(r.state.factory.claims, svc.claims)
    ensures r.result.Success? ==> Names(r.result.value.claims) == Names(r.state.factory.claims)
    ensures r.result.Success? ==> JTI in Keys(r.result.value.claims)
    ensures svc.provider.decode(t.value).Success? ==>
              forall k :: k in Keys(m.factory.claims) && k !in Keys(svc.provider.decode(t.value).value)
                          && k !in PayloadFactory.DefaultNames(m.factory) ==>
                Lookup(r.state.factory.claims, k) == Lookup(m.factory.claims, k)
    ensures svc.provider.decode(t.value).Success? ==>
              var raw := svc.provider.decode(t.value).value;
              Keys(r.state.factory.claims) == Keys(m.factory.claims) + PayloadFactory.DefaultNames(m.factory) + Keys(raw) + {JTI}
    ensures svc.provider.decode(t.value).Success? ==>
              var raw := svc.provider.decode(t.value).value;
              forall k :: k in Keys(raw) ==> Lookup(r.state.factory.claims, k) == Some(Plain(Latest(raw, k).value))
    ensures Names(m.factory.claims) <= Names(r.state.factory.claims)
    ensures Unique(m.factory.claims) ==> Unique(r.state.factory.claims)
    ensures forall n :: n in PayloadFactory.SlotNames(r.state.factory.defaultClaims) ==>
              n in PayloadFactory.SlotNames(m.factory.defaultClaims)
  {
    match svc.provider.decode(t.value)
    case Failure(why) => Step(m, Failure(ProviderFailed(why)))
    case Success(raw) =>
      var f := PayloadFactory.SetCustomClaims(PayloadFactory.SetRefreshFlow(m.factory, m.refreshFlow), AsPlain(raw));
      var made := PayloadFactory.Make(f, svc.claims, at);
      Step(m.(factory := made.factory), made.payload.MapFailure((why: string) => InvalidPayload(why)))
  }

  /** decode: the token is read first, and only a token that reads and
      validates is looked up in the blacklist, so a provider or validation
      failure is what the caller sees even for a blacklisted token. It is
      rejected as blacklisted exactly when the check is asked for, the
      blacklist is enabled and it holds the payload. */
  function Decode(m: Manager, svc: Services, t: Token, checkBlacklist: bool, at: Moment): (r: Step<Payload>)
    ensures r.state == ReadToken(m, svc, t, at).state
    ensures r.result == Failure(TokenBlacklisted) <==>
              var read := ReadToken(m, svc, t, at).result;
              read.Success? && checkBlacklist && m.blacklistEnabled && Has(m.blacklist, svc.identity(read.value))
    ensures r.result != Failure(TokenBlacklisted) ==> r.result == ReadToken(m, svc, t, at).result
    ensures svc.provider.decode(t.value).Failure? ==>
              r == Step(m, Failure(ProviderFailed(svc.provider.decode(t.value).error)))
  {
    var read := ReadToken(m, svc, t, at);
    if read.result.Success? && checkBlacklist && m.blacklistEnabled && Has(m.blacklist, svc.identity(read.result.value)) then
      Step(read.state, Failure(TokenBlacklisted))
    else read
  }

  /** invalidate: refused, with nothing changed, while the blacklist is
      disabled; otherwise the token is decoded without the blacklist check and
      its payload listed, for good when `forceForever` is set. */
  function Invalidate(m: Manager, svc: Services, t: Token, forceForever: bool, at: Moment): (r: Step<bool>)
    ensures !m.blacklistEnabled ==> r == Step(m, Failure(BlacklistDisabled))
    ensures r.result.Failure? ==> r.result.error != TokenBlacklisted && r.state.blacklist == m.blacklist
    ensures m.blacklistEnabled && r.result.Failure? ==> ReadToken(m, svc, t, at).result == Failure(r.result.error)
    ensures m.blacklistEnabled ==> r.state == ReadToken(m, svc, t, at).state.(blacklist := r.state.blacklist)
    ensures r.result.Success? ==>
              && m.blacklistEnabled
              && ReadToken(m, svc, t, at).result.Success?
              && var id := svc.identity(ReadToken(m, svc, t, at).result.value);
              && Has(r.state.blacklist, id)
              && r.state.blacklist.entries[id] == (if forceForever then Forever else Timed)
              && forall other :: other != id ==> (Has(r.state.blacklist, other) <==> Has(m.blacklist, other))
  {
    if !m.blacklistEnabled then Step(m, Failure(BlacklistDisabled))
    else
      var d := Decode(m, svc, t, false, at);
      match d.result
      case Failure(e) => Step(d.state, Failure(e))
      case Success(p) =>
        var id := svc.identity(p);
        Step(d.state.(blacklist := if forceForever then AddForever(m.blacklist, id) else Add(m.blacklist, id)), Success(true))
  }

  /** buildRefreshClaims: the manager's custom claims, then those of the old
      payload's claims that are named persistent, then the old `sub` and `iat`
      on top of everything. */
  function BuildRefreshClaims(m: Manager, p: Payload): (r: Entries<Value>)
    ensures Keys(r) == Keys(m.customClaims) + (set k | k in Keys(p.claims) && k in m.persistentClaims) + {SUB, IAT}
    ensures Lookup(r, SUB) == Some(Plain(ClaimValue(p, SUB)))
    ensures Lookup(r, IAT) == Some(Plain(ClaimValue(p, IAT)))
    ensures forall k :: k != SUB && k != IAT && k in m.persistentClaims && k in Keys(p.claims) ==>
              Lookup(r, k) == Some(Plain(Latest(p.claims, k).value.content))
    ensures forall k :: k != SUB && k != IAT && !(k in m.persistentClaims && k in Keys(p.claims)) ==>
              Lookup(r, k) == Latest(m.customClaims, k)
    ensures Unique(r)
  {
    var subIat := SubIat(p);
    LatestIsLookup(subIat, SUB);
    LatestIsLookup(subIat, IAT);
    PutAll(CarriedClaims(m, p), subIat)
  }

  /** The custom claims with the persistent claims of `p` put over them. */
  function CarriedClaims(m: Manager, p: Payload): (r: Entries<Value>)
    ensures Keys(r) == Keys(m.customClaims) + (set k | k in Keys(p.claims) && k in m.persistentClaims)
    ensures forall k :: k in m.persistentClaims && k in Keys(p.claims) ==>
              Lookup(r, k) == Some(Plain(Latest(p.claims, k).value.content))
    ensures forall k :: !(k in m.persistentClaims && k in Keys(p.claims)) ==> Lookup(r, k) == Latest(m.customClaims, k)
    ensures Unique(r)
  {
    var custom := PutAll([], m.customClaims);
    var persistent := AsPlain(Only(Get(p), m.persistentClaims));
    forall k | k in Keys(persistent)
      ensures Latest(persistent, k) == Some(Plain(Latest(p.claims, k).value.content))
    {
      OnlyLatest(Get(p), m.persistentClaims, k);
    }
    assert Unique(custom);
    PutAll(custom, persistent)
  }

  /** The old payload's `sub` and `iat`, as plain values to be put last. */
  function SubIat(p: Payload): (r: Entries<Value>)
    ensures Keys(r) == {SUB, IAT} && Unique(r)
    ensures Lookup(r, SUB) == Some(Plain(ClaimValue(p, SUB)))
    ensures Lookup(r, IAT) == Some(Plain(ClaimValue(p, IAT)))
  {
    var r := [(SUB, Plain(ClaimValue(p, SUB))), (IAT, Plain(ClaimValue(p, IAT)))];
    assert r[1..] == [r[1]];
    assert Names(r[1..]) == [IAT] + Names(r[2..]);
    assert Names(r) == [SUB, IAT];
    assert r[1..][1..] == [];
    assert Keys(r[1..]) == {IAT} && SUB != IAT;
    assert Unique(r[1..][1..]);
    assert Unique(r[1..]);
    r
  }

  /** The old token's invalidation inside refresh: only with the blacklist enabled. */
  function RevokeForRefresh(m: Manager, svc: Services, t: Token, forceForever: bool, at: Moment): (r: Step<bool>)
    ensures !m.blacklistEnabled ==> r == Step(m, Success(true))
    ensures m.blacklistEnabled ==> r == Invalidate(m, svc, t, forceForever, at)
  {
    if m.blacklistEnabled then Invalidate(m, svc, t, forceForever, at) else Step(m, Success(true))
  }

  /** The last part of refresh: the collected claims go to the factory as
      custom claims and a new payload is made from them. */
  function Reissue(m: Manager, svc: Services, claims: Entries<Value>, at: Moment): (r: Step<Payload>)
    ensures r.state == m.(factory := r.state.factory)
    ensures r.result.Failure? ==> r.result.error.InvalidPayload?
    ensures r.result.Success? ==>
              forall k :: k in Keys(claims) ==>
                Lookup(r.result.value.claims, k) == Some(PayloadFactory.Resolve(svc.claims, k, Latest(claims, k).value))
    ensures r.result.Success? ==> r.result.value.claims == PayloadFactory.ResolveClaims(r.state.factory.claims, svc.claims)
    ensures forall k :: k in Keys(m.factory.claims) && k !in Keys(claims) && k !in PayloadFactory.DefaultNames(m.factory) ==>
              Lookup(r.state.factory.claims, k) == Lookup(m.factory.claims, k)
    ensures Keys(r.state.factory.claims) == Keys(m.factory.claims) + PayloadFactory.DefaultNames(m.factory) + Keys(claims) + {JTI}
    ensures forall k :: k in Keys(claims) ==> Lookup(r.state.factory.claims, k) == Latest(claims, k)
    ensures Names(m.factory.claims) <= Names(r.state.factory.claims)
    ensures Unique(m.factory.claims) ==> Unique(r.state.factory.claims)
    ensures forall n :: n in PayloadFactory.SlotNames(r.state.factory.defaultClaims) ==>
              n in PayloadFactory.SlotNames(m.factory.defaultClaims)
  {
    var made := PayloadFactory.Make(PayloadFactory.SetCustomClaims(m.factory, claims), svc.claims, at);
    Step(m.(factory := made.factory), made.payload.MapFailure((why: string) => InvalidPayload(why)))
  }

  /** The payload refresh encodes. The refresh flow is switched on first and
      stays on. The old token is decoded with the blacklist check, its
      successor's claims are collected, and, with the blacklist enabled, the old
      token is invalidated before the new payload is made. */
  function RefreshedPayload(m: Manager, svc: Services, t: Token, forceForever: bool, at: Moments): (r: Step<Payload>)
    ensures r.state.refreshFlow
    ensures r.state.blacklistEnabled == m.blacklistEnabled
    ensures r.state.persistentClaims == m.persistentClaims && r.state.customClaims == m.customClaims
    ensures !m.blacklistEnabled ==> r.state.blacklist == m.blacklist
    ensures r.result.Failure? ==> r.result.error != BlacklistDisabled
    ensures !m.blacklistEnabled ==> r.result != Failure(TokenBlacklisted)
    ensures Decode(SetRefreshFlow(m, true), svc, t, true, at.decode).result.Failure? ==>
              r == Decode(SetRefreshFlow(m, true), svc, t, true, at.decode)
    ensures r.result.Success? ==> Decode(SetRefreshFlow(m, true), svc, t, true, at.decode).result.Success?
  {
    var d := Decode(SetRefreshFlow(m, true), svc, t, true, at.decode);
    match d.result
    case Failure(e) => d
    case Success(prior) => RevokeAndReissue(d.state, svc, t, prior, forceForever, at)
  }

  /** The part of refresh after the old token has decoded: its successor's
      claims are collected from `prior`, the old token is invalidated when the
      blacklist is enabled, and a new payload is made. Only a read or a
      validation can fail here. */
  function RevokeAndReissue(m: Manager, svc: Services, t: Token, prior: Payload, forceForever: bool, at: Moments): (r: Step<Payload>)
    ensures r.state.refreshFlow == m.refreshFlow && r.state.blacklistEnabled == m.blacklistEnabled
    ensures r.state.persistentClaims == m.persistentClaims && r.state.customClaims == m.customClaims
    ensures !m.blacklistEnabled ==> r.state.blacklist == m.blacklist
    ensures r.result.Failure? ==> r.result.error.ProviderFailed? || r.result.error.InvalidPayload?
  {
    var claims := BuildRefreshClaims(m, prior);
    var inv := RevokeForRefresh(m, svc, t, forceForever, at.invalidate);
    match inv.result
    case Failure(e) => Step(inv.state, Failure(e))
    case Success(_) => Reissue(inv.state, svc, claims, at.issue)
  }

  /** refresh: the refreshed payload, encoded. */
  function Refresh(m: Manager, svc: Services, t: Token, forceForever: bool, at: Moments): (r: Step<Token>)
    ensures r.state == RefreshedPayload(m, svc, t, forceForever, at).state
    ensures r.state.refreshFlow
    ensures !m.blacklistEnabled ==> r.state.blacklist == m.blacklist
    ensures !m.blacklistEnabled ==> r.result != Failure(TokenBlacklisted) && r.result != Failure(BlacklistDisabled)
    ensures Decode(SetRefreshFlow(m, true), svc, t, true, at.decode).result.Failure? ==>
              r.result == Failure(Decode(SetRefreshFlow(m, true), svc, t, true, at.decode).result.error)
    ensures r.result.Success? <==>
              var p := RefreshedPayload(m, svc, t, forceForever, at).result;
              p.Success? && svc.provider.encode(Get(p.value)).Success?
    ensures r.result.Success? ==>
              r.result.value.value == svc.provider.encode(Get(RefreshedPayload(m, svc, t, forceForever, at).result.value)).value
  {
    var s := RefreshedPayload(m, svc, t, forceForever, at);
    match s.result
    case Failure(e) => Step(s.state, Failure(e))
    case Success(p) => Step(s.state, Encode(svc, p))
  }

  /** The token reads, and every default of the factory that the token does
      not carry itself comes out of the claim factory the same at `now1` as at
      `now2`. This holds when the clock has not moved, and whatever the clock
      does when the token carries every default name. */
  ghost predicate StableDefaults(m: Manager, svc: Services, t: Token, now1: int, now2: int)
  {
    && svc.provider.decode(t.value).Success?
    && forall k :: k in PayloadFactory.DefaultNames(m.factory) && k !in Keys(svc.provider.decode(t.value).value) ==>
         svc.claims.makeClaim(k, now1) == svc.claims.makeClaim(k, now2)
  }

  /** What reading the same token a second time, perhaps later, does to one
      name of the factory's collection: a default the token does not carry
      gets the claim made at the second read's time, every other name keeps
      the value the first read left. */
  lemma ReadAgainKeepsClaim(m: Manager, svc: Services, t: Token, at1: Moment, at2: Moment, k: string)
    ensures var first := ReadToken(m, svc, t, at1).state;
            var second := ReadToken(first, svc, t, at2).state;
            svc.provider.decode(t.value).Success? ==>
              Lookup(second.factory.claims, k) ==
                if k in PayloadFactory.DefaultNames(first.factory) && k !in Keys(svc.provider.decode(t.value).value)
                then Some(Built(svc.claims.makeClaim(k, at2.now)))
                else Lookup(first.factory.claims, k)
  {
    if svc.provider.decode(t.value).Success? {
      var raw := svc.provider.decode(t.value).value;
      var f1 := PayloadFactory.SetCustomClaims(PayloadFactory.SetRefreshFlow(m.factory, m.refreshFlow), AsPlain(raw));
      var once := PayloadFactory.BuildClaims(f1, svc.claims, at1);
      assert ReadToken(m, svc, t, at1).state.factory == once;
      assert PayloadFactory.SetCustomClaims(PayloadFactory.SetRefreshFlow(once, m.refreshFlow), AsPlain(raw)) == once;
      PayloadFactory.RebuildKeepsClaim(f1, svc.claims, at1, at2, k);
    }
  }

  /** Reading the same token a second time, when the defaults come out as they
      did, leaves the factory's collection as the first read left it, and gives
      the same payload unless the validator, at the later time, rejects the
      claims it accepted before. */
  lemma ReadAgainSamePayload(m: Manager, svc: Services, t: Token, at1: Moment, at2: Moment)
    requires Unique(m.factory.claims)
    ensures var first := ReadToken(m, svc, t, at1);
            var second := ReadToken(first.state, svc, t, at2);
            first.result.Success? && StableDefaults(m, svc, t, at1.now, at2.now) ==>
              var verdict := svc.claims.check(first.result.value.claims, m.refreshFlow, at2.now);
              && second.state.factory.claims == first.state.factory.claims
              && second.result == if verdict.None? then first.result else Failure(InvalidPayload(verdict.value))
  {
    var first := ReadToken(m, svc, t, at1);
    if first.result.Success? && StableDefaults(m, svc, t, at1.now, at2.now) {
      ReadAgainSameCollection(m, svc, t, at1, at2);
      var raw := svc.provider.decode(t.value).value;
      var f2 := PayloadFactory.SetCustomClaims(PayloadFactory.SetRefreshFlow(first.state.factory, m.refreshFlow), AsPlain(raw));
      var made := PayloadFactory.Make(f2, svc.claims, at2);
      assert made.factory.claims == first.state.factory.claims;
      assert first.result.value.claims == PayloadFactory.ResolveClaims(made.factory.claims, svc.claims);
    }
  }

  /** The collection half of ReadAgainSamePayload. */
  lemma ReadAgainSameCollection(m: Manager, svc: Services, t: Token, at1: Moment, at2: Moment)
    requires Unique(m.factory.claims)
    ensures var first := ReadToken(m, svc, t, at1);
            StableDefaults(m, svc, t, at1.now, at2.now) ==>
              ReadToken(first.state, svc, t, at2).state.factory.claims == first.state.factory.claims
  {
    if StableDefaults(m, svc, t, at1.now, at2.now) {
      var raw := svc.provider.decode(t.value).value;
      var f1 := PayloadFactory.SetCustomClaims(PayloadFactory.SetRefreshFlow(m.factory, m.refreshFlow), AsPlain(raw));
      var once := PayloadFactory.BuildClaims(f1, svc.claims, at1);
      assert ReadToken(m, svc, t, at1).state.factory == once;
      assert PayloadFactory.SetCustomClaims(PayloadFactory.SetRefreshFlow(once, m.refreshFlow), AsPlain(raw)) == once;
      assert PayloadFactory.DefaultNames(f1) == PayloadFactory.DefaultNames(m.factory);
      assert PayloadFactory.SameDefaults(f1, svc.claims, at1.now, at2.now);
      PayloadFactory.RebuildKeepsClaims(f1, svc.claims, at1, at2);
    }
  }

  /** Once invalidate has listed a token, decoding it again with the blacklist
      check fails: as blacklisted while the validator still accepts its
      claims, with the validator's reason once it no longer does. */
  lemma InvalidateThenDecodeRejected(m: Manager, svc: Services, t: Token, forceForever: bool, at1: Moment, at2: Moment)
    requires Unique(m.factory.claims)
    ensures var inv := Invalidate(m, svc, t, forceForever, at1);
            inv.result.Success? && StableDefaults(m, svc, t, at1.now, at2.now) ==>
              var verdict := svc.claims.check(ReadToken(m, svc, t, at1).result.value.claims, m.refreshFlow, at2.now);
              Decode(inv.state, svc, t, true, at2).result ==
                if verdict.None? then Failure(TokenBlacklisted) else Failure(InvalidPayload(verdict.value))
  {
    var inv := Invalidate(m, svc, t, forceForever, at1);
    if inv.result.Success? && StableDefaults(m, svc, t, at1.now, at2.now) {
      var first := ReadToken(m, svc, t, at1);
      ReadAgainSamePayload(m, svc, t, at1, at2);
      var again := ReadToken(inv.state, svc, t, at2);
      var same := ReadToken(first.state, svc, t, at2);
      assert inv.state == first.state.(blacklist := inv.state.blacklist);
      assert again.result == same.result;
    }
  }

  /** The blacklist files a payload under its `jti` claim alone. */
  ghost predicate KeyedByJti(svc: Services)
  {
    forall p: Payload, q: Payload :: Lookup(p.claims, JTI) == Lookup(q.claims, JTI) ==> svc.identity(p) == svc.identity(q)
  }

  /** A token whose signed claims the provider gives back unchanged is read
      back with every claim of the encoded payload, each value rebuilt by the
      claim factory under its name. */
  lemma EncodeThenReadKeepsClaims(m: Manager, svc: Services, p: Payload, at: Moment)
    requires svc.provider.encode(Get(p)).Success?
    requires svc.provider.decode(svc.provider.encode(Get(p)).value) == Success(Get(p))
    ensures var read := ReadToken(m, svc, Encode(svc, p).value, at);
            read.result.Success? ==>
              forall k :: k in Keys(p.claims) ==>
                Lookup(read.result.value.claims, k) == Some(svc.claims.getClaim(k, Latest(p.claims, k).value.content))
  {
  }

  /** With the blacklist switched off, invalidate refuses and changes nothing. */
  lemma DisabledBlacklistRefusesInvalidate(m: Manager, svc: Services, t: Token, forceForever: bool, at: Moment)
    ensures var off := SetBlacklistEnabled(m, false);
            Invalidate(off, svc, t, forceForever, at) == Step(off, Failure(BlacklistDisabled))
  {
  }

  /** The two setters shape what a refresh carries over: the custom claims
      given, those of the old payload's claims that are named persistent, and
      `sub` and `iat`. */
  lemma SettersSelectCarryOver(m: Manager, custom: Entries<Value>, names: seq<string>, p: Payload)
    ensures Keys(BuildRefreshClaims(SetPersistentClaims(SetCustomClaims(m, custom), names), p)) ==
            Keys(custom) + (set k | k in Keys(p.claims) && k in names) + {SUB, IAT}
  {
  }

  /** Invalidate never consults the blacklist: its outcome is the same whatever
      the blacklist holds, so invalidating a listed token again succeeds. */
  lemma InvalidateIgnoresBlacklistContents(m: Manager, svc: Services, t: Token, forceForever: bool, at: Moment, other: Blacklist)
    ensures Invalidate(m.(blacklist := other), svc, t, forceForever, at).result == Invalidate(m, svc, t, forceForever, at).result
  {
    assert ReadToken(m.(blacklist := other), svc, t, at).result == ReadToken(m, svc, t, at).result;
  }

  /** A token that reads but whose payload is blacklisted cannot be refreshed
      while the blacklist is enabled: refresh fails before collecting claims. */
  lemma BlacklistedTokenNotRefreshable(m: Manager, svc: Services, t: Token, forceForever: bool, at: Moments)
    requires m.blacklistEnabled
    ensures var read := ReadToken(SetRefreshFlow(m, true), svc, t, at.decode).result;
            read.Success? && Has(m.blacklist, svc.identity(read.value)) ==>
              Refresh(m, svc, t, forceForever, at).result == Failure(TokenBlacklisted)
  {
  }

  /** The refreshed payload carries the old payload's `sub` and `iat`, whatever
      the defaults, the custom claims or the persistent claims say. */
  lemma RefreshCarriesSubAndIat(m: Manager, svc: Services, t: Token, forceForever: bool, at: Moments)
    ensures var r := RefreshedPayload(m, svc, t, forceForever, at);
            var prior := Decode(SetRefreshFlow(m, true), svc, t, true, at.decode).result;
            r.result.Success? ==>
              && Lookup(r.result.value.claims, SUB) == Some(svc.claims.getClaim(SUB, ClaimValue(prior.value, SUB)))
              && Lookup(r.result.value.claims, IAT) == Some(svc.claims.getClaim(IAT, ClaimValue(prior.value, IAT)))
  {
    var d := Decode(SetRefreshFlow(m, true), svc, t, true, at.decode);
    if d.result.Success? {
      var claims := BuildRefreshClaims(d.state, d.result.value);
      var inv := RevokeForRefresh(d.state, svc, t, forceForever, at.invalidate);
      if inv.result.Success? {
        assert RefreshedPayload(m, svc, t, forceForever, at) == Reissue(inv.state, svc, claims, at.issue);
        LatestIsLookup(claims, SUB);
        LatestIsLookup(claims, IAT);
      }
    }
  }

  /** With the blacklist enabled, once the old token has decoded, refresh
      lists the payload invalidate reads from it (for good when `forceForever`
      is set) whether or not the new payload is then made; if invalidate's read
      fails, refresh fails with its error and the blacklist is unchanged. When
      the defaults come out as they did and the validator still accepts the old
      claims at invalidate's time, the payload listed is the old payload. */
  lemma RefreshBlacklistsOldToken(m: Manager, svc: Services, t: Token, forceForever: bool, at: Moments)
    requires Unique(m.factory.claims) && m.blacklistEnabled
    ensures var r := RefreshedPayload(m, svc, t, forceForever, at);
            var d := Decode(SetRefreshFlow(m, true), svc, t, true, at.decode);
            var inner := ReadToken(d.state, svc, t, at.invalidate).result;
            d.result.Success? ==>
              if inner.Success? then
                && Has(r.state.blacklist, svc.identity(inner.value))
                && r.state.blacklist.entries[svc.identity(inner.value)] == (if forceForever then Forever else Timed)
              else
                r.result == Failure(inner.error) && r.state.blacklist == m.blacklist
    ensures var r := RefreshedPayload(m, svc, t, forceForever, at);
            var d := Decode(SetRefreshFlow(m, true), svc, t, true, at.decode);
            && d.result.Success?
            && StableDefaults(m, svc, t, at.decode.now, at.invalidate.now)
            && svc.claims.check(d.result.value.claims, true, at.invalidate.now).None? ==>
              && Has(r.state.blacklist, svc.identity(d.result.value))
              && r.state.blacklist.entries[svc.identity(d.result.value)] == (if forceForever then Forever else Timed)
  {
    var m0 := SetRefreshFlow(m, true);
    var d := Decode(m0, svc, t, true, at.decode);
    if d.result.Success? {
      var claims := BuildRefreshClaims(d.state, d.result.value);
      var inv := Invalidate(d.state, svc, t, forceForever, at.invalidate);
      assert RevokeForRefresh(d.state, svc, t, forceForever, at.invalidate) == inv;
      if inv.result.Success? {
        assert RefreshedPayload(m, svc, t, forceForever, at) == Reissue(inv.state, svc, claims, at.issue);
      } else {
        assert RefreshedPayload(m, svc, t, forceForever, at) == Step(inv.state, Failure(inv.result.error));
      }
      ReadAgainSamePayload(m0, svc, t, at.decode, at.invalidate);
    }
  }

  /** When the refresh succeeds, the payload invalidate listed carries the old
      payload's `jti`, whatever the clock did in between. */
  lemma RefreshListsOldJti(m: Manager, svc: Services, t: Token, forceForever: bool, at: Moments)
    requires JtiUntouched(m) && m.blacklistEnabled
    ensures var r := RefreshedPayload(m, svc, t, forceForever, at);
            var d := Decode(SetRefreshFlow(m, true), svc, t, true, at.decode);
            var inner := ReadToken(d.state, svc, t, at.invalidate).result;
            r.result.Success? ==>
              && d.result.Success?
              && inner.Success?
              && Lookup(inner.value.claims, JTI) == Lookup(d.result.value.claims, JTI)
              && Has(r.state.blacklist, svc.identity(inner.value))
  {
    var m0 := SetRefreshFlow(m, true);
    var d := Decode(m0, svc, t, true, at.decode);
    RefreshBlacklistsOldToken(m, svc, t, forceForever, at);
    if RefreshedPayload(m, svc, t, forceForever, at).result.Success? {
      var f1 := d.state.factory;
      var inner := ReadToken(d.state, svc, t, at.invalidate);
      ReadAgainKeepsClaim(m0, svc, t, at.decode, at.invalidate, JTI);
      assert JTI !in PayloadFactory.DefaultNames(f1);
      assert Lookup(inner.state.factory.claims, JTI) == Lookup(f1.claims, JTI);
    }
  }

  /** The conditions under which a refresh cannot replace the `jti`: neither
      the default list, nor the manager's custom claims, nor its persistent
      names mention it, and the factory's collection has no duplicate names. */
  predicate JtiUntouched(m: Manager)
  {
    && Unique(m.factory.claims)
    && JTI !in PayloadFactory.SlotNames(m.factory.defaultClaims)
    && JTI !in Keys(m.customClaims)
    && JTI !in m.persistentClaims
  }

  /** The factory's `jti` survives a refresh: the old token's decode leaves it in
      the collection, and neither the refreshed claims nor the defaults put a new
      one, so the new payload is made with it. */
  lemma RefreshKeepsFactoryJti(m: Manager, svc: Services, t: Token, forceForever: bool, at: Moments)
    requires JtiUntouched(m)
    ensures var r := RefreshedPayload(m, svc, t, forceForever, at);
            var first := Decode(SetRefreshFlow(m, true), svc, t, true, at.decode).state.factory;
            r.result.Success? ==>
              && JTI in Keys(first.claims)
              && Lookup(r.state.factory.claims, JTI) == Lookup(first.claims, JTI)
              && Names(first.claims) <= Names(r.state.factory.claims)
              && JTI !in PayloadFactory.SlotNames(r.state.factory.defaultClaims)
  {
    var m0 := SetRefreshFlow(m, true);
    var d := Decode(m0, svc, t, true, at.decode);
    if d.result.Success? {
      var f1 := d.state.factory;
      assert JTI in Keys(f1.claims);
      var claims := BuildRefreshClaims(d.state, d.result.value);
      assert JTI !in Keys(claims);
      var inv := RevokeForRefresh(d.state, svc, t, forceForever, at.invalidate);
      if inv.result.Success? {
        var f2 := inv.state.factory;
        if m.blacklistEnabled {
          ReadAgainKeepsClaim(m0, svc, t, at.decode, at.invalidate, JTI);
          assert JTI !in PayloadFactory.DefaultNames(f1);
        }
        assert Lookup(f2.claims, JTI) == Lookup(f1.claims, JTI);
        assert Names(f1.claims) <= Names(f2.claims);
        assert JTI !in PayloadFactory.SlotNames(f2.defaultClaims);
        assert JTI !in PayloadFactory.DefaultNames(f2);
        assert RefreshedPayload(m, svc, t, forceForever, at) == Reissue(inv.state, svc, claims, at.issue);
      }
    }
  }

  /** The refreshed payload does not get a new `jti`: it carries the old
      payload's, because the factory's collection still holds it. */
  lemma RefreshReusesJti(m: Manager, svc: Services, t: Token, forceForever: bool, at: Moments)
    requires JtiUntouched(m)
    ensures var r := RefreshedPayload(m, svc, t, forceForever, at);
            var prior := Decode(SetRefreshFlow(m, true), svc, t, true, at.decode).result;
            r.result.Success? ==> Lookup(r.result.value.claims, JTI) == Lookup(prior.value.claims, JTI)
  {
    RefreshKeepsFactoryJti(m, svc, t, forceForever, at);
  }

  /** Hence, when the blacklist files payloads by `jti`, the token a refresh
      issues is already blacklisted. */
  lemma RefreshedTokenAlreadyBlacklisted(m: Manager, svc: Services, t: Token, forceForever: bool, at: Moments)
    requires JtiUntouched(m) && m.blacklistEnabled
    ensures var r := RefreshedPayload(m, svc, t, forceForever, at);
            KeyedByJti(svc) && r.result.Success? ==> Has(r.state.blacklist, svc.identity(r.result.value))
  {
    RefreshReusesJti(m, svc, t, forceForever, at);
    RefreshListsOldJti(m, svc, t, forceForever, at);
  }

  /** After a refresh with the blacklist enabled, the old token is refused:
      when the blacklist files payloads by `jti`, decoding it with the check
      never succeeds again. */
  lemma OldTokenRejectedAfterRefresh(m: Manager, svc: Services, t: Token, forceForever: bool, at: Moments, later: Moment)
    requires JtiUntouched(m) && m.blacklistEnabled
    ensures var r := Refresh(m, svc, t, forceForever, at);
            KeyedByJti(svc) && r.result.Success? ==> Decode(r.state, svc, t, true, later).result.Failure?
  {
    var r := RefreshedPayload(m, svc, t, forceForever, at);
    if KeyedByJti(svc) && r.result.Success? {
      var d := Decode(SetRefreshFlow(m, true), svc, t, true, at.decode);
      var prior := d.result.value;
      var inner := ReadToken(d.state, svc, t, at.invalidate).result;
      RefreshListsOldJti(m, svc, t, forceForever, at);
      RefreshKeepsFactoryJti(m, svc, t, forceForever, at);
      var again := ReadToken(r.state, svc, t, later);
      if again.result.Success? {
        var raw := svc.provider.decode(t.value).value;
        var first := Decode(SetRefreshFlow(m, true), svc, t, true, at.decode).state.factory;
        PrefixKeys(first.claims, r.state.factory.claims);
        assert JTI !in PayloadFactory.DefaultNames(r.state.factory);
        if JTI !in Keys(raw) {
          assert Lookup(again.state.factory.claims, JTI) == Lookup(first.claims, JTI);
        }
        assert Lookup(again.result.value.claims, JTI) == Lookup(prior.claims, JTI);
        assert svc.identity(again.result.value) == svc.identity(inner.value);
      }
    }
  }

  /** Nothing of the old token is dropped by a refresh: decoding it put every
      one of its claims into the factory's collection, the collection is never
      cleared, so the new payload carries every name the old one had. */
  lemma RefreshKeepsEveryOldClaim(m: Manager, svc: Services, t: Token, forceForever: bool, at: Moments)
    ensures var r := RefreshedPayload(m, svc, t, forceForever, at);
            var prior := Decode(SetRefreshFlow(m, true), svc, t, true, at.decode).result;
            r.result.Success? ==> Keys(prior.value.claims) <= Keys(r.result.value.claims)
  {
    var d := Decode(SetRefreshFlow(m, true), svc, t, true, at.decode);
    if d.result.Success? {
      var prior := d.result.value;
      var claims := BuildRefreshClaims(d.state, prior);
      var inv := RevokeForRefresh(d.state, svc, t, forceForever, at.invalidate);
      if inv.result.Success? {
        var r := Reissue(inv.state, svc, claims, at.issue);
        assert RefreshedPayload(m, svc, t, forceForever, at) == r;
        if r.result.Success? {
          assert Names(prior.claims) == Names(d.state.factory.claims);
          assert Names(d.state.factory.claims) <= Names(inv.state.factory.claims);
          PrefixKeys(prior.claims, inv.state.factory.claims);
          PrefixKeys(inv.state.factory.claims, r.result.value.claims);
        }
      }
    }
  }
}
