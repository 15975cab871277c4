/** Claim values, claim objects and payloads.

    A value in the claim collection under construction is either a raw scalar
    (as a caller or a decoded token supplies it) or a claim object the claim
    factory already produced; `Payload` holds the resolved claim objects by
    name, in collection order. */
module Claims {
  import opened Wrappers
  import opened Entries

  /** The unique token identifier claim, the only name src/Claims/JwtId.php fixes. */
  const JTI: string := "jti"
  const EXP: string := "exp"
  const SUB: string := "sub"
  const IAT: string := "iat"

  /** A scalar claim value as it appears in a token. */
  datatype RawValue = Text(text: string) | Number(number: int) | Flag(flag: bool) | Null

  /** A claim object: its name and its value. */
  datatype Claim = Claim(name: string, content: RawValue)

  /** A value in the claim collection: still raw, or already a claim object. */
  datatype Value = Plain(raw: RawValue) | Built(claim: Claim)

  /** A validated payload: claim objects by name. */
  datatype Payload = Payload(claims: Entries<Claim>)

  /** Payload::get(): the plain name-to-value array the provider signs. */
  function Get(p: Payload): (r: Entries<RawValue>)
    ensures Keys(r) == Keys(p.claims)
    ensures forall k :: k in Keys(p.claims) ==> Latest(r, k) == Some(Latest(p.claims, k).value.content)
  {
    MapValuesLookup(p.claims, (k: string, c: Claim) => c.content);
    MapValues(p.claims, (k: string, c: Claim) => c.content)
  }

  /** `$payload[name]`: the value of the named claim, or null when it is absent. */
  function ClaimValue(p: Payload, name: string): RawValue
  {
    match Lookup(p.claims, name)
    case Some(c) => c.content
    case None => Null
  }

  /** A decoded token's claims, all still raw, as custom claims. */
  function AsPlain(raw: Entries<RawValue>): (r: Entries<Value>)
    ensures Keys(r) == Keys(raw)
    ensures forall k :: k in Keys(raw) ==> Latest(r, k) == Some(Plain(Latest(raw, k).value))
  {
    MapValuesLookup(raw, (k: string, x: RawValue) => Plain(x));
    MapValues(raw, (k: string, x: RawValue) => Plain(x))
  }
}
