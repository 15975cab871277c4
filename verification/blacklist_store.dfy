/** The blacklist as the manager sees it: a set of payload identities, each
    entered either for a limited time (`add`) or for good (`addForever`). Its
    storage, its key derivation and its expiry arithmetic sit behind this
    interface and are not modelled. */
module BlacklistStore {

  /** The identity under which the blacklist files a payload. */
  type Id = string

  datatype Lifetime = Timed | Forever

  datatype Blacklist = Blacklist(entries: map<Id, Lifetime>)

  /** Blacklist::has. */
  predicate Has(b: Blacklist, id: Id)
  {
    id in b.entries
  }

  /** Blacklist::add: the identity is listed (for a limited time); no other entry changes. */
  function Add(b: Blacklist, id: Id): (r: Blacklist)
    ensures Has(r, id) && r.entries[id] == Timed
    ensures forall other :: other != id ==> (Has(r, other) <==> Has(b, other))
  {
    Blacklist(b.entries[id := Timed])
  }

  /** Blacklist::addForever: the identity is listed for good; no other entry changes. */
  function AddForever(b: Blacklist, id: Id): (r: Blacklist)
    ensures Has(r, id) && r.entries[id] == Forever
    ensures forall other :: other != id ==> (Has(r, other) <==> Has(b, other))
  {
    Blacklist(b.entries[id := Forever])
  }
}
