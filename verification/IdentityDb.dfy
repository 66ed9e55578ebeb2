/** The id_mapping collection as both identity models see it
    (internal/dao/store/identity.go, identity_query.go, identity_atomic.go).

    A collection is a map from #user_id (its unique index) to the rest of the
    document.  An absent #account_id is the empty string, as in the source.
 */
module IdentityDb {
  import opened Wrappers

  datatype Mapping = Mapping(account: string, distincts: seq<string>)

  type Docs = map<int, Mapping>

  /** The unique sparse index on #account_id. */
  ghost predicate UniqueAccounts(docs: Docs) {
    forall i, j :: i in docs && j in docs && docs[i].account != "" && docs[i].account == docs[j].account ==> i == j
  }

  predicate AccountTaken(docs: Docs, account: string) {
    exists id :: id in docs && docs[id].account == account
  }

  predicate DistinctTaken(docs: Docs, distinct: string) {
    exists id :: id in docs && distinct in docs[id].distincts
  }

  /** What a lookup by account may return: any match, or nothing when there is none. */
  predicate FindsAccount(docs: Docs, account: string, found: Option<int>) {
    match found
    case Some(id) => id in docs && docs[id].account == account
    case None => !AccountTaken(docs, account)
  }

  predicate FindsDistinct(docs: Docs, distinct: string, found: Option<int>) {
    match found
    case Some(id) => id in docs && distinct in docs[id].distincts
    case None => !DistinctTaken(docs, distinct)
  }

  /** The indexes refuse an insert whose id or non-empty account is taken. */
  predicate InsertConflicts(docs: Docs, id: int, m: Mapping) {
    id in docs || (m.account != "" && AccountTaken(docs, m.account))
  }

  /** $addToSet of a distinct id on the mapping with this user id, if it is there. */
  function BindDistinct(docs: Docs, id: int, distinct: string): Docs {
    if id in docs && distinct !in docs[id].distincts
    then docs[id := docs[id].(distincts := docs[id].distincts + [distinct])]
    else docs
  }

  datatype BindOutcome = Bound | NotMatched | Duplicate

  /** The conditional $set of an account: only on a mapping that has none. */
  function BindAccountOutcome(docs: Docs, id: int, account: string): BindOutcome {
    if !(id in docs && docs[id].account == "") then NotMatched
    else if AccountTaken(docs, account) then Duplicate
    else Bound
  }

  function BindAccount(docs: Docs, id: int, account: string): Docs {
    if BindAccountOutcome(docs, id, account).Bound? then docs[id := docs[id].(account := account)] else docs
  }

  predicate Holds(docs: Docs, account: string, id: int) {
    id in docs && docs[id].account == account
  }

  /** An account once there never changes, and the distinct list only grows. */
  ghost predicate Extends(m: Mapping, m': Mapping) {
    && (m.account != "" ==> m'.account == m.account)
    && m.distincts <= m'.distincts
  }
}
