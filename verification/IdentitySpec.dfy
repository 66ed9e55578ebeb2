/** The cacheless two-map specification of identity resolution, and what it promises
    (internal/dao/store/identity.go:12-37, 96-109). */
module IdentitySpec {

  /** Which user each account and each distinct id belongs to, and the last id issued. */
  datatype Directory = Directory(accounts: map<string, int>, distincts: map<string, int>, last: int)

  const EMPTY := Directory(map[], map[], 0)

  /** Some account is bound to this user. */
  predicate HasAccount(t: Directory, id: int) {
    exists a :: a in t.accounts && t.accounts[a] == id
  }

  /** The call creates a new user. */
  predicate Allocates(t: Directory, account: string, distinct: string) {
    if account == "" then distinct !in t.distincts
    else account !in t.accounts
         && (distinct == "" || distinct !in t.distincts || HasAccount(t, t.distincts[distinct]))
  }

  /** The user a call is answered with: the account's, else the visitor's, else a new one. */
  function Answer(t: Directory, account: string, distinct: string): int {
    if Allocates(t, account, distinct) then t.last + 1
    else if account != "" && account in t.accounts then t.accounts[account]
    else if distinct in t.distincts then t.distincts[distinct]
    else 0
  }

  /** The directory afterwards: unbound ids of the call are bound to the answer. */
  function After(t: Directory, account: string, distinct: string): Directory {
    var id := Answer(t, account, distinct);
    Directory(
      if account == "" || account in t.accounts then t.accounts else t.accounts[account := id],
      if distinct == "" || distinct in t.distincts then t.distincts else t.distincts[distinct := id],
      if Allocates(t, account, distinct) then t.last + 1 else t.last)
  }

  /** Both maps are functions into issued ids, and each user has at most one account. */
  ghost predicate Consistent(t: Directory) {
    && t.last >= 0
    && (forall a :: a in t.accounts ==> a != "" && 1 <= t.accounts[a] <= t.last)
    && (forall d :: d in t.distincts ==> d != "" && 1 <= t.distincts[d] <= t.last)
    && (forall a, b :: a in t.accounts && b in t.accounts && t.accounts[a] == t.accounts[b] ==> a == b)
  }

  // A call of a pod; the lost races are those of creating the id counter document.
  datatype Request = Request(pod: nat, account: string, distinct: string, lostRaces: nat)

  const MAX_ATTEMPTS := 8

  /** A call is refused only when it needs a new id and never wins the counter's creation. */
  predicate Refused(t: Directory, r: Request) {
    Allocates(t, r.account, r.distinct) && r.lostRaces >= MAX_ATTEMPTS
  }

  function Step(t: Directory, r: Request): Directory {
    if Refused(t, r) then t else After(t, r.account, r.distinct)
  }

  function RunSpec(t: Directory, calls: seq<Request>): Directory {
    if calls == [] then t else Step(RunSpec(t, calls[..|calls| - 1]), calls[|calls| - 1])
  }

  lemma StepConsistent(t: Directory, r: Request)
    requires Consistent(t) && (r.account != "" || r.distinct != "")
    ensures Consistent(Step(t, r))
  {
    assert Allocates(t, r.account, r.distinct) || r.account == "" || r.account in t.accounts ||
           !HasAccount(t, t.distincts[r.distinct]);
  }

  /** Bindings are irreversible. */
  ghost predicate Grows(t: Directory, u: Directory) {
    && t.last <= u.last
    && (forall a :: a in t.accounts ==> a in u.accounts && u.accounts[a] == t.accounts[a])
    && (forall d :: d in t.distincts ==> d in u.distincts && u.distincts[d] == t.distincts[d])
  }

  lemma {:induction false} RunGrows(t: Directory, calls: seq<Request>)
    ensures Grows(t, RunSpec(t, calls))
  {
    if calls != [] {
      RunGrows(t, calls[..|calls| - 1]);
    }
  }

  /** No answer once given ever changes: the same call later, after any calls of any pods, is
      answered the same, allocates nothing and binds nothing. */
  lemma AnswersStand(t: Directory, r: Request, later: seq<Request>)
    requires r.account != "" || r.distinct != ""
    requires !Refused(t, r)
    ensures var u := RunSpec(Step(t, r), later);
            && Answer(u, r.account, r.distinct) == Answer(t, r.account, r.distinct)
            && !Allocates(u, r.account, r.distinct)
            && After(u, r.account, r.distinct) == u
  {
    RunGrows(Step(t, r), later);
  }

  /** Two accounts are never answered with one user. */
  lemma AccountsDiffer(t: Directory, r1: Request, r2: Request)
    requires Consistent(t)
    requires r1.account != "" && r2.account != "" && r1.account != r2.account
    requires !Refused(t, r1) && !Refused(Step(t, r1), r2)
    ensures Answer(t, r1.account, r1.distinct) != Answer(Step(t, r1), r2.account, r2.distinct)
  {
    var t1 := Step(t, r1);
    StepConsistent(t, r1);
    StepConsistent(t1, r2);
    var t2 := Step(t1, r2);
    assert t2.accounts[r1.account] == Answer(t, r1.account, r1.distinct);
    assert t2.accounts[r2.account] == Answer(t1, r2.account, r2.distinct);
  }
}
