/** Bulk writes with retry (internal/dao/store/store.go). */
module Store {
  import opened Wrappers
  import opened Documents
  import opened WriteModels
  import opened BulkRetry

  /** What the server answers to one bulk write it carried out, and how many of its writes it tried. */
  datatype Reply = Reply(coll: Coll, errors: seq<WriteError>, tried: nat)

  /** Unordered, every write is tried; ordered, the first error stops the batch. */
  function Send(c: Coll, ms: seq<WriteModel>, ordered: bool): Reply
    decreases |ms|
  {
    if ms == [] then Reply(c, [], 0)
    else
      var error := WriteDoc(At(c, ms[0].filter.key), ms[0]).error;
      var c' := Write(c, ms[0]);
      if error.Some? && ordered then Reply(c', [error.value], 1)
      else
        var r := Send(c', ms[1..], ordered);
        Reply(r.coll, (if error.Some? then [error.value] else []) + r.errors, 1 + r.tried)
  }

  predicate OnlyDuplicates(errors: seq<WriteError>) {
    errors != [] && forall e :: e in errors ==> e == DuplicateKey
  }

  /** Whether the errors are all "skipped, a newer record won"; a write-concern error never is. */
  method IsOnlyDuplicateKey(errors: seq<WriteError>, concernError: bool) returns (r: bool)
    ensures r <==> !concernError && OnlyDuplicates(errors)
  {
    if concernError || |errors| == 0 {
      return false;
    }
    for i := 0 to |errors|
      invariant forall j :: 0 <= j < i ==> errors[j] == DuplicateKey
    {
      if errors[i] != DuplicateKey {
        assert errors[i] in errors;
        return false;
      }
    }
    return true;
  }

  lemma {:induction false} UnorderedSendsAll(c: Coll, ms: seq<WriteModel>)
    ensures Send(c, ms, false).coll == WriteAll(c, ms) && Send(c, ms, false).tried == |ms|
    decreases |ms|
  {
    if ms != [] {
      UnorderedSendsAll(Write(c, ms[0]), ms[1..]);
    }
  }

  lemma {:induction false} RetryableErrorsBenign(c: Coll, ms: seq<WriteModel>)
    requires AllRetryable(ms)
    ensures var e := Send(c, ms, false).errors; e == [] || OnlyDuplicates(e)
    decreases |ms|
  {
    if ms != [] {
      var m := ms[0];
      assert Retryable(m);
      var cur := At(c, m.filter.key);
      RetryableError(cur, m);
      hide WriteDoc;
      RetryableErrorsBenign(Write(c, m), ms[1..]);
    }
  }

  /** A retryable write fails only as "a newer record won". */
  lemma RetryableError(cur: Option<Doc>, m: WriteModel)
    requires Retryable(m)
    ensures WriteDoc(cur, m).error ==
            if cur.Some? && Guarded(m) && !GuardAdmits(cur.value, m.filter.guard) then Some(DuplicateKey) else None
  {
    if m.UpdateOne? {
      var from := if cur.Some? then cur.value else Seed(m.filter);
      if Guarded(m) {
        PlainUpdate(from, m.update, cur.None?);
      } else {
        InsertOnlyUpdate(from, m.update, cur.None?);
      }
    }
  }

  // --- The errors of one attempt -------------------------------------------------------------------

  /** The error that write i meets after all the writes before it. */
  function ErrorAt(c: Coll, ms: seq<WriteModel>, i: nat): Option<WriteError>
    requires i < |ms|
  {
    WriteDoc(At(WriteAll(c, ms[..i]), ms[i].filter.key), ms[i]).error
  }

  lemma ErrorAtFirst(c: Coll, ms: seq<WriteModel>)
    requires ms != []
    ensures ErrorAt(c, ms, 0) == WriteDoc(At(c, ms[0].filter.key), ms[0]).error
  {
    assert ms[..0] == [];
  }

  lemma ErrorAtLater(c: Coll, ms: seq<WriteModel>, i: nat)
    requires i + 1 < |ms|
    ensures ErrorAt(c, ms, i + 1) == ErrorAt(Write(c, ms[0]), ms[1..], i)
  {
    hide WriteDoc;
    assert ms[..i + 1][1..] == ms[1..][..i];
  }

  /** Some write that is tried meets an error that is not a skip. */
  predicate Spoils(c: Coll, ms: seq<WriteModel>, ordered: bool) {
    exists i :: 0 <= i < |ms| && SpoilsAt(c, ms, ordered, i)
  }

  predicate SpoilsAt(c: Coll, ms: seq<WriteModel>, ordered: bool, i: nat)
    requires i < |ms|
  {
    ErrorAt(c, ms, i) == Some(BadUpdate) && (ordered ==> forall j :: 0 <= j < i ==> ErrorAt(c, ms, j).None?)
  }

  lemma SpoilsFirst(c: Coll, ms: seq<WriteModel>, ordered: bool)
    requires ms != []
    ensures var error := WriteDoc(At(c, ms[0].filter.key), ms[0]).error;
            Spoils(c, ms, ordered) <==>
            error == Some(BadUpdate) || (!(ordered && error.Some?) && Spoils(Write(c, ms[0]), ms[1..], ordered))
  {
    hide ErrorAt, WriteDoc, Write;
    ErrorAtFirst(c, ms);
    var error, c', rest := WriteDoc(At(c, ms[0].filter.key), ms[0]).error, Write(c, ms[0]), ms[1..];
    forall i | 0 <= i < |rest| ensures ErrorAt(c', rest, i) == ErrorAt(c, ms, i + 1) {
      ErrorAtLater(c, ms, i);
    }
    if i :| 0 <= i < |rest| && SpoilsAt(c', rest, ordered, i) && !(ordered && error.Some?) {
      forall j | 0 <= j < i + 1 && ordered ensures ErrorAt(c, ms, j).None? {
        assert j > 0 ==> ErrorAt(c', rest, j - 1).None?;
      }
      assert SpoilsAt(c, ms, ordered, i + 1);
    }
    if i :| 0 <= i < |ms| && SpoilsAt(c, ms, ordered, i) {
      if i > 0 {
        forall j | 0 <= j < i - 1 && ordered ensures ErrorAt(c', rest, j).None? {
          assert ErrorAt(c, ms, j + 1).None?;
        }
        assert SpoilsAt(c', rest, ordered, i - 1);
      }
    }
    assert error == Some(BadUpdate) ==> SpoilsAt(c, ms, ordered, 0);
  }

  /** The server reports such an error exactly when one is met. */
  lemma {:induction false} SpoilsIff(c: Coll, ms: seq<WriteModel>, ordered: bool)
    ensures Spoils(c, ms, ordered) <==> BadUpdate in Send(c, ms, ordered).errors
    decreases |ms|
  {
    hide WriteDoc, Write, Spoils;
    if ms != [] {
      SpoilsFirst(c, ms, ordered);
      SpoilsIff(Write(c, ms[0]), ms[1..], ordered);
    } else {
      NothingSpoils(c, ms, ordered);
    }
  }

  lemma NothingSpoils(c: Coll, ms: seq<WriteModel>, ordered: bool)
    requires ms == []
    ensures !Spoils(c, ms, ordered)
  {
  }

  /** The collection when attempt i starts, counting from 0: the first ones fail as the environment decides, the
      rest are carried out. */
  function StartOf(c: Coll, ms: seq<WriteModel>, ordered: bool, faults: seq<seq<WriteModel>>, i: nat): Coll {
    if i == 0 then c
    else
      var before := StartOf(c, ms, ordered, faults, i - 1);
      if i <= |faults| then WriteAll(before, faults[i - 1]) else Send(before, ms, ordered).coll
  }

  lemma {:induction false} StartsFaulty(c: Coll, ms: seq<WriteModel>, ordered: bool, faults: seq<seq<WriteModel>>,
                                        i: nat)
    requires i <= |faults|
    ensures StartOf(c, ms, ordered, faults, i) == Attempts(c, faults[..i])
  {
    hide WriteAll, Send;
    if i > 0 {
      StartsFaulty(c, ms, ordered, faults, i - 1);
      AttemptsSnoc(c, faults, i - 1);
    } else {
      assert faults[..0] == [];
    }
  }

  /** Attempt i is carried out and everything it tries is written or skipped for a newer record. */
  predicate Lands(c: Coll, ms: seq<WriteModel>, ordered: bool, faults: seq<seq<WriteModel>>, i: nat) {
    i >= |faults| && !Spoils(StartOf(c, ms, ordered, faults, i), ms, ordered)
  }

  class Store {
    var coll: Coll
    var retries: nat

    constructor (coll: Coll)
      ensures this.coll == coll && retries == 0
    {
      this.coll, retries := coll, 0;
    }

    /** One attempt that the server carries out; only skips count as success. */
    method SendOnce(models: seq<WriteModel>, ordered: bool) returns (ok: bool)
      modifies this`coll
      ensures coll == Send(old(coll), models, ordered).coll
      ensures ok <==> Send(old(coll), models, ordered).errors == []
                      || OnlyDuplicates(Send(old(coll), models, ordered).errors)
    {
      hide Send, OnlyDuplicates;
      var reply := Send(coll, models, ordered);
      coll := reply.coll;
      ok := true;
      if |reply.errors| > 0 {
        ok := IsOnlyDuplicateKey(reply.errors, false);
      }
    }

    /** Sends the batch until it succeeds or the time for retries is up.  The environment decides how the
        first attempts fail (`faults`: what each applied) and how many retries fit. */
    method BulkWrite(models: seq<WriteModel>, ordered: bool, faults: seq<seq<WriteModel>>, patience: nat)
      returns (ok: bool)
      requires KeyPrefixes(faults, models)
      modifies this
      ensures models == [] ==> ok && unchanged(this)
      ensures models != [] && AllRetryable(models) && !ordered && |faults| <= patience ==>
                ok && coll == WriteAll(old(coll), models) && retries == old(retries) + |faults|
      ensures models != [] && |faults| > patience ==>
                !ok && coll == Attempts(old(coll), faults[..patience + 1]) && retries == old(retries) + patience
      ensures models != [] && ok && !ordered && retries == old(retries) ==> coll == WriteAll(old(coll), models)
      ensures old(retries) <= retries
      ensures models != [] ==>
                EndsAfter(old(coll), models, ordered, faults, patience, retries - old(retries), ok, coll)
    {
      if |models| == 0 {
        return true;
      }
      var attempts;
      attempts, ok := Retry(models, ordered, faults, patience);
      retries := retries + (attempts - 1);
      hide *;
      EndsMeans(old(coll), models, ordered, faults, patience, attempts - 1, ok, coll);
    }

    /** Attempts until one lands or the time is up: how many, and whether the last one landed. */
    method Retry(models: seq<WriteModel>, ordered: bool, faults: seq<seq<WriteModel>>, patience: nat)
      returns (attempt: nat, ok: bool)
      modifies this`coll
      ensures attempt >= 1
      ensures EndsAfter(old(coll), models, ordered, faults, patience, attempt - 1, ok, coll)
    {
      hide *;
      attempt, ok := 0, false;
      NoAttemptYet(coll, models, ordered, faults);
      while true
        invariant attempt <= patience && !ok
        invariant coll == StartOf(old(coll), models, ordered, faults, attempt)
        invariant forall i :: 0 <= i < attempt ==> !Lands(old(coll), models, ordered, faults, i)
        decreases patience - attempt
      {
        OneAttempt(old(coll), models, ordered, faults, attempt);
        attempt := attempt + 1;
        if attempt <= |faults| {
          coll := WriteAll(coll, faults[attempt - 1]);
        } else {
          ok := SendOnce(models, ordered);
        }
        if ok || attempt > patience {
          break;
        }
      }
      EndsWith(old(coll), models, ordered, faults, patience, attempt - 1, ok, coll);
    }
  }

  /** How a non-empty bulk write ends after n retries: the last attempt landed, or the time was up; none before it
      landed. */
  predicate EndsAfter(c: Coll, ms: seq<WriteModel>, ordered: bool, faults: seq<seq<WriteModel>>, patience: nat,
                      n: nat, ok: bool, end: Coll)
  {
    && n <= patience && end == StartOf(c, ms, ordered, faults, n + 1)
    && (ok <==> Lands(c, ms, ordered, faults, n)) && (!ok ==> n == patience)
    && forall i :: 0 <= i < n ==> !Lands(c, ms, ordered, faults, i)
  }

  lemma NoAttemptYet(c: Coll, ms: seq<WriteModel>, ordered: bool, faults: seq<seq<WriteModel>>)
    ensures StartOf(c, ms, ordered, faults, 0) == c
  {
  }

  lemma OneAttempt(c: Coll, ms: seq<WriteModel>, ordered: bool, faults: seq<seq<WriteModel>>, i: nat)
    ensures var before := StartOf(c, ms, ordered, faults, i);
            if i < |faults|
            then StartOf(c, ms, ordered, faults, i + 1) == WriteAll(before, faults[i])
                 && !Lands(c, ms, ordered, faults, i)
            else
              var reply := Send(before, ms, ordered);
              && StartOf(c, ms, ordered, faults, i + 1) == reply.coll
              && (Lands(c, ms, ordered, faults, i) <==> reply.errors == [] || OnlyDuplicates(reply.errors))
  {
    hide Send, WriteAll, Spoils;
    var before := StartOf(c, ms, ordered, faults, i);
    SpoilsIff(before, ms, ordered);
    ErrorKinds(Send(before, ms, ordered).errors);
  }

  lemma ErrorKinds(errors: seq<WriteError>)
    ensures errors == [] || OnlyDuplicates(errors) <==> BadUpdate !in errors
  {
    if BadUpdate !in errors {
      forall e | e in errors ensures e == DuplicateKey {
        assert e != BadUpdate;
      }
    }
  }

  lemma EndsWith(c: Coll, ms: seq<WriteModel>, ordered: bool, faults: seq<seq<WriteModel>>, patience: nat,
                 n: nat, ok: bool, end: Coll)
    requires n <= patience && end == StartOf(c, ms, ordered, faults, n + 1)
    requires (ok <==> Lands(c, ms, ordered, faults, n)) && (!ok ==> n == patience)
    requires forall i :: 0 <= i < n ==> !Lands(c, ms, ordered, faults, i)
    ensures EndsAfter(c, ms, ordered, faults, patience, n, ok, end)
  {
  }

  lemma EndsMeans(c: Coll, ms: seq<WriteModel>, ordered: bool, faults: seq<seq<WriteModel>>, patience: nat,
                  n: nat, ok: bool, end: Coll)
    requires EndsAfter(c, ms, ordered, faults, patience, n, ok, end) && KeyPrefixes(faults, ms)
    ensures AllRetryable(ms) && !ordered && |faults| <= patience ==> ok && end == WriteAll(c, ms) && n == |faults|
    ensures |faults| > patience ==> !ok && end == Attempts(c, faults[..patience + 1]) && n == patience
    ensures ok && !ordered && n == 0 ==> end == WriteAll(c, ms)
  {
    hide Attempts, StartOf, Lands, AllRetryable, KeyPrefixes, WriteAll;
    FaultyAttempts(c, ms, ordered, faults, patience);
    if AllRetryable(ms) && !ordered {
      RetryableLands(c, ms, faults);
    }
    if n == 0 && !ordered {
      NoAttemptYet(c, ms, ordered, faults);
      OneAttempt(c, ms, ordered, faults, 0);
      UnorderedSendsAll(c, ms);
    }
  }

  /** A bulk write of any models, ordered or not, succeeds exactly if some attempt within its patience lands. */
  lemma SucceedsIff(c: Coll, ms: seq<WriteModel>, ordered: bool, faults: seq<seq<WriteModel>>, patience: nat,
                    n: nat, ok: bool, end: Coll)
    requires EndsAfter(c, ms, ordered, faults, patience, n, ok, end)
    ensures ok <==> exists i :: 0 <= i <= patience && Lands(c, ms, ordered, faults, i)
    ensures !ok ==> n == patience
  {
    hide Lands;
    if ok {
      assert 0 <= n <= patience && Lands(c, ms, ordered, faults, n);
    } else {
      forall i | 0 <= i <= patience ensures !Lands(c, ms, ordered, faults, i) {
        assert i < n || i == n;
      }
    }
  }

  lemma FaultyAttempts(c: Coll, ms: seq<WriteModel>, ordered: bool, faults: seq<seq<WriteModel>>, patience: nat)
    ensures forall i :: 0 <= i < |faults| ==> !Lands(c, ms, ordered, faults, i)
    ensures |faults| > patience ==> StartOf(c, ms, ordered, faults, patience + 1) == Attempts(c, faults[..patience + 1])
  {
    hide Attempts, StartOf;
    if |faults| > patience {
      StartsFaulty(c, ms, ordered, faults, patience + 1);
    }
  }

  /** The first attempt of a retryable batch that is carried out lands, and leaves what a clean one leaves. */
  lemma RetryableLands(c: Coll, ms: seq<WriteModel>, faults: seq<seq<WriteModel>>)
    requires AllRetryable(ms) && KeyPrefixes(faults, ms)
    ensures Lands(c, ms, false, faults, |faults|)
    ensures StartOf(c, ms, false, faults, |faults| + 1) == WriteAll(c, ms)
  {
    hide WriteAll, Send, Spoils, Attempts, AllRetryable, KeyPrefixes;
    var before := StartOf(c, ms, false, faults, |faults|);
    StartsFaulty(c, ms, false, faults, |faults|);
    assert faults[..|faults|] == faults;
    RetryTransparent(c, ms, faults);
    UnorderedSendsAll(before, ms);
    RetryableErrorsBenign(before, ms);
    SpoilsIff(before, ms, false);
  }

  lemma {:induction false} AttemptsSnoc(c: Coll, faults: seq<seq<WriteModel>>, i: nat)
    requires i < |faults|
    ensures Attempts(c, faults[..i + 1]) == WriteAll(Attempts(c, faults[..i]), faults[i])
    decreases i
  {
    hide WriteAll;
    if i > 0 {
      assert faults[..i + 1][1..] == faults[1..][..i] && faults[..i][1..] == faults[1..][..i - 1];
      AttemptsSnoc(WriteAll(c, faults[0]), faults[1..], i - 1);
    } else {
      assert faults[..1][1..] == [] && faults[..0] == [];
    }
  }

  // --- Ordered batches --------------------------------------------------------------------------

  lemma FailedWriteIsNone(c: Coll, m: WriteModel)
    requires WriteDoc(At(c, m.filter.key), m).error.Some?
    ensures Write(c, m) == c
  {
    hide ApplyUpdate, Applicable;
    SameEverywhere(Write(c, m), c);
  }

  /** An ordered send stops at the first error, wherever it is: all before it is written, nothing after it. */
  lemma {:induction false} OrderedStops(c: Coll, ms: seq<WriteModel>, i: nat)
    requires i < |ms| && ErrorAt(c, ms, i).Some? && forall j :: 0 <= j < i ==> ErrorAt(c, ms, j).None?
    ensures Send(c, ms, true) == Reply(WriteAll(c, ms[..i]), [ErrorAt(c, ms, i).value], i + 1)
    decreases i
  {
    hide ErrorAt, WriteDoc, Write;
    ErrorAtFirst(c, ms);
    if i == 0 {
      FailedWriteIsNone(c, ms[0]);
      assert ms[..0] == [];
    } else {
      var c', rest := Write(c, ms[0]), ms[1..];
      ErrorAtLater(c, ms, i - 1);
      forall j | 0 <= j < i - 1 ensures ErrorAt(c', rest, j).None? {
        ErrorAtLater(c, ms, j);
        assert ErrorAt(c, ms, j + 1).None?;
      }
      OrderedStops(c', rest, i - 1);
      assert ms[..i][1..] == rest[..i - 1];
      assert [] + [ErrorAt(c, ms, i).value] == [ErrorAt(c, ms, i).value];
    }
  }

  lemma {:induction false} OrderedSendsAll(c: Coll, ms: seq<WriteModel>)
    requires forall j :: 0 <= j < |ms| ==> ErrorAt(c, ms, j).None?
    ensures Send(c, ms, true) == Reply(WriteAll(c, ms), [], |ms|)
    decreases |ms|
  {
    hide ErrorAt, WriteDoc, Write;
    if ms != [] {
      ErrorAtFirst(c, ms);
      forall j | 0 <= j < |ms| - 1 ensures ErrorAt(Write(c, ms[0]), ms[1..], j).None? {
        ErrorAtLater(c, ms, j);
        assert ErrorAt(c, ms, j + 1).None?;
      }
      OrderedSendsAll(Write(c, ms[0]), ms[1..]);
    }
  }

  lemma {:induction false} FirstError(c: Coll, ms: seq<WriteModel>, n: nat) returns (i: nat)
    requires n <= |ms|
    ensures i <= n && (forall j :: 0 <= j < i ==> ErrorAt(c, ms, j).None?)
    ensures i < n ==> ErrorAt(c, ms, i).Some?
    decreases n
  {
    hide ErrorAt;
    i := 0;
    if n > 0 {
      i := FirstError(c, ms, n - 1);
      if i == n - 1 && ErrorAt(c, ms, i).None? {
        i := n;
      }
    }
  }

  /** An ordered send tries its whole batch exactly when no write but the last meets an error. */
  lemma OrderedTriesAllIff(c: Coll, ms: seq<WriteModel>)
    ensures Send(c, ms, true).tried == |ms| <==> forall j :: 0 <= j < |ms| - 1 ==> ErrorAt(c, ms, j).None?
  {
    hide Send, ErrorAt;
    var i := FirstError(c, ms, |ms|);
    if i < |ms| {
      OrderedStops(c, ms, i);
    } else {
      OrderedSendsAll(c, ms);
    }
  }

  /** So a benign skip anywhere in an ordered batch ends it, the writes after it are never tried, and the whole
      counts as success.  (Nothing outside the tests sends ordered batches.) */
  lemma OrderedSkipDropsTheRest(c: Coll, ms: seq<WriteModel>, i: nat)
    requires i < |ms| && ErrorAt(c, ms, i) == Some(DuplicateKey)
    requires forall j :: 0 <= j < i ==> ErrorAt(c, ms, j).None?
    ensures var reply := Send(c, ms, true);
            reply.coll == WriteAll(c, ms[..i]) && OnlyDuplicates(reply.errors) && reply.tried == i + 1
  {
    hide Send, ErrorAt;
    OrderedStops(c, ms, i);
  }

  /** A user_set or user_unset older than the stored document changes nothing and counts as success. */
  lemma StaleIsSkipped(c: Coll, typ: string, userID: int, doc: Doc)
    requires UserRecord(userID, doc) && typ in {"user_set", "user_unset"}
    requires var k := Num(userID); k in c && "_ts" in c[k] && !NotNewer(c[k]["_ts"], TsOf(doc))
    ensures var reply := Send(c, [UserModel(typ, userID, doc)], false);
            reply.coll == c && OnlyDuplicates(reply.errors)
  {
    var m := UserModel(typ, userID, doc);
    UserModelsRetryable(typ, userID, doc);
    RetryableError(At(c, m.filter.key), m);
    StepMeans(At(c, m.filter.key), m);
    assert [m][1..] == [];
    assert c[Num(userID) := c[Num(userID)]] == c;
    hide WriteDoc;
  }
}
