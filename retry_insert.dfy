/**
 * The insert-with-retry loop shared by all four repositories. A document is
 * built with a freshly generated key; when the store rejects it because the
 * key is taken, only the key is regenerated and the insert is tried again,
 * up to a bound. `RunFrom` is the reference description of one such insert;
 * `InsertWhileTrue` (the `while (true)` loop of `RecordRepository`,
 * `RegisterRepository` and `MongoDbService`) and `InsertForAttempts` (the
 * `for` loop of `EntryRepository`) are proved against it, with bounds 4 and 3.
 */
module RetryInsert {
  import opened Store

  /** `InsertMaxAttempts`, the same constant in all four repositories. */
  const InsertMaxAttempts: nat := 3

  /**
   * How one insert ends: the document was stored under `key`, every allowed
   * attempt met a duplicate key, or the store timed out or failed otherwise.
   */
  datatype InsertEnd = Stored(key: Guid) | KeysExhausted | TimedOut(message: string) | Failed(message: string)

  /** How one insert ended and how many store inserts it made. */
  datatype InsertRun = InsertRun(end: InsertEnd, attempts: nat)

  /**
   * The store's outcome for attempt `i`, which uses the `i`-th generated key and
   * meets the `i`-th fault. Nothing is stored before the last attempt, so every
   * attempt sees the collection `docs` as it was when the insert began.
   */
  function AttemptOutcome(docs: map<Guid, string>, keys: seq<NewGuid>, faults: seq<Fault>, i: nat): InsertOutcome
    requires i < |keys| && i < |faults|
  {
    InsertOutcomeOf(docs, keys[i], faults[i])
  }

  /** The insert from attempt `i` on, when attempts `0 .. bound - 1` are allowed. */
  function RunFrom(docs: map<Guid, string>, keys: seq<NewGuid>, faults: seq<Fault>, i: nat, bound: nat): (run: InsertRun)
    requires i <= bound <= |keys| && bound <= |faults|
    ensures i <= run.attempts <= bound
    ensures i < bound ==> i < run.attempts
    decreases bound - i
  {
    if i == bound then InsertRun(KeysExhausted, bound)
    else match AttemptOutcome(docs, keys, faults, i)
      case Ok => InsertRun(Stored(keys[i]), i + 1)
      case Duplicate => RunFrom(docs, keys, faults, i + 1, bound)
      case Timeout(m) => InsertRun(TimedOut(m), i + 1)
      case Other(m) => InsertRun(Failed(m), i + 1)
  }

  /** A whole insert with `bound` attempts allowed. */
  function Run(docs: map<Guid, string>, keys: seq<NewGuid>, faults: seq<Fault>, bound: nat): InsertRun
    requires bound <= |keys| && bound <= |faults|
  {
    RunFrom(docs, keys, faults, 0, bound)
  }

  /** The collection after an insert that ended with `end`. */
  function DocsAfter(docs: map<Guid, string>, value: string, end: InsertEnd): map<Guid, string>
  {
    if end.Stored? then docs[end.key := value] else docs
  }

  /** The store calls of `n` attempts: the `i`-th carries the `i`-th key and always the same value. */
  function Attempted(value: string, keys: seq<NewGuid>, n: nat): seq<StoreCall>
    requires n <= |keys|
  {
    if n == 0 then [] else Attempted(value, keys, n - 1) + [InsertOneCall(Document(keys[n - 1], value))]
  }

  // ---------------------------------------------------------------------------
  // Properties of one insert

  /** Every attempt before the last one made hit a duplicate key. */
  lemma {:induction false} RetriesOnlyOnDuplicates(docs: map<Guid, string>, keys: seq<NewGuid>, faults: seq<Fault>, i: nat, bound: nat)
    requires i <= bound <= |keys| && bound <= |faults|
    ensures forall j :: i <= j < RunFrom(docs, keys, faults, i, bound).attempts - 1 ==>
              faults[j] == Healthy && keys[j] in docs
    decreases bound - i
  {
    if i < bound && AttemptOutcome(docs, keys, faults, i) == Duplicate {
      RetriesOnlyOnDuplicates(docs, keys, faults, i + 1, bound);
    }
  }

  /**
   * The insert gives up exactly when every allowed attempt met a healthy
   * server and a key already in use; it then has made all `bound` inserts.
   */
  lemma {:induction false} ExhaustedIffAllDuplicates(docs: map<Guid, string>, keys: seq<NewGuid>, faults: seq<Fault>, i: nat, bound: nat)
    requires i <= bound <= |keys| && bound <= |faults|
    ensures RunFrom(docs, keys, faults, i, bound).end == KeysExhausted <==>
              forall j :: i <= j < bound ==> faults[j] == Healthy && keys[j] in docs
    ensures RunFrom(docs, keys, faults, i, bound).end == KeysExhausted ==>
              RunFrom(docs, keys, faults, i, bound).attempts == bound
    decreases bound - i
  {
    if i < bound && AttemptOutcome(docs, keys, faults, i) == Duplicate {
      ExhaustedIffAllDuplicates(docs, keys, faults, i + 1, bound);
    }
  }

  /**
   * A stored document carries the key of the last attempt, a key that was not
   * in use, and the server was healthy for that attempt.
   */
  lemma {:induction false} StoredKeyWasFree(docs: map<Guid, string>, keys: seq<NewGuid>, faults: seq<Fault>, i: nat, bound: nat)
    requires i <= bound <= |keys| && bound <= |faults|
    ensures var run := RunFrom(docs, keys, faults, i, bound);
      run.end.Stored? ==>
        && i < run.attempts
        && run.end.key == keys[run.attempts - 1]
        && run.end.key !in docs
        && run.end.key != EmptyGuid
        && faults[run.attempts - 1] == Healthy
    decreases bound - i
  {
    if i < bound && AttemptOutcome(docs, keys, faults, i) == Duplicate {
      StoredKeyWasFree(docs, keys, faults, i + 1, bound);
    }
  }

  /**
   * A timeout or another store failure ends the insert at once: it is what the
   * last attempt made met, with no retry after it.
   */
  lemma {:induction false} FailureIsNotRetried(docs: map<Guid, string>, keys: seq<NewGuid>, faults: seq<Fault>, i: nat, bound: nat)
    requires i <= bound <= |keys| && bound <= |faults|
    ensures var run := RunFrom(docs, keys, faults, i, bound);
      && (run.end.TimedOut? ==> i < run.attempts && faults[run.attempts - 1] == TimesOut(run.end.message))
      && (run.end.Failed? ==> i < run.attempts && faults[run.attempts - 1] == Fails(run.end.message))
    decreases bound - i
  {
    if i < bound && AttemptOutcome(docs, keys, faults, i) == Duplicate {
      FailureIsNotRetried(docs, keys, faults, i + 1, bound);
    }
  }

  /**
   * The store calls of `n` attempts are `n` inserts of the same value, the
   * `i`-th under the `i`-th key: a retry changes only the key.
   */
  lemma {:induction false} AttemptedKeepsValue(value: string, keys: seq<NewGuid>, n: nat)
    requires n <= |keys|
    ensures |Attempted(value, keys, n)| == n
    ensures forall i :: 0 <= i < n ==> Attempted(value, keys, n)[i] == InsertOneCall(Document(keys[i], value))
  {
    if n > 0 {
      AttemptedKeepsValue(value, keys, n - 1);
    }
  }

  /** When the first key is free and the server healthy, the first insert stores the document under it. */
  lemma FirstInsertSucceeds(docs: map<Guid, string>, keys: seq<NewGuid>, faults: seq<Fault>, bound: nat)
    requires 0 < bound <= |keys| && bound <= |faults|
    requires keys[0] !in docs && faults[0] == Healthy
    ensures Run(docs, keys, faults, bound) == InsertRun(Stored(keys[0]), 1)
  {
  }

  /**
   * Allowing one more attempt changes an insert only when it had given up:
   * the extra attempt then runs as an insert of its own.
   */
  lemma {:induction false} OneMoreAttempt(docs: map<Guid, string>, keys: seq<NewGuid>, faults: seq<Fault>, i: nat, bound: nat)
    requires i <= bound < |keys| && bound < |faults|
    ensures RunFrom(docs, keys, faults, i, bound + 1) ==
              if RunFrom(docs, keys, faults, i, bound).end == KeysExhausted
              then RunFrom(docs, keys, faults, bound, bound + 1)
              else RunFrom(docs, keys, faults, i, bound)
    decreases bound - i
  {
    if i < bound && AttemptOutcome(docs, keys, faults, i) == Duplicate {
      OneMoreAttempt(docs, keys, faults, i + 1, bound);
    }
  }

  /**
   * The two loops disagree only after three duplicate keys in a row: the
   * `while (true)` loop (bound `InsertMaxAttempts + 1`) then makes a fourth
   * insert with a fourth key, which may still succeed, where the `for` loop
   * (bound `InsertMaxAttempts`) has given up after three.
   */
  lemma WhileLoopTriesOnceMore(docs: map<Guid, string>, keys: seq<NewGuid>, faults: seq<Fault>)
    requires |keys| > InsertMaxAttempts && |faults| > InsertMaxAttempts
    ensures var forRun := Run(docs, keys, faults, InsertMaxAttempts);
            var whileRun := Run(docs, keys, faults, InsertMaxAttempts + 1);
      && (forRun.end != KeysExhausted ==> whileRun == forRun)
      && (forRun.end == KeysExhausted ==>
            && forRun.attempts == InsertMaxAttempts
            && whileRun.attempts == InsertMaxAttempts + 1
            && (whileRun.end.Stored? <==> faults[3] == Healthy && keys[3] !in docs))
  {
    OneMoreAttempt(docs, keys, faults, 0, InsertMaxAttempts);
    ExhaustedIffAllDuplicates(docs, keys, faults, 0, InsertMaxAttempts);
  }

  // ---------------------------------------------------------------------------
  // The two loops

  /**
   * `InsertValueAsync` of `RecordRepository`, `RegisterRepository` and
   * `MongoDbService`: `while (true)`, retrying on a duplicate key while
   * `attempt < InsertMaxAttempts`.
   */
  method InsertWhileTrue(collection: Collection, value: string, keys: seq<NewGuid>, faults: seq<Fault>) returns (end: InsertEnd)
    requires |keys| > InsertMaxAttempts && |faults| > InsertMaxAttempts
    modifies collection
    ensures var run := Run(old(collection.docs), keys, faults, InsertMaxAttempts + 1);
      && end == run.end
      && collection.docs == DocsAfter(old(collection.docs), value, end)
      && collection.calls == old(collection.calls) + Attempted(value, keys, run.attempts)
  {
    ghost var docs0 := collection.docs;
    ghost var bound := InsertMaxAttempts + 1;
    var record := new Dto(keys[0], value);
    var attempt := 0;
    while true
      invariant 0 <= attempt <= InsertMaxAttempts
      invariant record.key == keys[attempt] && record.value == value
      invariant collection.docs == docs0
      invariant collection.calls == old(collection.calls) + Attempted(value, keys, attempt)
      invariant Run(docs0, keys, faults, bound) == RunFrom(docs0, keys, faults, attempt, bound)
      decreases InsertMaxAttempts - attempt
    {
      var outcome := collection.InsertOne(record, faults[attempt]);
      match outcome
      case Ok =>
        return Stored(record.key);
      case Duplicate =>
        if attempt < InsertMaxAttempts {
          record.key := keys[attempt + 1];
          attempt := attempt + 1;
        } else {
          return KeysExhausted;
        }
      case Timeout(m) =>
        return TimedOut(m);
      case Other(m) =>
        return Failed(m);
    }
  }

  /**
   * `InsertValueAsync` of `EntryRepository`: `for` attempts `0 .. 2`,
   * regenerating the key after each duplicate, then giving up.
   */
  method InsertForAttempts(collection: Collection, value: string, keys: seq<NewGuid>, faults: seq<Fault>) returns (end: InsertEnd)
    requires |keys| > InsertMaxAttempts && |faults| >= InsertMaxAttempts
    modifies collection
    ensures var run := Run(old(collection.docs), keys, faults, InsertMaxAttempts);
      && end == run.end
      && collection.docs == DocsAfter(old(collection.docs), value, end)
      && collection.calls == old(collection.calls) + Attempted(value, keys, run.attempts)
  {
    ghost var docs0 := collection.docs;
    var record := new Dto(keys[0], value);
    for attempt := 0 to InsertMaxAttempts
      invariant record.key == keys[attempt] && record.value == value
      invariant collection.docs == docs0
      invariant collection.calls == old(collection.calls) + Attempted(value, keys, attempt)
      invariant Run(docs0, keys, faults, InsertMaxAttempts) == RunFrom(docs0, keys, faults, attempt, InsertMaxAttempts)
    {
      var outcome := collection.InsertOne(record, faults[attempt]);
      match outcome
      case Ok =>
        return Stored(record.key);
      case Duplicate =>
        record.key := keys[attempt + 1];
      case Timeout(m) =>
        return TimedOut(m);
      case Other(m) =>
        return Failed(m);
    }
    return KeysExhausted;
  }
}
