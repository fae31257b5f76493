/** The local history of completed attempts: one IndexedDB object store, "quizAttempts",
    whose records are keyed in-line on `id` by a key generator. Records are only ever
    added and read back in bulk. */
module AttemptStore {
  import opened Wrappers

  /** The largest key a key generator hands out, 2^53 (the "Key generators" section of
      the W3C Indexed Database API 3.0); once its current number passes it, adding a
      record without a key fails. */
  const MaxGeneratedKey: nat := 0x20_0000_0000_0000

  /** A completion timestamp, carried through unchanged. */
  datatype Date = Date(epochMillis: int)

  /** One attempt; `id` is absent until the store assigns it. */
  datatype QuizAttempt = QuizAttempt(
    id: Option<nat>,
    date: Date,
    score: int,
    correctAnswers: int,
    totalQuestions: int)

  /** ConstraintError is the key generator running out; StorageError a failure the browser
      reports while opening the database or running the transaction. */
  datatype StoreError = ConstraintError | StorageError

  /** The value of the object store: its records in key order, and the key generator's
      current number. */
  datatype Table = Table(records: seq<QuizAttempt>, nextId: nat)

  /** The object store exactly as `createObjectStore(STORE_NAME, {keyPath: 'id',
      autoIncrement: true})` creates it. */
  const EmptyTable: Table := Table([], 1)

  /** Every record carries a key below the generator's current number, and keys strictly
      increase along the sequence. */
  predicate WellKeyed(t: Table) {
    && 1 <= t.nextId
    && (forall i :: 0 <= i < |t.records| ==> t.records[i].id.Some? && t.records[i].id.value < t.nextId)
    && (forall i, j :: 0 <= i < j < |t.records| ==>
          t.records[i].id.Some? && t.records[j].id.Some? && t.records[i].id.value < t.records[j].id.value)
  }

  /** The store after an add request, and the request's result. */
  datatype AddOutcome = AddOutcome(table: Table, result: Result<nat, StoreError>)

  /** `store.add(attempt)` for a record without a key: the generator's current number
      becomes the key and is injected into the record, the generator moves on, and on a
      failure the transaction leaves the store as it was. The result is the add request's:
      the generated key, or the error. */
  function AfterAdd(t: Table, attempt: QuizAttempt, writeOk: bool): (o: AddOutcome)
    requires attempt.id.None?
    ensures o.result.Failure? ==> o.table == t
    ensures o.result.Failure? ==> (o.result.error == StorageError <==> !writeOk)
    ensures o.result.Success? ==>
      && o.table.records == t.records + [attempt.(id := Some(o.result.value))]
      && o.table.nextId == o.result.value + 1
  {
    if !writeOk then AddOutcome(t, Failure(StorageError))
    else if t.nextId > MaxGeneratedKey then AddOutcome(t, Failure(ConstraintError))
    else AddOutcome(Table(t.records + [attempt.(id := Some(t.nextId))], t.nextId + 1), Success(t.nextId))
  }

  /** `store.getAll()`: every record, in key order. */
  function ReadAll(t: Table, readOk: bool): (r: Result<seq<QuizAttempt>, StoreError>)
    ensures r.Success? <==> readOk
    ensures r.Success? ==> r.value == t.records
    ensures r.Failure? ==> r.error == StorageError
  {
    if readOk then Success(t.records) else Failure(StorageError)
  }

  /** The store itself, updated in place by `saveQuizAttempt` and only read by
      `getQuizAttempts`. */
  class Store {
    var records: seq<QuizAttempt>
    var nextId: nat

    function Contents(): Table
      reads this
    {
      Table(records, nextId)
    }

    ghost predicate Valid()
      reads this
    {
      WellKeyed(Contents())
    }

    constructor ()
      ensures Valid() && Contents() == EmptyTable
    {
      records := [];
      nextId := 1;
    }

    /** `saveQuizAttempt`: resolves with no value once the add request succeeds, or rejects
        with its error; the generated key is the request's result, which is discarded. */
    method SaveQuizAttempt(attempt: QuizAttempt, writeOk: bool) returns (r: Result<(), StoreError>)
      requires Valid() && attempt.id.None?
      modifies this
      ensures Valid()
      ensures Contents() == AfterAdd(old(Contents()), attempt, writeOk).table
      ensures r.Success? <==> AfterAdd(old(Contents()), attempt, writeOk).result.Success?
      ensures r.Failure? ==> r.error == AfterAdd(old(Contents()), attempt, writeOk).result.error
    {
      if !writeOk {
        r := Failure(StorageError);
      } else if nextId > MaxGeneratedKey {
        r := Failure(ConstraintError);
      } else {
        records := records + [attempt.(id := Some(nextId))];
        nextId := nextId + 1;
        r := Success(());
      }
    }

    /** `getQuizAttempts`: a read-only transaction over the whole store. */
    method GetQuizAttempts(readOk: bool) returns (r: Result<seq<QuizAttempt>, StoreError>)
      ensures r == ReadAll(Contents(), readOk)
    {
      if readOk {
        r := Success(records);
      } else {
        r := Failure(StorageError);
      }
    }
  }

  /** The database `QuizDB` at version 1; `attempts` is null until the object store exists. */
  class Database {
    var attempts: Store?

    constructor ()
      ensures attempts == null
    {
      attempts := null;
    }

    /** The `onupgradeneeded` handler: creates the object store only if it is missing, so an
        existing store and its records are kept. */
    method OnUpgradeNeeded()
      requires attempts != null ==> attempts.Valid()
      modifies this
      ensures attempts != null && attempts.Valid()
      ensures old(attempts) != null ==> attempts == old(attempts) && attempts.Contents() == old(attempts.Contents())
      ensures old(attempts) == null ==> fresh(attempts) && attempts.Contents() == EmptyTable
    {
      if attempts == null {
        attempts := new Store();
      }
    }
  }

  // Properties of the store's specification.

  lemma AddKeepsWellKeyed(t: Table, attempt: QuizAttempt, writeOk: bool)
    requires WellKeyed(t) && attempt.id.None?
    ensures WellKeyed(AfterAdd(t, attempt, writeOk).table)
  {
  }

  /** An add request succeeds exactly when the write goes through and the key generator has
      a key left; the key it yields is the generator's current number. */
  lemma AddSucceedsIff(t: Table, attempt: QuizAttempt, writeOk: bool)
    requires attempt.id.None?
    ensures AfterAdd(t, attempt, writeOk).result.Success? <==> writeOk && t.nextId <= MaxGeneratedKey
    ensures AfterAdd(t, attempt, writeOk).result.Success? ==> AfterAdd(t, attempt, writeOk).result.value == t.nextId
  {
  }

  /** A successful save appends exactly one record, equal to the one passed in except for
      its new key, and leaves every earlier record alone; a failed one changes nothing. */
  lemma AddAppendsOne(t: Table, attempt: QuizAttempt, writeOk: bool)
    requires attempt.id.None?
    ensures var o := AfterAdd(t, attempt, writeOk);
      if o.result.Success? then
        && |o.table.records| == |t.records| + 1
        && o.table.records[..|t.records|] == t.records
        && var added := o.table.records[|t.records|];
           added.id == Some(o.result.value) && added.date == attempt.date && added.score == attempt.score
           && added.correctAnswers == attempt.correctAnswers && added.totalQuestions == attempt.totalQuestions
      else
        o.table == t
  {
  }

  /** The table after a sequence of saves, with the browser's verdict for each one. */
  function AddAll(t: Table, attempts: seq<QuizAttempt>, writes: seq<bool>): Table
    requires |writes| == |attempts|
    requires forall i :: 0 <= i < |attempts| ==> attempts[i].id.None?
    decreases |attempts|
  {
    if attempts == [] then t
    else AddAll(AfterAdd(t, attempts[0], writes[0]).table, attempts[1..], writes[1..])
  }

  function Successes(writes: seq<bool>): nat {
    if writes == [] then 0 else (if writes[0] then 1 else 0) + Successes(writes[1..])
  }

  /** Saves never change or remove an earlier record, keys stay distinct and increasing, and
      every write that goes through while keys remain adds exactly one record. */
  lemma {:induction false} AddAllKeepsHistory(t: Table, attempts: seq<QuizAttempt>, writes: seq<bool>)
    requires WellKeyed(t)
    requires |writes| == |attempts|
    requires forall i :: 0 <= i < |attempts| ==> attempts[i].id.None?
    requires t.nextId + |attempts| <= MaxGeneratedKey + 1
    ensures var u := AddAll(t, attempts, writes);
      && WellKeyed(u)
      && |u.records| == |t.records| + Successes(writes)
      && u.records[..|t.records|] == t.records
    decreases |attempts|
  {
    if attempts != [] {
      var t' := AfterAdd(t, attempts[0], writes[0]).table;
      AddAllKeepsHistory(t', attempts[1..], writes[1..]);
      var u := AddAll(t', attempts[1..], writes[1..]);
      assert u.records[..|t.records|] == u.records[..|t'.records|][..|t.records|];
    }
  }

  /** Reading is a function of the store alone, so two reads with no save between them agree,
      and a read after a successful save sees the old records plus the new one. */
  lemma ReadAfterAdd(t: Table, attempt: QuizAttempt)
    requires attempt.id.None? && t.nextId <= MaxGeneratedKey
    ensures ReadAll(AfterAdd(t, attempt, true).table, true)
         == Success(ReadAll(t, true).value + [attempt.(id := Some(t.nextId))])
  {
  }

  /** Two completed sessions saved into a fresh store read back as two records with the
      distinct keys 1 and 2. */
  lemma TwoSavesReadBack(a: QuizAttempt, b: QuizAttempt)
    requires a.id.None? && b.id.None?
    ensures var t := AfterAdd(AfterAdd(EmptyTable, a, true).table, b, true).table;
      && ReadAll(t, true) == Success([a.(id := Some(1)), b.(id := Some(2))])
  {
    var t1 := AfterAdd(EmptyTable, a, true).table;
    assert t1 == Table([a.(id := Some(1))], 2);
    assert AfterAdd(t1, b, true).table.records == [a.(id := Some(1))] + [b.(id := Some(2))];
    assert [a.(id := Some(1))] + [b.(id := Some(2))] == [a.(id := Some(1)), b.(id := Some(2))];
  }
}
