/** The import of users: records are read one by one, transformed and written by batches of a hundred
    (core/run_import.go:104-216). */
module UserImport {
  import opened Prelude

  type Values = map<string, string>

  /** What is wrong with a record as it was read: it does not fit the schema, or it could not be read. */
  datatype Fault = Sound | Invalid | Unreadable

  datatype User = User(id: string, values: Values, updatedAt: nat, fault: Fault)

  datatype Identity = Identity(id: string, values: Values, updatedAt: nat)

  /** The transformer works on each record by itself. */
  datatype Outcome = TransformationError | ValidationError | Transformed(values: Values)

  /** The records of a database are not filtered, since the query was. */
  datatype Pipeline = Pipeline(
    database: bool, filter: Values -> bool, transform: Values -> Outcome, consents: Values -> bool)

  const BATCH := 100

  /** The counters of the steps before a batch, and of those in it. */
  datatype Received = Received(
    receivePassed: nat, receiveFailed: nat, inputPassed: nat, inputFailed: nat, filterPassed: nat, filterFailed: nat)
  datatype Processed = Processed(
    transformationPassed: nat, transformationFailed: nat, outputPassed: nat, outputFailed: nat,
    consentPassed: nat, consentFailed: nat)

  /** What an import does on receipt of the records and in the batches: counters, identifiers of identities that
      are kept as they are in the warehouse, and identities written, in order. And the cursor it reaches. */
  datatype Receipt = Receipt(received: Received, kept: multiset<string>)
  datatype Batches = Batches(processed: Processed, kept: multiset<string>, writes: seq<Identity>)
  datatype Effects = Effects(receipt: Receipt, batches: Batches, cursor: nat)

  const NO_RECEIPT := Receipt(Received(0, 0, 0, 0, 0, 0), multiset{})
  const NO_BATCHES := Batches(Processed(0, 0, 0, 0, 0, 0), multiset{}, [])

  function Keeps(e: Effects): multiset<string> { e.receipt.kept + e.batches.kept }

  // ---- The simple form: each record to its end before the next -------------------------------------------------

  predicate Passes(p: Pipeline, u: User) { u.fault.Sound? && (p.database || p.filter(u.values)) }

  function Receive(p: Pipeline, u: User, r: Receipt): Receipt {
    var c := r.received;
    match u.fault
    case Invalid =>
      Receipt(c.(receivePassed := c.receivePassed + 1, inputFailed := c.inputFailed + 1), r.kept + multiset{u.id})
    case Unreadable => Receipt(c.(receiveFailed := c.receiveFailed + 1), r.kept + multiset{u.id})
    case Sound =>
      var d := c.(receivePassed := c.receivePassed + 1, inputPassed := c.inputPassed + 1);
      r.(received :=
        if p.database then d
        else if p.filter(u.values) then d.(filterPassed := d.filterPassed + 1)
        else d.(filterFailed := d.filterFailed + 1))
  }

  function Process(p: Pipeline, u: User, b: Batches): Batches {
    var c := b.processed;
    match p.transform(u.values)
    case TransformationError =>
      b.(processed := c.(transformationFailed := c.transformationFailed + 1), kept := b.kept + multiset{u.id})
    case ValidationError =>
      b.(processed := c.(transformationPassed := c.transformationPassed + 1, outputFailed := c.outputFailed + 1),
         kept := b.kept + multiset{u.id})
    case Transformed(values) =>
      var d := c.(transformationPassed := c.transformationPassed + 1, outputPassed := c.outputPassed + 1);
      if p.consents(values)
      then b.(processed := d.(consentPassed := d.consentPassed + 1),
              writes := b.writes + [Identity(u.id, values, u.updatedAt)])
      else b.(processed := d.(consentFailed := d.consentFailed + 1))
  }

  function Later(cursor: nat, u: User): nat { if u.updatedAt > cursor then u.updatedAt else cursor }

  /** Everything that is to be done for one record. */
  function Handle(p: Pipeline, u: User, e: Effects): Effects {
    var r := Receive(p, u, e.receipt);
    if Passes(p, u) then Effects(r, Process(p, u, e.batches), Later(e.cursor, u)) else e.(receipt := r)
  }

  function OneByOne(p: Pipeline, start: nat, users: seq<User>): Effects {
    if users == [] then Effects(NO_RECEIPT, NO_BATCHES, start)
    else Handle(p, users[|users| - 1], OneByOne(p, start, users[..|users| - 1]))
  }

  // ---- The simple form taken apart -------------------------------------------------------------------------------

  function Passing(p: Pipeline, users: seq<User>): seq<User> {
    if users == [] then []
    else
      var u := users[|users| - 1];
      var passing := Passing(p, users[..|users| - 1]);
      if Passes(p, u) then passing + [u] else passing
  }

  function ReceiveAll(p: Pipeline, users: seq<User>): Receipt {
    if users == [] then NO_RECEIPT else Receive(p, users[|users| - 1], ReceiveAll(p, users[..|users| - 1]))
  }

  function ProcessAll(p: Pipeline, passing: seq<User>): Batches {
    if passing == [] then NO_BATCHES else Process(p, passing[|passing| - 1], ProcessAll(p, passing[..|passing| - 1]))
  }

  /** The cursor that the records lead to. */
  function Cursor(start: nat, passing: seq<User>): nat {
    if passing == [] then start else Later(Cursor(start, passing[..|passing| - 1]), passing[|passing| - 1])
  }

  lemma OneMoreReceived(p: Pipeline, users: seq<User>, u: User)
    ensures ReceiveAll(p, users + [u]) == Receive(p, u, ReceiveAll(p, users))
    ensures Passing(p, users + [u]) == if Passes(p, u) then Passing(p, users) + [u] else Passing(p, users)
  {
    assert (users + [u])[..|users|] == users;
  }

  lemma OneMoreProcessed(p: Pipeline, start: nat, passing: seq<User>, u: User)
    ensures ProcessAll(p, passing + [u]) == Process(p, u, ProcessAll(p, passing))
    ensures Cursor(start, passing + [u]) == Later(Cursor(start, passing), u)
  {
    assert (passing + [u])[..|passing|] == passing;
  }

  lemma {:induction false} OneByOneTakenApart(p: Pipeline, start: nat, users: seq<User>)
    ensures
      var passing := Passing(p, users);
      OneByOne(p, start, users) == Effects(ReceiveAll(p, users), ProcessAll(p, passing), Cursor(start, passing))
  {
    if users != [] {
      var init, u := users[..|users| - 1], users[|users| - 1];
      OneByOneTakenApart(p, start, init);
      OneMoreProcessed(p, start, Passing(p, init), u);
    }
  }

  // ---- The loop --------------------------------------------------------------------------------------------------

  /** What can go wrong with a whole batch: the transformer, or saving the cursor. */
  datatype Mishap = Fine | TransformerFails | CursorNotSaved

  /** The part of the loop before the batch: false if the record does not get into one. */
  method ReceiveOne(p: Pipeline, user: User, r: Receipt) returns (passes: bool, s: Receipt)
    ensures passes == Passes(p, user) && s == Receive(p, user, r)
  {
    s := r;
    var c := r.received;
    if user.fault != Sound {
      s := s.(kept := s.kept + multiset{user.id});
      if user.fault == Invalid {
        s := s.(received := c.(receivePassed := c.receivePassed + 1, inputFailed := c.inputFailed + 1));
      } else {
        s := s.(received := c.(receiveFailed := c.receiveFailed + 1));
      }
      return false, s;
    }
    c := c.(receivePassed := c.receivePassed + 1, inputPassed := c.inputPassed + 1);
    if !p.database {
      if !p.filter(user.values) {
        return false, s.(received := c.(filterFailed := c.filterFailed + 1));
      }
      c := c.(filterPassed := c.filterPassed + 1);
    }
    return true, s.(received := c);
  }

  lemma OneMoreInBatch(p: Pipeline, before: seq<User>, batch: seq<User>, i: nat)
    requires i < |batch|
    ensures ProcessAll(p, before + batch[..i + 1]) == Process(p, batch[i], ProcessAll(p, before + batch[..i]))
  {
    assert before + batch[..i + 1] == before + batch[..i] + [batch[i]];
    OneMoreProcessed(p, 0, before + batch[..i], batch[i]);
  }

  method Transform(p: Pipeline, batch: seq<User>) returns (outcomes: seq<Outcome>)
    ensures |outcomes| == |batch|
    ensures forall k :: 0 <= k < |batch| ==> outcomes[k] == p.transform(batch[k].values)
  {
    outcomes := [];
    for i := 0 to |batch|
      invariant |outcomes| == i && forall k :: 0 <= k < i ==> outcomes[k] == p.transform(batch[k].values)
    {
      outcomes := outcomes + [p.transform(batch[i].values)];
    }
  }

  /** Transforms a batch, and then writes it. */
  method ProcessBatch(p: Pipeline, batch: seq<User>, failed: bool, b: Batches, ghost before: seq<User>)
    returns (ok: bool, d: Batches)
    requires b == ProcessAll(p, before)
    ensures ok == !failed
    ensures d == if ok then ProcessAll(p, before + batch) else b
  {
    d := b;
    if failed {
      return false, d;
    }
    var outcomes := Transform(p, batch);
    assert before + batch[..0] == before;
    for i := 0 to |batch|
      invariant d == ProcessAll(p, before + batch[..i])
    {
      d := WriteOne(p, batch[i], outcomes[i], d);
      OneMoreInBatch(p, before, batch, i);
    }
    assert batch[..|batch|] == batch;
    return true, d;
  }

  method WriteOne(p: Pipeline, user: User, outcome: Outcome, b: Batches) returns (d: Batches)
    requires outcome == p.transform(user.values)
    ensures d == Process(p, user, b)
  {
    d := b;
    var c := d.processed;
    match outcome
    case TransformationError =>
      d := d.(processed := c.(transformationFailed := c.transformationFailed + 1), kept := d.kept + multiset{user.id});
    case ValidationError =>
      c := c.(transformationPassed := c.transformationPassed + 1, outputFailed := c.outputFailed + 1);
      d := d.(processed := c, kept := d.kept + multiset{user.id});
    case Transformed(values) =>
      c := c.(transformationPassed := c.transformationPassed + 1, outputPassed := c.outputPassed + 1);
      if !p.consents(values) {
        d := d.(processed := c.(consentFailed := c.consentFailed + 1));
        return;
      }
      d := d.(processed := c.(consentPassed := c.consentPassed + 1),
              writes := d.writes + [Identity(user.id, values, user.updatedAt)]);
  }

  /** How many of n records are in the first k batches. */
  function InBatches(k: nat, n: nat): nat { if BATCH * k <= n then BATCH * k else n }

  /** Each saved cursor is that of the records processed so far. */
  predicate SavedCursors(saved: seq<nat>, start: nat, passing: seq<User>) {
    forall k: nat :: k < |saved| ==> saved[k] == Cursor(start, passing[..InBatches(k + 1, |passing|)])
  }

  lemma SavedCursorsGrow(saved: seq<nat>, start: nat, passing: seq<User>, user: User)
    requires SavedCursors(saved, start, passing) && |saved| * BATCH <= |passing|
    ensures SavedCursors(saved, start, passing + [user])
  {
    forall k: nat | k < |saved| ensures saved[k] == Cursor(start, (passing + [user])[..InBatches(k + 1, |passing| + 1)]) {
      assert (passing + [user])[..InBatches(k + 1, |passing| + 1)] == passing[..InBatches(k + 1, |passing|)];
    }
  }

  /** Everything done so far: `done` of the passing records were processed. */
  predicate SoFar(p: Pipeline, start: nat, records: seq<User>, done: nat, e: Effects, saved: seq<nat>) {
    var passing := Passing(p, records);
    && done <= |passing|
    && e == Effects(ReceiveAll(p, records), ProcessAll(p, passing[..done]), Cursor(start, passing))
    && SavedCursors(saved, start, passing)
  }

  /** Before and after each record: `users` are the records waiting for a batch to be full. */
  ghost predicate Waiting(p: Pipeline, start: nat, records: seq<User>, done: nat, users: seq<User>, e: Effects,
                          saved: seq<nat>)
  {
    && SoFar(p, start, records, done, e, saved)
    && done == |saved| * BATCH && Passing(p, records)[done..] == users
  }

  lemma StillWaiting(p: Pipeline, start: nat, records: seq<User>, done: nat, users: seq<User>, e: Effects,
                     saved: seq<nat>, user: User)
    requires Waiting(p, start, records, done, users, e, saved) && !Passes(p, user)
    ensures Waiting(p, start, records + [user], done, users, e.(receipt := Receive(p, user, e.receipt)), saved)
  {
    OneMoreReceived(p, records, user);
  }

  lemma OneMoreWaiting(p: Pipeline, start: nat, records: seq<User>, done: nat, users: seq<User>, e: Effects,
                       saved: seq<nat>, user: User)
    requires Waiting(p, start, records, done, users, e, saved) && Passes(p, user)
    ensures Waiting(p, start, records + [user], done, users + [user],
                    e.(receipt := Receive(p, user, e.receipt), cursor := Later(e.cursor, user)), saved)
  {
    var passing := Passing(p, records);
    OneMoreReceived(p, records, user);
    OneMoreProcessed(p, start, passing, user);
    SavedCursorsGrow(saved, start, passing, user);
    assert (passing + [user])[..done] == passing[..done];
    assert (passing + [user])[done..] == users + [user];
  }

  /** Processes the records that were not yet processed, and saves the cursor reached. */
  method Batch(p: Pipeline, start: nat, ghost records: seq<User>, users: seq<User>, mishap: Mishap,
               e: Effects, saved: seq<nat>, ghost done: nat)
    returns (ok: bool, f: Effects, cursors: seq<nat>, ghost now: nat)
    requires Waiting(p, start, records, done, users, e, saved) && 0 < |users| <= BATCH
    ensures SoFar(p, start, records, now, f, cursors)
    ensures ok && |users| == BATCH ==> Waiting(p, start, records, now, [], f, cursors)
    ensures ok ==> now == |saved| * BATCH + |users|
    ensures ok == mishap.Fine?
    ensures ok ==> now == |Passing(p, records)| && |cursors| == |saved| + 1 && cursors[..|saved|] == saved
    ensures !ok ==> cursors == saved && now == if mishap.TransformerFails? then done else |Passing(p, records)|
  {
    ghost var passing := Passing(p, records);
    assert passing[..done] + users == passing && passing[..|passing|] == passing;
    var batches: Batches;
    ok, batches := ProcessBatch(p, users, mishap.TransformerFails?, e.batches, passing[..done]);
    f, cursors, now := e.(batches := batches), saved, if ok then |passing| else done;
    if !ok {
      return;
    }
    if mishap.CursorNotSaved? {
      ok := false;
      return;
    }
    cursors := cursors + [f.cursor];
    assert InBatches(|saved| + 1, |passing|) == |passing|;
  }

  lemma AllDone(p: Pipeline, start: nat, records: seq<User>, done: nat, e: Effects, saved: seq<nat>)
    requires SoFar(p, start, records, done, e, saved) && done == |Passing(p, records)|
    ensures e == OneByOne(p, start, records)
  {
    assert Passing(p, records)[..done] == Passing(p, records);
    OneByOneTakenApart(p, start, records);
  }

  method ReadOne(p: Pipeline, start: nat, ghost records: seq<User>, ghost done: nat, users: seq<User>, e: Effects,
                 ghost saved: seq<nat>, user: User)
    returns (waiting: seq<User>, f: Effects)
    requires Waiting(p, start, records, done, users, e, saved)
    ensures Waiting(p, start, records + [user], done, waiting, f, saved)
    ensures |users| <= |waiting| <= |users| + 1
  {
    var passes, receipt := ReceiveOne(p, user, e.receipt);
    waiting, f := users, e.(receipt := receipt);
    if !passes {
      StillWaiting(p, start, records, done, users, e, saved, user);
      return;
    }
    if user.updatedAt > f.cursor {
      f := f.(cursor := user.updatedAt);
    }
    waiting := waiting + [user];
    OneMoreWaiting(p, start, records, done, users, e, saved, user);
  }

  /** The last batch, which need not be full. */
  method Finish(p: Pipeline, start: nat, records: seq<User>, users: seq<User>, mishap: Mishap,
                e: Effects, saved: seq<nat>, ghost done: nat)
    returns (ok: bool, f: Effects, cursors: seq<nat>, ghost now: nat)
    requires Waiting(p, start, records, done, users, e, saved) && |users| < BATCH
    ensures SoFar(p, start, records, now, f, cursors)
    ensures ok <==> users == [] || mishap.Fine?
    ensures ok ==> f == OneByOne(p, start, records) && |cursors| == (|Passing(p, records)| + BATCH - 1) / BATCH
    ensures cursors == saved || (ok && users != [] && |cursors| == |saved| + 1)
  {
    ok, f, cursors, now := true, e, saved, done;
    if |users| > 0 {
      ok, f, cursors, now := Batch(p, start, records, users, mishap, e, saved, done);
      if !ok {
        return;
      }
    }
    AllDone(p, start, records, now, f, cursors);
  }

  /** Reads a record, and processes the batch that it fills. */
  method Next(p: Pipeline, start: nat, records: seq<User>, i: nat, ghost done: nat, users: seq<User>, e: Effects,
              saved: seq<nat>, mishap: Mishap)
    returns (ok: bool, waiting: seq<User>, f: Effects, cursors: seq<nat>, ghost now: nat)
    requires i < |records|
    requires Waiting(p, start, records[..i], done, users, e, saved) && |users| < BATCH
    ensures ok ==> Waiting(p, start, records[..i + 1], now, waiting, f, cursors) && |waiting| < BATCH
    ensures !ok ==> SoFar(p, start, records[..i + 1], now, f, cursors) && !mishap.Fine? && cursors == saved
    ensures cursors == saved || (|cursors| == |saved| + 1 && mishap.Fine?)
  {
    assert records[..i + 1] == records[..i] + [records[i]];
    waiting, f := ReadOne(p, start, records[..i], done, users, e, saved, records[i]);
    ok, cursors, now := true, saved, done;
    if |waiting| == BATCH {
      ok, f, cursors, now := Batch(p, start, records[..i + 1], waiting, mishap, f, saved, done);
      if !ok {
        return;
      }
      waiting := [];
    }
  }

  /** `mishaps` tells what happens to each batch, and `readFails` that reading ends with an error. `read` and `done`
      are how many records were read, and how many of those that pass were processed. */
  method Import(p: Pipeline, start: nat, records: seq<User>, readFails: bool, mishaps: nat -> Mishap)
    returns (ok: bool, e: Effects, saved: seq<nat>, ghost read: nat, ghost done: nat)
    ensures read <= |records| && SoFar(p, start, records[..read], done, e, saved)
    ensures ok ==> e == OneByOne(p, start, records)
    ensures ok ==> !readFails && |saved| == (|Passing(p, records)| + 99) / 100
    ensures ok ==> forall k: nat :: k < |saved| ==> mishaps(k).Fine?
    ensures !ok && !readFails ==> mishaps(|saved|) != Fine
  {
    var users: seq<User> := [];
    e, saved := Effects(NO_RECEIPT, NO_BATCHES, start), [];
    read, done := 0, 0;
    for i := 0 to |records|
      invariant read == i && Waiting(p, start, records[..i], done, users, e, saved) && |users| < BATCH
      invariant forall k: nat :: k < |saved| ==> mishaps(k).Fine?
    {
      read := i + 1;
      ok, users, e, saved, done := Next(p, start, records, i, done, users, e, saved, mishaps(|saved|));
      if !ok {
        return;
      }
    }
    assert records[..|records|] == records;
    if readFails {
      return false, e, saved, read, done;
    }
    ok, e, saved, done := Finish(p, start, records, users, mishaps(|saved|), e, saved, done);
  }

  // ---- What the counters and the cursor say ------------------------------------------------------------------------

  /** Every record gets into exactly one final counter, and the steps between add up. */
  lemma {:induction false} ReceiptBalances(p: Pipeline, users: seq<User>)
    ensures
      var r := ReceiveAll(p, users);
      var c := r.received;
      && c.receivePassed + c.receiveFailed == |users|
      && c.inputPassed + c.inputFailed == c.receivePassed
      && |r.kept| == c.receiveFailed + c.inputFailed
      && (if p.database then c.filterPassed == c.filterFailed == 0 else c.filterPassed + c.filterFailed == c.inputPassed)
      && |Passing(p, users)| + c.filterFailed == c.inputPassed
  {
    if users != [] { ReceiptBalances(p, users[..|users| - 1]); }
  }

  lemma {:induction false} BatchesBalance(p: Pipeline, passing: seq<User>)
    ensures
      var b := ProcessAll(p, passing);
      var c := b.processed;
      && c.transformationPassed + c.transformationFailed == |passing|
      && c.outputPassed + c.outputFailed == c.transformationPassed
      && c.consentPassed + c.consentFailed == c.outputPassed
      && |b.kept| == c.transformationFailed + c.outputFailed
      && |b.writes| == c.consentPassed
  {
    if passing != [] { BatchesBalance(p, passing[..|passing| - 1]); }
  }

  lemma {:induction false} EveryRecordIsCountedOnce(p: Pipeline, start: nat, users: seq<User>)
    ensures
      var e := OneByOne(p, start, users);
      var r, c := e.receipt.received, e.batches.processed;
      && |users| == r.receiveFailed + r.inputFailed + r.filterFailed
                    + c.transformationFailed + c.outputFailed + c.consentFailed + |e.batches.writes|
      && |Keeps(e)| == r.receiveFailed + r.inputFailed + c.transformationFailed + c.outputFailed
  {
    OneByOneTakenApart(p, start, users);
    ReceiptBalances(p, users);
    BatchesBalance(p, Passing(p, users));
  }

  /** The cursor is the greatest of where it started and of the times of the records that pass. */
  lemma {:induction false} CursorIsTheMaximum(start: nat, passing: seq<User>)
    ensures Cursor(start, passing) >= start
    ensures forall i :: 0 <= i < |passing| ==> Cursor(start, passing) >= passing[i].updatedAt
    ensures Cursor(start, passing) == start || exists i :: 0 <= i < |passing| && passing[i].updatedAt == Cursor(start, passing)
  {
    if passing != [] {
      var init := passing[..|passing| - 1];
      CursorIsTheMaximum(start, init);
      assert forall i :: 0 <= i < |init| ==> init[i] == passing[i];
    }
  }
}
