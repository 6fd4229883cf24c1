/** The one-shot migration that re-encrypts every credential still sealed under the all-zero
    key. It may stop after any row, and any row's transaction may fail. */
module Rekey {
  import opened Types

  type Key = seq<bv8>

  /** A stored blob. Opening one succeeds only under the key that sealed it, as authenticated
      encryption promises; the nonce makes two seals of one text differ. */
  datatype Blob = Sealed(key: Key, nonce: nat, plaintext: string) | Garbage(bytes: string)

  function Decrypt(key: Key, blob: Blob): Option<string>
  {
    if blob.Sealed? && blob.key == key then Some(blob.plaintext) else None
  }

  function Encrypt(key: Key, nonce: nat, plaintext: string): Blob
  {
    Sealed(key, nonce, plaintext)
  }

  /** How one row's transaction fares. A commit that reports an error may have taken effect
      all the same, and so may one cut off by a crash. */
  datatype Fault = NoFault | EncryptFails | BeginFails | UpdateFails | CommitFails(applied: bool)

  datatype Attempt = Attempt(fault: Fault, nonce: nat)

  datatype Outcome = ReKeyed | SkippedRow | ErroredRow

  datatype Counters = Counters(scanned: int, reKeyed: int, skipped: int, errored: int)

  /** The `account_credentials` table. */
  class Table {
    var blobs: map<string, Blob>

    constructor (blobs: map<string, Blob>)
      ensures this.blobs == blobs
    {
      this.blobs := blobs;
    }
  }

  function OutcomeOf(blob: Blob, zero: Key, fault: Fault): Outcome
  {
    if Decrypt(zero, blob).None? then SkippedRow else if fault == NoFault then ReKeyed else ErroredRow
  }

  /** The row once its transaction is over, one way or another. */
  function RowAfter(blob: Blob, zero: Key, current: Key, attempt: Attempt): Blob
  {
    match Decrypt(zero, blob)
    case None => blob
    case Some(plaintext) =>
      if attempt.fault == NoFault || attempt.fault == CommitFails(true)
      then Encrypt(current, attempt.nonce, plaintext) else blob
  }

  method RekeyOne(table: Table, id: string, blob: Blob, zero: Key, current: Key, attempt: Attempt)
    returns (outcome: Outcome)
    requires id in table.blobs && table.blobs[id] == blob
    modifies table
    ensures table.blobs == old(table.blobs)[id := RowAfter(blob, zero, current, attempt)]
    ensures outcome == OutcomeOf(blob, zero, attempt.fault)
    // A row is rewritten only if it opens under the zero key and its transaction commits, and the rewritten
    // row opens to the same text under the current key; it is reported re-keyed only if that is certain.
    ensures outcome == SkippedRow <==> Decrypt(zero, blob).None?
    ensures outcome == ReKeyed <==> Decrypt(zero, blob).Some? && attempt.fault == NoFault
    ensures Decrypt(zero, blob).Some? && (attempt.fault == NoFault || attempt.fault == CommitFails(true)) ==>
              Decrypt(current, table.blobs[id]) == Decrypt(zero, blob)
    ensures Decrypt(zero, blob).None? || (attempt.fault != NoFault && attempt.fault != CommitFails(true)) ==>
              table.blobs == old(table.blobs)
  {
    var text := Decrypt(zero, blob);
    if text.None? {
      assert table.blobs == table.blobs[id := blob];
      return SkippedRow;
    }
    assert table.blobs == table.blobs[id := blob];
    if attempt.fault == EncryptFails {
      return ErroredRow;
    }
    var newBlob := Encrypt(current, attempt.nonce, text.value);
    if attempt.fault == BeginFails || attempt.fault == UpdateFails {
      return ErroredRow;
    }
    if attempt.fault.CommitFails? {
      if attempt.fault.applied {
        table.blobs := table.blobs[id := newBlob];
      }
      return ErroredRow;
    }
    table.blobs := table.blobs[id := newBlob];
    return ReKeyed;
  }

  ghost predicate Lists(order: seq<string>, blobs: map<string, Blob>)
  {
    && (forall id :: id in order <==> id in blobs)
    && (forall i, j :: 0 <= i < j < |order| ==> order[i] != order[j])
  }

  /** The table after the first `n` rows of the scan. */
  function After(blobs: map<string, Blob>, order: seq<string>, zero: Key, current: Key, attempts: nat -> Attempt,
                 n: nat): map<string, Blob>
    requires n <= |order| && forall id :: id in order ==> id in blobs
  {
    if n == 0 then blobs
    else
      var id := order[n - 1];
      After(blobs, order, zero, current, attempts, n - 1)[id := RowAfter(blobs[id], zero, current, attempts(n - 1))]
  }

  function Count(cs: Counters, outcome: Outcome): Counters
  {
    match outcome
    case ReKeyed => cs.(scanned := cs.scanned + 1, reKeyed := cs.reKeyed + 1)
    case SkippedRow => cs.(scanned := cs.scanned + 1, skipped := cs.skipped + 1)
    case ErroredRow => cs.(scanned := cs.scanned + 1, errored := cs.errored + 1)
  }

  function CountersAfter(blobs: map<string, Blob>, order: seq<string>, zero: Key, attempts: nat -> Attempt,
                         n: nat): Counters
    requires n <= |order| && forall id :: id in order ==> id in blobs
  {
    if n == 0 then Counters(0, 0, 0, 0)
    else
      Count(CountersAfter(blobs, order, zero, attempts, n - 1),
            OutcomeOf(blobs[order[n - 1]], zero, attempts(n - 1).fault))
  }

  /** Reads every row first, in whatever order the query returns them, then re-keys them one
      transaction at a time. If the rows cannot all be read the run ends before it has touched
      any. */
  method RekeyAccountCredentials(
    table: Table, order: seq<string>, readable: bool, zero: Key, current: Key, attempts: nat -> Attempt)
    returns (cs: Counters, ok: bool)
    requires Lists(order, table.blobs)
    modifies table
    ensures ok == readable
    ensures !readable ==> table.blobs == old(table.blobs) && cs == Counters(0, 0, 0, 0)
    ensures readable ==> table.blobs == After(old(table.blobs), order, zero, current, attempts, |order|)
    ensures readable ==> cs == CountersAfter(old(table.blobs), order, zero, attempts, |order|)
  {
    cs, ok := Counters(0, 0, 0, 0), readable;
    if !readable {
      return;
    }
    var pending := table.blobs;
    for i := 0 to |order|
      invariant table.blobs == After(pending, order, zero, current, attempts, i)
      invariant cs == CountersAfter(pending, order, zero, attempts, i)
    {
      UntouchedYet(pending, order, zero, current, attempts, i);
      var outcome := RekeyOne(table, order[i], pending[order[i]], zero, current, attempts(i));
      cs := Count(cs, outcome);
    }
  }

  lemma {:induction false} AfterRow(blobs: map<string, Blob>, order: seq<string>, zero: Key, current: Key,
                                    attempts: nat -> Attempt, n: nat, k: nat)
    requires Lists(order, blobs) && k < |order| && n <= |order|
    ensures var after := After(blobs, order, zero, current, attempts, n);
            && after.Keys == blobs.Keys
            && after[order[k]]
               == if k < n then RowAfter(blobs[order[k]], zero, current, attempts(k)) else blobs[order[k]]
  {
    if n > 0 {
      AfterRow(blobs, order, zero, current, attempts, n - 1, k);
      assert order[n - 1] in order;
      assert order[n - 1] in blobs;
    }
  }

  lemma {:induction false} AfterKeys(blobs: map<string, Blob>, order: seq<string>, zero: Key, current: Key,
                                     attempts: nat -> Attempt, n: nat)
    requires n <= |order| && forall id :: id in order ==> id in blobs
    ensures After(blobs, order, zero, current, attempts, n).Keys == blobs.Keys
  {
    if n > 0 {
      AfterKeys(blobs, order, zero, current, attempts, n - 1);
      assert order[n - 1] in order;
    }
  }

  lemma UntouchedYet(blobs: map<string, Blob>, order: seq<string>, zero: Key, current: Key, attempts: nat -> Attempt,
                     n: nat)
    requires Lists(order, blobs) && n < |order|
    ensures var after := After(blobs, order, zero, current, attempts, n);
            order[n] in after && after[order[n]] == blobs[order[n]]
  {
    AfterRow(blobs, order, zero, current, attempts, n, n);
    assert order[n] in order;
  }

  /** A blob still yields this text, under one of the two keys. */
  predicate Readable(blob: Blob, zero: Key, current: Key, plaintext: string)
  {
    Decrypt(zero, blob) == Some(plaintext) || Decrypt(current, blob) == Some(plaintext)
  }

  /** Crash safety: stopping after any number of rows, whatever failed on the way, every row
      that could be read can still be read, to the same text; and a row that could not is as
      it was. */
  lemma CrashSafe(blobs: map<string, Blob>, order: seq<string>, zero: Key, current: Key,
                  attempts: nat -> Attempt, n: nat, id: string)
    requires Lists(order, blobs) && n <= |order| && id in blobs
    ensures var after := After(blobs, order, zero, current, attempts, n);
            && after.Keys == blobs.Keys
            && (forall p :: Readable(blobs[id], zero, current, p) ==> Readable(after[id], zero, current, p))
            && (|| after[id] == blobs[id]
                || exists p :: Decrypt(zero, blobs[id]) == Some(p) && Decrypt(current, after[id]) == Some(p))
  {
    assert id in order;
    var k :| 0 <= k < |order| && order[k] == id;
    AfterRow(blobs, order, zero, current, attempts, n, k);
  }

  lemma {:induction false} CountersAddUp(blobs: map<string, Blob>, order: seq<string>, zero: Key,
                                         attempts: nat -> Attempt, n: nat)
    requires Lists(order, blobs) && n <= |order|
    ensures var cs := CountersAfter(blobs, order, zero, attempts, n);
            && cs.scanned == n == cs.reKeyed + cs.skipped + cs.errored
            && cs.reKeyed >= 0 && cs.skipped >= 0 && cs.errored >= 0
            && (cs.errored == 0 <==> forall k :: 0 <= k < n ==>
                OutcomeOf(blobs[order[k]], zero, attempts(k).fault) != ErroredRow)
            && (cs.reKeyed == 0 <==> forall k :: 0 <= k < n ==>
                OutcomeOf(blobs[order[k]], zero, attempts(k).fault) != ReKeyed)
  {
    hide OutcomeOf;
    if n > 0 {
      CountersAddUp(blobs, order, zero, attempts, n - 1);
    }
  }

  ghost predicate AllUnder(blobs: map<string, Blob>, key: Key)
  {
    forall id :: id in blobs ==> Decrypt(key, blobs[id]).Some?
  }

  /** A run without errors leaves no row under the zero key, and leaves every row under the
      current key exactly when every row was under one of the two keys to begin with. A row that
      neither key opens is counted as skipped, not as an error. */
  lemma CleanRunRekeysAll(blobs: map<string, Blob>, order: seq<string>, zero: Key, current: Key,
                          attempts: nat -> Attempt)
    requires Lists(order, blobs) && zero != current
    requires CountersAfter(blobs, order, zero, attempts, |order|).errored == 0
    ensures var after := After(blobs, order, zero, current, attempts, |order|);
            && (forall id :: id in after ==> Decrypt(zero, after[id]).None?)
            && (AllUnder(after, current) <==>
                  forall id :: id in blobs ==> Decrypt(zero, blobs[id]).Some? || Decrypt(current, blobs[id]).Some?)
  {
    var after := After(blobs, order, zero, current, attempts, |order|);
    CountersAddUp(blobs, order, zero, attempts, |order|);
    AfterKeys(blobs, order, zero, current, attempts, |order|);
    forall id | id in blobs
      ensures id in after && Decrypt(zero, after[id]).None?
      ensures Decrypt(current, after[id]).Some? <==> Decrypt(zero, blobs[id]).Some? || Decrypt(current, blobs[id]).Some?
    {
      CrashSafe(blobs, order, zero, current, attempts, |order|, id);
      assert id in order;
      var k :| 0 <= k < |order| && order[k] == id;
      AfterRow(blobs, order, zero, current, attempts, |order|, k);
    }
  }

  lemma {:induction false} NothingToRekey(blobs: map<string, Blob>, order: seq<string>, zero: Key, current: Key,
                                          attempts: nat -> Attempt, n: nat)
    requires Lists(order, blobs) && n <= |order|
    requires forall id :: id in blobs ==> Decrypt(zero, blobs[id]).None?
    ensures After(blobs, order, zero, current, attempts, n) == blobs
    ensures CountersAfter(blobs, order, zero, attempts, n) == Counters(n, 0, n, 0)
  {
    if n > 0 {
      NothingToRekey(blobs, order, zero, current, attempts, n - 1);
      assert order[n - 1] in order;
    }
  }

  /** Idempotence: after a run without errors the next run, in any order and whatever would
      fail, re-keys nothing, errs on nothing and changes nothing. */
  lemma NextRunChangesNothing(blobs: map<string, Blob>, order: seq<string>, zero: Key, current: Key,
                              attempts: nat -> Attempt, again: seq<string>, later: nat -> Attempt)
    requires Lists(order, blobs) && zero != current
    requires CountersAfter(blobs, order, zero, attempts, |order|).errored == 0
    requires Lists(again, After(blobs, order, zero, current, attempts, |order|))
    ensures var after := After(blobs, order, zero, current, attempts, |order|);
            && After(after, again, zero, current, later, |again|) == after
            && CountersAfter(after, again, zero, later, |again|) == Counters(|again|, 0, |again|, 0)
  {
    CleanRunRekeysAll(blobs, order, zero, current, attempts);
    NothingToRekey(After(blobs, order, zero, current, attempts, |order|), again, zero, current, later, |again|);
  }

  /** A run that leaves a row under the zero key says so: it counts an error. */
  lemma ZeroRowsAreReported(blobs: map<string, Blob>, order: seq<string>, zero: Key, current: Key,
                            attempts: nat -> Attempt, id: string)
    requires Lists(order, blobs) && zero != current && id in blobs
    ensures var after := After(blobs, order, zero, current, attempts, |order|);
            id in after && (Decrypt(zero, after[id]).Some? ==>
              Decrypt(zero, blobs[id]).Some? && CountersAfter(blobs, order, zero, attempts, |order|).errored > 0)
  {
    CrashSafe(blobs, order, zero, current, attempts, |order|, id);
    CountersAddUp(blobs, order, zero, attempts, |order|);
    assert id in order;
    var k :| 0 <= k < |order| && order[k] == id;
    AfterRow(blobs, order, zero, current, attempts, |order|, k);
  }

  /** Compares two keys without stopping at the first difference. */
  method IsEqual(a: Key, b: Key) returns (same: bool)
    ensures same <==> a == b
  {
    if |a| != |b| {
      return false;
    }
    var diff: bv8 := 0;
    for i := 0 to |a|
      invariant diff == 0 <==> a[..i] == b[..i]
    {
      var d := a[i] ^ b[i];
      Differs(a[i], b[i], diff);
      assert a[..i + 1] == a[..i] + [a[i]] && b[..i + 1] == b[..i] + [b[i]];
      diff := diff | d;
    }
    assert a[..|a|] == a && b[..|b|] == b;
    return diff == 0;
  }

  lemma Differs(x: bv8, y: bv8, diff: bv8)
    ensures (diff | (x ^ y)) == 0 <==> diff == 0 && x == y
  {
  }

  /** The guarded run: it refuses to start when the current key is the zero key, and reports an
      error when the rows could not be read or a row erred. */
  method RunMigration(
    table: Table, order: seq<string>, readable: bool, zero: Key, current: Key, attempts: nat -> Attempt)
    returns (ok: bool)
    requires Lists(order, table.blobs)
    modifies table
    ensures zero == current || !readable ==> !ok && table.blobs == old(table.blobs)
    ensures ok ==> forall id :: id in table.blobs ==> Decrypt(zero, table.blobs[id]).None?
    ensures zero != current && readable ==>
              table.blobs == After(old(table.blobs), order, zero, current, attempts, |order|)
              && (ok <==> CountersAfter(old(table.blobs), order, zero, attempts, |order|).errored == 0)
  {
    var same := IsEqual(current, zero);
    if same {
      return false;
    }
    ghost var blobs := table.blobs;
    var cs, scanned := RekeyAccountCredentials(table, order, readable, zero, current, attempts);
    if !scanned {
      return false;
    }
    CountersAddUp(blobs, order, zero, attempts, |order|);
    if cs.errored > 0 {
      return false;
    }
    CleanRunRekeysAll(blobs, order, zero, current, attempts);
    return true;
  }
}
