/** The collection of non-delivery records as a keyed set: a record is its
    own key (name, owner, day).  Two routes change it: the batch route that
    inserts or deletes one record per entry and counts what it did, and the
    daily job that records today as a non-delivery day for every paused
    customer. */
module UndeliveredStore {
  import opened Wrappers
  import opened Dates
  import opened Records

  /** One entry of `customersToSave`. */
  datatype SaveEntry = SaveEntry(name: string, ownerEmail: string, dateNotDelivered: Date, isDelivered: bool)

  function EntryKey(e: SaveEntry): NonDeliveryRecord {
    NonDeliveryRecord(e.name, e.ownerEmail, e.dateNotDelivered)
  }

  /** The schema of models/Undelivered.js: both strings are required, so
      neither may be empty. */
  predicate RecordValid(r: NonDeliveryRecord) {
    |r.name| > 0 && |r.ownerEmail| > 0
  }

  /** The keys held by a sequence of records. */
  function KeySet(s: seq<NonDeliveryRecord>): set<NonDeliveryRecord> {
    set r | r in s
  }

  predicate NoDuplicates(s: seq<NonDeliveryRecord>) {
    forall i, j :: 0 <= i < j < |s| ==> s[i] != s[j]
  }

  // ---------------------------------------------------------------------
  // The batch route, on key sets

  /** What one entry does to the key set: a delivered day loses its record,
      an undelivered day gains one. */
  function Step(keys: set<NonDeliveryRecord>, e: SaveEntry): set<NonDeliveryRecord> {
    if e.isDelivered then keys - {EntryKey(e)} else keys + {EntryKey(e)}
  }

  function ApplyBatch(keys: set<NonDeliveryRecord>, batch: seq<SaveEntry>): set<NonDeliveryRecord> {
    if batch == [] then keys else Step(ApplyBatch(keys, batch[..|batch| - 1]), batch[|batch| - 1])
  }

  /** `savedCount`: entries that inserted a record that was not there. */
  function Saved(keys: set<NonDeliveryRecord>, batch: seq<SaveEntry>): nat {
    if batch == [] then 0
    else
      var e := batch[|batch| - 1];
      Saved(keys, batch[..|batch| - 1])
      + (if !e.isDelivered && EntryKey(e) !in ApplyBatch(keys, batch[..|batch| - 1]) then 1 else 0)
  }

  /** `removedCount`: entries that deleted a record that was there. */
  function Removed(keys: set<NonDeliveryRecord>, batch: seq<SaveEntry>): nat {
    if batch == [] then 0
    else
      var e := batch[|batch| - 1];
      Removed(keys, batch[..|batch| - 1])
      + (if e.isDelivered && EntryKey(e) in ApplyBatch(keys, batch[..|batch| - 1]) then 1 else 0)
  }

  /** An entry whose insert the schema refuses. */
  predicate Rejected(e: SaveEntry) {
    !e.isDelivered && !RecordValid(EntryKey(e))
  }

  /** The first entry whose insert fails; the route stops there with 500,
      keeping what the earlier entries did. */
  function FirstRejected(batch: seq<SaveEntry>): (r: Option<nat>)
    ensures r.Some? ==> r.value < |batch| && Rejected(batch[r.value])
                        && forall j :: 0 <= j < r.value ==> !Rejected(batch[j])
    ensures r.None? ==> forall j :: 0 <= j < |batch| ==> !Rejected(batch[j])
  {
    if batch == [] then None
    else if Rejected(batch[0]) then Some(0)
    else match FirstRejected(batch[1..])
      case None => None
      case Some(i) => Some(i + 1)
  }
  /** Where the route stops with 500: at the entry whose store call throws
      (`faultAt`), or at the first entry the schema refuses, whichever comes
      first; none when every entry goes through. */
  function StopAt(batch: seq<SaveEntry>, faultAt: Option<nat>): (r: Option<nat>)
    ensures r.Some? ==> r.value < |batch| && (faultAt == Some(r.value) || Rejected(batch[r.value]))
    ensures r.Some? ==> (forall j :: 0 <= j < r.value ==> !Rejected(batch[j])) && (faultAt.None? || faultAt.value >= r.value)
    ensures r.None? <==> FirstRejected(batch).None? && (faultAt.None? || faultAt.value >= |batch|)
  {
    if faultAt.Some? && faultAt.value < |batch| && (FirstRejected(batch).None? || faultAt.value < FirstRejected(batch).value)
    then faultAt
    else FirstRejected(batch)
  }


  /** The last entry of the batch for key `k`, if any. */
  function LastFor(batch: seq<SaveEntry>, k: NonDeliveryRecord): (r: Option<SaveEntry>)
    ensures r.Some? ==> r.value in batch && EntryKey(r.value) == k
    ensures r.None? ==> forall e :: e in batch ==> EntryKey(e) != k
  {
    if batch == [] then None
    else
      var front, last := batch[..|batch| - 1], batch[|batch| - 1];
      assert batch == front + [last];
      if EntryKey(last) == k then Some(last) else LastFor(front, k)
  }

  /** After the batch, a mentioned key is present exactly when its last
      entry said "not delivered"; an unmentioned key is as it was. */
  lemma {:induction false} LastEntryDecides(keys: set<NonDeliveryRecord>, batch: seq<SaveEntry>, k: NonDeliveryRecord)
    ensures LastFor(batch, k).Some? ==> (k in ApplyBatch(keys, batch) <==> !LastFor(batch, k).value.isDelivered)
    ensures LastFor(batch, k).None? ==> (k in ApplyBatch(keys, batch) <==> k in keys)
  {
    if batch != [] {
      LastEntryDecides(keys, batch[..|batch| - 1], k);
    }
  }

  /** Sending the same batch again changes nothing. */
  lemma ReplayIdempotent(keys: set<NonDeliveryRecord>, batch: seq<SaveEntry>)
    ensures ApplyBatch(ApplyBatch(keys, batch), batch) == ApplyBatch(keys, batch)
  {
    var once := ApplyBatch(keys, batch);
    forall k ensures k in ApplyBatch(once, batch) <==> k in once {
      LastEntryDecides(keys, batch, k);
      LastEntryDecides(once, batch, k);
    }
  }

  /** Each entry changes at most one record. */
  lemma {:induction false} CountsBounded(keys: set<NonDeliveryRecord>, batch: seq<SaveEntry>)
    ensures Saved(keys, batch) + Removed(keys, batch) <= |batch|
  {
    if batch != [] {
      CountsBounded(keys, batch[..|batch| - 1]);
    }
  }

  /** No two entries of the batch share a key. */
  predicate DistinctKeys(batch: seq<SaveEntry>) {
    forall i, j :: 0 <= i < j < |batch| ==> EntryKey(batch[i]) != EntryKey(batch[j])
  }

  lemma {:induction false} LastForDistinct(batch: seq<SaveEntry>, n: nat)
    requires DistinctKeys(batch) && n < |batch|
    ensures LastFor(batch, EntryKey(batch[n])) == Some(batch[n])
  {
    if n < |batch| - 1 {
      var front := batch[..|batch| - 1];
      assert EntryKey(batch[|batch| - 1]) != EntryKey(batch[n]);
      assert front[n] == batch[n];
      LastForDistinct(front, n);
    }
  }

  /** Replaying a batch whose keys are distinct reports nothing saved and
      nothing removed (the first `n` entries of the replay). */
  lemma {:induction false} ReplayPrefixCountsZero(keys: set<NonDeliveryRecord>, batch: seq<SaveEntry>, n: nat)
    requires DistinctKeys(batch) && n <= |batch|
    ensures Saved(ApplyBatch(keys, batch), batch[..n]) == 0
    ensures Removed(ApplyBatch(keys, batch), batch[..n]) == 0
  {
    if n > 0 {
      var once := ApplyBatch(keys, batch);
      var e := batch[n - 1];
      var k := EntryKey(e);
      assert batch[..n][..n - 1] == batch[..n - 1];
      ReplayPrefixCountsZero(keys, batch, n - 1);
      LastEntryDecides(once, batch[..n - 1], k);
      assert LastFor(batch[..n - 1], k).None? by {
        forall x | x in batch[..n - 1] ensures EntryKey(x) != k {
          var j :| 0 <= j < n - 1 && batch[..n - 1][j] == x;
          assert batch[j] == x;
        }
      }
      LastEntryDecides(keys, batch, k);
      LastForDistinct(batch, n - 1);
    }
  }

  lemma ReplayCountsZero(keys: set<NonDeliveryRecord>, batch: seq<SaveEntry>)
    requires DistinctKeys(batch)
    ensures Saved(ApplyBatch(keys, batch), batch) == 0 && Removed(ApplyBatch(keys, batch), batch) == 0
  {
    ReplayPrefixCountsZero(keys, batch, |batch|);
    assert batch[..|batch|] == batch;
  }

  /** With a repeated key the replay counts again: "not delivered" then
      "delivered" for one day inserts and deletes on every run. */
  lemma ReplayWithRepeatedKeyCountsAgain(k: NonDeliveryRecord)
    ensures var batch := [SaveEntry(k.name, k.ownerEmail, k.dateNotDelivered, false),
                          SaveEntry(k.name, k.ownerEmail, k.dateNotDelivered, true)];
            && ApplyBatch({}, batch) == {}
            && Saved(ApplyBatch({}, batch), batch) == 1
            && Removed(ApplyBatch({}, batch), batch) == 1
  {
    var batch := [SaveEntry(k.name, k.ownerEmail, k.dateNotDelivered, false),
                  SaveEntry(k.name, k.ownerEmail, k.dateNotDelivered, true)];
    var once := ApplyBatch({}, batch);
    assert batch[..1] == [batch[0]] && batch[..1][..0] == [];
    assert ApplyBatch({}, batch[..1]) == {k};
    assert once == {};
    assert ApplyBatch(once, batch[..1]) == {k};
    assert Saved(once, batch[..1]) == 1;
    assert Removed(once, batch[..1]) == 0;
  }

  // ---------------------------------------------------------------------
  // The daily job, on key sets

  function CronKey(p: PausedCustomer, today: Date): NonDeliveryRecord {
    NonDeliveryRecord(p.name, p.ownerEmail, today)
  }

  function CronKeys(paused: seq<PausedCustomer>, today: Date): set<NonDeliveryRecord> {
    set p | p in paused :: CronKey(p, today)
  }

  lemma RemoveAtKeys(s: seq<NonDeliveryRecord>, j: nat)
    requires NoDuplicates(s) && j < |s|
    ensures NoDuplicates(s[..j] + s[j + 1..])
    ensures forall r :: r in s[..j] + s[j + 1..] ==> r in s
    ensures KeySet(s[..j] + s[j + 1..]) == KeySet(s) - {s[j]}
  {
    var t := s[..j] + s[j + 1..];
    forall i | 0 <= i < |t| ensures t[i] == if i < j then s[i] else s[i + 1] {
    }
    forall r | r in s && r != s[j] ensures r in t {
      var i :| 0 <= i < |s| && s[i] == r;
      if i < j { assert t[i] == r; } else { assert t[i - 1] == r; }
    }
  }

  lemma AppendNewKey(s: seq<NonDeliveryRecord>, k: NonDeliveryRecord)
    requires NoDuplicates(s) && k !in s
    ensures NoDuplicates(s + [k])
    ensures forall r :: r in s + [k] <==> r in s || r == k
    ensures KeySet(s + [k]) == KeySet(s) + {k}
  {
  }

  lemma CronKeysSnoc(paused: seq<PausedCustomer>, i: nat, today: Date)
    requires i < |paused|
    ensures CronKeys(paused[..i + 1], today) == CronKeys(paused[..i], today) + {CronKey(paused[i], today)}
  {
    assert paused[..i + 1] == paused[..i] + [paused[i]];
  }

  /** The cron loop's invariant one paused customer further: `after` is the
      collection once that customer's key was looked up and, if missing,
      appended; `added` grows by the appended record, if any. */
  lemma CronStep(records0: seq<NonDeliveryRecord>, added: seq<NonDeliveryRecord>, after: seq<NonDeliveryRecord>,
                 paused: seq<PausedCustomer>, i: nat, today: Date) returns (added': seq<NonDeliveryRecord>)
    requires i < |paused|
    requires KeySet(records0 + added) == KeySet(records0) + CronKeys(paused[..i], today)
    requires forall r :: r in added ==> r.dateNotDelivered == today
    requires CronKeys(paused, today) <= KeySet(records0) ==> added == []
    requires var k := CronKey(paused[i], today);
             after == if k in KeySet(records0 + added) then records0 + added else records0 + added + [k]
    ensures after == records0 + added'
    ensures KeySet(after) == KeySet(records0) + CronKeys(paused[..i + 1], today)
    ensures forall r :: r in added' ==> r.dateNotDelivered == today
    ensures CronKeys(paused, today) <= KeySet(records0) ==> added' == []
  {
    var k := CronKey(paused[i], today);
    CronKeysSnoc(paused, i, today);
    assert k in CronKeys(paused, today);
    if k in KeySet(records0 + added) {
      added' := added;
    } else {
      added' := added + [k];
      assert after == records0 + added';
      assert KeySet(after) == KeySet(records0 + added) + {k};
    }
  }

  /** The batch loop's invariant one accepted entry further: the key set
      and both counts after the entry are those of the longer prefix. */
  lemma BatchStep(keys: set<NonDeliveryRecord>, batch: seq<SaveEntry>, i: nat, before: set<NonDeliveryRecord>, after: set<NonDeliveryRecord>,
                  savedCount: nat, removedCount: nat, saved: bool, removed: bool)
    requires i < |batch| && !Rejected(batch[i])
    requires forall j :: 0 <= j < i ==> !Rejected(batch[j])
    requires before == ApplyBatch(keys, batch[..i]) && after == Step(before, batch[i])
    requires savedCount == Saved(keys, batch[..i]) && removedCount == Removed(keys, batch[..i])
    requires saved <==> !batch[i].isDelivered && EntryKey(batch[i]) !in before
    requires removed <==> batch[i].isDelivered && EntryKey(batch[i]) in before
    ensures after == ApplyBatch(keys, batch[..i + 1])
    ensures savedCount + (if saved then 1 else 0) == Saved(keys, batch[..i + 1])
    ensures removedCount + (if removed then 1 else 0) == Removed(keys, batch[..i + 1])
    ensures forall j :: 0 <= j < i + 1 ==> !Rejected(batch[j])
  {
    BatchSnoc(keys, batch, i);
  }

  /** The specification functions one entry further. */
  lemma BatchSnoc(keys: set<NonDeliveryRecord>, batch: seq<SaveEntry>, i: nat)
    requires i < |batch|
    ensures var before, e := ApplyBatch(keys, batch[..i]), batch[i];
            && ApplyBatch(keys, batch[..i + 1]) == Step(before, e)
            && Saved(keys, batch[..i + 1]) == Saved(keys, batch[..i]) + (if !e.isDelivered && EntryKey(e) !in before then 1 else 0)
            && Removed(keys, batch[..i + 1]) == Removed(keys, batch[..i]) + (if e.isDelivered && EntryKey(e) in before then 1 else 0)
  {
    assert batch[..i + 1][..i] == batch[..i];
  }

  /** The non-delivery collection. */
  class UndeliveredCollection {
    var records: seq<NonDeliveryRecord>

    ghost predicate Valid()
      reads this
    {
      NoDuplicates(records) && forall r :: r in records ==> RecordValid(r)
    }

    function Keys(): set<NonDeliveryRecord>
      reads this
    {
      KeySet(records)
    }

    constructor ()
      ensures records == [] && Valid()
    {
      records := [];
    }

    /** `Undelivered.findOne(key)`. */
    method Find(k: NonDeliveryRecord) returns (found: Option<nat>)
      ensures found.Some? ==> found.value < |records| && records[found.value] == k
      ensures found.None? ==> k !in records
    {
      var i := 0;
      while i < |records|
        invariant 0 <= i <= |records|
        invariant k !in records[..i]
      {
        if records[i] == k {
          return Some(i);
        }
        assert records[..i + 1] == records[..i] + [records[i]];
        i := i + 1;
      }
      assert records[..i] == records;
      return None;
    }

    /** `new Undelivered(k).save()` for a key that is not stored yet. */
    method Insert(k: NonDeliveryRecord)
      requires Valid() && k !in records && RecordValid(k)
      modifies this
      ensures Valid() && records == old(records) + [k] && Keys() == old(Keys()) + {k}
    {
      AppendNewKey(records, k);
      records := records + [k];
    }

    /** `Undelivered.deleteOne` of the record at position `j`. */
    method DeleteAt(j: nat)
      requires Valid() && j < |records|
      modifies this
      ensures Valid() && Keys() == old(Keys()) - {old(records)[j]}
    {
      RemoveAtKeys(records, j);
      records := records[..j] + records[j + 1..];
    }

    /** One pass of the batch loop: look the entry's key up, then insert or
        delete it.  An insert the schema refuses changes nothing. */
    method ApplyEntry(e: SaveEntry) returns (saved: bool, removed: bool, rejected: bool)
      requires Valid()
      modifies this
      ensures Valid()
      ensures rejected <==> Rejected(e)
      ensures rejected ==> records == old(records)
      ensures !rejected ==> Keys() == Step(old(Keys()), e)
      ensures saved <==> !rejected && !e.isDelivered && EntryKey(e) !in old(Keys())
      ensures removed <==> e.isDelivered && EntryKey(e) in old(Keys())
    {
      var k := EntryKey(e);
      var found := Find(k);
      saved, removed, rejected := false, false, false;
      if !e.isDelivered {
        if found.None? {
          if !RecordValid(k) {
            return false, false, true;
          }
          Insert(k);
          saved := true;
        } else {
          assert k in records;
        }
      } else {
        if found.Some? {
          DeleteAt(found.value);
          removed := true;
        }
      }
    }

    /** The batch route's `POST`.  `customersToSave` is `None` when the
        body's field is not an array; `faultAt` is the entry, if any, at
        which a call to the store throws before changing anything. */
    method SaveUndelivered(customersToSave: Option<seq<SaveEntry>>, faultAt: Option<nat>) returns (status: int, savedCount: nat, removedCount: nat)
      requires Valid()
      modifies this
      ensures Valid()
      ensures customersToSave.None? ==> status == 400 && records == old(records) && savedCount == 0 && removedCount == 0
      ensures customersToSave.Some? && StopAt(customersToSave.value, faultAt).None? ==>
                && status == 200
                && Keys() == ApplyBatch(old(Keys()), customersToSave.value)
                && savedCount == Saved(old(Keys()), customersToSave.value)
                && removedCount == Removed(old(Keys()), customersToSave.value)
      ensures customersToSave.Some? && StopAt(customersToSave.value, faultAt).Some? ==>
                && status == 500 && savedCount == 0 && removedCount == 0
                && Keys() == ApplyBatch(old(Keys()), customersToSave.value[..StopAt(customersToSave.value, faultAt).value])
    {
      if customersToSave.None? {
        return 400, 0, 0;
      }
      var batch := customersToSave.value;
      ghost var keys0 := Keys();
      savedCount, removedCount := 0, 0;
      var i := 0;
      while i < |batch|
        invariant 0 <= i <= |batch|
        invariant Valid()
        invariant Keys() == ApplyBatch(keys0, batch[..i])
        invariant savedCount == Saved(keys0, batch[..i]) && removedCount == Removed(keys0, batch[..i])
        invariant forall j :: 0 <= j < i ==> !Rejected(batch[j])
        invariant faultAt.None? || faultAt.value >= i
      {
        if faultAt == Some(i) {
          assert StopAt(batch, faultAt) == Some(i);
          return 500, 0, 0;
        }
        ghost var before := Keys();
        var saved, removed, rejected := ApplyEntry(batch[i]);
        if rejected {
          assert FirstRejected(batch) == Some(i);
          assert StopAt(batch, faultAt) == Some(i);
          return 500, 0, 0;
        }
        BatchStep(keys0, batch, i, before, Keys(), savedCount, removedCount, saved, removed);
        savedCount := savedCount + (if saved then 1 else 0);
        removedCount := removedCount + (if removed then 1 else 0);
        i := i + 1;
      }
      assert batch[..i] == batch;
      status := 200;
    }

    /** `findOne` on the key, then `create` when nothing was found. */
    method EnsureKey(k: NonDeliveryRecord)
      requires Valid() && RecordValid(k)
      modifies this
      ensures Valid()
      ensures Keys() == old(Keys()) + {k}
      ensures records == if k in old(Keys()) then old(records) else old(records) + [k]
    {
      var found := Find(k);
      if found.None? {
        Insert(k);
      }
    }

    /** The daily job's `GET`: today's record for every paused customer,
        inserted only when missing.  Stored paused customers satisfy their
        own schema, so their names and owners are not empty. */
    method RunCron(paused: seq<PausedCustomer>, today: Date)
      requires Valid()
      requires forall p :: p in paused ==> RecordValid(CronKey(p, today))
      modifies this
      ensures Valid()
      ensures Keys() == old(Keys()) + CronKeys(paused, today)
      ensures |records| >= |old(records)| && records[..|old(records)|] == old(records)
      ensures forall j :: |old(records)| <= j < |records| ==> records[j].dateNotDelivered == today
      ensures CronKeys(paused, today) <= old(Keys()) ==> records == old(records)
    {
      ghost var records0 := records;
      ghost var added: seq<NonDeliveryRecord> := [];
      var i := 0;
      while i < |paused|
        invariant 0 <= i <= |paused|
        invariant Valid()
        invariant Keys() == KeySet(records0) + CronKeys(paused[..i], today)
        invariant records == records0 + added
        invariant forall r :: r in added ==> r.dateNotDelivered == today
        invariant CronKeys(paused, today) <= KeySet(records0) ==> added == []
      {
        EnsureKey(CronKey(paused[i], today));
        added := CronStep(records0, added, records, paused, i, today);
        i := i + 1;
      }
      assert paused[..i] == paused;
      assert records[..|records0|] == records0;
    }

    /** Running the daily job a second time on the same day changes nothing:
        every paused customer already has today's record. */
    method RunCronTwice(paused: seq<PausedCustomer>, today: Date) returns (ghost afterFirst: seq<NonDeliveryRecord>)
      requires Valid()
      requires forall p :: p in paused ==> RecordValid(CronKey(p, today))
      modifies this
      ensures Valid()
      ensures Keys() == old(Keys()) + CronKeys(paused, today)
      ensures records == afterFirst
    {
      RunCron(paused, today);
      afterFirst := records;
      RunCron(paused, today);
    }
  }
}
