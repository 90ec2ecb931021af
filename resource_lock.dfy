/** `ResourceLock`: the process-wide table from a resource name to its
    read/write lock and the number of requests currently using it. The table
    is modelled sequentially; blocking between threads is not. */
module ResourceLocks {
  import opened Common

  /** A `ReentrantReadWriteLock` as the calling thread sees it: how many read
      holds and write holds that thread has on it. */
  class ReadWriteLock {
    var readHolds: nat
    var writeHolds: nat

    constructor()
      ensures readHolds == 0 && writeHolds == 0
    {
      readHolds, writeHolds := 0, 0;
    }

    method ReadLock()
      modifies this
      ensures readHolds == old(readHolds) + 1 && writeHolds == old(writeHolds)
    {
      readHolds := readHolds + 1;
    }

    /** Unlocking a lock the thread does not hold throws IllegalMonitorStateException. */
    method ReadUnlock()
      requires readHolds > 0
      modifies this
      ensures readHolds == old(readHolds) - 1 && writeHolds == old(writeHolds)
    {
      readHolds := readHolds - 1;
    }

    /** A thread holding the read lock that asks for the write lock waits
        forever: the lock cannot be upgraded. */
    method WriteLock()
      requires readHolds == 0
      modifies this
      ensures writeHolds == old(writeHolds) + 1 && readHolds == 0
    {
      writeHolds := writeHolds + 1;
    }

    method WriteUnlock()
      requires writeHolds > 0
      modifies this
      ensures writeHolds == old(writeHolds) - 1 && readHolds == old(readHolds)
    {
      writeHolds := writeHolds - 1;
    }
  }

  /** `ResourceLock.LockGroup`: a lock and its reference count. The group is
      private to the table and only ever reached through it, so it is kept
      there as a value. */
  datatype LockGroup = LockGroup(lock: ReadWriteLock, references: int)

  // ------------------------------------------------ the table as a value

  /** The reference counts after `obtainLocker(key)`. */
  function Obtained(t: map<string, int>, key: string): (r: map<string, int>)
    ensures key in r && r[key] == (if key in t then t[key] + 1 else 1)
    ensures forall k :: k != key ==> (k in r <==> k in t)
    ensures forall k :: k != key && k in t ==> r[k] == t[k]
  {
    if key in t then t[key := t[key] + 1] else t[key := 1]
  }

  /** The reference counts after `releaseLocker(key)`: one fewer, and the entry
      dropped when none is left. */
  function Released(t: map<string, int>, key: string): (r: map<string, int>)
    requires key in t
    ensures key in r <==> t[key] - 1 != 0
    ensures key in r ==> r[key] == t[key] - 1
    ensures forall k :: k != key ==> (k in r <==> k in t)
    ensures forall k :: k != key && k in t ==> r[k] == t[k]
  {
    if t[key] - 1 == 0 then t - {key} else t[key := t[key] - 1]
  }

  /** Every stored count is the number of obtains of that key not yet released. */
  ghost predicate Counts(t: map<string, int>, outstanding: multiset<string>) {
    (forall k :: k in t <==> k in outstanding)
    && (forall k :: k in t ==> t[k] == outstanding[k])
  }

  lemma ObtainKeepsCounts(t: map<string, int>, outstanding: multiset<string>, key: string)
    requires Counts(t, outstanding)
    ensures Counts(Obtained(t, key), outstanding + multiset{key})
  {
    var r, m := Obtained(t, key), outstanding + multiset{key};
    forall k | k in r
      ensures r[k] == m[k]
    {
      if k != key {
        assert k in t;
      }
    }
  }

  lemma ReleaseKeepsCounts(t: map<string, int>, outstanding: multiset<string>, key: string)
    requires Counts(t, outstanding) && key in outstanding
    ensures Counts(Released(t, key), outstanding - multiset{key})
  {
    var r, m := Released(t, key), outstanding - multiset{key};
    forall k
      ensures k in r <==> k in m
    {
      if k != key {
        assert k in r <==> k in t;
      }
    }
  }

  /** Under balanced use every stored count is at least 1. */
  lemma CountsArePositive(t: map<string, int>, outstanding: multiset<string>, key: string)
    requires Counts(t, outstanding) && key in t
    ensures t[key] >= 1
  {
    assert key in outstanding;
  }

  /** Releasing right after obtaining restores the table. */
  lemma ReleaseUndoesObtain(t: map<string, int>, key: string)
    requires key in t ==> t[key] != 0
    ensures Released(Obtained(t, key), key) == t
  {
    var r := Released(Obtained(t, key), key);
    assert forall k :: k in r <==> k in t;
  }

  /** The reference count of every entry. */
  ghost function RefCounts(locks: map<string, LockGroup>): map<string, int> {
    map k | k in locks :: locks[k].references
  }

  /** The table after `obtainLocker(key)`, where `lock` is the lock a new
      entry gets. */
  function ObtainedLocks(locks: map<string, LockGroup>, key: string, lock: ReadWriteLock): (r: map<string, LockGroup>)
    ensures RefCounts(r) == Obtained(RefCounts(locks), key)
    ensures key in r && r[key].lock == (if key in locks then locks[key].lock else lock)
    ensures forall k :: k != key ==> (k in r <==> k in locks)
    ensures forall k :: k != key && k in locks ==> r[k] == locks[k]
  {
    if key in locks then
      var g := locks[key].(references := locks[key].references + 1);
      assert RefCounts(locks[key := g]) == RefCounts(locks)[key := g.references];
      locks[key := g]
    else
      assert RefCounts(locks[key := LockGroup(lock, 1)]) == RefCounts(locks)[key := 1];
      locks[key := LockGroup(lock, 1)]
  }

  /** The table after `releaseLocker(key)`. */
  function ReleasedLocks(locks: map<string, LockGroup>, key: string): (r: map<string, LockGroup>)
    requires key in locks
    ensures RefCounts(r) == Released(RefCounts(locks), key)
    ensures key in r ==> r[key].lock == locks[key].lock
    ensures forall k :: k != key ==> (k in r <==> k in locks)
    ensures forall k :: k != key && k in locks ==> r[k] == locks[k]
  {
    var left := locks[key].references - 1;
    if left == 0 then
      assert RefCounts(locks - {key}) == RefCounts(locks) - {key};
      locks - {key}
    else
      var g := locks[key].(references := left);
      assert RefCounts(locks[key := g]) == RefCounts(locks)[key := g.references];
      locks[key := g]
  }

  // ------------------------------------------------ the registry

  /** The static `LOCKS` map. */
  class ResourceLock {
    var locks: map<string, LockGroup>
    /** The keys obtained and not yet released, counted with multiplicity. */
    ghost var outstanding: multiset<string>

    ghost predicate Valid()
      reads this
    {
      Counts(Table(), outstanding)
    }

    ghost function Table(): map<string, int>
      reads this
    {
      RefCounts(locks)
    }

    constructor()
      ensures Valid() && locks == map[] && outstanding == multiset{}
    {
      locks := map[];
      outstanding := multiset{};
    }

    /** `obtainLocker(key)`: the lock of an existing entry, which gains a
        reference, or a fresh lock in a new entry with one reference. */
    method ObtainLocker(key: string) returns (lock: ReadWriteLock)
      requires Valid()
      modifies this
      ensures Valid()
      ensures locks == ObtainedLocks(old(locks), key, lock)
      ensures Table() == Obtained(old(Table()), key)
      ensures outstanding == old(outstanding) + multiset{key}
      ensures key in old(locks) ==> lock == old(locks[key].lock)
      ensures key !in old(locks) ==> fresh(lock) && lock.readHolds == 0 && lock.writeHolds == 0
    {
      ObtainKeepsCounts(Table(), outstanding, key);
      if key in locks {
        lock := locks[key].lock;
      } else {
        lock := new ReadWriteLock();
      }
      locks := ObtainedLocks(locks, key, lock);
      outstanding := outstanding + multiset{key};
    }

    /** `releaseLocker(key)` for a key this caller obtained: one reference fewer,
        and the entry removed when it was the last one. */
    method ReleaseLocker(key: string)
      requires Valid() && key in outstanding
      modifies this
      ensures Valid()
      ensures key in old(locks) && locks == ReleasedLocks(old(locks), key)
      ensures Table() == Released(old(Table()), key)
      ensures outstanding == old(outstanding) - multiset{key}
    {
      ReleaseKeepsCounts(Table(), outstanding, key);
      locks := ReleasedLocks(locks, key);
      outstanding := outstanding - multiset{key};
    }
  }
}
