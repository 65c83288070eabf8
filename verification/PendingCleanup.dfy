/**
 The cleanup of the pending file, against a directory in which anyone may create, replace
 or remove the pending file between any two operations. The quarantine name is drawn at
 random, so nobody else touches the file under it.
 */
module PendingCleanup {
  import opened Wrappers
  import opened BuyerPayment

  datatype CleanupResult = Cleaned | CleanupFailed

  class Directory {
    var pending: Option<File>
    var quarantine: Option<File>
    ghost var destroyed: seq<File>     // files this process has unlinked
    ghost var disturbances: nat        // changes by others, and operations that failed

    constructor (pending: Option<File>)
      ensures this.pending == pending && quarantine == None && destroyed == [] && disturbances == 0
    {
      this.pending := pending;
      quarantine := None;
      destroyed, disturbances := [], 0;
    }

    /** Anyone else changes the pending file, or nobody does. */
    method Intrude()
      modifies this`pending, this`disturbances
      ensures disturbances == old(disturbances) + (if pending == old(pending) then 0 else 1)
    {
      var other: Option<File> := *;
      if other != pending {
        pending, disturbances := other, disturbances + 1;
      }
    }

    /** Whether an operation of the file system fails. */
    method Fails() returns (fails: bool)
      modifies this`disturbances
      ensures disturbances == old(disturbances) + (if fails then 1 else 0)
    {
      fails := *;
      if fails {
        disturbances := disturbances + 1;
      }
    }

    /** Unless something has happened, the pending file is as it was. */
    static predicate Disturbed(before: Option<File>, after: Option<File>, count: nat, count': nat) {
      count <= count' && (count' == count ==> after == before)
    }

    /** rename(pending, quarantine): atomic; None when there is no pending file. */
    method Rename() returns (moved: Option<File>)
      requires quarantine == None
      modifies this`pending, this`quarantine, this`disturbances
      ensures moved == quarantine && pending == None
      ensures disturbances == old(disturbances) + (if moved == old(pending) then 0 else 1)
    {
      Intrude();
      moved := pending;
      quarantine := pending;
      pending := None;
    }

    method UnlinkQuarantine() returns (ok: bool)
      requires quarantine.Some?
      modifies this`pending, this`quarantine, this`destroyed, this`disturbances
      ensures Disturbed(old(pending), pending, old(disturbances), disturbances)
      ensures !ok ==> disturbances > old(disturbances)
      ensures quarantine == (if ok then None else old(quarantine))
      ensures destroyed == if ok then old(destroyed) + [old(quarantine.value)] else old(destroyed)
    {
      Intrude();
      var fails := Fails();
      ok := !fails;
      if ok {
        destroyed := destroyed + [quarantine.value];
        quarantine := None;
      }
    }

    /** link(quarantine, pending): fails when there is a pending file, and replaces none. */
    method LinkBack() returns (linked: bool)
      requires quarantine.Some?
      modifies this`pending, this`disturbances
      ensures linked ==> pending == quarantine
      ensures disturbances >= old(disturbances)
      ensures old(pending) == None && disturbances == old(disturbances) ==> linked
    {
      Intrude();
      var fails := Fails();
      linked := !fails && pending == None;
      if linked {
        pending := quarantine;
      }
    }

    /**
     The pending record of `job` is removed. Whatever else stood in its place is kept: under the
     quarantine name, and at its old place too when that was free. If nobody interferes and no
     operation fails, the record is gone afterwards, and anything else is where it was.
     */
    method QuarantineRemoveOwned(expected: Record, job: Job)
      returns (result: CleanupResult, ghost moved: Option<File>)
      requires quarantine == None
      modifies this
      ensures expected.bound != Some(job) ==> result == CleanupFailed && unchanged(this)
      ensures destroyed == old(destroyed) || destroyed == old(destroyed) + [Pending(expected)]
      ensures result == Cleaned ==> quarantine == None && (moved.Some? ==> destroyed == old(destroyed) + [moved.value])
      ensures result == CleanupFailed ==> destroyed == old(destroyed) && quarantine == moved
      ensures moved.Some? && moved != Some(Pending(expected)) ==> result == CleanupFailed
      ensures disturbances == old(disturbances) && expected.bound == Some(job) ==>
        && moved == old(pending)
        && (result == Cleaned <==> old(pending) == None || old(pending) == Some(Pending(expected)))
        && pending == if result == Cleaned then None else old(pending)
    {
      if expected.bound != Some(job) {
        return CleanupFailed, None;
      }
      var found := Rename();
      moved := found;
      if found == None {
        return Cleaned, None;
      }
      if quarantine == Some(Pending(expected)) {
        var ok := UnlinkQuarantine();
        if ok {
          return Cleaned, moved;
        }
      }
      var linked := LinkBack();
      result := CleanupFailed;
    }
  }
}
