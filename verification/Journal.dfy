/** A journal file that is replaced atomically: a write that fails leaves the old
contents or the new ones, never a mixture, and may have replaced the file even so. */
module JournalFile {
  import opened Wrappers

  class Journal<T> {
    var disk: Option<T>
    /** On a failing host, writes may fail and the process may die at any time. */
    const failing: bool
    /** How many writes have reported a failure. */
    ghost var failedWrites: nat

    constructor (disk: Option<T>, failing: bool)
      ensures this.disk == disk && this.failing == failing && failedWrites == 0
    {
      this.disk := disk;
      this.failing := failing;
      failedWrites := 0;
    }

    method WriteJson(payload: T) returns (ok: bool)
      modifies this
      ensures disk == old(disk) || disk == Some(payload)
      ensures ok ==> disk == Some(payload)
      ensures !failing ==> ok
      ensures failedWrites == old(failedWrites) + if ok then 0 else 1
    {
      var replaced: bool := *;
      var lost: bool := *;
      if replaced || !failing {
        disk := Some(payload);
      }
      ok := !failing || (replaced && !lost);
      failedWrites := failedWrites + if ok then 0 else 1;
    }

    /** Whether the process dies here, or a file beside the journal cannot be written. */
    method Stops() returns (stops: bool)
      ensures !failing ==> !stops
    {
      var any: bool := *;
      return any && failing;
    }
  }
}
