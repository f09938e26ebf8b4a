/** The resume checkpoint: completed chunk keys in memory and the file they are saved to now and then. */
module Checkpoints {
  import opened Text

  class Checkpoint {
    var completed: set<string>
    var dirty: bool
    var saved: Option<set<string>>  // the checkpoint file

    function Persisted(): set<string>
      reads this
    {
      if saved.Some? then saved.value else {}
    }

    /** Nothing is on disk that is not in memory, and a clean checkpoint is saved in full. */
    ghost predicate Valid()
      reads this
    {
      Persisted() <= completed && (!dirty ==> completed == Persisted())
    }

    /** loadCheckpoint: a missing or unreadable file gives an empty checkpoint. */
    constructor (file: Option<set<string>>)
      ensures Valid() && saved == file && completed == Persisted() && !dirty
    {
      saved, dirty := file, false;
      completed := if file.Some? then file.value else {};
    }

    predicate IsCompleted(key: string)
      reads this
    {
      key in completed
    }

    /** Marks are monotone; the save is throttled (`due`) and may fail (`writeOk`). */
    method MarkCompleted(key: string, due: bool, writeOk: bool)
      requires Valid()
      modifies this
      ensures Valid() && completed == old(completed) + {key}
      ensures saved == if key !in old(completed) && due && writeOk then Some(completed) else old(saved)
    {
      if key in completed {
        return;
      }
      completed := completed + {key};
      dirty := true;
      if due {
        SaveLocked(writeOk);
      }
    }

    method Flush(writeOk: bool)
      requires Valid()
      modifies this
      ensures Valid() && completed == old(completed)
      ensures writeOk ==> Persisted() == completed
      ensures !writeOk ==> saved == old(saved)
    {
      if dirty {
        SaveLocked(writeOk);
      }
    }

    /** WriteFileAtomic: the file is replaced as a whole or left alone. */
    method SaveLocked(writeOk: bool)
      requires Persisted() <= completed
      modifies this`saved, this`dirty
      ensures saved == (if writeOk then Some(completed) else old(saved)) && dirty == (old(dirty) && !writeOk)
    {
      if writeOk {
        saved := Some(completed);
        dirty := false;
      }
    }

    /** Removal after a completed download. */
    method Remove()
      modifies this`saved
      ensures saved == None
    {
      saved := None;
    }
  }
}
