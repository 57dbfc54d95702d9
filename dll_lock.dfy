/**
 * The DLL counter of the earlier revisions (src/globals.rs and ime/src/dll.rs,
 * which agree): a reference count that nothing changes after `new`, and a
 * lock count moved by `lock` and `unlock`. Both are `u32`; overflow is taken
 * to wrap, as in a release build.
 */
module DllLock {
  import opened Ints
  import opened HResults

  class DllModule {
    var refCount: U32
    var refLock: U32
    var hinst: nat

    constructor ()
      ensures refCount == 0 && refLock == 0 && hinst == 0 && CanUnload()
    {
      refCount, refLock, hinst := 0, 0, 0;
    }

    /** `lock`: one more lock; the new value is returned. */
    method Lock() returns (count: U32)
      modifies this
      ensures refLock == WrapU32(old(refLock) + 1) && count == refLock
      ensures refCount == old(refCount) && hinst == old(hinst)
    {
      refLock := WrapU32(refLock + 1);
      count := refLock;
    }

    /** `unlock`: one lock fewer; the new value is returned. */
    method Unlock() returns (count: U32)
      modifies this
      ensures refLock == WrapU32(old(refLock) - 1) && count == refLock
      ensures refCount == old(refCount) && hinst == old(hinst)
    {
      refLock := WrapU32(refLock - 1);
      count := refLock;
    }

    /** A lock followed by an unlock leaves the module as it was. */
    method LockThenUnlock() returns (locked: U32, unlocked: U32)
      modifies this
      ensures locked == WrapU32(old(refLock) + 1) && unlocked == old(refLock)
      ensures refLock == old(refLock) && refCount == old(refCount) && hinst == old(hinst)
    {
      locked := Lock();
      unlocked := Unlock();
    }

    predicate CanUnload()
      reads this
    {
      refCount == 0 && refLock == 0
    }
  }

  /**
   * `DllCanUnloadNow`: S_OK when the module can unload; every other outcome,
   * a held lock or a poisoned mutex (`lockAcquired` false), becomes S_FALSE.
   */
  function DllCanUnloadNow(dll: DllModule, lockAcquired: bool): (hr: HResult)
    reads dll
    ensures hr == S_OK <==> lockAcquired && dll.refCount == 0 && dll.refLock == 0
    ensures hr == S_OK || hr == S_FALSE
    ensures !Failed(hr)
  {
    if lockAcquired && dll.CanUnload() then S_OK else S_FALSE
  }
}
