/**
 * Constants and the DLL reference counter of the current client
 * (crates/client/src/globals.rs).
 */
module Globals {
  import opened Ints
  import opened Wrappers
  import Ext = Extension

  /** The GUIDs, with the fields `GUID::from_u128` splits the 128-bit constants into. */
  const GUID_TEXT_SERVICE := Ext.Guid(0xffdefe79, 0x2fc2, 0x11ef, [0xb1, 0x6b, 0x94, 0xe7, 0x0b, 0x2c, 0x37, 0x8c])
  const GUID_PROFILE := Ext.Guid(0xffdefe7a, 0x2fc2, 0x11ef, [0xb1, 0x6b, 0x94, 0xe7, 0x0b, 0x2c, 0x37, 0x8c])
  const GUID_DISPLAY_ATTRIBUTE := Ext.Guid(0xffdefe7b, 0x2fc2, 0x11ef, [0xb1, 0x6b, 0x94, 0xe7, 0x0b, 0x2c, 0x37, 0x8c])

  /** The fixed cookie handed out for the language-bar item sink. */
  const TEXTSERVICE_LANGBARITEMSINK_COOKIE: U32 := 0

  /** The counter `add_ref` and `release` move: an atomic `usize`, which wraps. */
  class DllModule {
    var refCount: Usize
    var hinst: Option<nat>

    constructor ()
      ensures refCount == 0 && hinst == None && CanUnload()
    {
      refCount, hinst := 0, None;
    }

    /** `fetch_add(1)`: the count goes up by one; the value before is returned. */
    method AddRef() returns (previous: Usize)
      modifies this
      ensures previous == old(refCount) && refCount == WrapUsize(old(refCount) + 1)
      ensures hinst == old(hinst)
    {
      previous := refCount;
      refCount := WrapUsize(refCount + 1);
    }

    /** `fetch_sub(1)`: the count goes down by one; the value before is returned. */
    method Release() returns (previous: Usize)
      modifies this
      ensures previous == old(refCount) && refCount == WrapUsize(old(refCount) - 1)
      ensures hinst == old(hinst)
    {
      previous := refCount;
      refCount := WrapUsize(refCount - 1);
    }

    /** `ref_count <= 0` on an unsigned count: no reference is held. */
    predicate CanUnload(): (r: bool)
      reads this
      ensures r <==> refCount == 0
    {
      refCount <= 0
    }
  }

  datatype RefOp = AddRef | Release

  /** The count after a sequence of calls, starting from `count`. */
  function Apply(count: Usize, ops: seq<RefOp>): Usize
    decreases |ops|
  {
    if ops == [] then count
    else Apply(if ops[0] == AddRef then WrapUsize(count + 1) else WrapUsize(count - 1), ops[1..])
  }

  function Repeat(op: RefOp, n: nat): (r: seq<RefOp>)
    ensures |r| == n && forall i :: 0 <= i < n ==> r[i] == op
  {
    if n == 0 then [] else [op] + Repeat(op, n - 1)
  }

  lemma {:induction false} ApplyConcat(count: Usize, a: seq<RefOp>, b: seq<RefOp>)
    ensures Apply(count, a + b) == Apply(Apply(count, a), b)
    decreases |a|
  {
    if a == [] {
      assert a + b == b;
    } else {
      assert (a + b)[1..] == a[1..] + b;
      ApplyConcat(if a[0] == AddRef then WrapUsize(count + 1) else WrapUsize(count - 1), a[1..], b);
    }
  }

  lemma {:induction false} AddRefsCount(count: Usize, n: nat)
    ensures Apply(count, Repeat(AddRef, n)) == WrapUsize(count + n)
    decreases n
  {
    if n > 0 {
      AddRefsCount(WrapUsize(count + 1), n - 1);
    }
  }

  lemma {:induction false} ReleasesCount(count: Usize, n: nat)
    ensures Apply(count, Repeat(Release, n)) == WrapUsize(count - n)
    decreases n
  {
    if n > 0 {
      ReleasesCount(WrapUsize(count - 1), n - 1);
    }
  }

  /** Balanced references: `n` add_refs then `n` releases give the count back, so the DLL can unload again. */
  lemma BalancedRefsRestore(count: Usize, n: nat)
    ensures Apply(count, Repeat(AddRef, n) + Repeat(Release, n)) == count
    ensures count == 0 ==> Apply(count, Repeat(AddRef, n) + Repeat(Release, n)) <= 0
  {
    ApplyConcat(count, Repeat(AddRef, n), Repeat(Release, n));
    AddRefsCount(count, n);
    ReleasesCount(WrapUsize(count + n), n);
  }
}
