/** FAutoDestroyWidgetPtrBase: a reference-counted holder of a widget that runs its
    destructor callback when the last reference is released. The callback itself is
    opaque here; the handle records each invocation, and the canvas that built the
    callback applies its effect (CanvasEntries.DetachHostedWidget). */
module AutoDestroyWidget {
  import opened WidgetTypes

  /** Whether a Release made while the reference count is `count` runs the destructor:
      only the release that finds the count at one does, and only if a destructor is set. */
  function InvokesDestructor(count: nat, hasDestructor: bool): bool {
    count == 1 && hasDestructor
  }

  /** For `n` successive releases starting from reference count `count`, whether each one
      runs the destructor. */
  function ReleaseTrace(count: nat, n: nat, hasDestructor: bool): (t: seq<bool>)
    requires n <= count
    ensures |t| == n
  {
    if n == 0 then []
    else [InvokesDestructor(count, hasDestructor)] + ReleaseTrace(count - 1, n - 1, hasDestructor)
  }

  /** Releasing every one of `count` references runs the destructor exactly once, on the
      last release, and a run of releases that stops short of the last never runs it. */
  lemma {:induction false} DestructorRunsOnLastReleaseOnly(count: nat, n: nat)
    requires 1 <= count && n <= count
    ensures forall k :: 0 <= k < n ==> (ReleaseTrace(count, n, true)[k] <==> k == count - 1)
  {
    if n > 0 {
      var t := ReleaseTrace(count, n, true);
      assert t == [count == 1] + ReleaseTrace(count - 1, n - 1, true);
      if count > 1 {
        DestructorRunsOnLastReleaseOnly(count - 1, n - 1);
        forall k | 1 <= k < n
          ensures t[k] <==> k == count - 1
        {
          assert t[k] == ReleaseTrace(count - 1, n - 1, true)[k - 1];
        }
      }
    }
  }

  /** The handle. It cannot be copied: Dafny objects are shared only by reference, and
      every holder of a reference accounts for one unit of `refCount`
      (TRefCountPtr<FAutoDestroyWidgetPtrBase>). `destructorCalls` counts the runs of the
      destructor callback; a count of zero means the object has been deleted. */
  class AutoDestroyWidgetPtrBase {
    /** The widget that operator-> returns; a const, so reading it changes nothing. */
    const widget: WidgetId
    /** Whether the stored TFunction is bound. */
    const hasDestructor: bool
    var refCount: nat
    var destructorCalls: nat

    /** The destructor has run exactly once if the object is gone (and has one), never before. */
    ghost predicate Valid()
      reads this
    {
      destructorCalls == (if refCount == 0 && hasDestructor then 1 else 0)
    }

    /** MakeRefCount: construct with the given widget and destructor, and hand out the first
        reference. */
    constructor (widget: WidgetId, hasDestructor: bool)
      ensures this.widget == widget && this.hasDestructor == hasDestructor
      ensures refCount == 1 && destructorCalls == 0
      ensures Valid()
    {
      this.widget := widget;
      this.hasDestructor := hasDestructor;
      refCount := 1;
      destructorCalls := 0;
    }

    /** Copying a TRefCountPtr adds a reference to a live object. The canvas never copies
        an entry's handle (each entry holds its pointer alone), so only code outside the
        canvas, not part of this model, would call this. */
    method AddRef()
      requires Valid() && refCount >= 1
      modifies this
      ensures refCount == old(refCount) + 1 && destructorCalls == old(destructorCalls)
      ensures Valid()
    {
      refCount := refCount + 1;
    }

    /** Drops one reference; the destructor runs only when this was the last one. */
    method Release() returns (remaining: nat, invoked: bool)
      requires Valid() && refCount >= 1
      modifies this
      ensures invoked == InvokesDestructor(old(refCount), hasDestructor)
      ensures refCount == old(refCount) - 1 && remaining == refCount
      ensures destructorCalls == old(destructorCalls) + (if invoked then 1 else 0)
      ensures Valid()
    {
      invoked := false;
      if refCount == 1 {
        if hasDestructor {
          invoked := true;
          destructorCalls := destructorCalls + 1;
        }
      }
      refCount := refCount - 1;
      remaining := refCount;
    }
  }
}
