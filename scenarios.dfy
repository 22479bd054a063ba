/**
 * Lifetimes of strong and weak handles, followed step by step through the
 * operations of `Ownership`: each method states the counts and states that the
 * handles observe along the way.
 */
module OwnershipScenarios {
  import opened Wrappers
  import opened Ownership

  /** A made object shared by a copy: the count goes 1, 2 and back to 1, and the object stays alive. */
  method CopyThenRelease(at: Addr) returns (made: int, shared: int, released: int, alive: bool)
    requires at != Null
    ensures made == 1 && shared == 2 && released == 1 && alive
  {
    var first := MakeShared(at);
    made := first.UseCount();
    var second := new SharedPtr.Copy(first);
    shared := second.UseCount();
    second.Reset();
    released := first.UseCount();
    alive := first.block.Exists();
  }

  /**
   * A weak handle outlives the only strong handle: it turns expired, locking
   * it yields an empty handle, the block stays allocated until the weak handle
   * lets go, and is freed then.
   */
  method ObserveExpiry(at: Addr) returns (before: bool, after: bool, locked: Addr, kept: bool, freed: bool)
    requires at != Null
    ensures !before && after && locked == Null && kept && freed
  {
    var owner := MakeShared(at);
    var observer := new WeakPtr.FromShared(owner);
    var b := owner.block;
    before := observer.Expired();
    owner.Reset();
    assert observer.block == b && observer in b.observers && b.Valid();
    after := observer.Expired();
    var attempt := observer.Lock();
    locked := attempt.Get();
    kept := !b.freed;
    observer.Reset();
    freed := b.freed;
  }

  /** An aliasing handle keeps the whole object alive after the original owner is reset. */
  method AliasOutlivesOwner(whole: Addr, part: Addr) returns (target: Addr, count: int, alive: bool)
    requires whole != Null
    ensures target == part && count == 1 && alive
  {
    var owner := new SharedPtr.FromPointer(whole);
    var alias := new SharedPtr.Alias(owner, part);
    owner.Reset();
    target := alias.Get();
    count := alias.UseCount();
    alive := alias.block.Exists();
  }

  /** Promoting a weak handle whose object is gone fails with `BadWeakPtr`, and the count stays 0. */
  method PromoteExpired(at: Addr) returns (failed: bool, count: int)
    requires at != Null
    ensures failed && count == 0
  {
    var owner := new SharedPtr.FromPointer(at);
    var observer := new WeakPtr.FromShared(owner);
    var b := owner.block;
    owner.Reset();
    assert observer.block == b && observer in b.observers && b.Valid();
    var r := SharedPtr.Promote(observer);
    failed := r.Failure? && r.error == BadWeakPtr;
    count := observer.UseCount();
  }

  /** Moving a handle transfers ownership without touching the count; the source is left empty. */
  method MoveKeepsCount(at: Addr) returns (count: int, sourceEmpty: bool, target: Addr)
    requires at != Null
    ensures count == 1 && sourceEmpty && target == at
  {
    var first := MakeShared(at);
    var second := new SharedPtr.Move(first);
    count := second.UseCount();
    sourceEmpty := !first.IsSet() && first.UseCount() == 0;
    target := second.Get();
  }

  /** `Reset(p)` with the current target keeps the block; with another target adopts it alone. */
  method ResetToSameAndOther(at: Addr, other: Addr) returns (kept: int, adopted: int, target: Addr)
    requires at != Null && other != Null && other != at
    ensures kept == 2 && adopted == 1 && target == other
  {
    var first := new SharedPtr.FromPointer(at);
    var second := new SharedPtr.Copy(first);
    second.ResetTo(at);
    kept := first.UseCount();
    second.ResetTo(other);
    adopted := second.UseCount();
    target := second.Get();
  }
}
