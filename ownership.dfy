/**
 * Reference-counted ownership: a control block with a strong and a weak
 * counter, strong handles (`SharedPtr`) that own the block's object and weak
 * handles (`WeakPtr`) that only observe it.
 *
 * Addresses are abstract naturals with `Null` for `nullptr`.  Every block
 * keeps, as ghost state, the set of strong handles and the set of weak handles
 * that currently hold it; `ControlBlock.Valid()` ties the two counters to the
 * sizes of these sets, so "the strong count equals the number of live owning
 * handles" is part of the object invariant.  `delete this` is modelled by the
 * `freed` flag, after which no operation may touch the block.
 */
module Ownership {
  import opened Wrappers

  /** An abstract object address; `Null` plays the role of `nullptr`. */
  type Addr = nat
  const Null: Addr := 0

  /** The two concrete blocks: `ControlBlockPtr` and `ControlBlockObject`. */
  datatype Kind = Detached | InPlace

  /** The exception thrown when an expired weak handle is promoted. */
  datatype PromoteError = BadWeakPtr

  class ControlBlock {
    /** `ref_count_` */
    var strong: int
    /** `weak_ref_count_` */
    var weak: int
    const kind: Kind
    /** Detached blocks: `ptr_`, the adopted raw pointer. */
    var ptr: Addr
    /** In-place blocks: `exists_`. */
    var live: bool
    /** In-place blocks: the address of the embedded storage `object_`. */
    const storage: Addr
    /** Set by `delete this`. */
    var freed: bool

    /** How often `Destroy` has run. */
    ghost var destroyCount: nat
    /** How often the owned object has actually been torn down. */
    ghost var teardowns: nat
    /** Whether the block was created holding an object at all. */
    ghost const ownedAtStart: bool
    /** The strong handles that currently hold this block. */
    ghost var owners: set<SharedPtr>
    /** The weak handles that currently hold this block. */
    ghost var observers: set<WeakPtr>

    /** `Exists()`: the detached block tests its pointer, the in-place block its flag. */
    predicate Exists()
      reads this
    {
      if kind == Detached then ptr != Null else live
    }

    /** `ControlBlockObject::GetObject`: the embedded object, or null once torn down. */
    function GetObject(): (r: Addr)
      reads this
      requires kind == InPlace && storage != Null
      ensures r != Null <==> Exists()
      ensures r != Null ==> r == storage
    {
      if live then storage else Null
    }

    /** The part of the invariant that speaks about this block alone. */
    ghost predicate Accounting()
      reads this
    {
      && strong == |owners|
      && weak == |observers|
      && (freed <==> strong == 0 && weak == 0)
      && destroyCount == (if strong == 0 then 1 else 0)
      && teardowns == (if strong == 0 && ownedAtStart then 1 else 0)
      && (strong > 0 ==> Exists() == ownedAtStart)
      && (strong == 0 ==> !Exists())
      && (kind == InPlace ==> storage != Null)
    }

    /**
     * The block invariant: the counters are the numbers of handles holding
     * the block, the object is destroyed exactly when the strong count is 0,
     * and the block is freed exactly when both counts are 0.
     */
    ghost predicate Valid()
      reads this, owners, observers
    {
      && Accounting()
      && (forall s | s in owners :: s.block == this)
      && (forall w | w in observers :: w.block == this)
    }

    /** A block just allocated, whose count of 1 no handle has claimed yet. */
    ghost predicate Unclaimed()
      reads this
    {
      && strong == 1 && weak == 0 && owners == {} && observers == {} && !freed
      && destroyCount == 0 && teardowns == 0 && Exists() == ownedAtStart
      && (kind == InPlace ==> storage != Null)
    }

    /** `new ControlBlockPtr<T>(p)`: counts 1 and 0. */
    constructor ForPointer(p: Addr)
      ensures Unclaimed() && kind == Detached && ptr == p && ownedAtStart == (p != Null)
    {
      strong, weak := 1, 0;
      kind := Detached;
      ptr, live, storage := p, false, Null;
      freed := false;
      destroyCount, teardowns := 0, 0;
      ownedAtStart := p != Null;
      owners, observers := {}, {};
    }

    /** `new ControlBlockObject<T>(args...)`: counts 1 and 0, the object constructed in place. */
    constructor ForObject(at: Addr)
      requires at != Null
      ensures Unclaimed() && kind == InPlace && live && storage == at && ownedAtStart
    {
      strong, weak := 1, 0;
      kind := InPlace;
      ptr, live, storage := Null, true, at;
      freed := false;
      destroyCount, teardowns := 0, 0;
      ownedAtStart := true;
      owners, observers := {}, {};
    }

    /** The first strong handle takes over the initial count of 1. */
    ghost method Register(h: SharedPtr)
      requires Unclaimed() && h.block == this
      modifies this
      ensures Valid() && owners == {h} && observers == {}
      ensures strong == 1 && weak == 0 && !freed && Exists() == old(Exists())
      ensures ptr == old(ptr) && live == old(live)
    {
      owners := {h};
    }

    /** Replaces one holding strong handle by another; no count changes. */
    ghost method RebindOwner(from: SharedPtr, to: SharedPtr)
      requires Accounting() && from in owners && to !in owners
      modifies this
      ensures Accounting() && owners == old(owners) - {from} + {to}
      ensures strong == old(strong) && weak == old(weak) && observers == old(observers)
      ensures freed == old(freed) && Exists() == old(Exists())
    {
      owners := owners - {from} + {to};
    }

    /** Replaces one holding weak handle by another; no count changes. */
    ghost method RebindObserver(from: WeakPtr, to: WeakPtr)
      requires Accounting() && from in observers && to !in observers
      modifies this
      ensures Accounting() && observers == old(observers) - {from} + {to}
      ensures strong == old(strong) && weak == old(weak) && owners == old(owners)
      ensures freed == old(freed) && Exists() == old(Exists())
    {
      observers := observers - {from} + {to};
    }

    /**
     * `Destroy()`: the detached block deletes its pointer and nulls it, the
     * in-place block tears its object down only while `exists_` holds and then
     * clears it.  Either way a second call tears nothing down.
     */
    method Destroy()
      modifies this
      ensures !Exists()
      ensures kind == InPlace && storage != Null ==> GetObject() == Null
      ensures destroyCount == old(destroyCount) + 1
      ensures teardowns == old(teardowns) + (if old(Exists()) then 1 else 0)
      ensures strong == old(strong) && weak == old(weak) && freed == old(freed)
      ensures owners == old(owners) && observers == old(observers)
    {
      if kind == Detached {
        if ptr != Null {
          teardowns := teardowns + 1;
        }
        ptr := Null;
      } else {
        if live {
          teardowns := teardowns + 1;
        }
        live := false;
      }
      destroyCount := destroyCount + 1;
    }

    /** `IncrementRefCount()`, on behalf of the strong handle `h` that now holds the block. */
    method IncrementRefCount(ghost h: SharedPtr)
      requires Valid() && !freed && strong > 0
      requires h.block == this && h !in owners
      modifies this
      ensures Valid() && !freed
      ensures strong == old(strong) + 1 && owners == old(owners) + {h}
      ensures weak == old(weak) && observers == old(observers)
      ensures Exists() == old(Exists()) && destroyCount == old(destroyCount)
    {
      strong := strong + 1;
      owners := owners + {h};
    }

    /**
     * `DecrementRefCount()`, on behalf of the strong handle `h` that lets go:
     * the 1 -> 0 transition runs `Destroy`, and frees the block when no weak
     * handle is left.
     */
    method DecrementRefCount(ghost h: SharedPtr)
      requires Valid() && !freed && h in owners
      modifies this
      ensures Valid()
      ensures strong == old(strong) - 1 && owners == old(owners) - {h}
      ensures weak == old(weak) && observers == old(observers)
      ensures strong == 0 ==> destroyCount == old(destroyCount) + 1 && !Exists()
      ensures strong > 0 ==> destroyCount == old(destroyCount) && Exists() == old(Exists())
      ensures freed <==> strong == 0 && weak == 0
    {
      strong := strong - 1;
      owners := owners - {h};
      if strong == 0 {
        Destroy();
        if weak == 0 {
          freed := true;
        }
      }
    }

    /** `IncrementWeakRefCount()`, on behalf of the weak handle `w`. */
    method IncrementWeakRefCount(ghost w: WeakPtr)
      requires Valid() && !freed
      requires w.block == this && w !in observers
      modifies this
      ensures Valid() && !freed
      ensures weak == old(weak) + 1 && observers == old(observers) + {w}
      ensures strong == old(strong) && owners == old(owners)
      ensures Exists() == old(Exists()) && destroyCount == old(destroyCount)
    {
      weak := weak + 1;
      observers := observers + {w};
    }

    /** `DecrementWeakRefCount()`: frees the block once both counts are 0. */
    method DecrementWeakRefCount(ghost w: WeakPtr)
      requires Valid() && !freed && w in observers
      modifies this
      ensures Valid()
      ensures weak == old(weak) - 1 && observers == old(observers) - {w}
      ensures strong == old(strong) && owners == old(owners)
      ensures Exists() == old(Exists()) && destroyCount == old(destroyCount)
      ensures freed <==> strong == 0 && weak == 0
    {
      weak := weak - 1;
      observers := observers - {w};
      if weak == 0 && strong == 0 {
        freed := true;
      }
    }
  }

  /** The strong handle `SharedPtr<T>`: the pair (`block_`, `ptr_`). */
  class SharedPtr {
    var block: ControlBlock?
    var ptr: Addr

    ghost function Frame(): set<object>
      reads this, block
    {
      {this} + if block == null then {} else {block} + block.owners + block.observers
    }

    /** A handle holding a block is registered with it, and the block is live. */
    ghost predicate Valid()
      reads this, block, Frame()
    {
      block != null ==> this in block.owners && !block.freed && block.Valid()
    }

    /** `SharedPtr()` and `SharedPtr(nullptr)`. */
    constructor Empty()
      ensures Valid() && block == null && ptr == Null
    {
      block, ptr := null, Null;
    }

    /** `explicit SharedPtr(T* ptr)`: adopts `p` into a new detached block. */
    constructor FromPointer(p: Addr)
      ensures Valid() && ptr == p
      ensures block != null && fresh(block) && block.kind == Detached && block.ptr == p
      ensures block.strong == 1 && block.weak == 0 && block.owners == {this}
      ensures block.Exists() == (p != Null)
    {
      var b := new ControlBlock.ForPointer(p);
      block, ptr := b, p;
      new;
      b.Register(this);
    }

    /** `SharedPtr(ControlBlockObject<Y>* block)`: claims the new block's initial count. */
    constructor FromObjectBlock(b: ControlBlock)
      requires b.Unclaimed() && b.kind == InPlace && b.Exists()
      modifies b
      ensures Valid() && block == b && ptr == b.storage
      ensures b.strong == 1 && b.weak == 0 && b.owners == {this} && b.Exists()
    {
      block, ptr := b, b.GetObject();
      new;
      b.Register(this);
    }

    /** The copy constructor: shares the block and target, one more strong count. */
    constructor Copy(other: SharedPtr)
      requires other.Valid()
      modifies other.block
      ensures Valid() && other.Valid()
      ensures block == other.block && ptr == other.ptr
      ensures other.block != null ==>
        && other.block.strong == old(other.block.strong) + 1
        && other.block.weak == old(other.block.weak)
        && other.block.owners == old(other.block.owners) + {this}
    {
      block, ptr := other.block, other.ptr;
      new;
      if block != null {
        block.IncrementRefCount(this);
      }
    }

    /** The move constructor: takes the block and target over, leaves `other` empty, no count changes. */
    constructor Move(other: SharedPtr)
      requires other.Valid()
      modifies other, other.block
      ensures Valid() && other.Valid()
      ensures block == old(other.block) && ptr == old(other.ptr)
      ensures other.block == null && other.ptr == Null
      ensures block != null ==>
        && block.strong == old(other.block.strong)
        && block.weak == old(other.block.weak)
        && block.owners == old(other.block.owners) - {other} + {this}
    {
      block, ptr := other.block, other.ptr;
      new;
      other.block, other.ptr := null, Null;
      if block != null {
        block.RebindOwner(other, this);
      }
    }

    /** The aliasing constructor: shares `other`'s block (one more strong count) but points at `p`. */
    constructor Alias(other: SharedPtr, p: Addr)
      requires other.Valid()
      modifies other.block
      ensures Valid() && other.Valid()
      ensures block == other.block && ptr == p
      ensures other.block != null ==>
        && other.block.strong == old(other.block.strong) + 1
        && other.block.weak == old(other.block.weak)
        && other.block.owners == old(other.block.owners) + {this}
    {
      block, ptr := other.block, p;
      new;
      if block != null {
        block.IncrementRefCount(this);
      }
    }

    /**
     * `explicit SharedPtr(const WeakPtr<T>&)`: throws `BadWeakPtr` when the
     * strong count is 0, otherwise shares the block and target with one more
     * strong count.
     */
    static method Promote(w: WeakPtr) returns (r: Result<SharedPtr, PromoteError>)
      requires w.Valid() && w.block != null
      modifies w.block
      ensures r.Failure? <==> old(w.block.strong) == 0
      ensures r.Failure? ==> w.block.strong == old(w.block.strong) && w.block.owners == old(w.block.owners)
      ensures w.Valid() && w.block.weak == old(w.block.weak) && w.block.observers == old(w.block.observers)
      ensures r.Success? ==>
        && fresh(r.value) && r.value.Valid()
        && r.value.block == w.block && r.value.ptr == w.ptr
        && w.block.strong == old(w.block.strong) + 1
        && w.block.owners == old(w.block.owners) + {r.value}
    {
      if w.block.strong == 0 {
        return Failure(BadWeakPtr);
      }
      var s := new SharedPtr.Empty();
      s.block, s.ptr := w.block, w.ptr;
      s.block.IncrementRefCount(s);
      return Success(s);
    }

    /** `Reset()`: releases the block (if any) and clears both fields. */
    method Reset()
      requires Valid()
      modifies this, block
      ensures Valid()
      ensures old(block) == null ==> block == null && ptr == old(ptr)
      ensures old(block) != null ==>
        && block == null && ptr == Null
        && old(block).Valid()
        && old(block).strong == old(block.strong) - 1
        && old(block).weak == old(block.weak)
        && old(block).owners == old(block.owners) - {this}
        && old(block).observers == old(block.observers)
        && old(block).destroyCount == (if old(block.strong) == 1 then 1 else 0)
        && (old(block).freed <==> old(block.strong) == 1 && old(block.weak) == 0)
    {
      if block != null {
        block.DecrementRefCount(this);
        block, ptr := null, Null;
      }
    }

    /**
     * `Reset(T* p)`: nothing happens when `p` is the current target; otherwise
     * the block is released and `p` is adopted into a new detached block, or
     * the handle becomes empty when `p` is null.
     */
    method ResetTo(p: Addr)
      requires Valid()
      modifies this, block
      ensures Valid()
      ensures p == old(ptr) ==> unchanged(this) && (block != null ==> unchanged(block))
      ensures p != old(ptr) ==> ptr == p && (p == Null <==> block == null)
      ensures p != old(ptr) && p != Null ==>
        && fresh(block) && block.kind == Detached && block.ptr == p
        && block.strong == 1 && block.weak == 0 && block.owners == {this} && block.observers == {}
      ensures p != old(ptr) && old(block) != null ==>
        && old(block).Valid()
        && old(block).strong == old(block.strong) - 1
        && old(block).weak == old(block.weak)
        && old(block).owners == old(block.owners) - {this}
        && old(block).observers == old(block.observers)
        && old(block).destroyCount == (if old(block.strong) == 1 then 1 else 0)
        && (old(block).freed <==> old(block.strong) == 1 && old(block.weak) == 0)
    {
      if p == ptr {
        return;
      }
      Reset();
      if p != Null {
        var b := new ControlBlock.ForPointer(p);
        block := b;
        b.Register(this);
      } else {
        block := null;
      }
      ptr := p;
    }

    /**
     * Copy assignment: assigning a handle to itself changes nothing; otherwise
     * the old block is released before the new one gains a strong count.
     */
    method Assign(other: SharedPtr)
      requires Valid() && other.Valid()
      modifies this, block, other.block
      ensures Valid() && other.Valid()
      ensures this == other ==> block == old(block) && ptr == old(ptr)
      ensures this != other ==> block == other.block && ptr == other.ptr
      ensures old(block) == other.block && block != null ==>
        && block.strong == old(block.strong) && block.owners == old(block.owners)
        && block.weak == old(block.weak) && block.observers == old(block.observers)
      ensures old(block) != other.block && old(block) != null ==>
        && old(block).Valid()
        && old(block).strong == old(block.strong) - 1
        && old(block).weak == old(block.weak)
        && old(block).owners == old(block.owners) - {this}
        && old(block).observers == old(block.observers)
        && old(block).destroyCount == (if old(block.strong) == 1 then 1 else 0)
        && (old(block).freed <==> old(block.strong) == 1 && old(block.weak) == 0)
      ensures old(block) != other.block && other.block != null ==>
        && other.block.strong == old(other.block.strong) + 1
        && other.block.owners == old(other.block.owners) + {this}
        && other.block.weak == old(other.block.weak)
        && other.block.observers == old(other.block.observers)
    {
      if this != other {
        Reset();
        block, ptr := other.block, other.ptr;
        if block != null {
          block.IncrementRefCount(this);
        }
      }
    }

    /**
     * Move assignment: assigning a handle to itself changes nothing; otherwise
     * the old block is released and `other`'s block and target are taken over,
     * leaving `other` empty without touching `other`'s count.
     */
    method MoveAssign(other: SharedPtr)
      requires Valid() && other.Valid()
      modifies this, block, other, other.block
      ensures Valid() && other.Valid()
      ensures this == other ==> block == old(block) && ptr == old(ptr)
      ensures this != other ==>
        && block == old(other.block) && ptr == old(other.ptr)
        && other.block == null && other.ptr == Null
      ensures this != other && old(block) != null && old(block) != old(other.block) ==>
        && old(block).Valid()
        && old(block).strong == old(block.strong) - 1
        && old(block).weak == old(block.weak)
        && old(block).owners == old(block.owners) - {this}
        && old(block).observers == old(block.observers)
        && old(block).destroyCount == (if old(block.strong) == 1 then 1 else 0)
        && (old(block).freed <==> old(block.strong) == 1 && old(block.weak) == 0)
      ensures this != other && old(other.block) != null && old(block) != old(other.block) ==>
        && block.strong == old(other.block.strong)
        && block.owners == old(other.block.owners) - {other} + {this}
        && block.weak == old(other.block.weak)
        && block.observers == old(other.block.observers)
      ensures this != other && old(other.block) != null && old(block) == old(other.block) ==>
        && block.strong == old(other.block.strong) - 1
        && block.owners == old(other.block.owners) - {other}
        && block.weak == old(other.block.weak)
        && block.observers == old(other.block.observers)
    {
      if this != other {
        Reset();
        TakeFrom(other);
      }
    }

    /** The second half of move assignment: an empty handle takes `other`'s block and target over. */
    method TakeFrom(other: SharedPtr)
      requires Valid() && other.Valid() && block == null && this != other
      modifies this, other, other.block
      ensures Valid() && other.Valid()
      ensures block == old(other.block) && ptr == old(other.ptr)
      ensures other.block == null && other.ptr == Null
      ensures block != null ==>
        && block.strong == old(other.block.strong)
        && block.weak == old(other.block.weak)
        && block.owners == old(other.block.owners) - {other} + {this}
        && block.observers == old(other.block.observers)
    {
      block, ptr := other.block, other.ptr;
      other.block, other.ptr := null, Null;
      if block != null {
        block.RebindOwner(other, this);
      }
    }

    /** `Swap`: exchanges both fields; no count changes. */
    method Swap(other: SharedPtr)
      requires Valid() && other.Valid()
      modifies this, other, block, other.block
      ensures Valid() && other.Valid()
      ensures block == old(other.block) && ptr == old(other.ptr)
      ensures other.block == old(block) && other.ptr == old(ptr)
      ensures old(block) != null ==> old(block).strong == old(block.strong) && old(block).weak == old(block.weak)
      ensures old(other.block) != null ==>
        old(other.block).strong == old(other.block.strong) && old(other.block).weak == old(other.block.weak)
    {
      if block == other.block {
        ptr, other.ptr := other.ptr, ptr;
      } else {
        ExchangeBlocks(other);
      }
    }

    /** `Swap` between handles on different blocks: each block trades its holder. */
    method ExchangeBlocks(other: SharedPtr)
      requires Valid() && other.Valid() && block != other.block
      modifies this, other, block, other.block
      ensures Valid() && other.Valid()
      ensures block == old(other.block) && ptr == old(other.ptr)
      ensures other.block == old(block) && other.ptr == old(ptr)
      ensures old(block) != null ==> old(block).strong == old(block.strong) && old(block).weak == old(block.weak)
      ensures old(other.block) != null ==>
        old(other.block).strong == old(other.block.strong) && old(other.block).weak == old(other.block.weak)
    {
      var mine, theirs := block, other.block;
      block, other.block := theirs, mine;
      ptr, other.ptr := other.ptr, ptr;
      Hand(mine, this, other);
      Hand(theirs, other, this);
    }

    /** Block `b`, if any, moves from the strong handle `from` to `to`, which already points at it. */
    static ghost method Hand(b: ControlBlock?, from: SharedPtr, to: SharedPtr)
      requires b != null ==> b.Accounting() && from in b.owners && to !in b.owners && to.block == b
      requires b != null ==> forall s | s in b.owners && s != from :: s.block == b
      requires b != null ==> forall w | w in b.observers :: w.block == b
      modifies b
      ensures b != null ==> b.Valid() && b.owners == old(b.owners) - {from} + {to} && to in b.owners
      ensures b != null ==> b.strong == old(b.strong) && b.weak == old(b.weak) && b.freed == old(b.freed)
    {
      if b != null {
        b.RebindOwner(from, to);
      }
    }

    /** `Get()` and `operator->`. */
    function Get(): Addr
      reads this
    {
      ptr
    }

    /** `operator*`: the target; dereferencing a null target is a caller error. */
    function Deref(): (r: Addr)
      reads this
      requires ptr != Null
      ensures r != Null
    {
      ptr
    }

    /** `UseCount()`: the block's strong count, which a holding handle always sees as at least 1. */
    function UseCount(): (r: int)
      reads this, block, Frame()
      requires Valid()
      ensures block == null ==> r == 0
      ensures block != null ==> r >= 1 && r == |block.owners|
    {
      if block != null then block.strong else 0
    }

    /** `explicit operator bool`. */
    predicate IsSet()
      reads this
    {
      ptr != Null
    }
  }

  /** `operator==`: handles are equal when their targets are, whatever their blocks. */
  predicate SameTarget(left: SharedPtr, right: SharedPtr)
    reads left, right
  {
    left.Get() == right.Get()
  }

  /** `MakeShared(args...)`: one in-place block holding the object at `at`, strong count 1. */
  method MakeShared(at: Addr) returns (s: SharedPtr)
    requires at != Null
    ensures fresh(s) && s.Valid() && s.ptr == at
    ensures s.block != null && fresh(s.block) && s.block.kind == InPlace
    ensures s.block.strong == 1 && s.block.weak == 0 && s.block.Exists()
  {
    var b := new ControlBlock.ForObject(at);
    s := new SharedPtr.FromObjectBlock(b);
  }

  /** The weak handle `WeakPtr<T>`: the pair (`block_`, `ptr_`), counted in the weak counter only. */
  class WeakPtr {
    var block: ControlBlock?
    var ptr: Addr

    ghost function Frame(): set<object>
      reads this, block
    {
      {this} + if block == null then {} else {block} + block.owners + block.observers
    }

    /** A handle holding a block is registered with it, and the block is not freed. */
    ghost predicate Valid()
      reads this, block, Frame()
    {
      block != null ==> this in block.observers && !block.freed && block.Valid()
    }

    /** `WeakPtr()`. */
    constructor Empty()
      ensures Valid() && block == null && ptr == Null
    {
      block, ptr := null, Null;
    }

    /** `WeakPtr(const SharedPtr&)`: one more weak count, the strong count untouched. */
    constructor FromShared(s: SharedPtr)
      requires s.Valid()
      modifies s.block
      ensures Valid() && s.Valid()
      ensures block == s.block && ptr == s.ptr
      ensures s.block != null ==>
        && s.block.weak == old(s.block.weak) + 1
        && s.block.strong == old(s.block.strong)
        && s.block.observers == old(s.block.observers) + {this}
        && s.block.owners == old(s.block.owners)
    {
      block, ptr := s.block, s.ptr;
      new;
      if block != null {
        block.IncrementWeakRefCount(this);
      }
    }

    /** The copy constructor: one more weak count, the strong count untouched. */
    constructor Copy(other: WeakPtr)
      requires other.Valid()
      modifies other.block
      ensures Valid() && other.Valid()
      ensures block == other.block && ptr == other.ptr
      ensures other.block != null ==>
        && other.block.weak == old(other.block.weak) + 1
        && other.block.strong == old(other.block.strong)
        && other.block.observers == old(other.block.observers) + {this}
    {
      block, ptr := other.block, other.ptr;
      new;
      if block != null {
        block.IncrementWeakRefCount(this);
      }
    }

    /** The move constructor: takes block and target over, leaves `other` empty, no count changes. */
    constructor Move(other: WeakPtr)
      requires other.Valid()
      modifies other, other.block
      ensures Valid() && other.Valid()
      ensures block == old(other.block) && ptr == old(other.ptr)
      ensures other.block == null && other.ptr == Null
      ensures block != null ==>
        && block.strong == old(other.block.strong)
        && block.weak == old(other.block.weak)
        && block.observers == old(other.block.observers) - {other} + {this}
    {
      block, ptr := other.block, other.ptr;
      new;
      other.block, other.ptr := null, Null;
      if block != null {
        block.RebindObserver(other, this);
      }
    }

    /** `Reset()`: one weak count less when a block is held; both fields cleared. */
    method Reset()
      requires Valid()
      modifies this, block
      ensures Valid() && block == null && ptr == Null
      ensures old(block) != null ==>
        && old(block).Valid()
        && old(block).weak == old(block.weak) - 1
        && old(block).strong == old(block.strong)
        && old(block).observers == old(block.observers) - {this}
        && old(block).owners == old(block.owners)
        && (old(block).freed <==> old(block.strong) == 0 && old(block.weak) == 1)
    {
      if block != null {
        block.DecrementWeakRefCount(this);
        block := null;
      }
      ptr := Null;
    }

    /**
     * Copy assignment: assigning a handle to itself changes nothing; otherwise
     * the old block's weak count is released before the new one's is raised.
     */
    method Assign(other: WeakPtr)
      requires Valid() && other.Valid()
      modifies this, block, other.block
      ensures Valid() && other.Valid()
      ensures this == other ==> block == old(block) && ptr == old(ptr)
      ensures this != other ==> block == other.block && ptr == other.ptr
      ensures old(block) == other.block && block != null ==>
        && block.weak == old(block.weak) && block.strong == old(block.strong)
        && block.observers == old(block.observers) && block.owners == old(block.owners)
      ensures old(block) != other.block && old(block) != null ==>
        && old(block).Valid()
        && old(block).weak == old(block.weak) - 1
        && old(block).strong == old(block.strong)
        && old(block).observers == old(block.observers) - {this}
        && old(block).owners == old(block.owners)
        && (old(block).freed <==> old(block.strong) == 0 && old(block.weak) == 1)
      ensures old(block) != other.block && other.block != null ==>
        && other.block.weak == old(other.block.weak) + 1
        && other.block.strong == old(other.block.strong)
        && other.block.observers == old(other.block.observers) + {this}
        && other.block.owners == old(other.block.owners)
    {
      if this != other {
        Reset();
        block, ptr := other.block, other.ptr;
        if block != null {
          block.IncrementWeakRefCount(this);
        }
      }
    }

    /**
     * Move assignment: assigning a handle to itself changes nothing; otherwise
     * the old block's weak count is released and `other`'s block and target
     * are taken over, leaving `other` empty.
     */
    method MoveAssign(other: WeakPtr)
      requires Valid() && other.Valid()
      modifies this, block, other, other.block
      ensures Valid() && other.Valid()
      ensures this == other ==> block == old(block) && ptr == old(ptr)
      ensures this != other ==>
        && block == old(other.block) && ptr == old(other.ptr)
        && other.block == null && other.ptr == Null
      ensures this != other && old(block) != null && old(block) != old(other.block) ==>
        && old(block).Valid()
        && old(block).weak == old(block.weak) - 1
        && old(block).strong == old(block.strong)
        && old(block).observers == old(block.observers) - {this}
        && old(block).owners == old(block.owners)
        && (old(block).freed <==> old(block.strong) == 0 && old(block.weak) == 1)
      ensures this != other && old(other.block) != null && old(block) != old(other.block) ==>
        && block.weak == old(other.block.weak) && block.strong == old(other.block.strong)
        && block.observers == old(other.block.observers) - {other} + {this}
        && block.owners == old(other.block.owners)
      ensures this != other && old(other.block) != null && old(block) == old(other.block) ==>
        && block.weak == old(other.block.weak) - 1 && block.strong == old(other.block.strong)
        && block.observers == old(other.block.observers) - {other}
        && block.owners == old(other.block.owners)
    {
      if this != other {
        Reset();
        TakeFrom(other);
      }
    }

    /** The second half of move assignment: an empty handle takes `other`'s block and target over. */
    method TakeFrom(other: WeakPtr)
      requires Valid() && other.Valid() && block == null && this != other
      modifies this, other, other.block
      ensures Valid() && other.Valid()
      ensures block == old(other.block) && ptr == old(other.ptr)
      ensures other.block == null && other.ptr == Null
      ensures block != null ==>
        && block.strong == old(other.block.strong)
        && block.weak == old(other.block.weak)
        && block.observers == old(other.block.observers) - {other} + {this}
        && block.owners == old(other.block.owners)
    {
      block, ptr := other.block, other.ptr;
      other.block, other.ptr := null, Null;
      if block != null {
        block.RebindObserver(other, this);
      }
    }

    /** `Swap`: exchanges both fields; no count changes. */
    method Swap(other: WeakPtr)
      requires Valid() && other.Valid()
      modifies this, other, block, other.block
      ensures Valid() && other.Valid()
      ensures block == old(other.block) && ptr == old(other.ptr)
      ensures other.block == old(block) && other.ptr == old(ptr)
      ensures old(block) != null ==> old(block).strong == old(block.strong) && old(block).weak == old(block.weak)
      ensures old(other.block) != null ==>
        old(other.block).strong == old(other.block.strong) && old(other.block).weak == old(other.block.weak)
    {
      if block == other.block {
        ptr, other.ptr := other.ptr, ptr;
      } else {
        ExchangeBlocks(other);
      }
    }

    /** `Swap` between handles on different blocks: each block trades its holder. */
    method ExchangeBlocks(other: WeakPtr)
      requires Valid() && other.Valid() && block != other.block
      modifies this, other, block, other.block
      ensures Valid() && other.Valid()
      ensures block == old(other.block) && ptr == old(other.ptr)
      ensures other.block == old(block) && other.ptr == old(ptr)
      ensures old(block) != null ==> old(block).strong == old(block.strong) && old(block).weak == old(block.weak)
      ensures old(other.block) != null ==>
        old(other.block).strong == old(other.block.strong) && old(other.block).weak == old(other.block.weak)
    {
      var mine, theirs := block, other.block;
      block, other.block := theirs, mine;
      ptr, other.ptr := other.ptr, ptr;
      Hand(mine, this, other);
      Hand(theirs, other, this);
    }

    /** Block `b`, if any, moves from the weak handle `from` to `to`, which already points at it. */
    static ghost method Hand(b: ControlBlock?, from: WeakPtr, to: WeakPtr)
      requires b != null ==> b.Accounting() && from in b.observers && to !in b.observers && to.block == b
      requires b != null ==> forall w | w in b.observers && w != from :: w.block == b
      requires b != null ==> forall s | s in b.owners :: s.block == b
      modifies b
      ensures b != null ==> b.Valid() && b.observers == old(b.observers) - {from} + {to} && to in b.observers
      ensures b != null ==> b.strong == old(b.strong) && b.weak == old(b.weak) && b.freed == old(b.freed)
    {
      if b != null {
        b.RebindObserver(from, to);
      }
    }

    /** `UseCount()`: the block's strong count, 0 without a block. */
    function UseCount(): (r: int)
      reads this, block, Frame()
      requires Valid()
      ensures block == null ==> r == 0
      ensures block != null ==> r == |block.owners|
    {
      if block != null then block.strong else 0
    }

    /** `Expired()`: no block, or its object no longer exists. */
    predicate Expired()
      reads this, block
    {
      block == null || !block.Exists()
    }

    /**
     * A weak handle on a block is expired exactly when no strong handle holds
     * the block any more, or the block never held an object; the weak handle
     * itself is still counted then.
     */
    lemma ExpiredExactly()
      requires Valid() && block != null
      ensures Expired() <==> block.strong == 0 || !block.ownedAtStart
      ensures block.weak >= 1
    {
    }

    /**
     * `Lock()`: an empty strong handle when expired, otherwise a new strong
     * handle on the same block and target, with the strong count one higher.
     */
    method Lock() returns (s: SharedPtr)
      requires Valid()
      modifies block
      ensures fresh(s) && s.Valid() && Valid()
      ensures block == old(block) && ptr == old(ptr)
      ensures block != null ==> block.weak == old(block.weak) && block.observers == old(block.observers)
      ensures old(Expired()) ==> s.block == null && s.ptr == Null
      ensures old(Expired()) && block != null ==> block.strong == old(block.strong)
      ensures !old(Expired()) ==>
        && s.block == block && s.ptr == ptr
        && block.strong == old(block.strong) + 1
        && s.UseCount() == old(UseCount()) + 1
    {
      if Expired() {
        s := new SharedPtr.Empty();
        return;
      }
      var r := SharedPtr.Promote(this);
      assert r.Success?;
      s := r.value;
    }
  }
}
