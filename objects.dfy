/**
 * The syntax tree the reader builds: numbers, symbols and pairs.  A
 * `std::shared_ptr<Object>` becomes a `Ref`, with `None` for the null pointer
 * (the empty list).
 */
module Objects {
  import opened Wrappers

  datatype Obj =
    | Number(value: int)
    | Symbol(name: string)
    | Cell(first: Ref, second: Ref)

  type Ref = Option<Obj>

  /** The classes `As<T>` and `Is<T>` can be asked about; `AnyObject` is the base class `Object`. */
  datatype Class = AnyObject | NumberClass | SymbolClass | CellClass

  /** Whether an object built by one of the three constructors is an instance of `c`. */
  predicate InstanceOf(o: Obj, c: Class) {
    match c
    case AnyObject => true
    case NumberClass => o.Number?
    case SymbolClass => o.Symbol?
    case CellClass => o.Cell?
  }

  /** The dynamic type of an object: the class of the constructor that built it. */
  function ClassOf(o: Obj): Class {
    match o
    case Number(_) => NumberClass
    case Symbol(_) => SymbolClass
    case Cell(_, _) => CellClass
  }

  /**
   * `As<T>(obj)`, a `dynamic_pointer_cast`: the same object when it is a `T`,
   * null otherwise.  A cast to the base class never fails on a non-null
   * object, and a cast to a concrete class succeeds exactly for its dynamic
   * type.
   */
  function As(c: Class, r: Ref): (cast: Ref)
    ensures cast.Some? ==> cast == r
    ensures cast.Some? <==> r.Some? && InstanceOf(r.value, c)
    ensures c == AnyObject ==> cast == r
    ensures r.Some? ==> (cast.Some? <==> c == AnyObject || c == ClassOf(r.value))
  {
    if r.Some? && InstanceOf(r.value, c) then r else None
  }

  /** Casting the result of a cast again, to the same class, changes nothing. */
  lemma CastTwice(c: Class, r: Ref)
    ensures As(c, As(c, r)) == As(c, r)
  {
  }

  /** `Is<T>(obj)`: the cast succeeds, which is false for null. */
  predicate Is(c: Class, r: Ref): (b: bool)
    ensures b <==> r.Some? && InstanceOf(r.value, c)
  {
    As(c, r) != None
  }

  /** Every non-null object is an `Object` and an instance of exactly one of the three concrete classes. */
  lemma ExactlyOneClass(r: Ref)
    requires r.Some?
    ensures Is(AnyObject, r)
    ensures Is(NumberClass, r) || Is(SymbolClass, r) || Is(CellClass, r)
    ensures !(Is(NumberClass, r) && Is(SymbolClass, r))
    ensures !(Is(NumberClass, r) && Is(CellClass, r))
    ensures !(Is(SymbolClass, r) && Is(CellClass, r))
  {
  }
}
