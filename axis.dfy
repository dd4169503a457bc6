/**
 * Input axes: a button or mouse axis is nothing but a handle handed out by
 * the input map; two axes compare and hash by that handle.
 */
module Axes {

  /** `AxisType`. */
  datatype AxisType = Button | Mouse

  /**
   * `Axis<Type>`: the kind is the template argument, the handle the only
   * member. The constructor is private to the input map, which draws handles
   * from its counters.
   */
  datatype Axis = Axis(kind: AxisType, handle: nat)

  /** The defaulted `operator==` of two axes of one kind: memberwise, so by handle. */
  predicate Equal(a: Axis, b: Axis)
    requires a.kind == b.kind
  {
    a.handle == b.handle
  }

  /** The defaulted `operator!=`. */
  predicate NotEqual(a: Axis, b: Axis)
    requires a.kind == b.kind
  {
    a.handle != b.handle
  }

  /** Two axes of one kind are equal exactly when they are the same axis, and `!=` is the negation of `==`. */
  lemma EqualityIsIdentity(a: Axis, b: Axis)
    requires a.kind == b.kind
    ensures Equal(a, b) <==> a == b
    ensures NotEqual(a, b) <==> !Equal(a, b)
  {
  }

  /** `AxisHash`: `std::hash<size_t>` of the handle; the hash of `size_t` is a parameter. */
  function AxisHash(hash: nat -> nat, a: Axis): nat {
    hash(a.handle)
  }

  /** The hash depends on the handle alone, so equal axes hash equally, whatever the hash of `size_t` is. */
  lemma EqualAxesHashEqually(hash: nat -> nat, a: Axis, b: Axis)
    ensures a.handle == b.handle ==> AxisHash(hash, a) == AxisHash(hash, b)
    ensures a.kind == b.kind && Equal(a, b) ==> AxisHash(hash, a) == AxisHash(hash, b)
  {
  }
}
