/**
 * `util::Vector2`, `Vector3` and `Vector4` (util/include/util/vec.h): two
 * to four components of an arithmetic element type, each reachable under
 * five names through an anonymous union, and indexable by position.
 *
 * The element type is a type parameter; its value-initialized value
 * `ElemType{}` is passed to the default constructors as `zero`.
 */
module UtilVec {

  /** The member names of the four unions, in declaration order. */
  datatype Name =
    | X | R | S | Red | Width
    | G | Y | T | Green | Height
    | B | Z | P | Blue | Depth
    | A | W | Q | Alpha | Time

  /** The union, and so the component, a name belongs to: 0 for x, 1 for y, 2 for z, 3 for w. */
  function Slot(name: Name): (k: nat)
    ensures k < 4
    ensures k == 0 <==> name in {X, R, S, Red, Width}
    ensures k == 1 <==> name in {G, Y, T, Green, Height}
    ensures k == 2 <==> name in {B, Z, P, Blue, Depth}
    ensures k == 3 <==> name in {A, W, Q, Alpha, Time}
  {
    match name
    case X | R | S | Red | Width => 0
    case G | Y | T | Green | Height => 1
    case B | Z | P | Blue | Depth => 2
    case A | W | Q | Alpha | Time => 3
  }

  class Vector4<E> {
    var x: E
    var y: E
    var z: E
    var w: E

    /** `Vector4()`: every component value-initialized. */
    constructor Default(zero: E)
      ensures x == zero && y == zero && z == zero && w == zero
    {
      x, y, z, w := zero, zero, zero, zero;
    }

    /** `Vector4(x, y, z, w)` */
    constructor (x: E, y: E, z: E, w: E)
      ensures this.x == x && this.y == y && this.z == z && this.w == w
    {
      this.x, this.y, this.z, this.w := x, y, z, w;
    }

    /** The const `operator[]`: asserts 0 <= index <= 3 and yields the component at that position. */
    function At(index: int): (r: E)
      reads this
      requires 0 <= index <= 3
      ensures r == [x, y, z, w][index]
    {
      if index <= 0 then x
      else if index == 1 then y
      else if index == 2 then z
      else w
    }

    /** Reading a union member by any of its names reads the component of that union. */
    function Get(name: Name): (r: E)
      reads this
      ensures r == At(Slot(name))
    {
      match name
      case X | R | S | Red | Width => x
      case G | Y | T | Green | Height => y
      case B | Z | P | Blue | Depth => z
      case A | W | Q | Alpha | Time => w
    }

    /** `v[index] = value` through the non-const `operator[]`: only that component changes. */
    method Assign(index: int, value: E)
      requires 0 <= index <= 3
      modifies this
      ensures At(index) == value
      ensures forall k :: 0 <= k <= 3 && k != index ==> At(k) == old(At(k))
    {
      if index <= 0 {
        x := value;
      } else if index == 1 {
        y := value;
      } else if index == 2 {
        z := value;
      } else {
        w := value;
      }
    }
  }

  class Vector3<E> {
    var x: E
    var y: E
    var z: E

    /** `Vector3()`: every component value-initialized. */
    constructor Default(zero: E)
      ensures x == zero && y == zero && z == zero
    {
      x, y, z := zero, zero, zero;
    }

    /** `Vector3(x, y, z)` */
    constructor (x: E, y: E, z: E)
      ensures this.x == x && this.y == y && this.z == z
    {
      this.x, this.y, this.z := x, y, z;
    }

    /** The const `operator[]`: asserts 0 <= index <= 2 and yields the component at that position. */
    function At(index: int): (r: E)
      reads this
      requires 0 <= index <= 2
      ensures r == [x, y, z][index]
    {
      if index <= 0 then x
      else if index == 1 then y
      else z
    }

    /** A name of one of the three unions reads that union's component. */
    function Get(name: Name): (r: E)
      reads this
      requires Slot(name) < 3
      ensures r == At(Slot(name))
    {
      match name
      case X | R | S | Red | Width => x
      case G | Y | T | Green | Height => y
      case B | Z | P | Blue | Depth => z
    }

    /** `v[index] = value` through the non-const `operator[]`: only that component changes. */
    method Assign(index: int, value: E)
      requires 0 <= index <= 2
      modifies this
      ensures At(index) == value
      ensures forall k :: 0 <= k <= 2 && k != index ==> At(k) == old(At(k))
    {
      if index <= 0 {
        x := value;
      } else if index == 1 {
        y := value;
      } else {
        z := value;
      }
    }
  }

  class Vector2<E> {
    var x: E
    var y: E

    /** `Vector2()`: both components value-initialized. */
    constructor Default(zero: E)
      ensures x == zero && y == zero
    {
      x, y := zero, zero;
    }

    /** `Vector2(x, y)` */
    constructor (x: E, y: E)
      ensures this.x == x && this.y == y
    {
      this.x, this.y := x, y;
    }

    /** The const `operator[]`: asserts 0 <= index <= 1 and yields the component at that position. */
    function At(index: int): (r: E)
      reads this
      requires 0 <= index <= 1
      ensures r == [x, y][index]
    {
      if index <= 0 then x else y
    }

    /** A name of one of the two unions reads that union's component. */
    function Get(name: Name): (r: E)
      reads this
      requires Slot(name) < 2
      ensures r == At(Slot(name))
    {
      match name
      case X | R | S | Red | Width => x
      case G | Y | T | Green | Height => y
    }

    /** `v[index] = value` through the non-const `operator[]`: only that component changes. */
    method Assign(index: int, value: E)
      requires 0 <= index <= 1
      modifies this
      ensures At(index) == value
      ensures forall k :: 0 <= k <= 1 && k != index ==> At(k) == old(At(k))
    {
      if index <= 0 {
        x := value;
      } else {
        y := value;
      }
    }
  }

  /** Writing through one name of a union is visible through all its other names, and no other component changes. */
  method AssignThroughAlias(v: Vector4<int>)
    modifies v
    ensures v.Get(Red) == 255 && v.Get(X) == 255 && v.Get(Width) == 255
    ensures v.Get(Y) == old(v.y) && v.Get(Z) == old(v.z) && v.Get(Alpha) == old(v.w)
  {
    v.Assign(Slot(R), 255);
  }
}
