/**
  The vector container TVector<ValType> of utmatrix.h: an owned buffer of
  `Size` elements whose first element has the logical index `StartIndex`.

  The buffer is modelled as a value (`seq<T>`), so a copy never shares
  storage with its source and the length of the buffer is the vector's size
  by construction. The element type stays generic because the triangular
  matrix is a vector whose elements are themselves vectors.
*/
module Vectors {
  import opened Results

  /** Largest length a vector may be created with, and largest logical index
      an access accepts. */
  const MAX_VECTOR_SIZE: int := 100000000

  /** The default arguments of the constructor, TVector(int s = 10, int si = 0). */
  const DEFAULT_SIZE: nat := 10
  const DEFAULT_START: nat := 0

  /** A vector: the logical index of its first element and its elements in
      buffer order. */
  datatype Vec<T> = Vec(start: nat, elems: seq<T>)
  {
    /** GetSize(). */
    function Size(): nat
    {
      |elems|
    }
  }

  // ---------------------------------------------------------------------
  // Construction
  // ---------------------------------------------------------------------

  /** TVector(s, si). A fresh `new ValType[s]` buffer has unspecified
      contents; `fill` stands for them. The length test comes first, so a
      negative start index with an oversized length reports LargeIndex. */
  function New<T>(s: int, si: int, fill: T): (r: Result<Vec<T>>)
    ensures s > MAX_VECTOR_SIZE ==> r == Err(LargeIndex)
    ensures s <= MAX_VECTOR_SIZE && (s < 0 || si < 0) ==> r == Err(NegativeLength)
    ensures r.Ok? <==> 0 <= s <= MAX_VECTOR_SIZE && 0 <= si
    ensures r.Ok? ==> r.value.Size() == s && r.value.start == si
    ensures r.Ok? ==> forall k :: 0 <= k < s ==> r.value.elems[k] == fill
  {
    if s > MAX_VECTOR_SIZE then Err(LargeIndex)
    else if s < 0 || si < 0 then Err(NegativeLength)
    else Ok(Vec(si, seq(s, _ => fill)))
  }

  /** TVector() with its default arguments: ten elements from index 0. This
      is how every slot of a fresh vector of vectors starts out. */
  function Default<T>(fill: T): (r: Vec<T>)
    ensures New(DEFAULT_SIZE, DEFAULT_START, fill) == Ok(r)
  {
    Vec(DEFAULT_START, seq(DEFAULT_SIZE, _ => fill))
  }

  /** The copy constructor TVector(const TVector &v): a fresh buffer of the
      same length, filled element by element in index order. */
  method Copy<T>(v: Vec<T>) returns (c: Vec<T>)
    ensures c.start == v.start && c.Size() == v.Size()
    ensures forall k :: 0 <= k < v.Size() ==> c.elems[k] == v.elems[k]
    ensures c == v
  {
    var buffer: seq<T> := [];
    for i := 0 to v.Size()
      invariant buffer == v.elems[..i]
    {
      buffer := buffer + [v.elems[i]];
    }
    c := Vec(v.start, buffer);
  }

  /** operator=: the target's old buffer, size and start index are discarded
      and replaced by a deep copy of the source, so the target takes the
      source's size even when that is smaller. Self-assignment (dst == src)
      leaves the vector as it was. */
  method Assign<T>(dst: Vec<T>, src: Vec<T>) returns (r: Vec<T>)
    ensures r.Size() == src.Size() && r.start == src.start
    ensures forall k :: 0 <= k < src.Size() ==> r.elems[k] == src.elems[k]
    ensures dst == src ==> r == dst
  {
    r := Copy(src);
  }

  // ---------------------------------------------------------------------
  // Element access
  // ---------------------------------------------------------------------

  /** The upper-bound test of operator[] as the header writes it. The offset
      is compared with Size by `>`, so the offset Size itself, one slot past
      the buffer, is not rejected. */
  predicate SourceTooLarge<T>(v: Vec<T>, pos: int)
  {
    pos > MAX_VECTOR_SIZE || pos - v.start > v.Size()
  }

  /** The upper-bound test the header evidently intends: the offset must be
      strictly below Size. */
  predicate TooLarge<T>(v: Vec<T>, pos: int)
  {
    pos > MAX_VECTOR_SIZE || pos - v.start >= v.Size()
  }

  /** The buffer slot operator[] reaches for logical index `pos`, with both
      tests as written: first the upper test, then the lower one. */
  function SourceSlot<T>(v: Vec<T>, pos: int): (r: Result<int>)
    ensures pos > MAX_VECTOR_SIZE ==> r == Err(LargeIndex)
    ensures pos - v.start > v.Size() ==> r == Err(LargeIndex)
    ensures pos <= MAX_VECTOR_SIZE && pos < v.start ==> r == Err(NegativeLength)
    ensures r.Ok? <==> v.start <= pos <= v.start + v.Size() && pos <= MAX_VECTOR_SIZE
    ensures r.Ok? ==> r.value == pos - v.start
  {
    if SourceTooLarge(v, pos) then Err(LargeIndex)
    else if pos - v.start < 0 then Err(NegativeLength)
    else Ok(pos - v.start)
  }

  /** The as-written test lets the logical index StartIndex + Size through,
      and the slot it then addresses lies outside the buffer. */
  lemma SourceSlotAdmitsEnd<T>(v: Vec<T>)
    requires v.start + v.Size() <= MAX_VECTOR_SIZE
    ensures SourceSlot(v, v.start + v.Size()) == Ok(v.Size())
    ensures !(0 <= SourceSlot(v, v.start + v.Size()).value < |v.elems|)
  {
  }

  /** The buffer slot with the strict upper test: an accepted index always
      addresses an element of the buffer. */
  function Slot<T>(v: Vec<T>, pos: int): (r: Result<int>)
    ensures pos > MAX_VECTOR_SIZE ==> r == Err(LargeIndex)
    ensures pos - v.start >= v.Size() ==> r == Err(LargeIndex)
    ensures pos <= MAX_VECTOR_SIZE && pos < v.start ==> r == Err(NegativeLength)
    ensures r.Ok? <==> v.start <= pos < v.start + v.Size() && pos <= MAX_VECTOR_SIZE
    ensures r.Ok? ==> r.value == pos - v.start && 0 <= r.value < v.Size()
  {
    if TooLarge(v, pos) then Err(LargeIndex)
    else if pos - v.start < 0 then Err(NegativeLength)
    else Ok(pos - v.start)
  }

  /** The two tests disagree on exactly one index: StartIndex + Size, which
      the header accepts and the corrected test rejects as LargeIndex. */
  lemma SlotDiffersOnlyAtEnd<T>(v: Vec<T>, pos: int)
    ensures SourceSlot(v, pos) != Slot(v, pos) <==>
              pos == v.start + v.Size() && pos <= MAX_VECTOR_SIZE
    ensures SourceSlot(v, pos) != Slot(v, pos) ==> Slot(v, pos) == Err(LargeIndex)
  {
  }

  /** Reading v[pos]. */
  function Get<T>(v: Vec<T>, pos: int): (r: Result<T>)
    ensures r.Ok? <==> v.start <= pos < v.start + v.Size() && pos <= MAX_VECTOR_SIZE
    ensures r.Ok? ==> r.value == v.elems[pos - v.start]
    ensures r.Err? ==> r.error == Slot(v, pos).error
  {
    match Slot(v, pos)
    case Ok(k) => Ok(v.elems[k])
    case Err(e) => Err(e)
  }

  /** Writing v[pos] = x: only slot pos - StartIndex changes, and neither the
      size nor the start index does. */
  function Set<T>(v: Vec<T>, pos: int, x: T): (r: Result<Vec<T>>)
    ensures r.Ok? <==> v.start <= pos < v.start + v.Size() && pos <= MAX_VECTOR_SIZE
    ensures r.Err? ==> r.error == Slot(v, pos).error
    ensures r.Ok? ==> r.value.start == v.start && r.value.Size() == v.Size()
    ensures r.Ok? ==> r.value.elems[pos - v.start] == x
    ensures r.Ok? ==> forall k :: 0 <= k < v.Size() && k != pos - v.start ==>
                        r.value.elems[k] == v.elems[k]
  {
    match Slot(v, pos)
    case Ok(k) => Ok(v.(elems := v.elems[k := x]))
    case Err(e) => Err(e)
  }

  /** A freshly constructed vector is addressable exactly on its logical
      range (up to the index maximum), and every element reads as the fresh
      contents. */
  lemma NewThenGet<T>(s: int, si: int, fill: T, pos: int)
    requires 0 <= s <= MAX_VECTOR_SIZE && 0 <= si
    ensures Get(New(s, si, fill).value, pos).Ok? <==>
              si <= pos < si + s && pos <= MAX_VECTOR_SIZE
    ensures Get(New(s, si, fill).value, pos).Ok? ==>
              Get(New(s, si, fill).value, pos).value == fill
  {
  }

  /** A write is read back at its own index and is invisible at every other. */
  lemma GetAfterSet<T>(v: Vec<T>, pos: int, x: T, q: int)
    requires Set(v, pos, x).Ok?
    ensures Get(Set(v, pos, x).value, pos) == Ok(x)
    ensures q != pos ==> Get(Set(v, pos, x).value, q) == Get(v, q)
  {
    var w := Set(v, pos, x).value;
    if q != pos && Get(v, q).Ok? {
      assert q - v.start != pos - v.start;
      assert w.elems[q - w.start] == v.elems[q - v.start];
    }
  }

  // ---------------------------------------------------------------------
  // Equality
  // ---------------------------------------------------------------------

  /** Equality as the header defines it: same start index, same size, and
      equal elements at every position. */
  predicate SameVec<T(==)>(a: Vec<T>, b: Vec<T>)
  {
    && a.start == b.start
    && a.Size() == b.Size()
    && forall k :: 0 <= k < a.Size() ==> a.elems[k] == b.elems[k]
  }

  /** The header's equality is exactly equality of the modelled values; in
      particular it is reflexive and symmetric. */
  lemma SameVecIsEquality<T>(a: Vec<T>, b: Vec<T>)
    ensures SameVec(a, b) <==> a == b
    ensures SameVec(a, a)
    ensures SameVec(a, b) <==> SameVec(b, a)
  {
    if SameVec(a, b) {
      assert a.elems == b.elems;
    }
  }

  /** operator==: after the start-index and size test it counts the
      positions whose elements are equal and compares the count with Size. */
  method Equal<T(==)>(a: Vec<T>, b: Vec<T>) returns (eq: bool)
    ensures eq <==> SameVec(a, b)
    ensures eq <==> a == b
  {
    SameVecIsEquality(a, b);
    if a.start != b.start || a.Size() != b.Size() {
      return false;
    }
    var matches := 0;
    for i := 0 to b.Size()
      invariant matches <= i
      invariant matches == i <==> forall k :: 0 <= k < i ==> a.elems[k] == b.elems[k]
    {
      if a.elems[i] == b.elems[i] {
        matches := matches + 1;
      }
    }
    eq := matches == a.Size();
  }

  /** operator!=: the negation of operator==. */
  method NotEqual<T(==)>(a: Vec<T>, b: Vec<T>) returns (ne: bool)
    ensures ne <==> !SameVec(a, b)
    ensures ne <==> a != b
  {
    var eq := Equal(a, b);
    ne := !eq;
  }

  // ---------------------------------------------------------------------
  // Scalar operators
  // ---------------------------------------------------------------------

  /** The three scalar operators: v + val, v - val, v * val. */
  datatype ScalarOp = Plus | Minus | Times

  function Apply(op: ScalarOp, e: int, val: int): int
  {
    match op
    case Plus => e + val
    case Minus => e - val
    case Times => e * val
  }

  /** The vector every element of which has been combined with `val`. */
  function Scaled(v: Vec<int>, op: ScalarOp, val: int): Vec<int>
  {
    Vec(v.start, seq(v.Size(), k requires 0 <= k < v.Size() => Apply(op, v.elems[k], val)))
  }

  /** operator+(val), operator-(val), operator*(val). The header updates the
      receiver's buffer in place and returns a copy of the updated receiver:
      `receiver` is the receiver afterwards, `returned` the value returned. */
  method ScalarOperator(v: Vec<int>, op: ScalarOp, val: int) returns (receiver: Vec<int>, returned: Vec<int>)
    ensures receiver == returned
    ensures returned.start == v.start && returned.Size() == v.Size()
    ensures forall k :: 0 <= k < v.Size() ==> returned.elems[k] == Apply(op, v.elems[k], val)
    ensures returned == Scaled(v, op, val)
  {
    receiver := v;
    for i := 0 to v.Size()
      invariant receiver.start == v.start && receiver.Size() == v.Size()
      invariant forall k :: 0 <= k < i ==> receiver.elems[k] == Apply(op, v.elems[k], val)
      invariant forall k :: i <= k < v.Size() ==> receiver.elems[k] == v.elems[k]
    {
      receiver := receiver.(elems := receiver.elems[i := Apply(op, receiver.elems[i], val)]);
    }
    returned := Copy(receiver);
  }

  /** Subtracting a scalar undoes adding it. */
  lemma ScaledPlusMinusInverse(v: Vec<int>, val: int)
    ensures Scaled(Scaled(v, Plus, val), Minus, val) == v
  {
    var w := Scaled(Scaled(v, Plus, val), Minus, val);
    assert forall k :: 0 <= k < v.Size() ==> w.elems[k] == v.elems[k];
    assert w.elems == v.elems;
  }

  /** Multiplying by one changes nothing. */
  lemma ScaledTimesOne(v: Vec<int>)
    ensures Scaled(v, Times, 1) == v
  {
    var w := Scaled(v, Times, 1);
    assert forall k :: 0 <= k < v.Size() ==> w.elems[k] == v.elems[k];
    assert w.elems == v.elems;
  }

  /** The scalar operators take `val` by const reference, so `v op v[p]`
      passes one of the receiver's own slots, k = p - StartIndex. The loop
      reads that slot afresh on every step: slots up to and including k are
      combined with its old value, and the later slots with its updated
      value. */
  function AliasedScaled(v: Vec<int>, op: ScalarOp, k: nat): Vec<int>
    requires k < v.Size()
  {
    var updated := Apply(op, v.elems[k], v.elems[k]);
    Vec(v.start, seq(v.Size(), j requires 0 <= j < v.Size() =>
                       if j <= k then Apply(op, v.elems[j], v.elems[k])
                       else Apply(op, v.elems[j], updated)))
  }

  /** `v op v[p]` with the scalar read through its reference: the same
      in-place loop, where the scalar is the current content of slot k. */
  method ScalarOperatorAliased(v: Vec<int>, op: ScalarOp, k: nat) returns (receiver: Vec<int>, returned: Vec<int>)
    requires k < v.Size()
    ensures receiver == returned
    ensures returned.start == v.start && returned.Size() == v.Size()
    ensures forall j :: 0 <= j <= k ==> returned.elems[j] == Apply(op, v.elems[j], v.elems[k])
    ensures forall j :: k < j < v.Size() ==>
              returned.elems[j] == Apply(op, v.elems[j], Apply(op, v.elems[k], v.elems[k]))
    ensures returned == AliasedScaled(v, op, k)
  {
    receiver := v;
    for i := 0 to v.Size()
      invariant receiver.start == v.start && receiver.Size() == v.Size()
      invariant forall j :: 0 <= j < i && j <= k ==> receiver.elems[j] == Apply(op, v.elems[j], v.elems[k])
      invariant forall j :: k < j < i ==>
                  receiver.elems[j] == Apply(op, v.elems[j], Apply(op, v.elems[k], v.elems[k]))
      invariant forall j :: i <= j < v.Size() ==> receiver.elems[j] == v.elems[j]
    {
      receiver := receiver.(elems := receiver.elems[i := Apply(op, receiver.elems[i], receiver.elems[k])]);
    }
    returned := Copy(receiver);
  }

  /** The aliased call agrees with the scalar operator applied to the slot's
      value whenever the updated slot keeps its value or no slot follows it. */
  lemma AliasedScaledAgrees(v: Vec<int>, op: ScalarOp, k: nat)
    requires k < v.Size()
    requires k == v.Size() - 1 || Apply(op, v.elems[k], v.elems[k]) == v.elems[k]
    ensures AliasedScaled(v, op, k) == Scaled(v, op, v.elems[k])
  {
    var a := AliasedScaled(v, op, k);
    var b := Scaled(v, op, v.elems[k]);
    assert forall j :: 0 <= j < v.Size() ==> a.elems[j] == b.elems[j];
    assert a.elems == b.elems;
  }

  /** But in general it does not: [1, 1, 1] + v[0] gives [2, 3, 3], not the
      [2, 2, 2] of adding the scalar 1. */
  lemma AliasedScaledDiffers()
    ensures AliasedScaled(Vec(0, [1, 1, 1]), Plus, 0) == Vec(0, [2, 3, 3])
    ensures Scaled(Vec(0, [1, 1, 1]), Plus, 1) == Vec(0, [2, 2, 2])
  {
    var a := AliasedScaled(Vec(0, [1, 1, 1]), Plus, 0);
    assert a.elems[0] == 2 && a.elems[1] == 3 && a.elems[2] == 3;
    assert a.elems == [2, 3, 3];
    var b := Scaled(Vec(0, [1, 1, 1]), Plus, 1);
    assert b.elems[0] == 2 && b.elems[1] == 2 && b.elems[2] == 2;
    assert b.elems == [2, 2, 2];
  }

  // ---------------------------------------------------------------------
  // Vector operators
  // ---------------------------------------------------------------------

  /** Element operator applied pairwise to two equally long buffers, in
      index order; the first element whose operator fails aborts the loop
      with that failure. */
  function CombineElems<T>(xs: seq<T>, ys: seq<T>, op: (T, T) -> Result<T>): (r: Result<seq<T>>)
    requires |xs| == |ys|
    ensures r.Ok? <==> forall k :: 0 <= k < |xs| ==> op(xs[k], ys[k]).Ok?
    ensures r.Ok? ==> |r.value| == |xs|
    ensures r.Ok? ==> forall k :: 0 <= k < |xs| ==> op(xs[k], ys[k]) == Ok(r.value[k])
    ensures r.Err? ==> exists k :: 0 <= k < |xs| && op(xs[k], ys[k]) == Err(r.error)
    decreases |xs|
  {
    if |xs| == 0 then Ok([])
    else
      match op(xs[0], ys[0])
      case Err(e) => Err(e)
      case Ok(z) =>
        match CombineElems(xs[1..], ys[1..], op)
        case Err(e) => Err(e)
        case Ok(zs) => Ok([z] + zs)
  }

  /** The shared shape of operator+(const TVector&) and operator-(const
      TVector&): only the sizes are compared, never the start indices; the
      result takes the left operand's size and start index, and its element
      k is op(a[k], b[k]). */
  function Combine<T>(a: Vec<T>, b: Vec<T>, op: (T, T) -> Result<T>): (r: Result<Vec<T>>)
    ensures a.Size() != b.Size() ==> r == Err(DifferentSize)
    ensures r.Ok? <==> a.Size() == b.Size() &&
                       forall k :: 0 <= k < a.Size() ==> op(a.elems[k], b.elems[k]).Ok?
    ensures r.Ok? ==> r.value.start == a.start && r.value.Size() == a.Size()
    ensures r.Ok? ==> forall k :: 0 <= k < a.Size() ==> op(a.elems[k], b.elems[k]) == Ok(r.value.elems[k])
    ensures r.Err? && a.Size() == b.Size() ==>
              exists k :: 0 <= k < a.Size() && op(a.elems[k], b.elems[k]) == Err(r.error)
  {
    if a.Size() != b.Size() then Err(DifferentSize)
    else
      match CombineElems(a.elems, b.elems, op)
      case Err(e) => Err(e)
      case Ok(es) => Ok(Vec(a.start, es))
  }

  function AddInts(x: int, y: int): Result<int>
  {
    Ok(x + y)
  }

  function SubInts(x: int, y: int): Result<int>
  {
    Ok(x - y)
  }

  /** operator+(const TVector&) on integer vectors. */
  function Add(a: Vec<int>, b: Vec<int>): (r: Result<Vec<int>>)
    ensures r.Err? <==> a.Size() != b.Size()
    ensures r.Err? ==> r.error == DifferentSize
    ensures r.Ok? ==> r.value.start == a.start && r.value.Size() == a.Size()
    ensures r.Ok? ==> forall k :: 0 <= k < a.Size() ==> r.value.elems[k] == a.elems[k] + b.elems[k]
  {
    Combine(a, b, AddInts)
  }

  /** operator-(const TVector&) on integer vectors. */
  function Sub(a: Vec<int>, b: Vec<int>): (r: Result<Vec<int>>)
    ensures r.Err? <==> a.Size() != b.Size()
    ensures r.Err? ==> r.error == DifferentSize
    ensures r.Ok? ==> r.value.start == a.start && r.value.Size() == a.Size()
    ensures r.Ok? ==> forall k :: 0 <= k < a.Size() ==> r.value.elems[k] == a.elems[k] - b.elems[k]
  {
    Combine(a, b, SubInts)
  }

  /** Subtracting b undoes adding b. */
  lemma SubUndoesAdd(a: Vec<int>, b: Vec<int>)
    requires a.Size() == b.Size()
    ensures Add(a, b).Ok?
    ensures Sub(Add(a, b).value, b) == Ok(a)
  {
    var s := Add(a, b).value;
    var d := Sub(s, b).value;
    assert forall k :: 0 <= k < a.Size() ==> d.elems[k] == a.elems[k];
    assert d.elems == a.elems;
  }

  /** Vector addition commutes on the elements; only the start index, which
      comes from the left operand, can tell a + b from b + a. */
  lemma AddCommutesUpToStart(a: Vec<int>, b: Vec<int>)
    requires a.Size() == b.Size()
    ensures Add(a, b).Ok? && Add(b, a).Ok?
    ensures Add(a, b).value.elems == Add(b, a).value.elems
    ensures Add(a, b).value.start == a.start && Add(b, a).value.start == b.start
  {
    var ab := Add(a, b).value;
    var ba := Add(b, a).value;
    assert forall k :: 0 <= k < a.Size() ==> ab.elems[k] == ba.elems[k];
  }

  // ---------------------------------------------------------------------
  // Dot product
  // ---------------------------------------------------------------------

  /** The sum, from 0, of the products of the first n element pairs, taken
      in index order with the right operand's element first, as the header
      accumulates them. */
  function DotSum(xs: seq<int>, ys: seq<int>, n: nat): int
    requires n <= |xs| && n <= |ys|
  {
    if n == 0 then 0 else DotSum(xs, ys, n - 1) + ys[n - 1] * xs[n - 1]
  }

  /** operator*(const TVector&): the dot product of equally long vectors. */
  method Dot(a: Vec<int>, b: Vec<int>) returns (r: Result<int>)
    ensures r.Err? <==> a.Size() != b.Size()
    ensures r.Err? ==> r.error == DifferentSize
    ensures r.Ok? ==> r.value == DotSum(a.elems, b.elems, a.Size())
  {
    if b.Size() != a.Size() {
      return Err(DifferentSize);
    }
    var acc := 0;
    for i := 0 to b.Size()
      invariant acc == DotSum(a.elems, b.elems, i)
    {
      acc := acc + b.elems[i] * a.elems[i];
    }
    r := Ok(acc);
  }

  /** For integers the dot product does not depend on operand order. */
  lemma {:induction false} DotSumCommutes(xs: seq<int>, ys: seq<int>, n: nat)
    requires n <= |xs| && n <= |ys|
    ensures DotSum(xs, ys, n) == DotSum(ys, xs, n)
  {
    if n > 0 {
      DotSumCommutes(xs, ys, n - 1);
    }
  }
}
