/**
 * `TensorDesc` of the `openvino` crate: a layout, a precision and the dimensions packed into the fixed eight-slot `dimensions_t` of the C API. The
 * layout and precision enums come from generated bindings, so they are type
 * parameters here.
 */
module TensorDescriptor {
  import opened Wrappers
  import opened Decimal

  /** Number of slots in `dimensions_t::dims`. */
  const SLOTS: nat := 8

  const RANK_PANIC: string := "assertion failed: dimensions.len() < 8"
  const RANK_PANIC_CORRECTED: string := "assertion failed: dimensions.len() <= 8"

  /** The rank check of `new` as written: strictly fewer than eight dimensions. */
  predicate RankAcceptedAsWritten(n: nat) {
    n < SLOTS
  }

  /** The rank check the documentation promises: up to eight dimensions, one per slot. */
  predicate RankAccepted(n: nat) {
    n <= SLOTS
  }

  /** The two checks differ at exactly one rank: eight, which fits the eight slots. */
  lemma EightDimensionsRejected(n: nat)
    ensures RankAcceptedAsWritten(n) <==> RankAccepted(n) && n != SLOTS
    ensures !RankAcceptedAsWritten(SLOTS) && RankAccepted(SLOTS)
  {
  }

  /** `usize` multiplication as a release build performs it: modulo 2^64. */
  function WrappingMul(a: usize, b: usize): usize {
    ((a as int * b as int) % USIZE_MODULUS) as usize
  }

  /** The exact product of the dimensions, 1 for none. */
  function Product(dims: seq<usize>): nat {
    if dims == [] then 1 else Product(dims[..|dims| - 1]) * dims[|dims| - 1] as nat
  }

  /** `dims.iter().fold(acc, |a, &b| a * b)`: multiply from the left, wrapping. */
  function Fold(acc: usize, dims: seq<usize>): usize
    decreases |dims|
  {
    if dims == [] then acc else Fold(WrappingMul(acc, dims[0]), dims[1..])
  }

  /** The wrapping fold reduces modulo 2^64 what the exact product would be. */
  lemma {:induction false} FoldIsProduct(acc: usize, dims: seq<usize>)
    ensures Fold(acc, dims) as int == (acc as int * Product(dims)) % USIZE_MODULUS
    decreases |dims|
  {
    if dims != [] {
      var a := acc as int;
      var d := dims[0] as int;
      FoldIsProduct(WrappingMul(acc, dims[0]), dims[1..]);
      ProductCons(dims[0], dims[1..]);
      assert dims == [dims[0]] + dims[1..];
      ModMulLeft(a * d, Product(dims[1..]));
      assert a * d * Product(dims[1..]) == a * (d * Product(dims[1..]));
    }
  }

  /** The product peels off its first factor as well as its last. */
  lemma {:induction false} ProductCons(d: usize, rest: seq<usize>)
    ensures Product([d] + rest) == d as nat * Product(rest)
    decreases |rest|
  {
    if rest != [] {
      var last := rest[|rest| - 1];
      assert ([d] + rest)[..|rest|] == [d] + rest[..|rest| - 1];
      ProductCons(d, rest[..|rest| - 1]);
    } else {
      assert [d] + rest == [d];
      assert ([d] + rest)[..0] == [];
    }
  }

  /** Reducing the first factor modulo 2^64 first does not change the product modulo 2^64. */
  lemma ModMulLeft(x: int, y: nat)
    ensures ((x % USIZE_MODULUS) * y) % USIZE_MODULUS == (x * y) % USIZE_MODULUS
  {
    var m := USIZE_MODULUS;
    var q, r := x / m, x % m;
    assert x * y == r * y + (q * y) * m;
    ShiftMod(r * y, q * y, m);
  }

  /**
   * A tensor description: `layout`, `precision`, and the `ranks` leading slots of the
   * eight-slot array `dims`.
   */
  class TensorDesc<L, P> {
    const layout: L
    const precision: P
    const ranks: nat
    const dims: array<usize>

    /** The packing `new` establishes: eight slots, at most eight in use, the rest zero. */
    ghost predicate Valid()
      reads this, dims
    {
      dims.Length == SLOTS && ranks <= SLOTS && forall i :: ranks <= i < SLOTS ==> dims[i] == 0
    }

    /**
     * The packing step of `new`: a zeroed eight-slot array whose leading slots receive
     * the dimensions, one by one as `copy_from_slice` does.
     */
    constructor Pack(layout: L, dimensions: seq<usize>, precision: P)
      requires |dimensions| <= SLOTS
      ensures Valid()
      ensures this.layout == layout && this.precision == precision
      ensures ranks == |dimensions| && fresh(dims)
      ensures dims[..] == dimensions + seq(SLOTS - |dimensions|, _ => 0)
    {
      var slots := new usize[SLOTS](_ => 0);
      for i := 0 to |dimensions|
        invariant slots[..i] == dimensions[..i]
        invariant forall k :: i <= k < SLOTS ==> slots[k] == 0
      {
        slots[i] := dimensions[i];
      }
      this.layout := layout;
      this.precision := precision;
      this.ranks := |dimensions|;
      this.dims := slots;
      new;
      assert dims[..] == dimensions + seq(SLOTS - |dimensions|, _ => 0) by {
        assert dims[..|dimensions|] == dimensions;
      }
    }

    /** `dims()`: the slots in use. */
    function Dims(): (r: seq<usize>)
      reads this, dims
      requires Valid()
      ensures |r| == ranks
    {
      dims[..ranks]
    }

    /** `len()`: the number of elements, the wrapping product of the dimensions. */
    function Len(): (r: usize)
      reads this, dims
      requires Valid()
      ensures r as int == Product(Dims()) % USIZE_MODULUS
    {
      FoldIsProduct(1, Dims());
      Fold(1, Dims())
    }
  }

  /**
   * `TensorDesc::new` as written: the `assert!` rejects eight or more dimensions;
   * otherwise the layout, the dimensions and the precision are packed as given.
   */
  method NewAsWritten<L, P>(layout: L, dimensions: seq<usize>, precision: P) returns (r: Outcome<TensorDesc<L, P>>)
    ensures !RankAcceptedAsWritten(|dimensions|) <==> r == Panic(RANK_PANIC)
    ensures r.Done? ==> fresh(r.value) && fresh(r.value.dims) && r.value.Valid()
    ensures r.Done? ==> r.value.Dims() == dimensions && r.value.ranks == |dimensions|
    ensures r.Done? ==> r.value.layout == layout && r.value.precision == precision
  {
    if !RankAcceptedAsWritten(|dimensions|) {
      return Panic(RANK_PANIC);
    }
    var desc := new TensorDesc.Pack(layout, dimensions, precision);
    assert desc.Dims() == desc.dims[..][..|dimensions|];
    return Done(desc);
  }

  /**
   * `TensorDesc::new` as documented: up to eight dimensions are packed, more panic.
   */
  method New<L, P>(layout: L, dimensions: seq<usize>, precision: P) returns (r: Outcome<TensorDesc<L, P>>)
    ensures !RankAccepted(|dimensions|) <==> r == Panic(RANK_PANIC_CORRECTED)
    ensures r.Done? ==> fresh(r.value) && fresh(r.value.dims) && r.value.Valid()
    ensures r.Done? ==> r.value.Dims() == dimensions && r.value.ranks == |dimensions|
    ensures r.Done? ==> r.value.layout == layout && r.value.precision == precision
  {
    if !RankAccepted(|dimensions|) {
      return Panic(RANK_PANIC_CORRECTED);
    }
    var desc := new TensorDesc.Pack(layout, dimensions, precision);
    assert desc.Dims() == desc.dims[..][..|dimensions|];
    return Done(desc);
  }

  /** The element count of no dimensions is the empty product, 1. */
  lemma LenEmpty()
    ensures Fold(1, []) == 1 && Product([]) == 1
  {
  }

  /** Where the exact product fits a `usize`, `len()` is the exact element count. */
  lemma LenExact(dims: seq<usize>)
    requires Product(dims) < USIZE_MODULUS
    ensures Fold(1, dims) as int == Product(dims)
  {
    FoldIsProduct(1, dims);
  }

  /** The blob tests' NHWC description `[1, 2, 2, 2]` describes 8 elements. */
  lemma LenExample()
    ensures Fold(1, [1, 2, 2, 2]) == 8
  {
  }

  /** Any zero dimension makes the description empty. */
  lemma {:induction false} ProductZero(dims: seq<usize>, i: nat)
    requires i < |dims| && dims[i] == 0
    ensures Product(dims) == 0
    decreases |dims|
  {
    if i < |dims| - 1 {
      ProductZero(dims[..|dims| - 1], i);
    }
  }
}
