/**
 * The column variant of the result table: a vector of `int64_t`, `double`,
 * `uint32_t` or `float`. It also covers the disagreement test of two cells
 * and the type conversion applied to mixed-kind tables.
 */
module Columns {
  import opened Format

  type Int64 = x: int | -0x8000_0000_0000_0000 <= x < 0x8000_0000_0000_0000
  type UInt32 = x: int | 0 <= x < 0x1_0000_0000

  /**
   * An IEEE-754 value, single or double precision: a finite number, an
   * infinity of either sign, or not-a-number.
   */
  datatype Float = Finite(value: real) | Infinite(negative: bool) | NaN

  /** std::numeric_limits<float>::epsilon(), 2^-23. */
  const FloatEpsilon: real := 1.0 / 8388608.0
  /** std::numeric_limits<double>::epsilon(), 2^-52. */
  const DoubleEpsilon: real := 1.0 / 4503599627370496.0

  /**
   * `std::fabs(a - b) > eps` under IEEE-754 rules: a NaN operand, or the
   * difference of two equal infinities, gives NaN, which compares false;
   * any other infinite difference compares true.
   */
  function Differs(a: Float, b: Float, eps: real): (r: bool)
    requires eps > 0.0
    ensures a == b ==> !r
    ensures (a.NaN? || b.NaN?) ==> !r
    ensures a.Finite? && b.Finite? ==> (r <==> Abs(a.value - b.value) > eps)
    ensures a.Infinite? != b.Infinite? && !a.NaN? && !b.NaN? ==> r
  {
    match (a, b)
    case (Finite(x), Finite(y)) => Abs(x - y) > eps
    case (Infinite(n), Infinite(m)) => n != m
    case (NaN, _) => false
    case (_, NaN) => false
    case _ => true
  }

  /** The alternatives of the variant, in declaration order. */
  datatype Kind = Int64Kind | DoubleKind | UInt32Kind | FloatKind

  /** std::is_floating_point_v of the element type. */
  predicate IsFloating(k: Kind) {
    k == DoubleKind || k == FloatKind
  }

  /** Variant_types_vec: one vector of exactly one of the four element types. */
  datatype Column =
    | Int64Column(int64s: seq<Int64>)
    | DoubleColumn(doubles: seq<Float>)
    | UInt32Column(uint32s: seq<UInt32>)
    | FloatColumn(floats: seq<Float>)

  function KindOf(c: Column): Kind {
    match c
    case Int64Column(_) => Int64Kind
    case DoubleColumn(_) => DoubleKind
    case UInt32Column(_) => UInt32Kind
    case FloatColumn(_) => FloatKind
  }

  function Length(c: Column): nat {
    match c
    case Int64Column(s) => |s|
    case DoubleColumn(s) => |s|
    case UInt32Column(s) => |s|
    case FloatColumn(s) => |s|
  }

  /** A cell as the number it denotes: an integer or a floating value. */
  datatype Value = Integer(n: int) | Floating(f: Float)

  function At(c: Column, i: nat): (r: Value)
    requires i < Length(c)
    ensures r.Floating? <==> IsFloating(KindOf(c))
  {
    match c
    case Int64Column(s) => Integer(s[i])
    case DoubleColumn(s) => Floating(s[i])
    case UInt32Column(s) => Integer(s[i])
    case FloatColumn(s) => Floating(s[i])
  }

  /** Machine epsilon of a floating kind. */
  function Epsilon(k: Kind): (eps: real)
    ensures eps > 0.0
  {
    if k == FloatKind then FloatEpsilon else DoubleEpsilon
  }

  /**
   * Whether row `i` of `col` disagrees with row `i` of the reference column
   * `ref` of the same kind: integers when they are unequal (`golden - x != 0`
   * is non-zero exactly for unequal operands, also with wrap-around), floating
   * values when they differ by more than the kind's epsilon.
   */
  function Disagree(ref: Column, col: Column, i: nat): (r: bool)
    requires KindOf(ref) == KindOf(col) && i < Length(ref) && i < Length(col)
    ensures ref == col ==> !r
    ensures !IsFloating(KindOf(col)) ==> (r <==> At(ref, i) != At(col, i))
    ensures IsFloating(KindOf(col)) ==> (r <==> Differs(At(ref, i).f, At(col, i).f, Epsilon(KindOf(col))))
  {
    match (ref, col)
    case (Int64Column(a), Int64Column(b)) => a[i] != b[i]
    case (UInt32Column(a), UInt32Column(b)) => a[i] != b[i]
    case (DoubleColumn(a), DoubleColumn(b)) => Differs(a[i], b[i], DoubleEpsilon)
    case (FloatColumn(a), FloatColumn(b)) => Differs(a[i], b[i], FloatEpsilon)
    case _ => false
  }

  /** A cell copied into a `double`. */
  function AsDouble(v: Value): Float {
    match v
    case Integer(n) => Finite(n as real)
    case Floating(f) => f
  }

  /** The elements of a column copied into a vector of `double`, in order. */
  function ToDoubles(c: Column): (r: seq<Float>)
    ensures |r| == Length(c)
    ensures forall i :: 0 <= i < |r| ==> r[i] == AsDouble(At(c, i))
  {
    match c
    case Int64Column(s) => seq(|s|, i requires 0 <= i < |s| => Finite(s[i] as real))
    case DoubleColumn(s) => s
    case UInt32Column(s) => seq(|s|, i requires 0 <= i < |s| => Finite(s[i] as real))
    case FloatColumn(s) => s
  }

  /** The element type a mixed table is converted to. */
  datatype Target = ToDouble | ToInt64

  /**
   * One column copied element by element into a vector of the target type.
   * Only integer columns are ever converted to `int64_t`.
   */
  function ConvertColumn(c: Column, target: Target): (r: Column)
    requires target == ToInt64 ==> !IsFloating(KindOf(c))
    ensures Length(r) == Length(c)
    ensures KindOf(r) == (if target == ToDouble then DoubleKind else Int64Kind)
    ensures forall i :: 0 <= i < Length(c) ==>
      At(r, i) == (if target == ToDouble then Floating(AsDouble(At(c, i))) else At(c, i))
  {
    match target
    case ToDouble => DoubleColumn(ToDoubles(c))
    case ToInt64 =>
      match c
      case Int64Column(s) => c
      case UInt32Column(s) => Int64Column(seq(|s|, i requires 0 <= i < |s| => s[i] as Int64))
  }

  /** Every column has the kind of the first one. */
  predicate AllSameKind(cols: seq<Column>) {
    forall c :: 0 <= c < |cols| ==> KindOf(cols[c]) == KindOf(cols[0])
  }

  /** Some column holds `float` or `double` elements. */
  predicate AnyFloating(cols: seq<Column>) {
    exists c :: 0 <= c < |cols| && IsFloating(KindOf(cols[c]))
  }

  /** The target a mixed table is converted to. */
  function TargetOf(cols: seq<Column>): Target {
    if AnyFloating(cols) then ToDouble else ToInt64
  }

  /**
   * The data columns as they are compared: unchanged when all share one
   * kind; otherwise every column converted to `double` when a floating
   * column is present and to `int64_t` when not.
   */
  function Unify(cols: seq<Column>): (r: seq<Column>)
    ensures |r| == |cols|
    ensures AllSameKind(r)
    ensures AllSameKind(cols) ==> r == cols
    ensures forall c :: 0 <= c < |cols| ==> Length(r[c]) == Length(cols[c])
  {
    if AllSameKind(cols) then cols
    else seq(|cols|, c requires 0 <= c < |cols| => ConvertColumn(cols[c], TargetOf(cols)))
  }

  /**
   * Conversion keeps every element's value: a table converted to `int64_t`
   * holds the same integers, one converted to `double` the same numbers as
   * doubles, and a table with a floating column always ends up floating.
   */
  lemma UnifyKeepsValues(cols: seq<Column>, c: nat, i: nat)
    requires c < |cols| && i < Length(cols[c]) && !AllSameKind(cols)
    ensures AnyFloating(cols) ==> KindOf(Unify(cols)[c]) == DoubleKind
    ensures !AnyFloating(cols) ==> KindOf(Unify(cols)[c]) == Int64Kind
    ensures At(Unify(cols)[c], i) ==
      (if AnyFloating(cols) then Floating(AsDouble(At(cols[c], i))) else At(cols[c], i))
  {
    if !AnyFloating(cols) {
      assert !IsFloating(KindOf(cols[c]));
    }
  }
}
