/**
  Abstract tensor descriptions: what a colour-conversion node can see of the
  tensors flowing into it. A graph edge (an output port of a producer node) is
  reduced to an opaque handle plus the static shape and element type it carries.
 */
module TensorTypes {

  /** One dimension of a static shape: a known extent, or unknown until run time. */
  datatype Dim = Known(n: nat) | Dynamic

  /** An ordered sequence of dimensions; the rank is its length. */
  type Shape = seq<Dim>

  /** The element types of the graph's type registry that this model distinguishes. */
  datatype ElemType =
    | Boolean
    | BF16 | F16 | F32 | F64
    | I8 | I16 | I32 | I64
    | U8 | U16 | U32 | U64

  /** Numeric families of the registry. */
  datatype Kind = Logical | SignedInt | UnsignedInt | FloatingPoint

  /** Registry lookup: the family an element type belongs to. */
  function KindOf(t: ElemType): Kind {
    match t
    case Boolean => Logical
    case BF16 | F16 | F32 | F64 => FloatingPoint
    case I8 | I16 | I32 | I64 => SignedInt
    case U8 | U16 | U32 | U64 => UnsignedInt
  }

  /** Registry lookup: the width of one element, in bits. */
  function BitWidth(t: ElemType): nat {
    match t
    case Boolean => 8
    case I8 | U8 => 8
    case BF16 | F16 | I16 | U16 => 16
    case F32 | I32 | U32 => 32
    case F64 | I64 | U64 => 64
  }

  /** True of the floating-point element types. */
  predicate IsReal(t: ElemType) {
    KindOf(t) == FloatingPoint
  }

  /** A dimension is compatible with a required extent when it is unknown or equal to it. */
  predicate Matches(d: Dim, n: nat) {
    d.Dynamic? || d.n == n
  }

  /** An input edge: the producer it comes from (an opaque handle) and the tensor it carries. */
  datatype Input = Input(producer: nat, shape: Shape, etype: ElemType)

  /** The static description of one node output. */
  datatype TensorDesc = TensorDesc(shape: Shape, etype: ElemType)

  /** Index names of the NHWC layout. */
  const BATCH := 0
  const HEIGHT := 1
  const WIDTH := 2
  const CHANNEL := 3
  const NHWC_RANK := 4
}
