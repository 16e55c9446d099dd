/**
  The shared structural rule of the RGB-to-NV12 colour-conversion node family
  (`ConvertColorRGBBase`): the conversion-format attribute, the element-type
  admissibility check, and the shape/type inference that decides whether a node
  may exist and what its outputs look like. No pixel is computed here.

  Two-input reading. The base class documents its two-argument constructor as
  (primary RGB tensor, auxiliary data), while the concrete RGB-to-NV12 class
  names the same two arguments (Y plane, UV plane). The class documentation
  describes the Y and UV planes as the OUTPUT of the two-plane form, derived
  from the image. This model ASSUMES the two-input form receives a luma plane
  and a chroma plane, and uses that output-plane description as the rule the
  two inputs must satisfy.
 */
module ConvertColorRgbBase {
  import opened Results
  import opened TensorTypes

  /** The conversion format; its underlying integer values are fixed. */
  datatype ColorConversion = RGB_TO_NV12 | RGB_TO_NV21

  /** The format a node has when none is given explicitly. */
  const DEFAULT_FORMAT := RGB_TO_NV12

  /** The underlying integer value of a format. */
  function FormatCode(f: ColorConversion): (code: int)
    ensures 0 <= code <= 1
  {
    match f
    case RGB_TO_NV12 => 0
    case RGB_TO_NV21 => 1
  }

  /** The format with a given underlying integer value, if there is one. */
  function FormatOfCode(code: int): (r: Option<ColorConversion>)
    ensures r.Some? <==> code == 0 || code == 1
  {
    if code == 0 then Some(RGB_TO_NV12)
    else if code == 1 then Some(RGB_TO_NV21)
    else None
  }

  /** Decoding an encoded format gives it back. */
  lemma FormatCodeRoundTrip(f: ColorConversion)
    ensures FormatOfCode(FormatCode(f)) == Some(f)
  {
  }

  /** Encoding a decoded integer gives the integer back. */
  lemma FormatOfCodeRoundTrip(code: int)
    requires FormatOfCode(code).Some?
    ensures FormatCode(FormatOfCode(code).value) == code
  {
  }

  /** Distinct formats have distinct integer values. */
  lemma FormatCodeInjective(f: ColorConversion, g: ColorConversion)
    requires FormatCode(f) == FormatCode(g)
    ensures f == g
  {
  }

  /** The construction-time failures of the rule; messages are not modelled. */
  datatype Error =
    | Arity             // input count other than 1 or 2
    | Rank              // an input whose rank is not 4 (NHWC)
    | ElementType       // an unsupported element type, or two inputs that disagree
    | Channel           // a channel extent other than the one the input's role demands
    | DerivedDimension  // a known extent that violates the NV12 plane arithmetic

  /** Whether an element type may flow through a conversion node: u8 or any floating-point type. */
  function IsTypeSupported(t: ElemType): (b: bool)
    ensures b <==> (IsReal(t) || (KindOf(t) == UnsignedInt && BitWidth(t) == 8))
  {
    match t
    case U8 | BF16 | F16 | F32 | F64 => true
    case Boolean | I8 | I16 | I32 | I64 | U16 | U32 | U64 => false
  }

  /** Signed integer element types are never supported. */
  lemma SignedIntegersUnsupported(t: ElemType)
    requires KindOf(t) == SignedInt
    ensures !IsTypeSupported(t)
  {
  }

  /** Every input has the NHWC rank. */
  function AllNhwc(ins: seq<Input>): (b: bool)
    ensures b <==> forall i :: 0 <= i < |ins| ==> |ins[i].shape| == NHWC_RANK
  {
    if |ins| == 0 then true
    else |ins[0].shape| == NHWC_RANK && AllNhwc(ins[1..])
  }

  /** Every input has a supported element type. */
  function AllSupported(ins: seq<Input>): (b: bool)
    ensures b <==> forall i :: 0 <= i < |ins| ==> IsTypeSupported(ins[i].etype)
  {
    if |ins| == 0 then true
    else IsTypeSupported(ins[0].etype) && AllSupported(ins[1..])
  }

  /** Height of the single-plane NV12 tensor for an image of height h: 1.5 times h, exact only for even h. */
  function Nv12Height(h: Dim): (r: Result<Dim, Error>)
    ensures h.Dynamic? ==> r == Ok(Dynamic)
    ensures h.Known? ==> (r.Ok? <==> h.n % 2 == 0)
    ensures r.Ok? && h.Known? ==> r.value.Known? && 2 * r.value.n == 3 * h.n
    ensures r.Err? ==> r.error == DerivedDimension
  {
    match h
    case Dynamic => Ok(Dynamic)
    case Known(n) => if n % 2 == 0 then Ok(Known(n + n / 2)) else Err(DerivedDimension)
  }

  /** Image height recovered from a single-plane NV12 height: two thirds of it, when exact. */
  function ImageHeightOf(d: Dim): (r: Option<Dim>)
    ensures d.Dynamic? ==> r == Some(Dynamic)
    ensures d.Known? ==> (r.Some? <==> d.n % 3 == 0)
    ensures r.Some? && d.Known? ==> r.value.Known? && 3 * r.value.n == 2 * d.n
  {
    match d
    case Dynamic => Some(Dynamic)
    case Known(m) => if m % 3 == 0 then Some(Known(m / 3 * 2)) else None
  }

  /** The NV12 height of an image height is undone by recovering the image height. */
  lemma Nv12HeightRoundTrip(h: Dim)
    requires Nv12Height(h).Ok?
    ensures ImageHeightOf(Nv12Height(h).value) == Some(h)
  {
  }

  /** Every image height recovered from an NV12 height maps back onto that NV12 height. */
  lemma ImageHeightRoundTrip(d: Dim)
    requires ImageHeightOf(d).Some?
    ensures Nv12Height(ImageHeightOf(d).value) == Ok(d)
  {
  }

  /** Two known image heights with the same NV12 height are equal. */
  lemma Nv12HeightInjective(a: Dim, b: Dim)
    requires Nv12Height(a).Ok? && Nv12Height(b).Ok?
    requires Nv12Height(a) == Nv12Height(b)
    ensures a == b
  {
  }

  /** A chroma extent is consistent with a luma extent when it is exactly half of it, or either is unknown. */
  predicate IsHalfOf(half: Dim, full: Dim) {
    half.Known? && full.Known? ==> 2 * half.n == full.n
  }

  /** Declarative acceptance condition for one packed RGB image. */
  predicate ImageAdmissible(img: Input) {
    && |img.shape| == NHWC_RANK
    && IsTypeSupported(img.etype)
    && Matches(img.shape[CHANNEL], 3)
    && !(img.shape[HEIGHT].Known? && img.shape[HEIGHT].n % 2 == 1)
  }

  /** Declarative description of the single-plane NV12 tensor produced for an image. */
  predicate IsSinglePlaneOf(out: TensorDesc, img: Input)
    requires |img.shape| == NHWC_RANK
  {
    var s, o := img.shape, out.shape;
    && out.etype == img.etype
    && |o| == NHWC_RANK
    && o[BATCH] == s[BATCH]
    && o[WIDTH] == s[WIDTH]
    && o[CHANNEL] == Known(1)
    && (s[HEIGHT].Dynamic? <==> o[HEIGHT].Dynamic?)
    && (s[HEIGHT].Known? ==> 2 * o[HEIGHT].n == 3 * s[HEIGHT].n)
  }

  /** Declarative acceptance condition for a (Y, UV) plane pair. */
  predicate PlanesAdmissible(y: Input, uv: Input) {
    && |y.shape| == NHWC_RANK
    && |uv.shape| == NHWC_RANK
    && IsTypeSupported(y.etype)
    && uv.etype == y.etype
    && Matches(y.shape[CHANNEL], 1)
    && Matches(uv.shape[CHANNEL], 2)
    && IsHalfOf(uv.shape[HEIGHT], y.shape[HEIGHT])
    && IsHalfOf(uv.shape[WIDTH], y.shape[WIDTH])
  }

  /** An output plane keeps its input's batch, height, width and element type, with the channel extent fixed. */
  predicate IsPlaneOf(out: TensorDesc, plane: Input, channels: nat)
    requires |plane.shape| == NHWC_RANK
  {
    && out.etype == plane.etype
    && |out.shape| == NHWC_RANK
    && out.shape[..CHANNEL] == plane.shape[..CHANNEL]
    && out.shape[CHANNEL] == Known(channels)
  }

  /** Output for one packed RGB image (case a of the rule). */
  function InferSinglePlane(img: Input): (r: Result<seq<TensorDesc>, Error>)
    requires |img.shape| == NHWC_RANK
    ensures !Matches(img.shape[CHANNEL], 3) ==> r == Err(Channel)
    ensures Matches(img.shape[CHANNEL], 3) && img.shape[HEIGHT].Known? && img.shape[HEIGHT].n % 2 == 1
      ==> r == Err(DerivedDimension)
    ensures r.Ok? ==> |r.value| == 1 && IsSinglePlaneOf(r.value[0], img)
  {
    var s := img.shape;
    if !Matches(s[CHANNEL], 3) then Err(Channel)
    else
      match Nv12Height(s[HEIGHT])
      case Err(e) => Err(e)
      case Ok(h) => Ok([TensorDesc([s[BATCH], h, s[WIDTH], Known(1)], img.etype)])
  }

  /** Outputs for a (Y, UV) plane pair (case b of the rule, under the two-input reading above). */
  function InferTwoPlanes(y: Input, uv: Input): (r: Result<seq<TensorDesc>, Error>)
    requires |y.shape| == NHWC_RANK && |uv.shape| == NHWC_RANK
    ensures y.etype != uv.etype ==> r == Err(ElementType)
    ensures y.etype == uv.etype && (!Matches(y.shape[CHANNEL], 1) || !Matches(uv.shape[CHANNEL], 2))
      ==> r == Err(Channel)
    ensures y.etype == uv.etype && Matches(y.shape[CHANNEL], 1) && Matches(uv.shape[CHANNEL], 2)
      && (!IsHalfOf(uv.shape[HEIGHT], y.shape[HEIGHT]) || !IsHalfOf(uv.shape[WIDTH], y.shape[WIDTH]))
      ==> r == Err(DerivedDimension)
    ensures r.Ok? ==> |r.value| == 2 && IsPlaneOf(r.value[0], y, 1) && IsPlaneOf(r.value[1], uv, 2)
  {
    var ys, us := y.shape, uv.shape;
    if y.etype != uv.etype then Err(ElementType)
    else if !Matches(ys[CHANNEL], 1) || !Matches(us[CHANNEL], 2) then Err(Channel)
    else if !IsHalfOf(us[HEIGHT], ys[HEIGHT]) || !IsHalfOf(us[WIDTH], ys[WIDTH]) then Err(DerivedDimension)
    else Ok([TensorDesc([ys[BATCH], ys[HEIGHT], ys[WIDTH], Known(1)], y.etype),
             TensorDesc([us[BATCH], us[HEIGHT], us[WIDTH], Known(2)], uv.etype)])
  }

  /**
    The shape/type rule run by every construction and clone. The checks run in
    this order: input count, rank of every input, element type of every input,
    then the arity-specific channel and plane-arithmetic checks. The two formats
    share the same plane geometry, so the rule does not branch on the format.
   */
  function Infer(inputs: seq<Input>, format: ColorConversion): (r: Result<seq<TensorDesc>, Error>)
    ensures !(|inputs| == 1 || |inputs| == 2) <==> r == Err(Arity)
    ensures r.Ok? ==> |r.value| == |inputs|
    ensures r.Ok? ==> forall i :: 0 <= i < |inputs| ==>
      |inputs[i].shape| == NHWC_RANK && IsTypeSupported(inputs[i].etype) && r.value[i].etype == inputs[i].etype
    ensures (|inputs| == 1 || |inputs| == 2) && (exists i :: 0 <= i < |inputs| && |inputs[i].shape| != NHWC_RANK)
      ==> r == Err(Rank)
    ensures (|inputs| == 1 || |inputs| == 2) && AllNhwc(inputs)
      && (exists i :: 0 <= i < |inputs| && !IsTypeSupported(inputs[i].etype))
      ==> r == Err(ElementType)
    ensures |inputs| == 1 && |inputs[0].shape| == NHWC_RANK && IsTypeSupported(inputs[0].etype)
      && !Matches(inputs[0].shape[CHANNEL], 3)
      ==> r == Err(Channel)
    ensures |inputs| == 1 && |inputs[0].shape| == NHWC_RANK && IsTypeSupported(inputs[0].etype)
      && Matches(inputs[0].shape[CHANNEL], 3)
      && inputs[0].shape[HEIGHT].Known? && inputs[0].shape[HEIGHT].n % 2 == 1
      ==> r == Err(DerivedDimension)
    ensures |inputs| == 2 && AllNhwc(inputs) && AllSupported(inputs)
      && inputs[0].etype != inputs[1].etype
      ==> r == Err(ElementType)
    ensures |inputs| == 2 && AllNhwc(inputs) && AllSupported(inputs)
      && inputs[0].etype == inputs[1].etype
      && (!Matches(inputs[0].shape[CHANNEL], 1) || !Matches(inputs[1].shape[CHANNEL], 2))
      ==> r == Err(Channel)
    ensures |inputs| == 2 && AllNhwc(inputs) && AllSupported(inputs)
      && inputs[0].etype == inputs[1].etype
      && Matches(inputs[0].shape[CHANNEL], 1) && Matches(inputs[1].shape[CHANNEL], 2)
      && (!IsHalfOf(inputs[1].shape[HEIGHT], inputs[0].shape[HEIGHT])
          || !IsHalfOf(inputs[1].shape[WIDTH], inputs[0].shape[WIDTH]))
      ==> r == Err(DerivedDimension)
    ensures |inputs| == 1 ==> (r.Ok? <==> ImageAdmissible(inputs[0]))
    ensures |inputs| == 1 && r.Ok? ==> IsSinglePlaneOf(r.value[0], inputs[0])
    ensures |inputs| == 2 ==> (r.Ok? <==> PlanesAdmissible(inputs[0], inputs[1]))
    ensures |inputs| == 2 && r.Ok? ==> IsPlaneOf(r.value[0], inputs[0], 1) && IsPlaneOf(r.value[1], inputs[1], 2)
  {
    if |inputs| != 1 && |inputs| != 2 then Err(Arity)
    else if !AllNhwc(inputs) then Err(Rank)
    else if !AllSupported(inputs) then Err(ElementType)
    else if |inputs| == 1 then InferSinglePlane(inputs[0])
    else InferTwoPlanes(inputs[0], inputs[1])
  }

  /** A node of the family: its format attribute, its input edges and its derived output signature. */
  datatype Node = Node(format: ColorConversion, inputs: seq<Input>, outputs: seq<TensorDesc>)

  /** A node is validated when its outputs are exactly what the rule derives from its inputs and format. */
  predicate Validated(n: Node) {
    Infer(n.inputs, n.format) == Ok(n.outputs)
  }

  /** What every validated node guarantees: one or two NHWC inputs of one supported type, one output per input. */
  lemma ValidatedInvariants(n: Node)
    requires Validated(n)
    ensures |n.inputs| == 1 || |n.inputs| == 2
    ensures |n.outputs| == |n.inputs|
    ensures forall i :: 0 <= i < |n.inputs| ==> |n.inputs[i].shape| == NHWC_RANK
    ensures forall i :: 0 <= i < |n.inputs| ==> IsTypeSupported(n.inputs[i].etype)
    ensures forall i :: 0 <= i < |n.inputs| ==> n.inputs[i].etype == n.inputs[0].etype
    ensures forall i :: 0 <= i < |n.outputs| ==> n.outputs[i].etype == n.inputs[i].etype
  {
  }

  /** The protected default constructor: no inputs, default format, not yet validated. */
  function DefaultNode(): (n: Node)
    ensures n.format == RGB_TO_NV12 && FormatCode(n.format) == 0
    ensures n.inputs == []
    ensures !Validated(n)
  {
    Node(DEFAULT_FORMAT, [], [])
  }

  /** The base constructors followed by validation: a node exists only if the rule accepts its inputs. */
  function Construct(inputs: seq<Input>, format: ColorConversion): (r: Result<Node, Error>)
    ensures r.Ok? <==> Infer(inputs, format).Ok?
    ensures r.Ok? ==> Validated(r.value) && r.value.inputs == inputs && r.value.format == format
    ensures r.Err? ==> r.error == Infer(inputs, format).error
  {
    match Infer(inputs, format)
    case Ok(outs) => Ok(Node(format, inputs, outs))
    case Err(e) => Err(e)
  }

  /** The structural attributes a node exposes to the attribute visitor: the format alone. */
  datatype Attributes = Attributes(format: ColorConversion)

  /** The visitor hook: exposes the format, unchanged. */
  function VisitAttributes(n: Node): (a: Attributes)
    ensures a.format == n.format
  {
    Attributes(n.format)
  }

  /** Rebuilds a node from visited attributes and input edges. */
  function Rebuild(a: Attributes, inputs: seq<Input>): (r: Result<Node, Error>)
    ensures r.Ok? ==> r.value.format == a.format && r.value.inputs == inputs && Validated(r.value)
  {
    Construct(inputs, a.format)
  }

  /** Visiting a validated node's attributes and rebuilding from them over its inputs yields the same node. */
  lemma AttributesRoundTrip(n: Node)
    requires Validated(n)
    ensures Rebuild(VisitAttributes(n), n.inputs) == Ok(n)
  {
  }

  /** Input sequences that agree on every input's shape and element type, whatever their producers. */
  predicate SameTensors(a: seq<Input>, b: seq<Input>) {
    && |a| == |b|
    && forall i :: 0 <= i < |a| ==> a[i].shape == b[i].shape && a[i].etype == b[i].etype
  }

  /** The rule reads only the inputs' shapes and element types: producer handles play no part. */
  lemma InferSeesOnlyTensors(a: seq<Input>, b: seq<Input>, format: ColorConversion)
    requires SameTensors(a, b)
    ensures Infer(a, format) == Infer(b, format)
  {
  }

  /** Both formats share one plane geometry, so the rule gives the same answer for either. */
  lemma InferIgnoresFormat(inputs: seq<Input>)
    ensures Infer(inputs, RGB_TO_NV12) == Infer(inputs, RGB_TO_NV21)
  {
  }

  /**
    The output signature is derived state: two validated nodes whose inputs carry
    the same shapes and element types have the same outputs, whichever producers
    the inputs come from and whichever format the nodes carry.
   */
  lemma SignatureDetermined(m: Node, n: Node)
    requires Validated(m) && Validated(n)
    requires SameTensors(m.inputs, n.inputs)
    ensures m.outputs == n.outputs
  {
    InferSeesOnlyTensors(m.inputs, n.inputs, m.format);
    InferIgnoresFormat(m.inputs);
  }
}
