/**
  The concrete RGB-to-NV12 node (opset8 `RGBtoNV12`): two constructors that fix
  the format to RGB_TO_NV12 and validate at once, and cloning onto new input
  edges. A node value returned as `Ok` is always validated; a failed
  construction yields no node at all.
 */
module RgbToNv12 {
  import opened Results
  import opened TensorTypes
  import opened ConvertColorRgbBase

  /** One-input constructor: a packed RGB image, converted to a single NV12 plane. */
  function NewFromImage(arg: Input): (r: Result<Node, Error>)
    ensures r.Ok? <==> ImageAdmissible(arg)
    ensures r.Ok? ==> r.value.format == RGB_TO_NV12 && r.value.inputs == [arg] && Validated(r.value)
    ensures r.Ok? ==> |r.value.outputs| == 1 && IsSinglePlaneOf(r.value.outputs[0], arg)
  {
    Construct([arg], RGB_TO_NV12)
  }

  /** Two-input constructor: a Y plane and a UV plane, given in that order. */
  function NewFromPlanes(y: Input, uv: Input): (r: Result<Node, Error>)
    ensures r.Ok? <==> PlanesAdmissible(y, uv)
    ensures r.Ok? ==> r.value.format == RGB_TO_NV12 && r.value.inputs == [y, uv] && Validated(r.value)
    ensures r.Ok? ==> |r.value.outputs| == 2 && IsPlaneOf(r.value.outputs[0], y, 1) && IsPlaneOf(r.value.outputs[1], uv, 2)
  {
    Construct([y, uv], RGB_TO_NV12)
  }

  /**
    Rebuilds an RGB-to-NV12 node over new input edges: an argument count other
    than one or two is refused before any node is built; otherwise the
    constructor matching the count runs, with its full validation.
   */
  function CloneWithNewInputs(n: Node, newArgs: seq<Input>): (r: Result<Node, Error>)
    ensures !(|newArgs| == 1 || |newArgs| == 2) ==> r == Err(Arity)
    ensures r.Ok? <==> Infer(newArgs, RGB_TO_NV12).Ok?
    ensures r.Err? ==> r.error == Infer(newArgs, RGB_TO_NV12).error
    ensures r.Ok? ==> r.value.inputs == newArgs && r.value.format == RGB_TO_NV12 && Validated(r.value)
  {
    if |newArgs| != 1 && |newArgs| != 2 then Err(Arity)
    else if |newArgs| == 1 then NewFromImage(newArgs[0])
    else NewFromPlanes(newArgs[0], newArgs[1])
  }

  /** Cloning a validated RGB-to-NV12 node onto its own inputs reproduces it exactly, outputs included. */
  lemma CloneOntoSameInputs(n: Node)
    requires Validated(n) && n.format == RGB_TO_NV12
    ensures CloneWithNewInputs(n, n.inputs) == Ok(n)
  {
  }

  /** The clone depends only on the new arguments, not on the node it is taken from. */
  lemma CloneIgnoresOrigin(m: Node, n: Node, newArgs: seq<Input>)
    ensures CloneWithNewInputs(m, newArgs) == CloneWithNewInputs(n, newArgs)
  {
  }

  /** A clone of a clone over the same arguments is the first clone. */
  lemma CloneIdempotent(n: Node, newArgs: seq<Input>)
    requires CloneWithNewInputs(n, newArgs).Ok?
    ensures CloneWithNewInputs(CloneWithNewInputs(n, newArgs).value, newArgs) == CloneWithNewInputs(n, newArgs)
  {
  }

  /** A 480x640 u8 RGB image gives a 720x640 single-channel NV12 tensor. */
  lemma SinglePlaneExample()
    ensures NewFromImage(Input(0, [Known(1), Known(480), Known(640), Known(3)], U8)).Ok?
    ensures NewFromImage(Input(0, [Known(1), Known(480), Known(640), Known(3)], U8)).value.outputs
      == [TensorDesc([Known(1), Known(720), Known(640), Known(1)], U8)]
  {
  }

  /** A 480x640 Y plane with a 240x320 UV plane gives both planes back as outputs. */
  lemma TwoPlaneExample()
    ensures NewFromPlanes(Input(0, [Known(1), Known(480), Known(640), Known(1)], U8),
                          Input(1, [Known(1), Known(240), Known(320), Known(2)], U8)).Ok?
    ensures NewFromPlanes(Input(0, [Known(1), Known(480), Known(640), Known(1)], U8),
                          Input(1, [Known(1), Known(240), Known(320), Known(2)], U8)).value.outputs
      == [TensorDesc([Known(1), Known(480), Known(640), Known(1)], U8),
          TensorDesc([Known(1), Known(240), Known(320), Known(2)], U8)]
  {
  }

  /** A four-channel image is refused with a channel error. */
  lemma FourChannelImageRefused()
    ensures NewFromImage(Input(0, [Known(1), Known(480), Known(640), Known(4)], U8)) == Err(Channel)
  {
  }

  /** Three inputs are refused with an arity error, by the constructors' rule and by cloning alike. */
  lemma ThreeInputsRefused(n: Node, a: Input, b: Input, c: Input)
    ensures Construct([a, b, c], RGB_TO_NV12) == Err(Arity)
    ensures CloneWithNewInputs(n, [a, b, c]) == Err(Arity)
  {
  }

  /** An odd known image height is refused: 1.5 times it is not an integer. */
  lemma OddHeightRefused()
    ensures NewFromImage(Input(0, [Known(1), Known(481), Known(640), Known(3)], F32)) == Err(DerivedDimension)
  {
  }

  /** An unknown image height stays unknown in the NV12 output. */
  lemma DynamicHeightStaysDynamic(n: Dim, w: Dim)
    ensures NewFromImage(Input(0, [n, Dynamic, w, Known(3)], F16))
      == Ok(Node(RGB_TO_NV12, [Input(0, [n, Dynamic, w, Known(3)], F16)],
                 [TensorDesc([n, Dynamic, w, Known(1)], F16)]))
  {
  }
}
