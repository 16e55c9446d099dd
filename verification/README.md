# RGB-to-NV12 colour-conversion node: structural contract

This project models the structural contract of OpenVINO's RGB→NV12 colour-conversion graph node. The model covers two parts. The first is the `ConvertColorRGBBase` family rule: it decides from the inputs' shapes and element types whether a node may exist, and what its output signature is. The second is the opset8 `RGBtoNV12` node: its two constructors, which fix the format and validate at once, and `clone_with_new_inputs`. No pixel is computed by the node, and none is modelled.

Modules:

- `Results` (`results.dfy`): the `Result`/`Option` types used for construction failures.
- `TensorTypes` (`tensor_types.dfy`): abstract tensor descriptions. A dimension is `Known(n)` or `Dynamic`, and a shape is a sequence of dimensions. There is a closed element-type enumeration, with its family (`KindOf`) and bit width. An input edge is an opaque producer handle carrying a shape and an element type.
- `ConvertColorRgbBase` (`convert_color_rgb_base.dfy`): the `ColorConversion` format and its integer values, the default format, `IsTypeSupported`, and the inference rule `Infer`. It also holds the `Node` value, the `Validated` invariant, the protected constructors (`DefaultNode`, `Construct`) and the attribute hook.
- `RgbToNv12` (`rgb_to_nv12.dfy`): `NewFromImage`, `NewFromPlanes`, `CloneWithNewInputs`, and lemmas about cloning and the concrete scenarios.

The validating constructors (`Construct`, `NewFromImage`, `NewFromPlanes`) and `CloneWithNewInputs` return `Ok(node)` only for a node that satisfies `Validated`, meaning its outputs are exactly what `Infer` derives from its inputs and format. Otherwise they return `Err(kind)`. So none of them yields a node that breaks the rule. The protected default constructor (`DefaultNode`) does not validate. The node it yields has no inputs and is not `Validated`.

## Assumptions

- **Two-input reading.** The base class documents its two-argument constructor as (`arg_rgb`, `arg_extra`): a primary RGB tensor plus auxiliary data (`src/core/include/openvino/op/util/convert_color_rgb_base.hpp:47-48`). The concrete class names the same two arguments `arg_y`/`arg_uv` (`src/core/include/openvino/op/rgb_to_nv12.hpp:16`). The class documentation describes the Y/UV planes as the OUTPUT of the two-plane form (lines 17 and 24-25). Each plane is derived from the image: Y is `[N, H, W, 1]` and UV is `[N, H/2, W/2, 2]` (lines 19-21). Under the `arg_rgb`/`arg_extra` reading, that rule would derive both planes from `arg_rgb` and leave `arg_extra` unconstrained. The model instead follows the concrete class's naming. It assumes the two-input form receives a luma plane followed by a chroma plane, and it uses the documentation's output-plane description as the rule those two inputs must satisfy. Each output then mirrors its input plane.
- `Infer` states the rule as the class doc comment gives it (`convert_color_rgb_base.hpp:14-25`). It does not follow the implementation of `validate_and_infer_types` line by line. The checks run in this order: input count, then rank of every input, then element type of every input, then the arity-specific checks. Error kinds are abstract: `Arity`, `Rank`, `ElementType`, `Channel`, `DerivedDimension`.
- The format does not enter the rule. NV21 differs from NV12 only in the order of U and V within the chroma plane, so both formats share one plane geometry (`InferIgnoresFormat`). The documentation names NV21 only as a possible future extension (`convert_color_rgb_base.hpp:33`).
- Single-plane input: the image is RGB in NHWC layout, so its channel extent must be 3 or unknown. The doc comment implies this ("RGB images", NHWC) without stating the number. The output is `[N, 1.5·H, W, 1]`. An odd known H is refused with `DerivedDimension`. An unknown H stays unknown.
- Two-plane input: Y's channel must be 1 and UV's channel must be 2, with unknown extents accepted. "`H = image_h / 2`" is read as an exact half: when both extents are known, `2·uv == y`. The same holds for W. Each output mirrors its input's N, H and W, with C fixed to 1 or 2. The two planes must share an element type.

## Model

| member | source | states |
|---|---|---|
| ConvertColorRgbBase.FormatCode | src/core/include/openvino/op/util/convert_color_rgb_base.hpp:34 | a format's underlying integer is 0 or 1 |
| ConvertColorRgbBase.FormatOfCode | src/core/include/openvino/op/util/convert_color_rgb_base.hpp:34 | an integer names a format iff it is 0 or 1 |
| ConvertColorRgbBase.FormatCodeRoundTrip | src/core/include/openvino/op/util/convert_color_rgb_base.hpp:34 | decoding a format's integer gives the format back |
| ConvertColorRgbBase.FormatOfCodeRoundTrip | src/core/include/openvino/op/util/convert_color_rgb_base.hpp:34 | encoding a decoded integer gives the integer back |
| ConvertColorRgbBase.FormatCodeInjective | src/core/include/openvino/op/util/convert_color_rgb_base.hpp:34 | the two formats have different integer values |
| ConvertColorRgbBase.ValidatedInvariants | src/core/include/openvino/op/util/convert_color_rgb_base.hpp:55 | every validated node has one or two NHWC inputs that share one supported element type, and one output per input carrying that input's type |
| ConvertColorRgbBase.DefaultNode | src/core/include/openvino/op/util/convert_color_rgb_base.hpp:63-64 | a node whose format is not given has format RGB_TO_NV12 (value 0); with no inputs it is not yet a validated node |
| ConvertColorRgbBase.IsTypeSupported | src/core/include/openvino/op/util/convert_color_rgb_base.hpp:60-61 | a type is supported iff it is floating-point or the 8-bit unsigned integer type (doc line 22) |
| ConvertColorRgbBase.SignedIntegersUnsupported | src/core/include/openvino/op/util/convert_color_rgb_base.hpp:22 | no signed integer type is supported |
| ConvertColorRgbBase.AllNhwc | src/core/include/openvino/op/util/convert_color_rgb_base.hpp:16 | the per-input rank check holds iff every input has rank 4 |
| ConvertColorRgbBase.AllSupported | src/core/include/openvino/op/util/convert_color_rgb_base.hpp:22 | the per-input type check holds iff every input's element type is supported |
| ConvertColorRgbBase.Nv12Height | src/core/include/openvino/op/util/convert_color_rgb_base.hpp:18 | the NV12 height is 1.5 times a known even image height, unknown for an unknown one, and a derived-dimension error for an odd one |
| ConvertColorRgbBase.ImageHeightOf | src/core/include/openvino/op/util/convert_color_rgb_base.hpp:18 | the inverse relation: two thirds of an NV12 height divisible by 3; unknown stays unknown |
| ConvertColorRgbBase.Nv12HeightRoundTrip | src/core/include/openvino/op/util/convert_color_rgb_base.hpp:18 | recovering the image height from a derived NV12 height gives the original height |
| ConvertColorRgbBase.ImageHeightRoundTrip | src/core/include/openvino/op/util/convert_color_rgb_base.hpp:18 | every recoverable image height derives the NV12 height it came from |
| ConvertColorRgbBase.Nv12HeightInjective | src/core/include/openvino/op/util/convert_color_rgb_base.hpp:18 | different image heights never derive the same NV12 height |
| ConvertColorRgbBase.Infer | src/core/include/openvino/op/util/convert_color_rgb_base.hpp:14-25 | an arity error iff the input count is not 1 or 2; a rank error when some input's rank is not 4; a type error when some input's type is unsupported. One input: a channel error when C is not 3, and otherwise a derived-dimension error for an odd known H. Two inputs: a type error when their types differ, then a channel error when Y's C is not 1 or UV's C is not 2, then a derived-dimension error when a known UV H or W is not exactly half of Y's. One input: accepted iff it is an admissible RGB image, with one output of the same type, same N and W, H·1.5 (unknown if H is unknown) and C = 1. Two inputs: accepted iff the Y/UV plane relation holds, with two outputs of the shared type mirroring the planes with C = 1 and C = 2 |
| ConvertColorRgbBase.Construct | src/core/include/openvino/op/util/convert_color_rgb_base.hpp:39-50 | a node is built iff the rule accepts its inputs; the built node has the given inputs and format and is validated; otherwise the rule's error is returned |
| ConvertColorRgbBase.VisitAttributes | src/core/include/openvino/op/util/convert_color_rgb_base.hpp:57 | the attribute hook exposes the node's format, unchanged |
| ConvertColorRgbBase.Rebuild | src/core/include/openvino/op/util/convert_color_rgb_base.hpp:57 | a node rebuilt from visited attributes carries their format and is validated |
| ConvertColorRgbBase.AttributesRoundTrip | src/core/include/openvino/op/util/convert_color_rgb_base.hpp:57 | visiting a validated node and rebuilding it over the same inputs gives the same node |
| ConvertColorRgbBase.InferSinglePlane | src/core/include/openvino/op/util/convert_color_rgb_base.hpp:18 | for a rank-4 image: a channel error when C is not 3; a derived-dimension error for an odd known H with C = 3; on success exactly one single-plane output |
| ConvertColorRgbBase.InferTwoPlanes | src/core/include/openvino/op/util/convert_color_rgb_base.hpp:19-21 | for two rank-4 planes, checked in this order: a type error when their element types differ; a channel error unless Y's C is 1 and UV's C is 2; a derived-dimension error when a known UV H or W is not exactly half of Y's; on success two outputs mirroring the planes with C = 1 and C = 2 |
| ConvertColorRgbBase.InferSeesOnlyTensors | src/core/include/openvino/op/util/convert_color_rgb_base.hpp:23-25 | the rule's result depends only on the inputs' shapes and element types, not on which producers they come from |
| ConvertColorRgbBase.InferIgnoresFormat | src/core/include/openvino/op/util/convert_color_rgb_base.hpp:32-34 | RGB_TO_NV12 and RGB_TO_NV21 share one plane geometry, so the rule gives the same answer for either |
| ConvertColorRgbBase.SignatureDetermined | src/core/include/openvino/op/util/convert_color_rgb_base.hpp:55 | two validated nodes whose inputs carry the same shapes and element types have the same output signature, whatever their producers and format |
| RgbToNv12.NewFromImage | src/core/src/op/rgb_to_nv12.cpp:11-14 | the one-input constructor succeeds iff the image is admissible; the node has format RGB_TO_NV12, exactly that one input, is validated and has one single-plane output |
| RgbToNv12.NewFromPlanes | src/core/src/op/rgb_to_nv12.cpp:16-19 | the two-input constructor succeeds iff the plane pair is admissible; the node has format RGB_TO_NV12, the two inputs in the given order, is validated and has the two plane outputs |
| RgbToNv12.CloneWithNewInputs | src/core/src/op/rgb_to_nv12.cpp:21-29 | an arity error whenever the argument count is not 1 or 2; otherwise it succeeds iff the rule accepts the new arguments, fails with the rule's own error when it does not, and the clone has exactly those inputs, format RGB_TO_NV12, and re-derived outputs |
| RgbToNv12.CloneOntoSameInputs | src/core/src/op/rgb_to_nv12.cpp:21-29 | cloning a validated RGB-to-NV12 node onto its own inputs reproduces it, output signature included |
| RgbToNv12.CloneIgnoresOrigin | src/core/src/op/rgb_to_nv12.cpp:21 | a clone depends on the new arguments only |
| RgbToNv12.CloneIdempotent | src/core/src/op/rgb_to_nv12.cpp:24-28 | cloning a clone over the same arguments gives the same node |
| RgbToNv12.SinglePlaneExample | src/core/include/openvino/op/util/convert_color_rgb_base.hpp:18 | a u8 image [1,480,640,3] gives the single output [1,720,640,1] of type u8 |
| RgbToNv12.TwoPlaneExample | src/core/include/openvino/op/util/convert_color_rgb_base.hpp:19-21 | planes [1,480,640,1] and [1,240,320,2] of type u8 come back unchanged as the two outputs |
| RgbToNv12.FourChannelImageRefused | src/core/include/openvino/op/util/convert_color_rgb_base.hpp:16 | a four-channel image is refused with a channel error |
| RgbToNv12.ThreeInputsRefused | src/core/src/op/rgb_to_nv12.cpp:23 | three inputs are refused with an arity error, by construction and by cloning |
| RgbToNv12.OddHeightRefused | src/core/include/openvino/op/util/convert_color_rgb_base.hpp:18 | an image of odd known height 481 is refused with a derived-dimension error |
| RgbToNv12.DynamicHeightStaysDynamic | src/core/include/openvino/op/util/convert_color_rgb_base.hpp:18 | an image of unknown height gives an output of unknown height, with N and W carried over and C = 1 |

## Left out

- Pixel-level RGB→YUV arithmetic (`convert_color_rgb_base.hpp:26-29`): floating-point numerics that the compute backend performs. None of it is in the modelled files.
- The attribute-visitor framework: `VisitAttributes` models only what the hook exposes, the format. How the visitor serialises an enum is not modelled.
- Graph plumbing (`Output<Node>`, `std::shared_ptr`, `OutputVector`): an input is an opaque producer handle with a shape and an element type. An output is only its shape and element type.
- Type-registration macros (`OPENVINO_OP`), `OV_OP_SCOPE` instrumentation and include guards: they carry no behaviour.
- Concurrency: nodes are immutable values here.
- Shapes of unknown rank and the dynamic element type: every shape has a static rank, and the element-type enumeration has no "dynamic" member. The doc comment names only u8 and floating-point types as supported.
- Infer: batch extents of the Y and UV planes are not compared, and the width of a single-plane image need not be even. The doc comment states neither requirement.
- CloneWithNewInputs: the source raises its arity failure as an assertion, not as a validation failure. Both are the `Arity` kind here.
- Error messages and which input an error names: errors are kinds only.
