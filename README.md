# Single-image object detection pipeline, modelled in Dafny

The Android activity `MainActivity` loads one image, resizes it to the
model's fixed 150 x 150 input, encodes it into a flat tensor of normalised
floats, runs a TensorFlow Lite model on it, reads back a four-float output
buffer, picks the highest-scoring position as the class, names it from a
label table (falling back to the sentinel `"Objeto Desconhecido"`), and turns
the same four floats into a bounding box clamped to the image.

This project models that pipeline and proves its data-layout and decision
properties:

- `shape.dfy` (`Shape`): the shape constants 150, 150, 3 and 4.
- `pixels.dfy` (`Pixels`): pixels as Kotlin `Int` (32-bit two's complement),
  `shr` as an arithmetic shift, `and 0xFF` as the low byte; channel
  extraction, with the ARGB packing as its inverse.
- `encoder.dfy` (`Encoder`): the encoding loop as a method that fills an
  array at an advancing position, proved equal to the specification
  function `Tensor`, with lemmas on its length, its layout and its range.
- `decoder.dfy` (`Decoder`): `maxByOrNull` over the result indices (first
  maximum wins, none on an empty buffer, then `?: -1`), `getOrNull ?:
  sentinel`, and `loadLabels` with its empty-list fallback.
- `annotator.dfy` (`Annotator`): `coerceAtLeast` / `coerceAtMost`, the
  scaling and clamping of the four coordinates, and the box.
- `inference.dfy` (`Inference`): `performInference` and the part of
  `pickImageFromAssets` that follows image decoding, with the model as an
  opaque function parameter.

Observed behaviour the model keeps as written:

- The output buffer has `numClasses` = 4 floats. The argmax runs over all
  four. `drawBoundingBoxes` reads the same four as xmin, ymin, xmax and ymax.
  A layout of four box coordinates followed by separate class scores is not
  what the code does, so it is not modelled.
- The clamp does not reorder coordinates. `xmin <= xmax` holds only when the
  raw values are ordered (`BoundingBoxKeepsOrder`);
  `BoundingBoxMayBeUnordered` shows a box with xmin 75 and xmax 30.
- The detected object's name is only logged, never drawn. The model returns it
  as part of `Detection`.
- A failed label load gives the empty list, so every index resolves to the
  sentinel. The code does not report this as a separate error.

## Model

| member | source | states |
|---|---|---|
| Pixels.LowByte | app/src/main/java/com/example/mlkitsimpleexemple/MainActivity.kt:94-96 | `and 0xFF` yields a byte congruent to its argument modulo 256 |
| Pixels.UnpackPack | app/src/main/java/com/example/mlkitsimpleexemple/MainActivity.kt:94-96 | red `(p shr 16) and 0xFF`, green `(p shr 8) and 0xFF` and blue `p and 0xFF` pick bits 16-23, 8-15 and 0-7 of an ARGB-packed pixel: extracting them gives back the packed bytes, whatever the alpha byte and so for negative pixel integers too |
| Pixels.PackUnpack | app/src/main/java/com/example/mlkitsimpleexemple/MainActivity.kt:94-96 | every 32-bit pixel, negative ones included, is the packing of its alpha byte and the red, green and blue bytes the shifts and masks extract, so each channel is a byte in [0, 255] and the extraction loses nothing but alpha |
| Encoder.Normalize | app/src/main/java/com/example/mlkitsimpleexemple/MainActivity.kt:94-96 | `c / 255` lies in [0, 1], times 255 gives back the byte, and is 0 or 1 exactly for bytes 0 and 255 |
| Encoder.TensorLength | app/src/main/java/com/example/mlkitsimpleexemple/MainActivity.kt:93-97 | the tensor holds exactly three floats per pixel |
| Encoder.TensorAt | app/src/main/java/com/example/mlkitsimpleexemple/MainActivity.kt:93-97 | entries 3i, 3i+1 and 3i+2 are the normalised red, green and blue of pixel i, in pixel-array order |
| Encoder.TensorEntry | app/src/main/java/com/example/mlkitsimpleexemple/MainActivity.kt:93-97 | entry k comes from channel k mod 3 of pixel k div 3 |
| Encoder.TensorUnitRange | app/src/main/java/com/example/mlkitsimpleexemple/MainActivity.kt:94-96 | every tensor entry lies in [0, 1] |
| Encoder.TensorHasInputShape | app/src/main/java/com/example/mlkitsimpleexemple/MainActivity.kt:87-97 | a 150 x 150 image yields a tensor of width x height x channels floats |
| Encoder.Encode | app/src/main/java/com/example/mlkitsimpleexemple/MainActivity.kt:87-97 | the buffer filled by the loop is the specification tensor and has the declared input length; two encodings of the same pixels are therefore identical |
| Decoder.ScanMax | app/src/main/java/com/example/mlkitsimpleexemple/MainActivity.kt:119 | the replace-only-when-strictly-greater scan ends on the first maximum |
| Decoder.MaxByOrNull | app/src/main/java/com/example/mlkitsimpleexemple/MainActivity.kt:119 | no index exactly for an empty buffer, else an index whose score is at least every score and strictly above every earlier one |
| Decoder.MaxProbIndex | app/src/main/java/com/example/mlkitsimpleexemple/MainActivity.kt:119 | -1 exactly on an empty buffer, else the first maximum's index |
| Decoder.FirstMaxUnique | app/src/main/java/com/example/mlkitsimpleexemple/MainActivity.kt:119 | the first maximum is unique, so class selection is determined by the scores |
| Decoder.MaxProbIndexIsFirstMax | app/src/main/java/com/example/mlkitsimpleexemple/MainActivity.kt:119 | the selected index equals i if and only if i is the first maximum, or the buffer is empty and i is -1 |
| Decoder.AllEqualSelectsFirst | app/src/main/java/com/example/mlkitsimpleexemple/MainActivity.kt:119 | with all scores equal, index 0 is selected |
| Decoder.GetOrNull | app/src/main/java/com/example/mlkitsimpleexemple/MainActivity.kt:125 | a label exactly for an index inside the table, and then the label at that index |
| Decoder.DetectedObject | app/src/main/java/com/example/mlkitsimpleexemple/MainActivity.kt:125 | an index inside the table gives its label; any other index, -1 included, gives `"Objeto Desconhecido"` |
| Decoder.DetectedObjectIsLabelOrUnknown | app/src/main/java/com/example/mlkitsimpleexemple/MainActivity.kt:125 | the name is from the table or is the sentinel; if the table lacks the sentinel, the sentinel appears exactly for indices without a label |
| Decoder.LoadLabels | app/src/main/java/com/example/mlkitsimpleexemple/MainActivity.kt:133-146 | a readable file gives its lines in order; a file that cannot be opened or fails while being read gives the empty list |
| Decoder.FailedLoadGivesUnknown | app/src/main/java/com/example/mlkitsimpleexemple/MainActivity.kt:142-145 | after a failed load every index resolves to the sentinel |
| Annotator.CoerceAtLeast | app/src/main/java/com/example/mlkitsimpleexemple/MainActivity.kt:158-161 | the result is at least the bound and is the value or the bound, the value when it already meets the bound |
| Annotator.CoerceAtMost | app/src/main/java/com/example/mlkitsimpleexemple/MainActivity.kt:158-161 | the result is at most the bound and is the value or the bound, the value when it already meets the bound |
| Annotator.ScaleCoordinate | app/src/main/java/com/example/mlkitsimpleexemple/MainActivity.kt:158-161 | the coordinate is `min(max(raw * dim, 0), dim)` and lies in [0, dim] |
| Annotator.ScaleInRangeIsExact | app/src/main/java/com/example/mlkitsimpleexemple/MainActivity.kt:158-161 | a raw value in [0, 1] is scaled and not clamped |
| Annotator.ScaleOutOfRangeSaturates | app/src/main/java/com/example/mlkitsimpleexemple/MainActivity.kt:158-161 | a raw value at or below 0 gives 0, at or above 1 gives the dimension |
| Annotator.ScaleMonotonic | app/src/main/java/com/example/mlkitsimpleexemple/MainActivity.kt:158-161 | scaling and clamping preserve the order of two raw values |
| Annotator.ClampIdempotent | app/src/main/java/com/example/mlkitsimpleexemple/MainActivity.kt:158-161 | clamping a clamped coordinate again changes nothing |
| Annotator.BoundingBox | app/src/main/java/com/example/mlkitsimpleexemple/MainActivity.kt:158-165 | result[0..3] become xmin, ymin, xmax, ymax, scaled by width for x and height for y, and the box lies inside the image |
| Annotator.BoundingBoxOfInRangeResult | app/src/main/java/com/example/mlkitsimpleexemple/MainActivity.kt:158-161 | raw values in [0, 1] give the plain scaled box |
| Annotator.BoundingBoxKeepsOrder | app/src/main/java/com/example/mlkitsimpleexemple/MainActivity.kt:158-161 | ordered raw coordinates give an ordered box |
| Annotator.BoundingBoxMayBeUnordered | app/src/main/java/com/example/mlkitsimpleexemple/MainActivity.kt:158-165 | the code does not reorder: raw (0.5, 0, 0.2, 0) gives xmin 75 and xmax 30 |
| Inference.Decode | app/src/main/java/com/example/mlkitsimpleexemple/MainActivity.kt:106-125 | the returned result is the output buffer, the index is its first maximum within the four positions, and the name is the label lookup of that index, the table's entry when the table has four labels or more |
| Inference.PerformInference | app/src/main/java/com/example/mlkitsimpleexemple/MainActivity.kt:85-131 | the detection is the decoding of the model's output on the encoded pixels against the loaded labels; a failed label load always gives the sentinel |
| Inference.PickImage | app/src/main/java/com/example/mlkitsimpleexemple/MainActivity.kt:74-76 | the drawn box is the clamped box of the model's output and lies inside the image |
| Inference.ExampleDecode | app/src/main/java/com/example/mlkitsimpleexemple/MainActivity.kt:106-125 | output (0.1, 0.1, 0.9, 0.9) gives the box (15, 15, 135, 135), class 2 and, with labels apple, banana, kiwi, orange, `"kiwi"` |
| Inference.ExampleTie | app/src/main/java/com/example/mlkitsimpleexemple/MainActivity.kt:119 | four equal scores select class 0 |
| Inference.ExampleUnknown | app/src/main/java/com/example/mlkitsimpleexemple/MainActivity.kt:125 | index 7 against four labels, and any index against an empty table, give the sentinel |

## Left out

- The activity lifecycle, edge-to-edge layout, window insets and view binding are user interface, not modelled.
- Opening and memory-mapping the model file, opening assets, decoding the JPEG and reading lines of the label file are I/O. The decoded, resized pixels and the label file's lines are parameters. The label file is a `LabelFile` value that says whether opening or reading fails.
- `Bitmap.createScaledBitmap`, `getPixels` and `bitmap.copy` are graphics-library calls. The encoder receives the 150 x 150 pixel array they produce.
- The `Canvas` and `Paint` drawing is a graphics-library call. Only the rectangle passed to `drawRect` is modelled.
- The inside of `Interpreter.run` is an opaque engine. It is the function parameter `run`, whose output type has exactly four floats. An output buffer of another size (an engine exception) is therefore not modelled.
- Native byte order, `ByteBuffer` and `FloatBuffer` are library plumbing. Buffers are arrays and sequences of reals, and the bulk copy of the output buffer into `result` is a plain assignment.
- Floating point is abstracted to exact reals. The model does not capture `/ 255.0f` rounding, `Float` multiplication, or NaN handling in `maxByOrNull` and `coerceAt*`.
- `Log.d` and `printStackTrace` are diagnostics. The logged name is returned in `Detection` instead.
- Decoder.MaxByOrNull: it is written for the result array and its own indices, not as Kotlin's generic `maxByOrNull` over any iterable and selector.
- The `IOException` handler in `pickImageFromAssets` only covers image loading, which is I/O and is not modelled.
