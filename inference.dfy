/** The whole of `performInference` and its use in `pickImageFromAssets`:
    encode, run the model, copy its output, pick a class, name it, and frame
    the box. */
module Inference {
  import opened Shape
  import opened Pixels
  import opened Encoder
  import opened Decoder
  import opened Annotator

  /** An output buffer of the declared length: `4 * numClasses` bytes, read
      back as `numClasses` floats. */
  type OutputBuffer = s: seq<real> | |s| == NumClasses witness [0.0, 0.0, 0.0, 0.0]

  /** What `performInference` computes: the result array it returns, the
      class index it selects, and the object name it logs. */
  datatype Detection = Detection(result: seq<real>, maxProbIndex: int, detectedObject: string)

  /** The decoding of one output buffer against one label table. */
  function Decode(result: OutputBuffer, labels: seq<string>): (d: Detection)
    ensures d.result == result
    ensures IsFirstMax(result, d.maxProbIndex)
    ensures 0 <= d.maxProbIndex < NumClasses
    ensures d.detectedObject == DetectedObject(labels, d.maxProbIndex)
    ensures |labels| >= NumClasses ==> d.detectedObject == labels[d.maxProbIndex]
  {
    var index := MaxProbIndex(result);
    Detection(result, index, DetectedObject(labels, index))
  }

  /** `performInference`. The model is `run`, an opaque function from input
      tensor to output buffer; the label resource is `labelFile`. */
  method PerformInference(pixels: seq<Int32>, run: seq<real> -> OutputBuffer, labelFile: LabelFile)
    returns (d: Detection)
    requires |pixels| == InputImageWidth * InputImageHeight
    ensures d == Decode(run(Tensor(pixels)), LabelsOf(labelFile))
    ensures d.result == run(Tensor(pixels))
    ensures IsFirstMax(d.result, d.maxProbIndex)
    ensures labelFile.Lines? && |labelFile.lines| >= NumClasses ==> d.detectedObject == labelFile.lines[d.maxProbIndex]
    ensures !labelFile.Lines? ==> d.detectedObject == UnknownObject
  {
    var inputBuffer := Encode(pixels);
    var outputBuffer := run(inputBuffer);
    var result := outputBuffer;
    var maxProbIndex := MaxProbIndex(result);
    var labels := LoadLabels(labelFile);
    var detectedObject := DetectedObject(labels, maxProbIndex);
    d := Detection(result, maxProbIndex, detectedObject);
  }

  /** `pickImageFromAssets` after the image has been decoded and resized:
      infer, then compute the box that `drawBoundingBoxes` draws. */
  method PickImage(pixels: seq<Int32>, run: seq<real> -> OutputBuffer, labelFile: LabelFile)
    returns (box: Box)
    requires |pixels| == InputImageWidth * InputImageHeight
    ensures box == BoundingBox(run(Tensor(pixels)))
    ensures InsideImage(box)
  {
    var d := PerformInference(pixels, run, labelFile);
    box := BoundingBox(d.result);
  }

  /** A typical output: the box spans 15..135 on both axes and, since the
      same four floats are also the class scores, the first 0.9 wins. */
  lemma ExampleDecode()
    ensures BoundingBox([0.1, 0.1, 0.9, 0.9]) == Box(15.0, 15.0, 135.0, 135.0)
    ensures Decode([0.1, 0.1, 0.9, 0.9], ["apple", "banana", "kiwi", "orange"])
      == Detection([0.1, 0.1, 0.9, 0.9], 2, "kiwi")
  {
    var result: OutputBuffer := [0.1, 0.1, 0.9, 0.9];
    MaxProbIndexIsFirstMax(result, 2);
  }

  /** Equal scores select class 0. */
  lemma ExampleTie()
    ensures Decode([0.5, 0.5, 0.5, 0.5], ["apple", "banana", "kiwi", "orange"]).maxProbIndex == 0
  {
    AllEqualSelectsFirst([0.5, 0.5, 0.5, 0.5]);
  }

  /** An index with no label, and an empty table, both give the sentinel. */
  lemma ExampleUnknown()
    ensures DetectedObject(["apple", "banana", "kiwi", "orange"], 7) == UnknownObject
    ensures Decode([0.1, 0.1, 0.9, 0.9], []).detectedObject == UnknownObject
  {
  }
}
