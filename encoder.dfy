/** The tensor encoder of `performInference`: every pixel contributes its
    red, green and blue bytes, each divided by 255, to one flat buffer. */
module Encoder {
  import opened Shape
  import opened Pixels

  /** `c / 255.0f`, over exact reals. */
  function Normalize(c: Byte): (v: real)
    ensures 0.0 <= v <= 1.0
    ensures v * 255.0 == c as real
    ensures c == 0 <==> v == 0.0
    ensures c == 255 <==> v == 1.0
  {
    c as real / 255.0
  }

  /** The three floats one pixel contributes, in R, G, B order. */
  function PixelFloats(p: Int32): seq<real>
  {
    [Normalize(Red(p)), Normalize(Green(p)), Normalize(Blue(p))]
  }

  /** The input tensor: the pixels' floats appended in pixel-array order. */
  function Tensor(pixels: seq<Int32>): seq<real>
  {
    if pixels == [] then []
    else Tensor(pixels[..|pixels| - 1]) + PixelFloats(pixels[|pixels| - 1])
  }

  /** Adding one pixel appends exactly its three floats. */
  lemma TensorSnoc(pixels: seq<Int32>, p: Int32)
    ensures Tensor(pixels + [p]) == Tensor(pixels) + PixelFloats(p)
  {
    assert (pixels + [p])[..|pixels|] == pixels;
  }

  /** The tensor holds three floats per pixel. */
  lemma {:induction false} TensorLength(pixels: seq<Int32>)
    ensures |Tensor(pixels)| == InputImageChannels * |pixels|
  {
    if pixels != [] {
      TensorLength(pixels[..|pixels| - 1]);
    }
  }

  /** Entries 3i, 3i+1 and 3i+2 are the normalised red, green and blue of pixel i. */
  lemma {:induction false} TensorAt(pixels: seq<Int32>, i: nat)
    requires i < |pixels|
    ensures |Tensor(pixels)| == 3 * |pixels|
    ensures Tensor(pixels)[3 * i] == Normalize(Red(pixels[i]))
    ensures Tensor(pixels)[3 * i + 1] == Normalize(Green(pixels[i]))
    ensures Tensor(pixels)[3 * i + 2] == Normalize(Blue(pixels[i]))
  {
    var init := pixels[..|pixels| - 1];
    TensorLength(pixels);
    TensorLength(init);
    if i < |init| {
      TensorAt(init, i);
      assert init[i] == pixels[i];
    }
  }

  /** The same entry, seen from the tensor's side: entry k comes from channel
      k % 3 of pixel k / 3. */
  lemma TensorEntry(pixels: seq<Int32>, k: nat)
    requires k < |Tensor(pixels)|
    ensures k / 3 < |pixels|
    ensures Tensor(pixels)[k] == PixelFloats(pixels[k / 3])[k % 3]
  {
    TensorLength(pixels);
    TensorAt(pixels, k / 3);
  }

  /** Every entry of the tensor lies in [0, 1]. */
  lemma TensorUnitRange(pixels: seq<Int32>)
    ensures forall k :: 0 <= k < |Tensor(pixels)| ==> 0.0 <= Tensor(pixels)[k] <= 1.0
  {
    forall k | 0 <= k < |Tensor(pixels)|
      ensures 0.0 <= Tensor(pixels)[k] <= 1.0
    {
      TensorEntry(pixels, k);
    }
  }

  /** An image of the model's declared size gives a tensor of the model's
      declared input length. */
  lemma TensorHasInputShape(pixels: seq<Int32>)
    requires |pixels| == InputImageWidth * InputImageHeight
    ensures |Tensor(pixels)| == InputImageWidth * InputImageHeight * InputImageChannels
  {
    TensorLength(pixels);
  }

  /** The encoding loop: a buffer sized for the model's input shape, filled
      at an advancing position by three `putFloat`s per pixel. The pixel
      array always holds width x height entries. */
  method Encode(pixels: seq<Int32>) returns (tensor: seq<real>)
    requires |pixels| == PixelCount
    ensures tensor == Tensor(pixels)
    ensures |tensor| == InputLength
  {
    var buffer := new real[InputImageWidth * InputImageHeight * InputImageChannels];
    var position := 0;
    for i := 0 to |pixels|
      invariant position == 3 * i
      invariant buffer[..position] == Tensor(pixels[..i])
    {
      var pixelValue := pixels[i];
      buffer[position] := Normalize(Red(pixelValue));
      buffer[position + 1] := Normalize(Green(pixelValue));
      buffer[position + 2] := Normalize(Blue(pixelValue));
      position := position + 3;
      assert pixels[..i + 1] == pixels[..i] + [pixelValue];
      TensorSnoc(pixels[..i], pixelValue);
      assert buffer[..position] == buffer[..position - 3] + PixelFloats(pixelValue);
    }
    assert pixels[..|pixels|] == pixels;
    assert buffer[..] == buffer[..position];
    tensor := buffer[..];
    TensorLength(pixels);
  }
}
