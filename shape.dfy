/** The model's fixed input and output shape, as the activity declares it,
    and the small Option wrapper the rest of the model uses. */
module Shape {

  /** Width in pixels of the image the model expects. */
  const InputImageWidth: nat := 150
  /** Height in pixels of the image the model expects. */
  const InputImageHeight: nat := 150
  /** Colour channels per pixel in the input tensor (red, green, blue). */
  const InputImageChannels: nat := 3
  /** Number of floats in the model's output buffer. */
  const NumClasses: nat := 4

  /** Number of pixels handed to the encoder. */
  const PixelCount: nat := InputImageWidth * InputImageHeight

  /** Number of floats in the input tensor; the input buffer allocates four bytes for each. */
  const InputLength: nat := InputImageWidth * InputImageHeight * InputImageChannels

  datatype Option<+T> = None | Some(value: T)
}
