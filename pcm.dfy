/** Signed 16-bit PCM samples, the element type of every audio buffer in the pipeline. */
module Pcm {

  /** One `np.int16` sample. */
  type Int16 = x: int | -0x8000 <= x < 0x8000
}
