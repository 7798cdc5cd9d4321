/** The sizes the server is built with. */
module ServerConfig {
  /** What one recv call can return (BUFFER_SIZE of config.h). */
  const BUFFER_SIZE := 1024
  /** What one read of the result file can return. */
  const LINE_LEN := 32768

  /** Chunks that are all full buffers. */
  ghost predicate FullBuffers(chunks: seq<string>) {
    forall k :: 0 <= k < |chunks| ==> |chunks[k]| == BUFFER_SIZE
  }

  /** The chunks of a complete message: full buffers, then one that is not. */
  ghost predicate EndsShort(chunks: seq<string>) {
    && chunks != [] && |chunks[|chunks| - 1]| < BUFFER_SIZE
    && forall k :: 0 <= k < |chunks| - 1 ==> |chunks[k]| == BUFFER_SIZE
  }
}
