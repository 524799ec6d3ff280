/** Small value types shared by every module of the model. */
module Common {

  /** A value that may be absent: `undefined`/`null` in the app. */
  datatype Option<+T> = None | Some(value: T)

  /** The outcome of an awaited call: a value, or the error it threw. */
  datatype Result<+R, +E> = Success(value: R) | Failure(error: E)

  /** An opaque handle on a loaded audio resource (an `Audio.Sound` object). */
  datatype SoundHandle = SoundHandle(id: nat)
}
