/** Types that several components share. */
module Common {

  datatype Option<T> = None | Some(value: T)

  // Playback or capture; a stream that was never configured is neither.
  datatype Direction = Unset | RX | TX
}
