/** The optional value of Python's `None`-able fields: a word's start and end
    time may be missing, and so may the running end time of the segmenter. */
module Options {

  datatype Option<+T> = None | Some(value: T)
}
