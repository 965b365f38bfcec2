/** The optional value used wherever the muxer's inputs may be absent
    (a missing format description, a missing sample buffer, an invalid
    decode timestamp). */
module Options {

  datatype Option<+T> = None | Some(value: T)
}
