/** Option and Result, as the Rust bridge uses them: `Option` for the iterator's
    end of sequence, `Result` for `init_vram`'s error string. */
module Wrappers {
  datatype Option<+T> = None | Some(value: T)

  datatype Result<+T, +E> = Ok(value: T) | Err(error: E)
}
