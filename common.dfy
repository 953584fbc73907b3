/** Value wrappers shared by every part of the model: an optional value, and the
    result of a step that may throw. */
module Common {

  datatype Option<T> = None | Some(value: T)

  /** The errors the job can run into. Each one is an exception in the job: it
      propagates to the single catch around the camera loop. */
  datatype Fault =
    | ListingFailed          // a listObjectsV2 page request failed
    | NoSuchKey(key: string) // getObject on a key that is not in the bucket
    | EncodingFailed         // the encoder reported an error
    | NoVideoFile            // the local video file to upload does not exist

  datatype Result<T> = Ok(value: T) | Err(fault: Fault)
}
