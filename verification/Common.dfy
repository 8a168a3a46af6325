/** Results and lists shared by the modules. */
module Common {
  datatype Option<+T> = None | Some(value: T)

  /** The errors that the service reports to its callers. */
  datatype Error =
    | NotFound | Conflict | Forbidden | Unauthorized | UploadExpired
    | TooManyPhotos | InvalidReference | Validation | StorageFailure | EncodingFailure | Cancelled

  datatype Result<+T> = Ok(value: T) | Err(error: Error)

  function Repeat<T>(x: T, k: nat): (r: seq<T>)
    ensures |r| == k && forall i :: 0 <= i < k ==> r[i] == x
  {
    if k == 0 then [] else [x] + Repeat(x, k - 1)
  }
}
