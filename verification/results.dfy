/** Failure-carrying results shared by the raster model. */
module Results {

  datatype Option<+T> = None | Some(value: T)

  /** Why a raster pass stopped: the cell it was about to write lies outside
      the flat field buffer (undefined behaviour in the C++ code). */
  datatype RasterError = OutOfBounds(index: int)

  datatype Result<+T> = Ok(value: T) | Err(error: RasterError)
}
