// Result types shared by every component.
module Wrappers {

  datatype Option<+T> = None | Some(value: T)

  datatype Result<+T, +E> = Ok(value: T) | Err(error: E)
}

// The statuses the HTTP handlers answer with.
module Http {

  datatype HttpStatus = StatusOk | BadRequest | Unauthorized | Forbidden | NotFound | InternalError
}
