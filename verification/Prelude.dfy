/** Small vocabulary shared by the models. */
module Prelude {

  datatype Option<+T> = None | Some(value: T)

  /** A call to Redis or Postgres, as the caller and the server each see it. A call that
      reports an error may or may not have run before the connection failed. */
  datatype Delivery = Delivered | Lost | AppliedButErrored
}
