/** The Python exceptions the modelled code raises or lets escape. */
module Exceptions {
  import opened Json

  /** Why a ValidationError was raised. */
  datatype Reason =
    | OutOfRange(low: Json, high: Json)  // "Value must be between {min_value} and {max_value}"
    | TooLong(maxLength: Json)           // "Length must be less than or equal to {max_length}"
    | PasswordsDiffer                    // "Passwords do not match."
    | NoPermissionTarget                 // "You must specify table or column to which to add this permission"

  datatype Exception =
    | ValidationError(reason: Reason)
    | TypeError
    | ValueError
    | KeyError(key: Json)
    | AttributeError
    | DoesNotExist
    | MultipleObjectsReturned
    | FieldError                         // a model form names a field its model lacks
    | IntegrityError                     // a NOT NULL column stored as NULL
}
