/** The error replies the backend routes share. */
module Http {
  /** An HTTP error reply: status code and message. */
  datatype HttpError = HttpError(status: nat, message: string)
}
