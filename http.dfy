/** The error replies of the service's handlers: `http.Error(w, message, status)`. */
module Http {

  const StatusBadRequest: int := 400
  const StatusNotFound: int := 404
  const StatusInternalServerError: int := 500

  datatype HttpError = HttpError(status: int, message: string)
}
