/** The request methods and response status codes of net/http that the handlers use. */
module Http {

  const MethodGet := "GET"
  const MethodPost := "POST"
  const MethodPut := "PUT"

  const StatusOK := 200
  const StatusCreated := 201
  const StatusBadRequest := 400
  const StatusNotFound := 404
  const StatusMethodNotAllowed := 405
  const StatusInternalServerError := 500
}
