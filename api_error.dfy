/** The typed error the services throw and the middlewares pass to `next`.
    backend/src/utils/ApiError.ts is not part of this model: its helpers are taken to
    set the status code their names announce, as the HTTP_STATUS constants list them. */
module ApiErrors {
  import Constants

  datatype ApiError = ApiError(statusCode: int, message: string)

  function BadRequest(message: string): ApiError { ApiError(Constants.HttpBadRequest, message) }
  function Unauthorized(message: string): ApiError { ApiError(Constants.HttpUnauthorized, message) }
  function Forbidden(message: string): ApiError { ApiError(Constants.HttpForbidden, message) }
  function NotFound(message: string): ApiError { ApiError(Constants.HttpNotFound, message) }
}
