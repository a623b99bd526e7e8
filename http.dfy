/** The error responses of the FastAPI routers: `HTTPException(status_code, detail)`. */
module Http {
  datatype HttpError = HttpError(status: int, detail: string)
}
