/** What the endpoint can throw. The source has a single error class,
    `LodestoneError`, whose message says which rule failed; each message
    becomes one constructor here. `new URL` on a malformed string throws a
    JavaScript `TypeError`, which is not a `LodestoneError`. */
module Errors {
  import Schema

  datatype Error =
      /** `Unknown query parameter "key".` */
    | UnknownQueryParameter(key: string)
      /** `Missing required query parameter "key".` */
    | MissingQueryParameter(key: string)
      /** `Query parameter "key" must be type ty.` */
    | QueryTypeMismatch(key: string, ty: Schema.Primitive)
      /** `Query parameter "key" does not match required pattern.` */
    | QueryPatternMismatch(key: string)
      /** `Lodestone redirected the request.` (status 302) */
    | Redirected
      /** `Lodestone is undergoing maintenance.` (status 503) */
    | Maintenance
      /** `Lodestone server error (status).` */
    | ServerError(status: int)
      /** `Request failed with status status.` */
    | RequestFailed(status: int)
      /** The `TypeError` of `new URL(input)`. */
    | InvalidUrl(input: string)
  {
    /** True for the errors thrown as a `LodestoneError`. */
    predicate IsLodestoneError() {
      !InvalidUrl?
    }
  }
}
