/**
 * The abstract outcome of one request: what the handler answers, without the
 * rendering and redirect machinery of the web framework.
 */
module Responses {

  datatype Response =
    | Render(view: string, errorMessage: string)  // a form rendered again with an error message
    | Redirect(location: string)
    | ServerError  // the handler threw synchronously; the framework's error handler answers
    | NoResponse   // the handler never answers (no branch sends anything, or a promise rejects unhandled)

  const HomePath := "/"
  const LoginPath := "/auth/login"
  const FavoritesPath := "/favorites"
}
