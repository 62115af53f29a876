/**
 * The request and response bodies of the backend (backend/app/schemas.py) with the field bounds validation
 * enforces, and the HTTP error every handler raises.
 */
module Schemas {
  import opened Wrappers
  import opened Uuid
  import opened Models

  /** `HTTPException(status_code, detail)`. */
  datatype HttpError = HttpError(status: int, detail: string)

  const BAD_REQUEST := 400
  const UNAUTHORIZED := 401
  const FORBIDDEN := 403
  const NOT_FOUND := 404
  const PAYLOAD_TOO_LARGE := 413
  const UNPROCESSABLE := 422
  const INTERNAL_ERROR := 500

  /**
   * The answer FastAPI gives when a request fails validation. Its `detail` is really a list of error objects,
   * one per failed field; the model keeps only the status and a fixed text in its place.
   */
  const VALIDATION_FAILED := HttpError(UNPROCESSABLE, "Validation error")
  /** An exception the handler does not catch: a rejected commit, or an ambiguous `one_or_none`. */
  const SERVER_ERROR := HttpError(INTERNAL_ERROR, "Internal Server Error")

  datatype RegisterRequest = RegisterRequest(
    email: string, verificationCode: string, username: string, password: string,
    preferredLocale: Option<string>, preferredTheme: Option<string>)

  /** The code has exactly 6 characters, the username 3 to 50 and the password 8 to 128. */
  predicate RegisterRequestValid(r: RegisterRequest) {
    |r.verificationCode| == 6 && 3 <= |r.username| <= 50 && 8 <= |r.password| <= 128
  }

  /** A valid registration's username always fits its column. */
  lemma RegisteredUsernameFits(r: RegisterRequest)
    requires RegisterRequestValid(r)
    ensures |r.username| <= USERNAME_MAX
  {
  }

  datatype LoginRequest = LoginRequest(identifier: string, password: string)

  datatype EmailCodeRequest = EmailCodeRequest(email: string)

  datatype RoleUpdateRequest = RoleUpdateRequest(role: UserRole)

  /** The claims a valid access token carries: a subject, an expiry instant and a role. */
  datatype TokenPayload = TokenPayload(sub: string, exp: int, role: UserRole)

  datatype CommentCreate = CommentCreate(content: string)

  /** A comment has 1 to 2000 characters. */
  predicate CommentCreateValid(c: CommentCreate) {
    1 <= |c.content| <= 2000
  }

  /** `AboutSectionUpdate`: the body is required, the title optional. */
  datatype AboutSectionUpdate = AboutSectionUpdate(bodyMarkdown: string, title: Option<string>)

  datatype TokenResponse = TokenResponse(accessToken: string, tokenType: string)

  /** `TokenResponse(access_token=token)`: the type defaults to bearer. */
  function BearerToken(token: string): (r: TokenResponse)
    ensures r.accessToken == token && r.tokenType == "bearer"
  {
    TokenResponse(token, "bearer")
  }

  datatype PaginatedPosts = PaginatedPosts(items: seq<PostRow>, page: int, pageSize: int, total: int, hasMore: bool)

  /** The answer of `POST /auth/request-code`: the code is present outside production. */
  datatype CodeResponse = CodeResponse(message: string, code: Option<string>)
}
