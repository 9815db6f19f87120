/** Record shapes exchanged by the repositories: the stored rows, the
    response payloads and the classified HTTP failures. */
module Schemas {

  /** A UUID, held as its canonical text form (the form `str(id)` yields). */
  type Uuid = string

  /** A row of the users table. `isVerified` starts out false. */
  datatype UserRow = UserRow(name: string, email: string, passwordHash: string, isVerified: bool)

  /** A row of the posts table: its author, its text and its creation time. */
  datatype PostRow = PostRow(userId: Uuid, content: string, time: int)

  /** A row of the likes table: "user `userId` likes post `postId`". */
  datatype Like = Like(postId: Uuid, userId: Uuid)

  /** The public profile of a user (`schemas.User`). */
  datatype Profile = Profile(id: Uuid, name: string, email: string, isVerified: bool)

  /** A post as shown to one acting user (`schemas.PostView`). */
  datatype PostView = PostView(id: Uuid, content: string, author: Profile, likes: nat, liked: bool, time: int)

  /** The answer to a successful login (`schemas.LoginResponse`). */
  datatype LoginResponse = LoginResponse(token: string, verified: bool)

  /** The answer to a verification-code request (`schemas.VerificationResponse`). */
  datatype VerificationResponse = VerificationResponse(message: string, code: string)

  /** An `HTTPException`: a status code and its detail text. */
  datatype HttpError = HttpError(status: int, detail: string)

  /** Either the payload of a successful call or the exception it raises. */
  datatype Result<T> = Ok(value: T) | Err(error: HttpError)

  function ProfileOf(users: map<Uuid, UserRow>, id: Uuid): Profile
    requires id in users
  {
    Profile(id, users[id].name, users[id].email, users[id].isVerified)
  }

  // The failures raised by the repositories, with the code's own statuses.
  const PostNotFound := HttpError(404, "Post not found")
  const NotTheAuthor := HttpError(401, "Unauthorized")
  const EmptyContent := HttpError(400, "Post content cannot be empty")
  const OwnPostLike := HttpError(400, "Can't like own post")
  const EmailTaken := HttpError(400, "Email already registered")
  const PasswordMismatch := HttpError(400, "Passwords do not match")
  const UserNotFound := HttpError(404, "User not found")
  const IncorrectPassword := HttpError(401, "Incorrect password")
  const CodeMissing := HttpError(400, "Verification code expired or not found")
  const CodeInvalid := HttpError(400, "Invalid verification code")
  const AlreadyVerified := HttpError(400, "User is already verified")
}
