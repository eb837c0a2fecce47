/**
 * The records the backend stores and the responses it sends. The stored fields follow the
 * generated `User` and `Demo` payload types of the Prisma client; `updatedAt` is left out.
 */
module BackendModel {
  import opened Wrappers

  type UserId = string
  type DemoId = string

  /** A row of the `User` table. The password is stored as given (no hashing). */
  datatype User = User(id: UserId, email: string, password: string, name: Option<string>, createdAt: nat)

  /** A row of the `Demo` table; `kind` is the column `type`. */
  datatype Demo = Demo(
    id: DemoId,
    title: string,
    description: string,
    kind: string,
    content: string,
    thumbnail: Option<string>,
    url: Option<string>,
    views: nat,
    createdAt: nat,
    userId: UserId,
    isPublic: bool)

  /** The fields of a user that `GET /api/auth/me` selects. */
  datatype PublicUser = PublicUser(id: UserId, email: string, name: Option<string>, createdAt: nat)

  function PublicView(u: User): PublicUser {
    PublicUser(u.id, u.email, u.name, u.createdAt)
  }

  /** The JSON bodies the handlers send. */
  datatype Payload =
    | Message(text: string)
    | Issued(message: Option<string>, token: string)
    | Profile(user: PublicUser)
    | One(demo: Demo)
    | Many(demos: seq<Demo>)
    | ImageLocation(url: string)
    | UploadTicket(url: string, key: string, publicUrl: string)
    | Failure(error: string)

  datatype Response = Response(status: nat, payload: Payload)

  const AuthenticationRequired := Response(401, Message("Authentication required"))
  const InvalidToken := Response(403, Message("Invalid or expired token"))
  const PasswordsDoNotMatch := Response(400, Message("Passwords do not match"))
  const EmailAlreadyTaken := Response(400, Message("Email already taken"))
  const InvalidCredentials := Response(401, Message("Invalid email or password"))
  const UserNotFound := Response(404, Message("User not found"))
  const InvalidDemoData := Response(400, Message("Invalid demo data"))
  const DemoNotFound := Response(404, Message("Demo not found"))
  const DemoDeleted := Response(200, Message("Demo deleted successfully"))
  const InternalServerError := Response(500, Message("Internal server error"))
}
