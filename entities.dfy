/**
 * The records of the biography-writing backend: users, biography projects,
 * sessions, and the request payloads the handlers decode.
 */
module Entities {
  import opened Wrappers

  /** An instant as produced by `Utc::now()`; the model never inspects it. */
  type Timestamp = int

  /** Closed set of biography states; no operation moves between them. */
  datatype BiographyStatus = Draft | Published | Archived

  datatype User = User(
    id: string,
    openid: string,
    nickname: string,
    avatar: Option<string>,
    createdAt: Timestamp,
    updatedAt: Timestamp)

  datatype Biography = Biography(
    id: string,
    userId: string,
    title: string,
    description: Option<string>,
    content: string,
    status: BiographyStatus,
    createdAt: Timestamp,
    updatedAt: Timestamp)

  /** Declared and given a store, but no handler produces or reads one. */
  datatype Session = Session(sessionId: string, userId: string, expiresAt: Timestamp)

  datatype CreateUserRequest = CreateUserRequest(
    openid: string,
    nickname: string,
    avatar: Option<string>)

  datatype CreateBiographyRequest = CreateBiographyRequest(
    userId: string,
    title: string,
    description: Option<string>)

  /** A partial update: `None` means "leave this field as it is". */
  datatype UpdateBiographyRequest = UpdateBiographyRequest(
    title: Option<string>,
    description: Option<string>,
    content: Option<string>)
}
