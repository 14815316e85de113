/**
 Values shared by the server relay and the client: user and message records
 as the persistence service returns them, and the small result types that
 stand for JavaScript's `undefined`, thrown exceptions and settled requests.
 */
module ChatTypes {

  datatype Option<+T> = None | Some(value: T)

  /** A call that either returns a value or throws (JavaScript `try`/`catch`). */
  datatype Outcome<+T> = Returned(value: T) | Threw

  /** How an awaited HTTP request settles: the response body, or a rejection. */
  datatype Http<+T> = Ok(data: T) | Failed

  type UserId = string

  /** A user record (`_id`, `fullName`, `profilePic`). */
  datatype User = User(id: UserId, fullName: string, profilePic: string)

  /** The `text` field of a message object, which the client cannot trust to
      be a string: absent (`undefined`, `null` or another falsy value), a
      value of another type, or a string. */
  datatype Text = Absent | NotString | Str(s: string)

  /** A chat message object. `image` is the empty string when the message
      carries no image (JavaScript treats `""`, `null` and `undefined` alike
      there). */
  datatype Message = Message(
    id: string,
    senderId: UserId,
    receiverId: UserId,
    text: Text,
    image: string,
    createdAt: string)
}
