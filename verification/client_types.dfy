/**
 * The records the web client keeps: the thread list saved in local
 * storage, the messages a chat page shows, and the image a message may
 * carry before the server has stored it.
 */
module ClientTypes {
  import opened Wrappers
  import opened Tables

  /** A turn of a saved thread: `{role: "user" | "model", parts: [{text}]}`. */
  datatype ClientTurn = ClientTurn(role: string, texts: seq<string>)

  /**
   * A saved thread (`ChatType`): `createdAt` and `updateAt` are clock
   * values, `isLoading` is absent on threads read back from the server.
   */
  datatype Thread = Thread(id: string, userId: string, histories: seq<ClientTurn>,
                           createdAt: int, updateAt: int, name: string, isLoading: Option<bool>)

  /** The image a client-side message carries (the field really is spelled `mineType`). */
  datatype ClientImage = ClientImage(id: string, url: string, messageId: string, mineType: string,
                                     sizeBytes: string, expirationTime: string, name: string)

  /** A message as the chat page lists it; `createdAt` is an ISO timestamp. */
  datatype ClientMessage = ClientMessage(id: string, role: Role, content: string, createdAt: string,
                                         image: Option<ClientImage>)

  /** Some element of `messages` has this id. */
  predicate HasId(messages: seq<ClientMessage>, id: string) {
    exists i :: 0 <= i < |messages| && messages[i].id == id
  }
}
