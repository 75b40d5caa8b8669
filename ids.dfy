/** Identifiers exchanged between the relay and its clients. */
module Ids {

  /** A user id: in practice five characters over A-Z and 0-9, issued at registration. */
  type UserId = string

  /** The id socket.io gives to one open connection. */
  type SocketId = string
}
