/** A name and a password (src/modules/socks.rs): text in the user list, bytes in the handshake. */
module Accounts {
  datatype User<T> = User(username: seq<T>, password: seq<T>)
}
