/** The datagrams of the UDP token protocol. */
module Messages {
  const REQUEST_TOKEN: int := 10
  const RELEASE_TOKEN: int := 20
  const REPLY_ALLOW: int := 30
  const ACK: int := 40

  /** `struct request`. */
  datatype Dgram = Dgram(rec: int, cod: int, tempo: int, pid: int)

  /** A datagram in flight, with the client address it comes from or goes to. A client
      address is the index of the client. The server sends REPLY_ALLOW with the size of a
      pointer: only `rec` and `cod` travel, and the receiver's buffer keeps its other
      fields (`whole` is false). */
  datatype Msg =
    | ToServer(from: nat, d: Dgram)
    | ToClient(to: nat, d: Dgram, whole: bool)
}
