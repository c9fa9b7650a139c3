/** The settings the handlers read, and the packets they determine. */
module Config {
  import opened Basics
  import opened VarInt
  import opened Protocol

  /** `statusJson` stands for the status document the settings are rendered to. */
  datatype ServerConfig = ServerConfig(
    handshakeHost: Bytes,
    upstreamPort: uint16,
    maxConnections: nat,
    statusJson: Bytes)

  /** What start-up establishes; host names from the command line hold no NUL. */
  predicate ValidConfig(c: ServerConfig) {
    && ValidHost(c.handshakeHost)
    && c.upstreamPort >= 1
    && 1 <= c.maxConnections <= 100000
    && StatusFits(c)
  }

  /** The status response is no longer than a frame can be. */
  predicate StatusFits(c: ServerConfig) {
    |c.statusJson| + 6 <= MAX_INT32
  }

  /** A client's login handshake, redirected to the configured upstream. */
  function Redirect(c: ServerConfig, h: Handshake): Handshake {
    h.(address := c.handshakeHost, port := c.upstreamPort)
  }

  /** The bytes sent upstream in place of a login handshake. */
  function Redirected(c: ServerConfig, h: Handshake): Bytes {
    Frame(Payload(Redirect(c, h)))
  }

  /** ... unless serializing them throws. */
  function Rewrite(c: ServerConfig, h: Handshake): Option<Bytes> {
    if Valid(Redirect(c, h)) then Some(Redirected(c, h)) else None
  }

  function StatusResponse(c: ServerConfig): Bytes {
    Frame(Encode(0) + Encode(|c.statusJson|) + c.statusJson)
  }

  lemma {:induction false} ResponseNotEmpty(c: ServerConfig)
    ensures |StatusResponse(c)| >= 1
  {
  }
}
