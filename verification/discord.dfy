/** The slice of the remote identity service the core relies on: a user
    record and the "who am I" exchange, which is an oracle here. */
module Discord {
  import opened Wrappers

  /** A Discord snowflake user id (an unsigned 64-bit integer). */
  type UserId = x: nat | x < 0x1_0000_0000_0000_0000

  /** The fields of the returned user that the core reads. */
  datatype User = User(id: UserId, username: string)

  /** `api.NewClient(token).Me()`: one network round trip that either
      yields the token's user or fails. Modelled as a pure function of the
      token; failures carry no information the core uses. */
  type MeOracle = string -> Option<User>

  /** Whether the identity service accepts `token`. */
  predicate Accepts(me: MeOracle, token: string) {
    me(token).Some?
  }
}
