/**
 * A roster entry of `state.players`. Fields the stored object lacks (or
 * holds as null) are the empty string. Most readers treat them that way
 * (`p.firstName || ''`); the name display does not, and README lists the
 * difference.
 */
module Players {

  datatype Player = Player(
    id: string,
    firstName: string,
    lastName: string,
    nickname: string,
    team: string,
    email: string,
    photo: string)

  /** The team name that puts a player on the Valley side of the pairing grid. */
  const Valley: string := "valley"
}
