/** What the whole model shares: optional values and client addresses. */
module Base {

  datatype Option<+T> = None | Some(value: T)

  /** Nanoseconds, as Go's time.Duration counts them; instants are counted on one clock. */
  type Time = int

  /** A client address as the plugin keys its tables: an address family and the
      address bits, most significant first, with the zone already dropped. */
  datatype Addr = V4(bits: seq<bool>) | V6(bits: seq<bool>)

  const V4_LEN := 32
  const V6_LEN := 128

  /** A letter or digit of ASCII. */
  predicate Alnum(c: char) {
    'a' <= c <= 'z' || 'A' <= c <= 'Z' || '0' <= c <= '9'
  }

  /** The route that hands a query to the next plugin. */
  const PASSTHROUGH := "-"
}
