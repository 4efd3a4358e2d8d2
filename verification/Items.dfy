/** The records every component exchanges: versions, ids, item headers and bodies. */
module Items {
  datatype Option<+T> = None | Some(value: T)

  type byte = b: int | 0 <= b < 256

  /** A version is an opaque byte string; `vSize` of the tree fixes its length. */
  datatype Version = Version(bytes: seq<byte>)

  datatype Id = Id(bytes: seq<byte>)

  type Name = seq<byte>

  datatype Val = Val(n: int)

  type Body = map<string, Val>

  /**
   * `d` marks a deletion, `c` a conflict. `pe` is the perspective an item was received from and
   * `i` its insertion number; the document `b` may be absent.
   */
  datatype Item = Item(id: Id, v: Version, pa: seq<Version>, d: bool, c: bool, pe: Option<Name>, i: Option<nat>, b: Option<Body>)
}
