/** What the client loops and their checkers share. */
module KvTest {
  import opened GoStrings

  const KEY: GoString := [107]  // "k"

  /** How many of a client's puts returned OK, and how many ErrMaybe. */
  datatype ClntRes = ClntRes(nok: nat, nmaybe: nat)
}
