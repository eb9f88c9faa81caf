/**
 Library calls whose code is not part of the repository, as arbitrary functions:
 every theorem holds whatever they compute.
 */
module Environment {
  import opened Wrappers
  import opened GoInts
  import opened Bank

  datatype Env = Env(
    parseAddress: string -> Option<Account>,  // addressCodec.StringToBytes
    isIp: string -> bool,                     // net.ParseIP(s) != nil
    oneYearAfter: nat -> nat,                 // uint64(t.AddDate(1, 0, 0).Unix())
    authority: Account)                       // the keeper's authority

  /** collections.Sequence.Next: the counter is a uint64. */
  function NextId(id: nat): nat {
    ToUint64(id + 1)
  }
}
