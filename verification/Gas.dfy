/** The gas pool of a block. */
module Gas {
  import opened Common

  /** The gas still available to the transactions of a block. */
  class GasPool {
    var gas: nat

    constructor ()
      ensures gas == 0
    {
      gas := 0;
    }

    /** Makes gas available. Pushing the pool above 64 bits panics and changes nothing. */
    method AddGas(amount: nat) returns (panics: bool)
      requires gas <= MAX_UINT64 && amount <= MAX_UINT64
      modifies this
      ensures panics <==> old(gas) + amount > MAX_UINT64
      ensures gas == if panics then old(gas) else old(gas) + amount
    {
      panics := gas > MAX_UINT64 - amount;
      if !panics {
        gas := gas + amount;
      }
    }

    /** Deducts gas if there is enough. */
    method SubGas(amount: nat) returns (ok: bool)
      modifies this
      ensures ok <==> amount <= old(gas)
      ensures gas == if ok then old(gas) - amount else old(gas)
    {
      ok := amount <= gas;
      if ok {
        gas := gas - amount;
      }
    }
  }
}
