/** Processing the transactions of a zone block: gas, value and the set of unspent inbound ETXs. */
module StateProcessor {
  import opened Common
  import opened Gas
  import opened Balances
  import opened StateTransition

  const REGIONS := 3
  const ZONES := 3
  const ETX_REGION_MAX_FRACTION := REGIONS * (ZONES - 1)
  const ETX_PRIME_MAX_FRACTION := REGIONS * ZONES
  const ETX_R_LIMIT_MIN := 10
  const ETX_P_LIMIT_MIN := 10
  const ETX_EXPIRATION_AGE := 100

  const ZERO_ADDRESS: Address := 0

  type Hash = nat

  datatype Kind = InternalTx | InternalToExternalTx | ExternalTx | UnsupportedTx

  /** A transaction of a block; the sender is missing when it cannot be derived, and `toHere` says whether the
      recipient is of this zone. */
  datatype Tx = Tx(hash: Hash, kind: Kind, sender: Option<Account>, gasFeeCap: nat, gasTipCap: nat, gas: nat, value: nat,
                   nonce: nat, isCreation: bool, intrinsicGas: Option<nat>, toHere: bool)

  /** The message of a transaction. An external transaction is sent from the zero address, unchecked. */
  function AsMessage(tx: Tx, baseFee: nat): Option<Message> {
    if tx.sender.None? then None
    else
      Some(Message(
             if tx.kind.ExternalTx? then Internal(ZERO_ADDRESS) else tx.sender.value,
             EffectiveGasPrice(baseFee, tx.gasFeeCap, tx.gasTipCap), tx.gasFeeCap, tx.gasTipCap, tx.gas, tx.value,
             tx.nonce, !tx.kind.ExternalTx?, tx.isCreation, tx.intrinsicGas))
  }

  // ----- the set of unspent inbound ETXs -----

  datatype Entry = Entry(height: nat, etx: Tx)

  type EtxSet = map<Hash, Entry>

  ghost predicate Filed(s: EtxSet) {
    forall h :: h in s ==> s[h].etx.hash == h
  }

  ghost predicate Delivered(inbound: seq<Tx>, h: Hash) {
    exists i :: 0 <= i < |inbound| && inbound[i].hash == h
  }

  /** The last of the first `n` ETXs that has the hash. */
  ghost predicate LastDelivered(inbound: seq<Tx>, n: nat, h: Hash, etx: Tx) {
    exists i :: 0 <= i < n <= |inbound| && inbound[i].hash == h && inbound[i] == etx
                && forall j :: i < j < n ==> inbound[j].hash != h
  }

  /** The newly confirmed ETXs are in at the current height, the expired others are out, the rest is kept. */
  ghost predicate Updated(s: EtxSet, inbound: seq<Tx>, height: nat, r: EtxSet) {
    && (forall h :: h in r <==> Delivered(inbound, h) || (h in s && height <= s[h].height + ETX_EXPIRATION_AGE))
    && (forall h :: h in r && Delivered(inbound, h) ==> r[h].height == height && LastDelivered(inbound, |inbound|, h, r[h].etx))
    && (forall h :: h in r && !Delivered(inbound, h) ==> r[h] == s[h])
  }

  /** The first `n` ETXs are in at the current height, and the others are as they were. */
  ghost predicate Adding(s: EtxSet, inbound: seq<Tx>, n: nat, height: nat, r: EtxSet) {
    && n <= |inbound| && (forall h :: h in r <==> Delivered(inbound[..n], h) || h in s)
    && (forall h :: h in r && Delivered(inbound[..n], h) ==> r[h].height == height && LastDelivered(inbound, n, h, r[h].etx))
    && (forall h :: h in r && !Delivered(inbound[..n], h) ==> r[h] == s[h])
  }

  lemma {:induction false} DeliverNext(inbound: seq<Tx>, n: nat, h: Hash, etx: Tx)
    requires n < |inbound|
    ensures Delivered(inbound[..n + 1], h) <==> Delivered(inbound[..n], h) || h == inbound[n].hash
    ensures LastDelivered(inbound, n + 1, inbound[n].hash, inbound[n])
    ensures h != inbound[n].hash && LastDelivered(inbound, n, h, etx) ==> LastDelivered(inbound, n + 1, h, etx)
  {
    assert inbound[..n + 1] == inbound[..n] + [inbound[n]];
    if Delivered(inbound[..n + 1], h) && h != inbound[n].hash {
      var i :| 0 <= i < n + 1 && inbound[..n + 1][i].hash == h;
      assert inbound[..n][i].hash == h;
    }
    if Delivered(inbound[..n], h) {
      var i :| 0 <= i < n && inbound[..n][i].hash == h;
      assert inbound[..n + 1][i].hash == h;
    }
    assert inbound[..n + 1][n] == inbound[n];
  }

  lemma {:induction false} AddNext(s: EtxSet, inbound: seq<Tx>, n: nat, height: nat, r: EtxSet)
    requires n < |inbound| && Adding(s, inbound, n, height, r)
    ensures Adding(s, inbound, n + 1, height, r[inbound[n].hash := Entry(height, inbound[n])])
  {
    hide Delivered, LastDelivered;
    var r' := r[inbound[n].hash := Entry(height, inbound[n])];
    forall h ensures Delivered(inbound[..n + 1], h) <==> Delivered(inbound[..n], h) || h == inbound[n].hash {
      DeliverNext(inbound, n, h, inbound[n]);
    }
    forall h | h in r' && Delivered(inbound[..n + 1], h)
      ensures r'[h].height == height && LastDelivered(inbound, n + 1, h, r'[h].etx)
    {
      DeliverNext(inbound, n, h, r'[h].etx);
    }
  }

  lemma {:induction false} AddNothing(s: EtxSet, inbound: seq<Tx>, height: nat)
    ensures Adding(s, inbound, 0, height, s)
  {
  }

  lemma {:induction false} Expire(s: EtxSet, inbound: seq<Tx>, height: nat, r: EtxSet)
    requires Adding(s, inbound, |inbound|, height, r)
    ensures Updated(s, inbound, height, map h | h in r && height <= r[h].height + ETX_EXPIRATION_AGE :: r[h])
  {
    hide Delivered, LastDelivered;
    assert inbound[..|inbound|] == inbound;
  }

  /** Adds the newly confirmed ETXs at the current height and drops the expired ones; an ETX for another chain
      makes it panic. */
  method UpdateEtxSet(s: EtxSet, inbound: seq<Tx>, height: nat) returns (panics: bool, r: EtxSet)
    requires Filed(s)
    ensures panics <==> exists i :: 0 <= i < |inbound| && !inbound[i].toHere
    ensures !panics ==> Filed(r) && Updated(s, inbound, height, r)
  {
    hide Adding, Updated;
    r := s;
    AddNothing(s, inbound, height);
    for i := 0 to |inbound|
      invariant Filed(r) && (forall k :: 0 <= k < i ==> inbound[k].toHere) && Adding(s, inbound, i, height, r)
    {
      if !inbound[i].toHere {
        return true, r;
      }
      AddNext(s, inbound, i, height, r);
      r := r[inbound[i].hash := Entry(height, inbound[i])];
    }
    Expire(s, inbound, height, r);
    r := map h | h in r && height <= r[h].height + ETX_EXPIRATION_AGE :: r[h];
    panics := false;
  }

  // ----- emission limits -----

  /** The larger of the minimum and a fraction of the parent's transactions. */
  function EmissionLimit(parentTxs: nat, fraction: nat, minimum: nat): (limit: nat)
    requires fraction > 0
    ensures limit >= minimum && limit >= parentTxs / fraction && (limit == minimum || limit == parentTxs / fraction)
  {
    if parentTxs / fraction < minimum then minimum else parentTxs / fraction
  }

  function CountCtx(etxs: seq<Etx>, ctx: nat): nat {
    if etxs == [] then 0 else CountCtx(etxs[..|etxs| - 1], ctx) + if etxs[|etxs| - 1].commonDom == ctx then 1 else 0
  }

  lemma {:induction false} CountCtxAppend(a: seq<Etx>, b: seq<Etx>, ctx: nat)
    ensures CountCtx(a + b, ctx) == CountCtx(a, ctx) + CountCtx(b, ctx)
  {
    if b == [] {
      assert a + b == a;
    } else {
      assert (a + b)[..|a + b| - 1] == a + b[..|b| - 1];
      CountCtxAppend(a, b[..|b| - 1], ctx);
    }
  }

  lemma {:induction false} ValueOutAppend(a: seq<Etx>, b: seq<Etx>)
    ensures ValueOut(a + b) == ValueOut(a) + ValueOut(b)
  {
    if b == [] {
      assert a + b == a;
    } else {
      assert (a + b)[..|a + b| - 1] == a + b[..|b| - 1];
      ValueOutAppend(a, b[..|b| - 1]);
    }
  }

  // ----- processing -----

  /** The running totals of a block: the state, gas used, all ETXs emitted so far, what is left of the two
      emission limits, the unspent set, what was lent for executed ETXs, and what was lost of these loans. */
  datatype Progress = Progress(state: State, usedGas: nat, emitted: seq<Etx>, rLimit: nat, pLimit: nat, etxSet: EtxSet,
                               lent: int, lost: int)

  /** The hashes of the external transactions among the first `i`. */
  ghost function Spent(txs: seq<Tx>, i: nat): set<Hash>
    requires i <= |txs|
  {
    set k | 0 <= k < i && txs[k].kind.ExternalTx? :: txs[k].hash
  }

  /** The external transactions among the first `i` are pairwise distinct members of the unspent set. */
  ghost predicate SpendsOnce(txs: seq<Tx>, i: nat, unspent: EtxSet)
    requires i <= |txs|
  {
    && (forall k :: 0 <= k < i && txs[k].kind.ExternalTx? ==> txs[k].hash in unspent)
    && (forall j, k :: 0 <= j < k < i && txs[j].kind.ExternalTx? && txs[k].kind.ExternalTx? ==> txs[j].hash != txs[k].hash)
  }

  /** Emissions are charged against the limits. */
  ghost predicate LimitsKept(rLimit: nat, pLimit: nat, p: Progress) {
    && p.rLimit + CountCtx(p.emitted, REGION_CTX) == rLimit
    && p.pLimit + CountCtx(p.emitted, PRIME_CTX) == pLimit
  }

  type Evms = Message -> Evm

  /** Counts the emitted ETXs that cross regions and those that cross prime. */
  method CountEmissions(etxs: seq<Etx>) returns (rCount: nat, pCount: nat)
    ensures rCount == CountCtx(etxs, REGION_CTX) && pCount == CountCtx(etxs, PRIME_CTX)
  {
    rCount, pCount := 0, 0;
    for i := 0 to |etxs|
      invariant rCount == CountCtx(etxs[..i], REGION_CTX) && pCount == CountCtx(etxs[..i], PRIME_CTX)
    {
      assert etxs[..i + 1][..i] == etxs[..i];
      if etxs[i].commonDom == REGION_CTX {
        rCount := rCount + 1;
      }
      if etxs[i].commonDom == PRIME_CTX {
        pCount := pCount + 1;
      }
    }
    assert etxs[..|etxs|] == etxs;
  }

  /** The totals after a message has used gas and emitted ETXs within the limits. */
  function Charged(p: Progress, state: State, used: nat, etxs: seq<Etx>): Progress
    requires CountCtx(etxs, REGION_CTX) <= p.rLimit && CountCtx(etxs, PRIME_CTX) <= p.pLimit
  {
    Progress(state, p.usedGas + used, p.emitted + etxs,
             p.rLimit - CountCtx(etxs, REGION_CTX), p.pLimit - CountCtx(etxs, PRIME_CTX), p.etxSet, p.lent, p.lost)
  }

  lemma {:induction false} ChargedKeepsLimits(p: Progress, state: State, used: nat, etxs: seq<Etx>, rLimit: nat, pLimit: nat)
    requires CountCtx(etxs, REGION_CTX) <= p.rLimit && CountCtx(etxs, PRIME_CTX) <= p.pLimit
    requires LimitsKept(rLimit, pLimit, p)
    ensures LimitsKept(rLimit, pLimit, Charged(p, state, used, etxs))
  {
    CountCtxAppend(p.emitted, etxs, REGION_CTX);
    CountCtxAppend(p.emitted, etxs, PRIME_CTX);
  }

  /** What a block starts from and must account for. */
  datatype Block = Block(gasLimit: nat, rLimit: nat, pLimit: nat, ctx: Context)

  ghost predicate Accounts(b: Block, p: Progress, pool: nat) {
    && p.usedGas + pool == b.gasLimit
    && LimitsKept(b.rLimit, b.pLimit, p)
  }

  /** What applying one message gives; there is no result if it fails or exceeds a limit. */
  ghost function Transacted(msg: Message, ctx: Context, pool: nat, p: Progress, evm: Evm): Option<Progress>
    requires GasBounded(evm)
  {
    if !Acceptable(msg, ctx, p.state, pool) || ctx.coinbase.External? then None
    else
      var e := Executed(msg, p.state, evm);
      assert e == evm(Prepared(msg, p.state), msg.gas - msg.intrinsicGas.value);
      if CountCtx(e.etxs, REGION_CTX) > p.rLimit || CountCtx(e.etxs, PRIME_CTX) > p.pLimit then None
      else Some(Charged(p, Settled(msg, ctx, e), msg.gas - Returned(msg, e), e.etxs))
  }

  /** Applies one message and charges its emissions. */
  method ApplyTransaction(msg: Message, ghost b: Block, ctx: Context, gp: GasPool, p: Progress, evm: Evm) returns (r: Option<Progress>)
    requires msg.gas <= MAX_UINT64 && gp.gas <= MAX_UINT64 && GasBounded(evm)
    requires msg.gasPrice == EffectiveGasPrice(ctx.baseFee, msg.gasFeeCap, msg.gasTipCap)
    requires b.ctx == ctx && Accounts(b, p, gp.gas)
    modifies gp
    ensures r == Transacted(msg, ctx, old(gp.gas), p, evm)
    ensures r.Some? ==> Accounts(b, r.value, gp.gas) && r.value.etxSet == p.etxSet
    ensures gp.gas <= old(gp.gas)
  {
    hide CountCtx, Acceptable, Settled, Returned, EffectiveGasPrice, NonNegative, KeepsNonNegative, ValueOut, Vanished, Prepared, GasBounded, LimitsKept;
    var st := new StateTransition(gp, msg, ctx, p.state);
    var result := st.TransitionDb(evm);
    if result.Failed? {
      return None;
    }
    var rCount, pCount := CountEmissions(result.etxs);
    if rCount > p.rLimit {
      return None;
    }
    if pCount > p.pLimit {
      return None;
    }
    ChargedKeepsLimits(p, st.state, result.usedGas, result.etxs, b.rLimit, b.pLimit);
    return Some(Charged(p, st.state, result.usedGas, result.etxs));
  }

  // ----- external transactions -----

  /** What the zero address is lent to pay for an inbound ETX: its fee caps for all its gas, and its value. */
  function EtxFunds(etx: Tx): int {
    (etx.gasFeeCap + etx.gasTipCap) * AsInt64(etx.gas) + etx.value
  }

  /** The transaction that an emitted ETX arrives as. */
  predicate ArrivesAs(etx: Etx, tx: Tx) {
    tx.value == etx.value && tx.gas == etx.gas && tx.gasFeeCap == etx.gasFeeCap && tx.gasTipCap == etx.gasTipCap
  }

  /** The destination lends exactly what the origin took from the sender. */
  lemma {:induction false} LoanIsOutflow(etx: Etx, tx: Tx)
    requires ArrivesAs(etx, tx)
    ensures EtxFunds(tx) == Outflow(etx)
  {
    assert etx.gasTipCap + etx.gasFeeCap == tx.gasFeeCap + tx.gasTipCap;
  }

  /** The zero address is given the loan; its own balance counts as lost in the meantime. */
  function Lend(p: Progress, funds: int): Progress {
    p.(state := p.state.(balances := p.state.balances[ZERO_ADDRESS := funds]),
    lent := p.lent + funds, lost := p.lost + Balance(p.state.balances, ZERO_ADDRESS))
  }

  /** The zero address is given its own balance back; what is left of the loan is lost. */
  function Restore(p: Progress, zero: int): Progress {
    p.(state := p.state.(balances := p.state.balances[ZERO_ADDRESS := zero]),
    lost := p.lost + Balance(p.state.balances, ZERO_ADDRESS) - zero)
  }

  lemma {:induction false} LendKeeps(b: Block, p: Progress, pool: nat, amount: int)
    requires Accounts(b, p, pool)
    ensures Accounts(b, Lend(p, amount), pool) && Accounts(b, Restore(p, amount), pool)
  {
  }

  lemma {:induction false} SameAccounts(b: Block, p: Progress, pool: nat, etxSet: EtxSet)
    requires Accounts(b, p, pool)
    ensures Accounts(b, p.(etxSet := etxSet), pool)
  {
  }

  /** The loan covers the gas and the value, so an unspent ETX never fails for lack of funds, unless its gas
      limit wraps around in the conversion and it offers to pay anything at all. */
  lemma {:induction false} LoanCovers(etx: Tx, baseFee: nat, p: Progress, pool: nat)
    requires etx.kind.ExternalTx? && etx.sender.Some? && etx.gas <= MAX_UINT64
    ensures var msg := AsMessage(etx, baseFee).value;
            var lent := Lend(p, EtxFunds(etx)).state;
            && (CanBuy(msg, lent, pool) <==>
                  etx.gas <= pool && (etx.gas < TWO_63 || (etx.gasFeeCap == 0 && etx.gasTipCap == 0)))
            && (CanBuy(msg, lent, pool) ==>
                  (CanRun(msg, lent) <==> etx.intrinsicGas.Some? && etx.intrinsicGas.value <= etx.gas))
  {
    hide EtxFunds, EffectiveGasPrice;
    LoanSuffices(etx, EffectiveGasPrice(baseFee, etx.gasFeeCap, etx.gasTipCap));
    PriceSplits(baseFee, etx.gasFeeCap, etx.gasTipCap);
  }

  /** A gas limit of 2^63 wraps to a negative loan, so an ETX that offers one unit of fee cannot buy it. */
  lemma {:induction false} WrappedLoanFails(p: Progress, sender: Account)
    ensures var etx := Tx(1, ExternalTx, Some(sender), 1, 0, TWO_63, 0, 0, false, Some(21000), true);
            && EtxFunds(etx) < 0
            && !CanBuy(AsMessage(etx, 1).value, Lend(p, EtxFunds(etx)).state, MAX_UINT64)
  {
    var etx := Tx(1, ExternalTx, Some(sender), 1, 0, TWO_63, 0, 0, false, Some(21000), true);
    LoanCovers(etx, 1, p, MAX_UINT64);
  }

  lemma {:induction false} LoanSuffices(etx: Tx, price: nat)
    requires etx.gas <= MAX_UINT64
    ensures EtxFunds(etx) >= etx.gas * etx.gasFeeCap + etx.value <==>
              etx.gas < TWO_63 || (etx.gasFeeCap == 0 && etx.gasTipCap == 0)
    ensures EtxFunds(etx) >= etx.gas * etx.gasFeeCap + etx.value && price <= etx.gasFeeCap ==>
              EtxFunds(etx) >= etx.gas * price + etx.value
  {
    var caps, wrapped := etx.gasFeeCap + etx.gasTipCap, AsInt64(etx.gas);
    PriceBelowCap(etx.gas, price, etx.gasFeeCap);
    if etx.gas < TWO_63 {
      assert caps * wrapped == etx.gas * etx.gasFeeCap + etx.gas * etx.gasTipCap;
    } else if caps > 0 {
      NegativeProduct(caps, wrapped);
    }
  }

  lemma {:induction false} NegativeProduct(a: int, b: int)
    requires a > 0 && b < 0
    ensures a * b < 0
  {
  }

  /** What executing an inbound ETX gives; there is no result if it is not in the unspent set. */
  ghost function EtxTransacted(tx: Tx, msg: Message, ctx: Context, pool: nat, p: Progress, evm: Evm): Option<Progress>
    requires GasBounded(evm)
  {
    if tx.hash !in p.etxSet then None
    else
      var q := Transacted(msg, ctx, pool, Lend(p, EtxFunds(p.etxSet[tx.hash].etx)), evm);
      if q.None? then None
      else Some(Restore(q.value, Balance(p.state.balances, ZERO_ADDRESS)).(etxSet := p.etxSet - {tx.hash}))
  }

  /** Executes an inbound ETX out of the unspent set. The zero address stands in as sender; its balance is
      put back afterwards and what was left of the loan is lost. */
  method ApplyEtx(tx: Tx, msg: Message, ghost b: Block, ctx: Context, gp: GasPool, p: Progress, evm: Evm) returns (r: Option<Progress>)
    requires msg.gas <= MAX_UINT64 && gp.gas <= MAX_UINT64 && GasBounded(evm)
    requires msg.gasPrice == EffectiveGasPrice(ctx.baseFee, msg.gasFeeCap, msg.gasTipCap)
    requires b.ctx == ctx && Accounts(b, p, gp.gas) && Filed(p.etxSet)
    modifies gp
    ensures r == EtxTransacted(tx, msg, ctx, old(gp.gas), p, evm)
    ensures r.Some? ==> tx.hash in p.etxSet && r.value.etxSet == p.etxSet - {tx.hash}
    ensures r.Some? ==> Accounts(b, r.value, gp.gas)
    ensures r.Some? ==> Balance(r.value.state.balances, ZERO_ADDRESS) == Balance(p.state.balances, ZERO_ADDRESS)
    ensures gp.gas <= old(gp.gas)
  {
    hide Transacted, EtxFunds, Accounts, GasBounded, EffectiveGasPrice;
    if tx.hash !in p.etxSet {
      return None;
    }
    var etx := p.etxSet[tx.hash].etx;
    var prevZeroBal := Balance(p.state.balances, ZERO_ADDRESS);
    LendKeeps(b, p, gp.gas, EtxFunds(etx));
    r := ApplyTransaction(msg, b, ctx, gp, Lend(p, EtxFunds(etx)), evm);
    if r.Some? {
      LendKeeps(b, r.value, gp.gas, prevZeroBal);
      var q := Restore(r.value, prevZeroBal);
      SameAccounts(b, q, gp.gas, q.etxSet - {etx.hash});
      r := Some(q.(etxSet := q.etxSet - {etx.hash}));
    }
  }

  // ----- the block -----

  function GasLeft(gasLimit: nat, used: nat): nat {
    if used <= gasLimit then gasLimit - used else 0
  }

  /** What one transaction of a block gives, by its kind. */
  ghost function Applied(tx: Tx, gasLimit: nat, ctx: Context, p: Progress, evms: Evms): Option<Progress>
    requires forall msg :: GasBounded(evms(msg))
  {
    var msg, pool := AsMessage(tx, ctx.baseFee), GasLeft(gasLimit, p.usedGas);
    if msg.None? || tx.kind.UnsupportedTx? then None
    else
      assert GasBounded(evms(msg.value));
      if tx.kind.ExternalTx? then EtxTransacted(tx, msg.value, ctx, pool, p, evms(msg.value))
      else Transacted(msg.value, ctx, pool, p, evms(msg.value))
  }

  /** What the first `n` transactions give; a block with a failing transaction has no result. */
  ghost function Processed(txs: seq<Tx>, n: nat, gasLimit: nat, ctx: Context, start: Progress, evms: Evms): Option<Progress>
    requires n <= |txs| && forall msg :: GasBounded(evms(msg))
  {
    if n == 0 then Some(start)
    else
      var before := Processed(txs, n - 1, gasLimit, ctx, start, evms);
      if before.None? then None else Applied(txs[n - 1], gasLimit, ctx, before.value, evms)
  }

  lemma {:induction false} NothingProcessed(txs: seq<Tx>, gasLimit: nat, ctx: Context, start: Progress, evms: Evms)
    requires forall msg :: GasBounded(evms(msg))
    ensures Processed(txs, 0, gasLimit, ctx, start, evms) == Some(start)
  {
  }

  lemma {:induction false} FailureStays(txs: seq<Tx>, i: nat, n: nat, gasLimit: nat, ctx: Context, start: Progress, evms: Evms)
    requires i <= n <= |txs| && forall msg :: GasBounded(evms(msg))
    requires Processed(txs, i, gasLimit, ctx, start, evms).None?
    ensures Processed(txs, n, gasLimit, ctx, start, evms).None?
  {
    hide Applied;
    if i < n {
      FailureStays(txs, i, n - 1, gasLimit, ctx, start, evms);
    }
  }

  lemma {:induction false} NextProcessed(txs: seq<Tx>, i: nat, gasLimit: nat, ctx: Context, start: Progress, evms: Evms, p: Progress)
    requires i < |txs| && (forall msg :: GasBounded(evms(msg))) && Processed(txs, i, gasLimit, ctx, start, evms) == Some(p)
    ensures Processed(txs, i + 1, gasLimit, ctx, start, evms) == Applied(txs[i], gasLimit, ctx, p, evms)
  {
    hide Applied;
  }

  lemma {:induction false} AppliedByKind(tx: Tx, gasLimit: nat, ctx: Context, p: Progress, evms: Evms, pool: nat)
    requires (forall msg :: GasBounded(evms(msg))) && p.usedGas + pool == gasLimit
    ensures var msg := AsMessage(tx, ctx.baseFee);
            if msg.None? || tx.kind.UnsupportedTx? then Applied(tx, gasLimit, ctx, p, evms).None?
            else
              && GasBounded(evms(msg.value))
              && Applied(tx, gasLimit, ctx, p, evms) ==
                 if tx.kind.ExternalTx? then EtxTransacted(tx, msg.value, ctx, pool, p, evms(msg.value))
                 else Transacted(msg.value, ctx, pool, p, evms(msg.value))
  {
    hide Transacted, EtxTransacted;
    var msg := AsMessage(tx, ctx.baseFee);
    if msg.Some? {
      assert GasBounded(evms(msg.value));
    }
  }

  lemma {:induction false} MessageOf(tx: Tx, baseFee: nat)
    ensures var msg := AsMessage(tx, baseFee);
            msg.Some? ==> && msg.value.gas == tx.gas
                          && msg.value.gasPrice == EffectiveGasPrice(baseFee, msg.value.gasFeeCap, msg.value.gasTipCap)
  {
  }

  lemma {:induction false} FiledWithout(s: EtxSet, gone: set<Hash>)
    requires Filed(s)
    ensures Filed(s - gone)
  {
  }

  lemma {:induction false} WithinLimits(rLimit: nat, pLimit: nat, p: Progress)
    requires LimitsKept(rLimit, pLimit, p)
    ensures CountCtx(p.emitted, REGION_CTX) <= rLimit && CountCtx(p.emitted, PRIME_CTX) <= pLimit
  {
  }

  lemma {:induction false} StartAccounts(b: Block, p: Progress)
    requires p.usedGas == 0 && p.emitted == []
    requires p.rLimit == b.rLimit && p.pLimit == b.pLimit
    ensures Accounts(b, p, b.gasLimit)
  {
  }

  lemma {:induction false} NothingSpent(txs: seq<Tx>, unspent: EtxSet)
    ensures SpendsOnce(txs, 0, unspent) && unspent - Spent(txs, 0) == unspent
  {
  }

  // ----- what happens to each transaction -----

  /** The message of a transaction, field by field; its price is the fee cap, or the tip cap above the base fee,
      whichever is less. */
  ghost predicate IsMessageOf(tx: Tx, from: Address, checked: bool, baseFee: nat, msg: Message) {
    && msg.from == Internal(from) && msg.nonce == tx.nonce && msg.checkNonce == checked
    && msg.gas == tx.gas && msg.value == tx.value && msg.gasFeeCap == tx.gasFeeCap && msg.gasTipCap == tx.gasTipCap
    && msg.isCreation == tx.isCreation && msg.intrinsicGas == tx.intrinsicGas
    && msg.gasPrice <= tx.gasFeeCap && msg.gasPrice <= tx.gasTipCap + baseFee
    && (msg.gasPrice == tx.gasFeeCap || msg.gasPrice == tx.gasTipCap + baseFee)
  }

  /** The rules for applying a transaction of a sender: its nonce is the sender's if that is checked, the sender is no
      contract, the caps are in order and cover the base fee, and gas and funds suffice. */
  ghost predicate MayApply(tx: Tx, from: Address, checked: bool, ctx: Context, s: State, pool: int) {
    && (checked ==> tx.nonce == NonceOf(s, from)) && from !in s.contracts
    && (!ctx.noBaseFee || tx.gasFeeCap > 0 || tx.gasTipCap > 0 ==>
          ctx.baseFee <= tx.gasFeeCap && tx.gasTipCap <= tx.gasFeeCap < TWO_256)
    && tx.gas <= pool && Balance(s.balances, from) >= tx.gas * tx.gasFeeCap + tx.value
    && tx.intrinsicGas.Some? && tx.intrinsicGas.value <= tx.gas && ctx.coinbase.Internal?
  }

  /** What the EVM is given: the sender has paid for all the gas and, unless it creates a contract, has the next nonce. */
  ghost function Paid(tx: Tx, from: Address, price: nat, s: State): State {
    State(s.balances[from := Balance(s.balances, from) - tx.gas * price],
          if tx.isCreation then s.nonces else s.nonces[from := NonceOf(s, from) + 1], s.contracts, s.refund)
  }

  /** What the EVM leaves counts against the limits; what is not used is paid back, and the miner gets what the price is
      above the base fee for what is. */
  ghost predicate Settles(tx: Tx, from: Address, price: nat, ctx: Context, p: Progress, q: Progress, e: Exec) {
    && ctx.coinbase.Internal? && e.gasLeft <= tx.gas
    && CountCtx(e.etxs, REGION_CTX) <= p.rLimit && CountCtx(e.etxs, PRIME_CTX) <= p.pLimit
    && var used := tx.gas - e.gasLeft - RefundOf(tx.gas - e.gasLeft, e.state.refund);
       q == Progress(e.state.(balances := Add(Add(e.state.balances, from, (tx.gas - used) * price),
                                              ctx.coinbase.address, used * (price - ctx.baseFee))),
                     p.usedGas + used, p.emitted + e.etxs, p.rLimit - CountCtx(e.etxs, REGION_CTX),
                     p.pLimit - CountCtx(e.etxs, PRIME_CTX), p.etxSet, p.lent, p.lost)
  }

  /** The transaction runs for the sender. */
  ghost predicate RunsFor(tx: Tx, from: Address, checked: bool, gasLimit: nat, ctx: Context, p: Progress, q: Progress, evms: Evms) {
    && MayApply(tx, from, checked, ctx, p.state, gasLimit - p.usedGas)
    && exists msg {:trigger IsMessageOf(tx, from, checked, ctx.baseFee, msg)} ::
         && IsMessageOf(tx, from, checked, ctx.baseFee, msg)
         && Settles(tx, from, msg.gasPrice, ctx, p, q,
                    evms(msg)(Paid(tx, from, msg.gasPrice, p.state), tx.gas - tx.intrinsicGas.value))
  }

  /** An unspent external transaction runs for the zero address, without a nonce, on what it is lent; the zero address
      gets its own balance back, what is left of the loan is lost, and the transaction is spent. */
  ghost predicate RunsOnLoan(tx: Tx, gasLimit: nat, ctx: Context, p: Progress, q: Progress, evms: Evms) {
    && tx.hash in p.etxSet
    && var funds, own := EtxFunds(p.etxSet[tx.hash].etx), Balance(p.state.balances, ZERO_ADDRESS);
       var loan := p.(state := p.state.(balances := p.state.balances[ZERO_ADDRESS := funds]), lent := p.lent + funds);
       exists m {:trigger RunsFor(tx, ZERO_ADDRESS, false, gasLimit, ctx, loan, m, evms)} ::
         && RunsFor(tx, ZERO_ADDRESS, false, gasLimit, ctx, loan, m, evms)
         && q == m.(state := m.state.(balances := m.state.balances[ZERO_ADDRESS := own]),
                    lost := p.lost + Balance(m.state.balances, ZERO_ADDRESS), etxSet := p.etxSet - {tx.hash})
  }

  /** A transaction of this zone runs for its sender, under the sender's nonce. */
  ghost predicate AppliesTo(tx: Tx, gasLimit: nat, ctx: Context, p: Progress, q: Progress, evms: Evms) {
    && tx.sender.Some? && !tx.kind.UnsupportedTx?
    && if tx.kind.ExternalTx? then RunsOnLoan(tx, gasLimit, ctx, p, q, evms)
       else tx.sender.value.Internal? && RunsFor(tx, tx.sender.value.address, true, gasLimit, ctx, p, q, evms)
  }

  lemma {:induction false} MessageFields(tx: Tx, baseFee: nat, from: Address, msg: Message)
    requires tx.sender.Some?
    ensures tx.kind.ExternalTx? ==>
              (IsMessageOf(tx, ZERO_ADDRESS, false, baseFee, msg) <==> AsMessage(tx, baseFee) == Some(msg))
    ensures !tx.kind.ExternalTx? && tx.sender.value == Internal(from) ==>
              (IsMessageOf(tx, from, true, baseFee, msg) <==> AsMessage(tx, baseFee) == Some(msg))
  {
  }

  /** The price is at most the fee cap, so who can pay for the gas at the cap can also send the value. */
  lemma {:induction false} AcceptableIs(tx: Tx, from: Address, checked: bool, ctx: Context, s: State, pool: nat, msg: Message)
    requires IsMessageOf(tx, from, checked, ctx.baseFee, msg)
    ensures Acceptable(msg, ctx, s, pool) && ctx.coinbase.Internal? <==> MayApply(tx, from, checked, ctx, s, pool)
  {
    PriceBelowCap(tx.gas, msg.gasPrice, tx.gasFeeCap);
  }

  lemma {:induction false} TransactedSettles(tx: Tx, from: Address, checked: bool, msg: Message, ctx: Context, pool: nat, p: Progress, evm: Evm, q: Progress)
    requires IsMessageOf(tx, from, checked, ctx.baseFee, msg) && GasBounded(evm)
    requires MayApply(tx, from, checked, ctx, p.state, pool) && Acceptable(msg, ctx, p.state, pool)
    ensures var e := evm(Paid(tx, from, msg.gasPrice, p.state), tx.gas - tx.intrinsicGas.value);
            Transacted(msg, ctx, pool, p, evm) == Some(q) <==> Settles(tx, from, msg.gasPrice, ctx, p, q, e)
  {
    hide CountCtx, Acceptable, EffectiveTip, EffectiveGasPrice, RefundOf;
    assert Prepared(msg, p.state) == Paid(tx, from, msg.gasPrice, p.state);
    PriceIs(tx, from, checked, ctx.baseFee, msg);
  }

  lemma {:induction false} PriceIs(tx: Tx, from: Address, checked: bool, baseFee: nat, msg: Message)
    requires IsMessageOf(tx, from, checked, baseFee, msg)
    ensures EffectiveTip(baseFee, msg.gasFeeCap, msg.gasTipCap) == msg.gasPrice - baseFee
  {
  }

  lemma {:induction false} TransactedRuns(tx: Tx, from: Address, checked: bool, msg: Message, gasLimit: nat, ctx: Context, p: Progress, evms: Evms, q: Progress)
    requires IsMessageOf(tx, from, checked, ctx.baseFee, msg) && GasBounded(evms(msg)) && p.usedGas <= gasLimit
    requires forall m :: IsMessageOf(tx, from, checked, ctx.baseFee, m) ==> m == msg
    ensures Transacted(msg, ctx, gasLimit - p.usedGas, p, evms(msg)) == Some(q) <==>
              RunsFor(tx, from, checked, gasLimit, ctx, p, q, evms)
    ensures RunsFor(tx, from, checked, gasLimit, ctx, p, q, evms) ==> q.usedGas <= gasLimit
  {
    hide CountCtx, GasBounded, MayApply, IsMessageOf, Settles, Acceptable, RefundOf, Paid;
    AcceptableIs(tx, from, checked, ctx, p.state, gasLimit - p.usedGas, msg);
    if MayApply(tx, from, checked, ctx, p.state, gasLimit - p.usedGas) {
      Covered(tx, from, checked, ctx, p.state, gasLimit - p.usedGas);
      TransactedSettles(tx, from, checked, msg, ctx, gasLimit - p.usedGas, p, evms(msg), q);
      var e := evms(msg)(Paid(tx, from, msg.gasPrice, p.state), tx.gas - tx.intrinsicGas.value);
      if Settles(tx, from, msg.gasPrice, ctx, p, q, e) {
        UsesItsGas(tx, from, msg.gasPrice, ctx, p, q, e);
      }
    }
  }

  lemma {:induction false} Covered(tx: Tx, from: Address, checked: bool, ctx: Context, s: State, pool: nat)
    requires MayApply(tx, from, checked, ctx, s, pool)
    ensures tx.intrinsicGas.Some? && tx.intrinsicGas.value <= tx.gas <= pool
  {
  }

  lemma {:induction false} UsesItsGas(tx: Tx, from: Address, price: nat, ctx: Context, p: Progress, q: Progress, e: Exec)
    requires Settles(tx, from, price, ctx, p, q, e)
    ensures q.usedGas <= p.usedGas + tx.gas
  {
  }

  lemma {:induction false} AppliedIs(tx: Tx, gasLimit: nat, ctx: Context, p: Progress, evms: Evms, q: Progress)
    requires (forall msg :: GasBounded(evms(msg))) && p.usedGas <= gasLimit
    ensures Applied(tx, gasLimit, ctx, p, evms) == Some(q) <==> AppliesTo(tx, gasLimit, ctx, p, q, evms)
    ensures AppliesTo(tx, gasLimit, ctx, p, q, evms) ==> q.usedGas <= gasLimit
  {
    hide Transacted, GasBounded, EtxFunds, IsMessageOf, RunsFor;
    if tx.sender.Some? && !tx.kind.UnsupportedTx? {
      var msg := AsMessage(tx, ctx.baseFee).value;
      assert GasBounded(evms(msg));
      if tx.kind.ExternalTx? {
        EtxRuns(tx, msg, gasLimit, ctx, p, evms, q);
      } else {
        OwnRuns(tx, msg, gasLimit, ctx, p, evms, q);
      }
    }
  }

  lemma {:induction false} OwnRuns(tx: Tx, msg: Message, gasLimit: nat, ctx: Context, p: Progress, evms: Evms, q: Progress)
    requires AsMessage(tx, ctx.baseFee) == Some(msg) && !tx.kind.ExternalTx? && GasBounded(evms(msg)) && p.usedGas <= gasLimit
    ensures Transacted(msg, ctx, gasLimit - p.usedGas, p, evms(msg)) == Some(q) <==>
              tx.sender.value.Internal? && RunsFor(tx, tx.sender.value.address, true, gasLimit, ctx, p, q, evms)
    ensures Transacted(msg, ctx, gasLimit - p.usedGas, p, evms(msg)) == Some(q) ==> q.usedGas <= gasLimit
  {
    hide CountCtx, GasBounded, RunsFor, IsMessageOf, EffectiveGasPrice;
    if tx.sender.value.Internal? {
      var from := tx.sender.value.address;
      forall m ensures IsMessageOf(tx, from, true, ctx.baseFee, m) <==> m == msg {
        MessageFields(tx, ctx.baseFee, from, m);
      }
      TransactedRuns(tx, from, true, msg, gasLimit, ctx, p, evms, q);
    }
  }

  lemma {:induction false} EtxRuns(tx: Tx, msg: Message, gasLimit: nat, ctx: Context, p: Progress, evms: Evms, q: Progress)
    requires AsMessage(tx, ctx.baseFee) == Some(msg) && tx.kind.ExternalTx? && GasBounded(evms(msg)) && p.usedGas <= gasLimit
    ensures EtxTransacted(tx, msg, ctx, gasLimit - p.usedGas, p, evms(msg)) == Some(q) <==> RunsOnLoan(tx, gasLimit, ctx, p, q, evms)
    ensures RunsOnLoan(tx, gasLimit, ctx, p, q, evms) ==> q.usedGas <= gasLimit
  {
    hide Transacted, GasBounded, RunsFor, IsMessageOf, EffectiveGasPrice, EtxFunds;
    forall m ensures IsMessageOf(tx, ZERO_ADDRESS, false, ctx.baseFee, m) <==> m == msg {
      MessageFields(tx, ctx.baseFee, ZERO_ADDRESS, m);
    }
    if tx.hash in p.etxSet {
      var funds := EtxFunds(p.etxSet[tx.hash].etx);
      var loan := p.(state := p.state.(balances := p.state.balances[ZERO_ADDRESS := funds]), lent := p.lent + funds);
      var lent := Lend(p, funds);
      forall m: Progress
        ensures RunsFor(tx, ZERO_ADDRESS, false, gasLimit, ctx, loan, m, evms) <==>
                  Transacted(msg, ctx, gasLimit - p.usedGas, loan, evms(msg)) == Some(m)
        ensures RunsFor(tx, ZERO_ADDRESS, false, gasLimit, ctx, loan, m, evms) ==> m.usedGas <= gasLimit
      {
        TransactedRuns(tx, ZERO_ADDRESS, false, msg, gasLimit, ctx, loan, evms, m);
      }
      assert lent == loan.(lost := lent.lost);
      LossCarries(msg, ctx, gasLimit - p.usedGas, loan, lent.lost, evms(msg));
      if EtxTransacted(tx, msg, ctx, gasLimit - p.usedGas, p, evms(msg)) == Some(q) {
        var m := Transacted(msg, ctx, gasLimit - p.usedGas, loan, evms(msg)).value;
        assert RunsFor(tx, ZERO_ADDRESS, false, gasLimit, ctx, loan, m, evms);
      }
      if RunsOnLoan(tx, gasLimit, ctx, p, q, evms) {
        var m :| RunsFor(tx, ZERO_ADDRESS, false, gasLimit, ctx, loan, m, evms)
              && q == m.(state := m.state.(balances := m.state.balances[ZERO_ADDRESS := Balance(p.state.balances, ZERO_ADDRESS)]),
                         lost := p.lost + Balance(m.state.balances, ZERO_ADDRESS), etxSet := p.etxSet - {tx.hash});
        assert Transacted(msg, ctx, gasLimit - p.usedGas, loan, evms(msg)) == Some(m);
      }
    }
  }

  /** What has been lost so far does not matter to a message. */
  lemma {:induction false} LossCarries(msg: Message, ctx: Context, pool: nat, p: Progress, lost: int, evm: Evm)
    requires GasBounded(evm)
    ensures var r, s := Transacted(msg, ctx, pool, p, evm), Transacted(msg, ctx, pool, p.(lost := lost), evm);
            && (r.Some? <==> s.Some?)
            && (r.Some? ==> s == Some(r.value.(lost := lost)) && r.value.lost == p.lost && r.value.etxSet == p.etxSet)
  {
    hide CountCtx, Acceptable, GasBounded;
  }

  /** The totals before and after each of the first `n` transactions. */
  ghost predicate IsRun(txs: seq<Tx>, n: nat, gasLimit: nat, ctx: Context, steps: seq<Progress>, evms: Evms) {
    && n <= |txs| && |steps| == n + 1
    && forall k {:trigger txs[k]} :: 0 <= k < n ==> AppliesTo(txs[k], gasLimit, ctx, steps[k], steps[k + 1], evms)
  }

  /** Each of the transactions in turn applies to what the ones before it left. */
  ghost predicate RunsTo(txs: seq<Tx>, gasLimit: nat, ctx: Context, start: Progress, end: Progress, evms: Evms) {
    exists steps {:trigger IsRun(txs, |txs|, gasLimit, ctx, steps, evms)} ::
      IsRun(txs, |txs|, gasLimit, ctx, steps, evms) && steps[0] == start && steps[|txs|] == end
  }

  lemma {:induction false} BlockRuns(txs: seq<Tx>, n: nat, gasLimit: nat, ctx: Context, start: Progress, evms: Evms) returns (steps: seq<Progress>)
    requires n <= |txs| && (forall msg :: GasBounded(evms(msg))) && start.usedGas <= gasLimit
    requires Processed(txs, n, gasLimit, ctx, start, evms).Some?
    ensures IsRun(txs, n, gasLimit, ctx, steps, evms) && steps[0] == start && steps[n].usedGas <= gasLimit
    ensures Processed(txs, n, gasLimit, ctx, start, evms) == Some(steps[n])
  {
    hide Applied, AppliesTo, GasBounded;
    if n == 0 {
      steps := [start];
    } else {
      var before := BlockRuns(txs, n - 1, gasLimit, ctx, start, evms);
      var q := Processed(txs, n, gasLimit, ctx, start, evms).value;
      AppliedIs(txs[n - 1], gasLimit, ctx, before[n - 1], evms, q);
      steps := before + [q];
    }
  }

  lemma {:induction false} RunIsBlock(txs: seq<Tx>, n: nat, gasLimit: nat, ctx: Context, steps: seq<Progress>, evms: Evms)
    requires (forall msg :: GasBounded(evms(msg))) && IsRun(txs, n, gasLimit, ctx, steps, evms) && steps[0].usedGas <= gasLimit
    ensures Processed(txs, n, gasLimit, ctx, steps[0], evms) == Some(steps[n]) && steps[n].usedGas <= gasLimit
  {
    hide Applied, AppliesTo, GasBounded;
    if n > 0 {
      var last := txs[n - 1];
      RunIsBlock(txs, n - 1, gasLimit, ctx, steps[..n], evms);
      AppliedIs(last, gasLimit, ctx, steps[n - 1], evms, steps[n]);
    }
  }

  /** A block succeeds with some totals exactly if its transactions, one after the other, lead to them. */
  lemma {:induction false} BlockIsRun(txs: seq<Tx>, gasLimit: nat, ctx: Context, start: Progress, end: Progress, evms: Evms)
    requires (forall msg :: GasBounded(evms(msg))) && start.usedGas <= gasLimit
    ensures Processed(txs, |txs|, gasLimit, ctx, start, evms) == Some(end) <==> RunsTo(txs, gasLimit, ctx, start, end, evms)
  {
    hide Processed, AppliesTo, GasBounded;
    if Processed(txs, |txs|, gasLimit, ctx, start, evms) == Some(end) {
      var steps := BlockRuns(txs, |txs|, gasLimit, ctx, start, evms);
    }
    if RunsTo(txs, gasLimit, ctx, start, end, evms) {
      var steps :| IsRun(txs, |txs|, gasLimit, ctx, steps, evms) && steps[0] == start && steps[|txs|] == end;
      RunIsBlock(txs, |txs|, gasLimit, ctx, steps, evms);
    }
  }

  // ----- what ETXs bring in -----

  /** What is lent for the external transactions among the first `n`. */
  ghost function Loans(txs: seq<Tx>, n: nat, unspent: EtxSet): int
    requires n <= |txs|
  {
    if n == 0 then 0
    else Loans(txs, n - 1, unspent)
         + if txs[n - 1].kind.ExternalTx? && txs[n - 1].hash in unspent then EtxFunds(unspent[txs[n - 1].hash].etx) else 0
  }

  /** The entries of the one set are among those of the other. */
  ghost predicate Among(s: EtxSet, whole: EtxSet) {
    forall h :: h in s ==> h in whole && s[h] == whole[h]
  }

  /** What a transaction adds to the loans, and that only external ones lose anything. */
  lemma {:induction false} AppliedLoan(tx: Tx, gasLimit: nat, ctx: Context, p: Progress, evms: Evms, q: Progress)
    requires (forall msg :: GasBounded(evms(msg))) && Applied(tx, gasLimit, ctx, p, evms) == Some(q)
    ensures Among(q.etxSet, p.etxSet)
    ensures if tx.kind.ExternalTx? then tx.hash in p.etxSet && q.lent == p.lent + EtxFunds(p.etxSet[tx.hash].etx)
            else q.lent == p.lent && q.lost == p.lost
  {
    hide Acceptable, GasBounded, EtxFunds, EffectiveGasPrice, CountCtx;
  }

  /** The loans of a block are those of its external transactions; a block without any lends and loses nothing. */
  lemma {:induction false} BlockLoans(txs: seq<Tx>, n: nat, gasLimit: nat, ctx: Context, start: Progress, evms: Evms, p: Progress)
    requires n <= |txs| && (forall msg :: GasBounded(evms(msg))) && Processed(txs, n, gasLimit, ctx, start, evms) == Some(p)
    ensures Among(p.etxSet, start.etxSet) && p.lent == start.lent + Loans(txs, n, start.etxSet)
    ensures (forall k :: 0 <= k < n ==> !txs[k].kind.ExternalTx?) ==> p.lent == start.lent && p.lost == start.lost
  {
    hide Applied, GasBounded, EtxFunds;
    if n > 0 {
      var before := Processed(txs, n - 1, gasLimit, ctx, start, evms).value;
      BlockLoans(txs, n - 1, gasLimit, ctx, start, evms, before);
      AppliedLoan(txs[n - 1], gasLimit, ctx, before, evms, p);
    }
  }

  lemma {:induction false} TransactedSolvent(msg: Message, ctx: Context, pool: nat, p: Progress, evm: Evm, q: Progress)
    requires GasBounded(evm) && KeepsNonNegative(evm) && !ctx.noBaseFee && msg.gasPrice <= msg.gasFeeCap
    requires NonNegative(p.state.balances)
    requires Transacted(msg, ctx, pool, p, evm) == Some(q)
    ensures NonNegative(q.state.balances) && q.lost == p.lost
  {
    hide Acceptable, NonNegative, GasBounded, KeepsNonNegative, CountCtx, Vanished, ValueOut;
    Conserved(msg, ctx, p.state, pool, evm);
  }

  /** A loan that pays for its message is not negative, so neither is any balance in between. */
  lemma {:induction false} EtxSolvent(tx: Tx, msg: Message, ctx: Context, pool: nat, p: Progress, evm: Evm, q: Progress)
    requires GasBounded(evm) && KeepsNonNegative(evm) && !ctx.noBaseFee && msg.gasPrice <= msg.gasFeeCap
    requires NonNegative(p.state.balances)
    requires msg.from == Internal(ZERO_ADDRESS) && EtxTransacted(tx, msg, ctx, pool, p, evm) == Some(q)
    ensures NonNegative(q.state.balances) && q.lost >= p.lost
  {
    hide Transacted, GasBounded, KeepsNonNegative, EtxFunds, Allowed, CanRun;
    var loan := Lend(p, EtxFunds(p.etxSet[tx.hash].etx));
    var after := Transacted(msg, ctx, pool, loan, evm).value;
    TransactedAccepted(msg, ctx, pool, loan, evm);
    ProductNonNegative(msg.gas, msg.gasFeeCap);
    TransactedSolvent(msg, ctx, pool, loan, evm, after);
    BalanceNonNegative(after.state.balances, ZERO_ADDRESS);
    BalanceNonNegative(p.state.balances, ZERO_ADDRESS);
  }

  lemma {:induction false} TransactedAccepted(msg: Message, ctx: Context, pool: nat, p: Progress, evm: Evm)
    requires GasBounded(evm) && Transacted(msg, ctx, pool, p, evm).Some?
    ensures Acceptable(msg, ctx, p.state, pool)
  {
    hide Acceptable, GasBounded;
  }

  /** No balance of a block is ever overdrawn, and nothing negative is lost. */
  lemma {:induction false} BlockSolvent(txs: seq<Tx>, n: nat, gasLimit: nat, ctx: Context, start: Progress, evms: Evms, p: Progress)
    requires n <= |txs| && (forall msg :: GasBounded(evms(msg))) && Processed(txs, n, gasLimit, ctx, start, evms) == Some(p)
    ensures !ctx.noBaseFee && NonNegative(start.state.balances) && (forall msg :: KeepsNonNegative(evms(msg))) ==>
              NonNegative(p.state.balances) && p.lost >= start.lost
  {
    hide Transacted, EtxTransacted, GasBounded, KeepsNonNegative, NonNegative, EffectiveGasPrice;
    if n > 0 && !ctx.noBaseFee && NonNegative(start.state.balances) && (forall msg :: KeepsNonNegative(evms(msg))) {
      var before := Processed(txs, n - 1, gasLimit, ctx, start, evms).value;
      BlockSolvent(txs, n - 1, gasLimit, ctx, start, evms, before);
      var tx, msg, pool := txs[n - 1], AsMessage(txs[n - 1], ctx.baseFee).value, GasLeft(gasLimit, before.usedGas);
      PriceSplits(ctx.baseFee, tx.gasFeeCap, tx.gasTipCap);
      if tx.kind.ExternalTx? {
        EtxSolvent(tx, msg, ctx, pool, before, evms(msg), p);
      } else {
        TransactedSolvent(msg, ctx, pool, before, evms(msg), p);
      }
    }
  }

  // ----- value over a block -----

  /** Everything a state accounts for: what is held, was burnt, left in ETXs or was lost, without what was lent. */
  ghost function Books(p: Progress, baseFee: nat): int {
    Total(p.state.balances) + p.usedGas * baseFee + ValueOut(p.emitted) + p.lost - p.lent
  }

  /** Value is conserved, besides what vanished: what is missing was burnt as base fee, left in ETXs or was lost of a
      loan, and what is new was lent for executed ETXs. */
  ghost predicate ValueKept(start: Ledger, p: Progress, baseFee: nat, vanished: int) {
    Total(p.state.balances) + p.usedGas * baseFee + ValueOut(p.emitted) + p.lost + vanished == Total(start) + p.lent
  }

  /** What vanished in the execution of a message, if there was one. */
  ghost function MessageVanished(msg: Message, s: State, evm: Evm): int {
    if msg.from.Internal? && CanRun(msg, s) then Vanished(Prepared(msg, s), Executed(msg, s, evm)) else 0
  }

  ghost function TxVanished(tx: Tx, ctx: Context, p: Progress, evms: Evms): int {
    var msg := AsMessage(tx, ctx.baseFee);
    if msg.None? then 0
    else if tx.kind.ExternalTx? && tx.hash in p.etxSet
    then MessageVanished(msg.value, Lend(p, EtxFunds(p.etxSet[tx.hash].etx)).state, evms(msg.value))
    else MessageVanished(msg.value, p.state, evms(msg.value))
  }

  /** What vanished in the executions of the first `n` transactions. */
  ghost function VanishedIn(txs: seq<Tx>, n: nat, gasLimit: nat, ctx: Context, start: Progress, evms: Evms): int
    requires n <= |txs| && forall msg :: GasBounded(evms(msg))
  {
    if n == 0 then 0
    else
      var before := Processed(txs, n - 1, gasLimit, ctx, start, evms);
      VanishedIn(txs, n - 1, gasLimit, ctx, start, evms) + if before.None? then 0 else TxVanished(txs[n - 1], ctx, before.value, evms)
  }

  lemma {:induction false} TransactedValue(msg: Message, ctx: Context, pool: nat, p: Progress, evm: Evm, q: Progress)
    requires GasBounded(evm) && msg.gasPrice == EffectiveGasPrice(ctx.baseFee, msg.gasFeeCap, msg.gasTipCap)
    requires Transacted(msg, ctx, pool, p, evm) == Some(q)
    ensures Books(q, ctx.baseFee) + MessageVanished(msg, p.state, evm) == Books(p, ctx.baseFee)
  {
    hide Allowed, CanBuy, NonNegative, GasBounded, KeepsNonNegative, CountCtx, Vanished, ValueOut, EffectiveGasPrice, CanRun, Settled;
    Conserved(msg, ctx, p.state, pool, evm);
    var e := Executed(msg, p.state, evm);
    ValueOutAppend(p.emitted, e.etxs);
    var used := msg.gas - Returned(msg, e);
    assert (p.usedGas + used) * ctx.baseFee == p.usedGas * ctx.baseFee + used * ctx.baseFee;
  }

  lemma {:induction false} LendBooks(p: Progress, amount: int, baseFee: nat)
    ensures Books(Lend(p, amount), baseFee) == Books(p, baseFee) && Books(Restore(p, amount), baseFee) == Books(p, baseFee)
  {
    TotalSet(p.state.balances, ZERO_ADDRESS, amount);
  }

  lemma {:induction false} EtxValue(tx: Tx, msg: Message, ctx: Context, pool: nat, p: Progress, evm: Evm, q: Progress)
    requires GasBounded(evm) && msg.gasPrice == EffectiveGasPrice(ctx.baseFee, msg.gasFeeCap, msg.gasTipCap)
    requires EtxTransacted(tx, msg, ctx, pool, p, evm) == Some(q)
    ensures tx.hash in p.etxSet
    ensures Books(q, ctx.baseFee) + MessageVanished(msg, Lend(p, EtxFunds(p.etxSet[tx.hash].etx)).state, evm) == Books(p, ctx.baseFee)
  {
    hide Transacted, GasBounded, EtxFunds, MessageVanished, EffectiveGasPrice;
    var loan := Lend(p, EtxFunds(p.etxSet[tx.hash].etx));
    var after := Transacted(msg, ctx, pool, loan, evm).value;
    var zero := Balance(p.state.balances, ZERO_ADDRESS);
    LendBooks(p, EtxFunds(p.etxSet[tx.hash].etx), ctx.baseFee);
    TransactedValue(msg, ctx, pool, loan, evm, after);
    LendBooks(after, zero, ctx.baseFee);
    assert Books(q, ctx.baseFee) == Books(Restore(after, zero), ctx.baseFee);
  }

  /** Over a block the books change by exactly what vanished in its executions. */
  lemma {:induction false} BlockValue(txs: seq<Tx>, n: nat, gasLimit: nat, ctx: Context, start: Progress, evms: Evms, p: Progress)
    requires n <= |txs| && (forall msg :: GasBounded(evms(msg))) && Processed(txs, n, gasLimit, ctx, start, evms) == Some(p)
    ensures Books(p, ctx.baseFee) + VanishedIn(txs, n, gasLimit, ctx, start, evms) == Books(start, ctx.baseFee)
  {
    hide Transacted, EtxTransacted, GasBounded, Books, EffectiveGasPrice, EtxFunds, MessageVanished;
    if n > 0 {
      var before := Processed(txs, n - 1, gasLimit, ctx, start, evms).value;
      BlockValue(txs, n - 1, gasLimit, ctx, start, evms, before);
      var tx, msg, pool := txs[n - 1], AsMessage(txs[n - 1], ctx.baseFee).value, GasLeft(gasLimit, before.usedGas);
      if tx.kind.ExternalTx? {
        EtxValue(tx, msg, ctx, pool, before, evms(msg), p);
      } else {
        TransactedValue(msg, ctx, pool, before, evms(msg), p);
      }
    }
  }

  lemma {:induction false} StartBooks(parentTxs: nat, state: State, unspent: EtxSet, p: Progress, baseFee: nat, vanished: int)
    requires Books(p, baseFee) + vanished == Books(StartOf(parentTxs, state, unspent), baseFee)
    ensures ValueKept(state.balances, p, baseFee, vanished)
  {
  }

  /** A block all of whose executions conserve value conserves it. */
  lemma {:induction false} NothingVanishes(txs: seq<Tx>, n: nat, gasLimit: nat, ctx: Context, start: Progress, evms: Evms)
    requires n <= |txs| && forall msg :: GasBounded(evms(msg))
    requires forall msg :: Conserves(evms(msg))
    ensures VanishedIn(txs, n, gasLimit, ctx, start, evms) == 0
  {
    hide Processed, Conserves, GasBounded, MessageVanished, AsMessage, EtxFunds;
    if n > 0 {
      NothingVanishes(txs, n - 1, gasLimit, ctx, start, evms);
      var before, msg := Processed(txs, n - 1, gasLimit, ctx, start, evms), AsMessage(txs[n - 1], ctx.baseFee);
      if before.Some? && msg.Some? {
        forall s: State ensures MessageVanished(msg.value, s, evms(msg.value)) == 0 {
          MessageConserves(msg.value, s, evms(msg.value));
        }
      }
    }
  }

  lemma {:induction false} MessageConserves(msg: Message, s: State, evm: Evm)
    requires Conserves(evm)
    ensures MessageVanished(msg, s, evm) == 0
  {
    hide Vanished;
  }

  function StartOf(parentTxs: nat, state: State, unspent: EtxSet): Progress {
    Progress(state, 0, [], EmissionLimit(parentTxs, ETX_REGION_MAX_FRACTION, ETX_R_LIMIT_MIN),
             EmissionLimit(parentTxs, ETX_PRIME_MAX_FRACTION, ETX_P_LIMIT_MIN), unspent, 0, 0)
  }

  /** Processes the transactions of a block in order. */
  method Process(txs: seq<Tx>, parentTxs: nat, gasLimit: nat, ctx: Context, state: State, unspent: EtxSet, evms: Evms)
    returns (r: Option<Progress>, ghost pool: nat)
    requires gasLimit <= MAX_UINT64 && Filed(unspent)
    requires forall k :: 0 <= k < |txs| ==> txs[k].gas <= MAX_UINT64
    requires forall msg :: GasBounded(evms(msg))
    // it fails exactly if one of the transactions does
    ensures r == Processed(txs, |txs|, gasLimit, ctx, StartOf(parentTxs, state, unspent), evms)
    // it succeeds exactly if each transaction in turn may run for its sender, an external one for the zero address
    ensures forall end :: r == Some(end) <==> RunsTo(txs, gasLimit, ctx, StartOf(parentTxs, state, unspent), end, evms)
    // the gas used and the gas left in the pool are the block's gas limit
    ensures r.Some? ==> r.value.usedGas + pool == gasLimit
    // what is missing from the balances was burnt, left in ETXs, was lost of a loan or vanished in an execution; what
    // is new was lent
    ensures r.Some? ==> ValueKept(state.balances, r.value, ctx.baseFee,
                                  VanishedIn(txs, |txs|, gasLimit, ctx, StartOf(parentTxs, state, unspent), evms))
    // the loans are those of the executed ETXs, and without any nothing is lost
    ensures r.Some? ==> r.value.lent == Loans(txs, |txs|, unspent)
    ensures r.Some? && (forall k :: 0 <= k < |txs| ==> !txs[k].kind.ExternalTx?) ==> r.value.lent == r.value.lost == 0
    // no balance is overdrawn, and what came in, which is the loans without what was lost of them, is at most the loans
    ensures r.Some? && !ctx.noBaseFee && NonNegative(state.balances) && (forall msg :: KeepsNonNegative(evms(msg))) ==>
              NonNegative(r.value.state.balances) && r.value.lost >= 0
    // emissions stay within limits fixed by the parent block
    ensures r.Some? ==> CountCtx(r.value.emitted, REGION_CTX) <= EmissionLimit(parentTxs, ETX_REGION_MAX_FRACTION, ETX_R_LIMIT_MIN)
    ensures r.Some? ==> CountCtx(r.value.emitted, PRIME_CTX) <= EmissionLimit(parentTxs, ETX_PRIME_MAX_FRACTION, ETX_P_LIMIT_MIN)
    // the external transactions are distinct unspent ETXs, and exactly they become spent
    ensures r.Some? ==> SpendsOnce(txs, |txs|, unspent) && r.value.etxSet == unspent - Spent(txs, |txs|)
    ensures r.Some? ==> forall k :: 0 <= k < |txs| ==> !txs[k].kind.UnsupportedTx?
  {
    hide Applied, Processed, Transacted, EtxTransacted, SpendsOnce, Spent, ValueKept, LimitsKept, CountCtx, Loans, NonNegative, VanishedIn, KeepsNonNegative, Books, RunsTo;
    hide GasBounded, EmissionLimit, AsMessage, Filed;
    var gp := new GasPool();
    var panics := gp.AddGas(gasLimit);
    var rLimit := EmissionLimit(parentTxs, ETX_REGION_MAX_FRACTION, ETX_R_LIMIT_MIN);
    var pLimit := EmissionLimit(parentTxs, ETX_PRIME_MAX_FRACTION, ETX_P_LIMIT_MIN);
    var p := Progress(state, 0, [], rLimit, pLimit, unspent, 0, 0);
    ghost var b := Block(gasLimit, rLimit, pLimit, ctx);
    ghost var start := p;
    pool := gp.gas;
    StartAccounts(b, p);
    NothingSpent(txs, unspent);
    NothingProcessed(txs, gasLimit, ctx, start, evms);
    forall end ensures Processed(txs, |txs|, gasLimit, ctx, start, evms) == Some(end) <==> RunsTo(txs, gasLimit, ctx, start, end, evms) {
      BlockIsRun(txs, gasLimit, ctx, start, end, evms);
    }
    for i := 0 to |txs|
      invariant gp.gas <= MAX_UINT64 && Accounts(b, p, gp.gas)
      invariant Processed(txs, i, gasLimit, ctx, start, evms) == Some(p)
      invariant SpendsOnce(txs, i, unspent) && p.etxSet == unspent - Spent(txs, i)
      invariant forall k :: 0 <= k < i ==> !txs[k].kind.UnsupportedTx?
    {
      var tx := txs[i];
      var msg := AsMessage(tx, ctx.baseFee);
      NextProcessed(txs, i, gasLimit, ctx, start, evms, p);
      AppliedByKind(tx, gasLimit, ctx, p, evms, gp.gas);
      if msg.None? {
        FailureStays(txs, i + 1, |txs|, gasLimit, ctx, start, evms);
        return None, 0;
      }
      MessageOf(tx, ctx.baseFee);
      FiledWithout(unspent, Spent(txs, i));
      var q: Option<Progress>;
      if tx.kind.ExternalTx? {
        q := ApplyEtx(tx, msg.value, b, ctx, gp, p, evms(msg.value));
        SpendStep(txs, i, unspent);
      } else if tx.kind.InternalTx? || tx.kind.InternalToExternalTx? {
        q := ApplyTransaction(msg.value, b, ctx, gp, p, evms(msg.value));
        SpendStep(txs, i, unspent);
      } else {
        FailureStays(txs, i + 1, |txs|, gasLimit, ctx, start, evms);
        return None, 0;
      }
      if q.None? {
        FailureStays(txs, i + 1, |txs|, gasLimit, ctx, start, evms);
        return None, 0;
      }
      p := q.value;
    }
    WithinLimits(rLimit, pLimit, p);
    BlockLoans(txs, |txs|, gasLimit, ctx, start, evms, p);
    BlockSolvent(txs, |txs|, gasLimit, ctx, start, evms, p);
    BlockValue(txs, |txs|, gasLimit, ctx, start, evms, p);
    StartBooks(parentTxs, state, unspent, p, ctx.baseFee, VanishedIn(txs, |txs|, gasLimit, ctx, start, evms));
    return Some(p), gp.gas;
  }

  /** One more transaction: it spends its own hash if it is external, and can only do so once. */
  lemma {:induction false} SpendStep(txs: seq<Tx>, i: nat, unspent: EtxSet)
    requires i < |txs| && SpendsOnce(txs, i, unspent)
    ensures txs[i].kind.ExternalTx? && txs[i].hash in unspent - Spent(txs, i) ==>
              SpendsOnce(txs, i + 1, unspent) && (unspent - Spent(txs, i)) - {txs[i].hash} == unspent - Spent(txs, i + 1)
    ensures !txs[i].kind.ExternalTx? ==> SpendsOnce(txs, i + 1, unspent) && Spent(txs, i + 1) == Spent(txs, i)
  {
    if txs[i].kind.ExternalTx? {
      assert Spent(txs, i + 1) == Spent(txs, i) + {txs[i].hash};
    } else {
      assert Spent(txs, i + 1) == Spent(txs, i);
    }
  }

  // ----- along a chain -----

  /** What one block of a chain does to the unspent set. */
  datatype Step = Step(inbound: set<Hash>, spent: set<Hash>)

  /** The unspent sets along a chain: each block adds what is delivered to it, may drop expired ETXs, and
      then spends some of the rest. */
  ghost predicate Evolves(sets: seq<set<Hash>>, steps: seq<Step>) {
    && |sets| == |steps| + 1 && sets[0] == {}
    && forall k :: 0 <= k < |steps| ==> StepOk(sets[k], steps[k], sets[k + 1])
  }

  ghost predicate StepOk(before: set<Hash>, step: Step, after: set<Hash>) {
    step.spent <= before + step.inbound && after <= before + step.inbound - step.spent
  }

  ghost function Deliveries(steps: seq<Step>, n: nat, h: Hash): nat
    requires n <= |steps|
  {
    if n == 0 then 0 else Deliveries(steps, n - 1, h) + if h in steps[n - 1].inbound then 1 else 0
  }

  ghost function Executions(steps: seq<Step>, n: nat, h: Hash): nat
    requires n <= |steps|
  {
    if n == 0 then 0 else Executions(steps, n - 1, h) + if h in steps[n - 1].spent then 1 else 0
  }

  /** Along any chain an ETX is executed at most as often as it is delivered; one delivered once is
      executed at most once. */
  lemma {:induction false} ExecutedAtMostOncePerDelivery(sets: seq<set<Hash>>, steps: seq<Step>, n: nat, h: Hash)
    requires Evolves(sets, steps) && n <= |steps|
    ensures Executions(steps, n, h) + (if h in sets[n] then 1 else 0) <= Deliveries(steps, n, h)
  {
    if n > 0 {
      ExecutedAtMostOncePerDelivery(sets, steps, n - 1, h);
      assert StepOk(sets[n - 1], steps[n - 1], sets[n - 1 + 1]);
    }
  }

  ghost function Hashes(txs: seq<Tx>): set<Hash> {
    set k | 0 <= k < |txs| :: txs[k].hash
  }

  lemma {:induction false} OneStep(parentSet: EtxSet, inbound: seq<Tx>, height: nat, unspent: EtxSet, txs: seq<Tx>, after: EtxSet)
    requires Updated(parentSet, inbound, height, unspent) && Filed(unspent)
    requires SpendsOnce(txs, |txs|, unspent) && after == unspent - Spent(txs, |txs|)
    ensures StepOk(parentSet.Keys, Step(Hashes(inbound), Spent(txs, |txs|)), after.Keys)
    ensures Filed(after)
  {
    var delivered := Hashes(inbound);
    forall h | h in unspent ensures h in parentSet.Keys + delivered {
      if Delivered(inbound, h) {
        var i :| 0 <= i < |inbound| && inbound[i].hash == h;
        assert inbound[i].hash in delivered;
      }
    }
  }

  /** Applying a block: update the unspent set, then process. It is one step of the chain. */
  method Apply(parentSet: EtxSet, inbound: seq<Tx>, number: nat, txs: seq<Tx>, parentTxs: nat, gasLimit: nat, ctx: Context, state: State, evms: Evms)
    returns (r: Option<Progress>, panics: bool, ghost unspent: EtxSet)
    requires gasLimit <= MAX_UINT64 && Filed(parentSet)
    requires forall k :: 0 <= k < |txs| ==> txs[k].gas <= MAX_UINT64
    requires forall msg :: GasBounded(evms(msg))
    ensures panics <==> exists i :: 0 <= i < |inbound| && !inbound[i].toHere
    ensures panics ==> r.None?
    ensures !panics ==>
              && Updated(parentSet, inbound, number, unspent)
              && r == Processed(txs, |txs|, gasLimit, ctx, StartOf(parentTxs, state, unspent), evms)
    ensures r.Some? ==> StepOk(parentSet.Keys, Step(Hashes(inbound), Spent(txs, |txs|)), r.value.etxSet.Keys)
    ensures r.Some? ==> Filed(r.value.etxSet)
  {
    hide Processed, GasBounded, ValueKept, CountCtx, EmissionLimit, Updated, StepOk, SpendsOnce, Spent, Filed, Loans, NonNegative;
    var updated;
    panics, updated := UpdateEtxSet(parentSet, inbound, number);
    unspent := updated;
    if panics {
      return None, true, unspent;
    }
    ghost var pool;
    r, pool := Process(txs, parentTxs, gasLimit, ctx, state, updated, evms);
    if r.Some? {
      OneStep(parentSet, inbound, number, unspent, txs, r.value.etxSet);
    }
  }

  /** A block of a chain, with the ETXs delivered to it and the state it is applied to. */
  datatype ChainBlock = ChainBlock(inbound: seq<Tx>, txs: seq<Tx>, gasLimit: nat, ctx: Context, state: State)

  ghost predicate WellFormed(b: ChainBlock) {
    b.gasLimit <= MAX_UINT64 && forall k :: 0 <= k < |b.txs| ==> b.txs[k].gas <= MAX_UINT64
  }

  /** Applies the blocks of a chain over an empty unspent set, up to the first that fails: each block starts from
      what its parent left, and no ETX is executed more often than it was delivered. */
  method ApplyChain(blocks: seq<ChainBlock>, genesisTxs: nat, evms: Evms)
    returns (applied: nat, ghost sets: seq<set<Hash>>, ghost steps: seq<Step>)
    requires forall k :: 0 <= k < |blocks| ==> WellFormed(blocks[k])
    requires forall msg :: GasBounded(evms(msg))
    ensures applied == |steps| <= |blocks| && Evolves(sets, steps)
    ensures forall k :: 0 <= k < applied ==>
              steps[k] == Step(Hashes(blocks[k].inbound), Spent(blocks[k].txs, |blocks[k].txs|))
    ensures forall h :: Executions(steps, applied, h) <= Deliveries(steps, applied, h)
  {
    hide Processed, GasBounded, StepOk, Spent, Updated, Hashes, Executions, Deliveries;
    var etxSet: EtxSet := map[];
    sets, steps, applied := [{}], [], 0;
    var parentTxs: nat := genesisTxs;
    while applied < |blocks|
      invariant applied == |steps| <= |blocks| && Filed(etxSet)
      invariant Evolves(sets, steps) && sets[applied] == etxSet.Keys
      invariant forall k :: 0 <= k < applied ==>
                  steps[k] == Step(Hashes(blocks[k].inbound), Spent(blocks[k].txs, |blocks[k].txs|))
    {
      var b := blocks[applied];
      assert WellFormed(b);
      var r, panics, unspent := Apply(etxSet, b.inbound, applied + 1, b.txs, parentTxs, b.gasLimit, b.ctx, b.state, evms);
      if r.None? {
        break;
      }
      sets, steps := sets + [r.value.etxSet.Keys], steps + [Step(Hashes(b.inbound), Spent(b.txs, |b.txs|))];
      etxSet, parentTxs, applied := r.value.etxSet, |b.txs|, applied + 1;
    }
    forall h ensures Executions(steps, applied, h) <= Deliveries(steps, applied, h) {
      ExecutedAtMostOncePerDelivery(sets, steps, applied, h);
    }
  }
}
