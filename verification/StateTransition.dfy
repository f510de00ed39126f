/** Applying one message to the state: buying gas, executing, refunding and paying the tip. */
module StateTransition {
  import opened Common
  import opened Gas
  import opened Balances

  const REFUND_QUOTIENT := 5

  /** An address of this zone, or one of another chain. */
  datatype Account = Internal(address: Address) | External

  datatype Message = Message(
    from: Account, gasPrice: nat, gasFeeCap: nat, gasTipCap: nat, gas: nat, value: nat,
    nonce: nat, checkNonce: bool, isCreation: bool, intrinsicGas: Option<nat>)

  datatype State = State(balances: Ledger, nonces: map<Address, nat>, contracts: set<Address>, refund: nat)

  /** The surroundings of the execution. */
  datatype Context = Context(baseFee: nat, coinbase: Account, noBaseFee: bool)

  /** An emitted ETX, with the gas and fee caps that its sender prepays. */
  datatype Etx = Etx(id: nat, value: nat, commonDom: nat, gas: nat, gasFeeCap: nat, gasTipCap: nat)

  /** What executing the message left behind. */
  datatype Exec = Exec(state: State, gasLeft: nat, etxs: seq<Etx>, failed: bool)

  type Evm = (State, nat) -> Exec

  const TWO_63: nat := 0x8000_0000_0000_0000

  /** The conversion of an unsigned to a signed 64-bit number, which wraps around. */
  function AsInt64(n: nat): int {
    if n < TWO_63 then n else n - 2 * TWO_63
  }

  /** What an emitted ETX takes from its sender: the value, and both caps for all the gas it will be given. */
  function Outflow(etx: Etx): int {
    etx.value + (etx.gasTipCap + etx.gasFeeCap) * AsInt64(etx.gas)
  }

  function ValueOut(etxs: seq<Etx>): int {
    if etxs == [] then 0 else ValueOut(etxs[..|etxs| - 1]) + Outflow(etxs[|etxs| - 1])
  }

  lemma {:induction false} OneOut(etx: Etx)
    ensures ValueOut([etx]) == Outflow(etx) && ValueOut([]) == 0
  {
    assert [etx][..0] == [];
  }

  ghost predicate NonNegative(l: Ledger) {
    forall a :: a in l ==> l[a] >= 0
  }

  /** What the EVM is taken to promise: it returns no more gas than it got. */
  ghost predicate GasBounded(evm: Evm) {
    forall s: State, g: nat :: evm(s, g).gasLeft <= g
  }

  /** What an execution took from the balances without sending it off as the value and prepaid gas of an ETX; negative
      if ETXs leave that nobody has paid for. */
  ghost function Vanished(s: State, e: Exec): int {
    Total(s.balances) - Total(e.state.balances) - ValueOut(e.etxs)
  }

  ghost predicate Conserves(evm: Evm) {
    forall s: State, g: nat {:trigger evm(s, g)} :: Vanished(s, evm(s, g)) == 0
  }

  ghost predicate KeepsNonNegative(evm: Evm) {
    forall s: State, g: nat {:trigger evm(s, g)} :: NonNegative(s.balances) ==> NonNegative(evm(s, g).state.balances)
  }

  // ----- how the EVM emits ETXs -----

  /** A frame that runs to its end: what it made of the state, the ETXs it put in the cache, and whether it fails. */
  datatype Frame = Frame(state: State, emitted: seq<Etx>, gasLeft: nat, fails: bool)

  /** A failed frame gets its state back, but its ETXs stay in the cache. */
  function Called(s: State, f: Frame): Exec {
    Exec(if f.fails then s else f.state, f.gasLeft, f.emitted, f.fails)
  }

  /** If the frame itself loses nothing, calling it conserves value exactly if it does not fail or has emitted nothing
      of value: what a failed frame emits leaves although it was paid back. */
  lemma {:induction false} FailedFrameKeepsEtxs(s: State, f: Frame)
    requires Vanished(s, Exec(f.state, f.gasLeft, f.emitted, f.fails)) == 0
    ensures Vanished(s, Called(s, f)) == if f.fails then -ValueOut(f.emitted) else 0
    ensures Vanished(s, Called(s, f)) == 0 <==> !f.fails || ValueOut(f.emitted) == 0
  {
  }

  /** A transaction to another chain: the value and the fee are taken from the sender and an ETX is emitted. */
  function CreateEtx(s: State, sender: Address, etx: Etx): Exec {
    var total := Outflow(etx);
    if total == 0 || Balance(s.balances, sender) < total then Exec(s, 0, [], true)
    else Exec(s.(balances := Add(s.balances, sender, -total)), 0, [etx], false)
  }

  /** The sender's balance falls by an amount, and no other balance changes. */
  ghost predicate Pays(s: State, s': State, sender: Address, amount: int) {
    forall a {:trigger Balance(s'.balances, a)} ::
      Balance(s'.balances, a) == Balance(s.balances, a) - if a == sender then amount else 0
  }

  /** It fails exactly if there is nothing to take or too little to take it from, and otherwise takes what the ETX
      carries; either way value is conserved. */
  lemma {:induction false} CreateEtxConserves(s: State, sender: Address, etx: Etx)
    ensures Vanished(s, CreateEtx(s, sender, etx)) == 0
    ensures var e, total := CreateEtx(s, sender, etx), etx.value + (etx.gasTipCap + etx.gasFeeCap) * AsInt64(etx.gas);
            && (e.failed <==> total == 0 || Balance(s.balances, sender) < total)
            && (if e.failed then e.state == s && e.etxs == [] else Pays(s, e.state, sender, total) && e.etxs == [etx])
            && e.state.nonces == s.nonces && e.state.contracts == s.contracts && e.state.refund == s.refund
  {
    TotalAdd(s.balances, sender, -Outflow(etx));
    OneOut(etx);
  }

  const TWO_64: nat := 0x1_0000_0000_0000_0000

  /** What the opcode takes, in 256-bit arithmetic. */
  function OpcodeTotal(value: nat, gasLimit: nat, feeCap: nat, tipCap: nat): nat {
    (value + (tipCap + feeCap) % TWO_256 * gasLimit % TWO_256) % TWO_256
  }

  /** The opcode that emits an ETX: the funds are taken, then the access list is decoded, and only if that succeeds is
      an ETX emitted, with the gas limit cut to 64 bits, and the nonce raised. */
  function OpEtx(s: State, sender: Address, id: nat, commonDom: nat, value: nat, gasLimit: nat, feeCap: nat, tipCap: nat, decodes: bool): Exec {
    var total: int := OpcodeTotal(value, gasLimit, feeCap, tipCap);
    if total == 0 || Balance(s.balances, sender) < total then Exec(s, 0, [], false)
    else
      var paid := s.(balances := Add(s.balances, sender, -total));
      if !decodes then Exec(paid, 0, [], false)
      else Exec(paid.(nonces := s.nonces[sender := NonceOf(s, sender) + 1]), 0,
                [Etx(id, value, commonDom, gasLimit % TWO_64, feeCap, tipCap)], false)
  }

  /** The opcode conserves value exactly if it refuses, or emits an ETX for which it took the right amount; it did if
      the gas limit fits a signed number and the amount 256 bits. */
  lemma {:induction false} OpEtxConserves(s: State, sender: Address, id: nat, commonDom: nat, value: nat, gasLimit: nat, feeCap: nat, tipCap: nat, decodes: bool)
    ensures var total := OpcodeTotal(value, gasLimit, feeCap, tipCap);
            Vanished(s, OpEtx(s, sender, id, commonDom, value, gasLimit, feeCap, tipCap, decodes)) == 0 <==>
              || total == 0 || Balance(s.balances, sender) < total
              || (decodes && total == Outflow(Etx(id, value, commonDom, gasLimit % TWO_64, feeCap, tipCap)))
    ensures gasLimit < TWO_63 && value + (tipCap + feeCap) * gasLimit < TWO_256 && tipCap + feeCap < TWO_256 ==>
              OpcodeTotal(value, gasLimit, feeCap, tipCap) == Outflow(Etx(id, value, commonDom, gasLimit % TWO_64, feeCap, tipCap))
  {
    hide OpcodeTotal;
    var total: int, etx := OpcodeTotal(value, gasLimit, feeCap, tipCap), Etx(id, value, commonDom, gasLimit % TWO_64, feeCap, tipCap);
    TotalAdd(s.balances, sender, -total);
    OneOut(etx);
    if gasLimit < TWO_63 && value + (tipCap + feeCap) * gasLimit < TWO_256 && tipCap + feeCap < TWO_256 {
      NoOverflow(value, gasLimit, feeCap, tipCap);
    }
  }

  /** The opcode never fails its caller. It refuses exactly if there is nothing to take or too little to take it from, and
      emits exactly if it does not refuse and decodes the access list; the nonce goes up exactly then. */
  lemma {:induction false} OpEtxOutcome(s: State, sender: Address, id: nat, commonDom: nat, value: nat, gasLimit: nat, feeCap: nat, tipCap: nat, decodes: bool)
    ensures var e := OpEtx(s, sender, id, commonDom, value, gasLimit, feeCap, tipCap, decodes);
            var total := OpcodeTotal(value, gasLimit, feeCap, tipCap);
            var refused := total == 0 || Balance(s.balances, sender) < total;
            && !e.failed && (e.etxs != [] <==> !refused && decodes)
            && Pays(s, e.state, sender, if refused then 0 else total)
            && (e.etxs != [] ==> e.etxs == [Etx(id, value, commonDom, gasLimit % TWO_64, feeCap, tipCap)])
            && (forall a {:trigger NonceOf(e.state, a)} ::
                  NonceOf(e.state, a) == NonceOf(s, a) + if a == sender && e.etxs != [] then 1 else 0)
  {
    hide OpcodeTotal;
  }

  lemma {:induction false} NoOverflow(value: nat, gasLimit: nat, feeCap: nat, tipCap: nat)
    requires gasLimit < TWO_63 && value + (tipCap + feeCap) * gasLimit < TWO_256 && tipCap + feeCap < TWO_256
    ensures OpcodeTotal(value, gasLimit, feeCap, tipCap) == value + (tipCap + feeCap) * gasLimit
    ensures gasLimit % TWO_64 == gasLimit
  {
    var caps := tipCap + feeCap;
    var fee := caps * gasLimit;
    ProductNonNegative(caps, gasLimit);
    SmallModulo(caps, TWO_256);
    SmallModulo(fee, TWO_256);
    SmallModulo(value + fee, TWO_256);
    SmallModulo(gasLimit, TWO_64);
  }

  lemma {:induction false} SmallModulo(a: nat, m: nat)
    requires a < m
    ensures a % m == a
  {
  }

  /** The gas price of a message under a base fee. */
  function EffectiveGasPrice(baseFee: nat, feeCap: nat, tipCap: nat): nat {
    if tipCap + baseFee < feeCap then tipCap + baseFee else feeCap
  }

  function EffectiveTip(baseFee: nat, feeCap: nat, tipCap: nat): int {
    if tipCap < feeCap - baseFee then tipCap else feeCap - baseFee
  }

  /** The fee identity of the Specification section of EIP-1559: the price splits into base fee and tip,
      stays within the fee cap, and leaves the miner a non-negative tip exactly when the cap covers the
      base fee. */
  lemma {:induction false} PriceSplits(baseFee: nat, feeCap: nat, tipCap: nat)
    ensures EffectiveGasPrice(baseFee, feeCap, tipCap) == baseFee + EffectiveTip(baseFee, feeCap, tipCap)
    ensures EffectiveGasPrice(baseFee, feeCap, tipCap) <= feeCap
    ensures EffectiveTip(baseFee, feeCap, tipCap) >= 0 <==> feeCap >= baseFee
  {
  }

  datatype Failure =
    | SenderExternal | NonceTooHigh | NonceTooLow | SenderNoEOA | FeeCapVeryHigh | TipVeryHigh | TipAboveFeeCap
    | FeeCapTooLow | InsufficientFunds | GasLimitReached | GasUintOverflow | IntrinsicGasTooLow
    | InsufficientFundsForTransfer | CoinbaseExternal | GasPoolPanic

  datatype Result = Failed(failure: Failure) | Done(usedGas: nat, failed: bool, etxs: seq<Etx>)

  /** The failures of the checks on nonce, sender, fees and funds. */
  predicate IsPreCheckFailure(f: Failure) {
    !f.GasUintOverflow? && !f.IntrinsicGasTooLow? && !f.InsufficientFundsForTransfer? && !f.CoinbaseExternal? && !f.GasPoolPanic?
  }

  const TWO_256: nat := 0x1_0000_0000_0000_0000_0000_0000_0000_0000_0000_0000_0000_0000_0000_0000_0000_0000

  // ----- what a transition computes -----

  function NonceOf(s: State, a: Address): nat {
    if a in s.nonces then s.nonces[a] else 0
  }

  /** The consensus rules on nonce, sender and fees. */
  predicate Allowed(msg: Message, ctx: Context, s: State) {
    && msg.from.Internal? && (msg.checkNonce ==> NonceOf(s, msg.from.address) == msg.nonce)
    && msg.from.address !in s.contracts
    && (!ctx.noBaseFee || msg.gasFeeCap > 0 || msg.gasTipCap > 0 ==>
          ctx.baseFee <= msg.gasFeeCap && msg.gasTipCap <= msg.gasFeeCap < TWO_256)
  }

  /** The rule that the failure of a check names is the one that is broken. */
  predicate Breaks(f: Failure, msg: Message, ctx: Context, s: State) {
    match f
    case SenderExternal => msg.from.External?
    case NonceTooHigh => msg.from.Internal? && msg.checkNonce && msg.nonce > NonceOf(s, msg.from.address)
    case NonceTooLow => msg.from.Internal? && msg.checkNonce && msg.nonce < NonceOf(s, msg.from.address)
    case SenderNoEOA => msg.from.Internal? && msg.from.address in s.contracts
    case FeeCapVeryHigh => msg.gasFeeCap >= TWO_256
    case TipVeryHigh => msg.gasTipCap >= TWO_256
    case TipAboveFeeCap => msg.gasFeeCap < msg.gasTipCap < TWO_256
    case FeeCapTooLow => msg.gasTipCap <= msg.gasFeeCap < ctx.baseFee
    case _ => false
  }

  /** The pool has the gas, and the sender could pay for it at the fee cap and still send the value. */
  predicate CanBuy(msg: Message, s: State, pool: nat) {
    && msg.from.Internal? && msg.gas <= pool
    && Balance(s.balances, msg.from.address) >= msg.gas * msg.gasFeeCap + msg.value
  }

  function Bought(msg: Message, s: State): State
    requires msg.from.Internal?
  {
    s.(balances := Add(s.balances, msg.from.address, -(msg.gas * msg.gasPrice)))
  }

  /** The gas covers the intrinsic cost, and the value can be sent after paying for the gas. */
  predicate CanRun(msg: Message, s: State)
    requires msg.from.Internal?
  {
    && msg.intrinsicGas.Some? && msg.intrinsicGas.value <= msg.gas
    && (msg.value > 0 ==> Balance(Bought(msg, s).balances, msg.from.address) >= msg.value)
  }

  predicate Acceptable(msg: Message, ctx: Context, s: State, pool: nat) {
    Allowed(msg, ctx, s) && CanBuy(msg, s, pool) && CanRun(msg, s)
  }

  /** The state that the EVM is given. */
  function Prepared(msg: Message, s: State): State
    requires msg.from.Internal?
  {
    var from := msg.from.address;
    if msg.isCreation then Bought(msg, s)
    else Bought(msg, s).(nonces := s.nonces[from := NonceOf(s, from) + 1])
  }

  function Executed(msg: Message, s: State, evm: Evm): Exec
    requires msg.from.Internal? && CanRun(msg, s)
  {
    evm(Prepared(msg, s), msg.gas - msg.intrinsicGas.value)
  }

  /** The gas given back: what the EVM left and the capped refund. */
  function Returned(msg: Message, e: Exec): (left: nat)
    requires e.gasLeft <= msg.gas
    ensures left <= msg.gas
  {
    e.gasLeft + RefundOf(msg.gas - e.gasLeft, e.state.refund)
  }

  /** The state after the refund and the tip. */
  function Settled(msg: Message, ctx: Context, e: Exec): State
    requires msg.from.Internal? && ctx.coinbase.Internal? && e.gasLeft <= msg.gas
  {
    var left, tip := Returned(msg, e), EffectiveTip(ctx.baseFee, msg.gasFeeCap, msg.gasTipCap);
    e.state.(balances := Add(Add(e.state.balances, msg.from.address, left * msg.gasPrice),
                             ctx.coinbase.address, (msg.gas - left) * tip))
  }

  class StateTransition {
    const gp: GasPool
    const msg: Message
    const ctx: Context
    var state: State
    var gas: nat
    var initialGas: nat

    constructor (gp: GasPool, msg: Message, ctx: Context, state: State)
      ensures this.gp == gp && this.msg == msg && this.ctx == ctx && this.state == state
      ensures gas == 0 && initialGas == 0
    {
      this.gp, this.msg, this.ctx, this.state := gp, msg, ctx, state;
      gas, initialGas := 0, 0;
    }

    /** Buys the message's gas from the pool at its price. */
    method BuyGas() returns (failure: Option<Failure>)
      requires gas == 0
      modifies this, gp
      ensures failure.None? <==> CanBuy(msg, old(state), old(gp.gas))
      ensures failure.None? ==> gp.gas == old(gp.gas) - msg.gas && gas == initialGas == msg.gas && state == Bought(msg, old(state))
      ensures failure.Some? ==> state == old(state) && gp.gas == old(gp.gas) && IsPreCheckFailure(failure.value)
    {
      var mgval := msg.gas * msg.gasPrice;
      var balanceCheck := msg.gas * msg.gasFeeCap + msg.value;
      if msg.from.External? {
        return Some(SenderExternal);
      }
      var from := msg.from.address;
      if Balance(state.balances, from) < balanceCheck {
        return Some(InsufficientFunds);
      }
      var ok := gp.SubGas(msg.gas);
      if !ok {
        return Some(GasLimitReached);
      }
      gas := gas + msg.gas;
      initialGas := msg.gas;
      state := state.(balances := Add(state.balances, from, -mgval));
      return None;
    }

    /** The consensus checks on nonce, sender and fees, in order. */
    method CheckMessage() returns (failure: Option<Failure>)
      ensures failure.None? <==> Allowed(msg, ctx, state)
      ensures failure.Some? ==> IsPreCheckFailure(failure.value) && Breaks(failure.value, msg, ctx, state)
    {
      if msg.from.External? {
        return Some(SenderExternal);
      }
      var from := msg.from.address;
      if msg.checkNonce {
        if NonceOf(state, from) < msg.nonce {
          return Some(NonceTooHigh);
        } else if NonceOf(state, from) > msg.nonce {
          return Some(NonceTooLow);
        }
      }
      if from in state.contracts {
        return Some(SenderNoEOA);
      }
      if !ctx.noBaseFee || msg.gasFeeCap > 0 || msg.gasTipCap > 0 {
        if msg.gasFeeCap >= TWO_256 {
          return Some(FeeCapVeryHigh);
        }
        if msg.gasTipCap >= TWO_256 {
          return Some(TipVeryHigh);
        }
        if msg.gasFeeCap < msg.gasTipCap {
          return Some(TipAboveFeeCap);
        }
        if msg.gasFeeCap < ctx.baseFee {
          return Some(FeeCapTooLow);
        }
      }
      return None;
    }

    method PreCheck() returns (failure: Option<Failure>)
      requires gas == 0
      modifies this, gp
      ensures failure.None? <==> Allowed(msg, ctx, old(state)) && CanBuy(msg, old(state), old(gp.gas))
      ensures failure.None? ==> gp.gas == old(gp.gas) - msg.gas && gas == initialGas == msg.gas && state == Bought(msg, old(state))
      ensures failure.Some? ==> state == old(state) && gp.gas == old(gp.gas) && IsPreCheckFailure(failure.value)
    {
      failure := CheckMessage();
      if failure.None? {
        failure := BuyGas();
      }
    }

    /** Gives back the unused gas and the capped refund, to the sender and to the pool. */
    method RefundGas() returns (panics: bool)
      requires msg.from.Internal? && gas <= initialGas <= MAX_UINT64 && gp.gas <= MAX_UINT64
      modifies this`gas, this`state, gp
      ensures gas == old(gas) + RefundOf(initialGas - old(gas), old(state).refund) <= initialGas
      ensures state == old(state).(balances := Add(old(state).balances, msg.from.address, gas * msg.gasPrice))
      ensures panics <==> old(gp.gas) + gas > MAX_UINT64
      ensures !panics ==> gp.gas == old(gp.gas) + gas
    {
      var refund := GasUsed() / REFUND_QUOTIENT;
      if refund > state.refund {
        refund := state.refund;
      }
      gas := gas + refund;
      var remaining := gas * msg.gasPrice;
      state := state.(balances := Add(state.balances, msg.from.address, remaining));
      panics := gp.AddGas(gas);
    }

    function GasUsed(): nat
      reads this
      requires gas <= initialGas
    {
      initialGas - gas
    }

    /** The checks before execution: consensus rules, intrinsic gas, and the value of the topmost call. */
    method Prepare() returns (failure: Option<Failure>)
      requires gas == 0 && initialGas == 0
      modifies this, gp
      ensures failure.None? <==> Acceptable(msg, ctx, old(state), old(gp.gas))
      ensures failure.None? ==>
                && gp.gas == old(gp.gas) - msg.gas && initialGas == msg.gas && gas == msg.gas - msg.intrinsicGas.value
                && state == Prepared(msg, old(state))
      // a call raises the sender's nonce by one, and a creation leaves it to the EVM
      ensures failure.None? ==>
                && msg.from.Internal? && state.contracts == old(state).contracts && state.refund == old(state).refund
                && forall a {:trigger NonceOf(state, a)} ::
                     NonceOf(state, a) == NonceOf(old(state), a) + if a == msg.from.address && !msg.isCreation then 1 else 0
      ensures gp.gas <= old(gp.gas) && failure != Some(GasPoolPanic) && failure != Some(CoinbaseExternal)
      // a message that could pay for its gas can also pay its value
      ensures msg.gasPrice <= msg.gasFeeCap ==> failure != Some(InsufficientFundsForTransfer)
    {
      failure := PreCheck();
      if failure.Some? {
        return;
      }
      if msg.intrinsicGas.None? {
        return Some(GasUintOverflow);
      }
      if gas < msg.intrinsicGas.value {
        return Some(IntrinsicGasTooLow);
      }
      gas := gas - msg.intrinsicGas.value;
      var from := msg.from.address;
      PriceBelowCap(msg.gas, msg.gasPrice, msg.gasFeeCap);
      if msg.value > 0 && Balance(state.balances, from) < msg.value {
        return Some(InsufficientFundsForTransfer);
      }
      if !msg.isCreation {
        state := state.(nonces := state.nonces[from := NonceOf(state, from) + 1]);
      }
    }

    /** After execution: refund, and pay the miner. */
    method Settle() returns (failure: Option<Failure>)
      requires msg.from.Internal? && gas <= initialGas <= MAX_UINT64 && gp.gas + initialGas <= MAX_UINT64
      modifies this`gas, this`state, gp
      ensures gas <= initialGas && gp.gas == old(gp.gas) + gas && failure != Some(GasPoolPanic)
      ensures gas == old(gas) + RefundOf(initialGas - old(gas), old(state).refund)
      ensures failure == if ctx.coinbase.Internal? then None else Some(CoinbaseExternal)
      ensures failure.None? ==>
                state == old(state).(balances :=
                  Add(Add(old(state).balances, msg.from.address, gas * msg.gasPrice), ctx.coinbase.address,
                      (initialGas - gas) * EffectiveTip(ctx.baseFee, msg.gasFeeCap, msg.gasTipCap)))
    {
      var panics := RefundGas();
      if panics {
        return Some(GasPoolPanic);
      }
      var effectiveTip := EffectiveTip(ctx.baseFee, msg.gasFeeCap, msg.gasTipCap);
      if ctx.coinbase.External? {
        return Some(CoinbaseExternal);
      }
      state := state.(balances := Add(state.balances, ctx.coinbase.address, GasUsed() * effectiveTip));
      return None;
    }

    /** Applies the message. */
    method TransitionDb(evm: Evm) returns (r: Result)
      requires gas == 0 && initialGas == 0
      requires msg.gas <= MAX_UINT64 && gp.gas <= MAX_UINT64
      requires GasBounded(evm)
      modifies this, gp
      ensures r != Failed(GasPoolPanic)
      // it succeeds exactly if the checks pass and the miner can be paid here, and does what the steps say
      ensures r.Done? <==> Acceptable(msg, ctx, old(state), old(gp.gas)) && ctx.coinbase.Internal?
      ensures r.Done? ==>
                var e := Executed(msg, old(state), evm);
                && e.gasLeft <= msg.gas && state == Settled(msg, ctx, e)
                && r == Done(msg.gas - Returned(msg, e), e.failed, e.etxs)
      // the pool shrinks by exactly the gas used, and a failure never gives gas to it
      ensures r.Done? ==> r.usedGas <= msg.gas && gp.gas == old(gp.gas) - r.usedGas
      ensures gp.gas <= old(gp.gas)
      // value: what is missing from the balances was burnt as base fee, left as the value and prepaid gas of ETXs, or
      // vanished in the execution; it is conserved exactly if this execution conserved it
      ensures r.Done? && msg.gasPrice == EffectiveGasPrice(ctx.baseFee, msg.gasFeeCap, msg.gasTipCap) ==>
                Total(state.balances) == Total(old(state).balances) - r.usedGas * ctx.baseFee - ValueOut(r.etxs)
                                         - Vanished(Prepared(msg, old(state)), Executed(msg, old(state), evm))
      // no balance is overdrawn if the execution overdraws none
      ensures r.Done? && !ctx.noBaseFee && msg.gasPrice <= msg.gasFeeCap && NonNegative(old(state).balances)
              && KeepsNonNegative(evm) ==>
                NonNegative(state.balances)
      // a message that could pay for its gas can also pay its value
      ensures msg.gasPrice <= msg.gasFeeCap ==> r != Failed(InsufficientFundsForTransfer)
    {
      hide Total, NonNegative, GasBounded, KeepsNonNegative, Vanished, ValueOut, Allowed, CanBuy, Bought, EffectiveGasPrice;
      var failure := Prepare();
      if failure.Some? {
        return Failed(failure.value);
      }
      Conserved(msg, ctx, old(state), old(gp.gas), evm);
      var exec := evm(state, gas);
      state, gas := exec.state, exec.gasLeft;
      failure := Settle();
      if failure.Some? {
        return Failed(failure.value);
      }
      return Done(GasUsed(), exec.failed, exec.etxs);
    }
  }

  /** The refund is capped at a fifth of the gas used (Specification section of EIP-3529). */
  function RefundOf(used: nat, counter: nat): (refund: nat)
    ensures refund <= counter && REFUND_QUOTIENT * refund <= used
    ensures refund == counter || used < REFUND_QUOTIENT * (refund + 1)
  {
    if used / REFUND_QUOTIENT > counter then counter else used / REFUND_QUOTIENT
  }

  lemma {:induction false} PriceBelowCap(gas: nat, price: nat, cap: nat)
    ensures price <= cap ==> gas * price <= gas * cap
  {
    if price <= cap {
      assert gas * cap == gas * price + gas * (cap - price);
    }
  }

  /** What the sender prepays and gets back, together with the tip, amounts to the base fee. */
  lemma {:induction false} FeesAddUp(gas: nat, used: nat, price: int, baseFee: int, tip: int)
    requires used <= gas && price == baseFee + tip
    ensures -(gas * price) + (gas - used) * price + used * tip == -(used * baseFee)
  {
    assert gas * price == (gas - used) * price + used * price;
    assert used * price == used * baseFee + used * tip;
  }

  lemma {:induction false} AddKeepsNonNegative(l: Ledger, a: Address, amount: int)
    requires NonNegative(l) && Balance(l, a) + amount >= 0
    ensures NonNegative(Add(l, a, amount))
  {
  }

  lemma {:induction false} BalanceNonNegative(l: Ledger, a: Address)
    requires NonNegative(l)
    ensures Balance(l, a) >= 0
  {
  }

  lemma {:induction false} ProductNonNegative(a: int, b: int)
    requires a >= 0 && b >= 0
    ensures a * b >= 0
  {
  }

  /** The balances before and after the four steps of a transition. */
  ghost predicate Steps(start: Ledger, exec: Exec, bought: Ledger, final: Ledger, msg: Message, ctx: Context, used: nat) {
    && used <= msg.gas && msg.from.Internal? && ctx.coinbase.Internal?
    && bought == Add(start, msg.from.address, -(msg.gas * msg.gasPrice))
    && final == Add(Add(exec.state.balances, msg.from.address, (msg.gas - used) * msg.gasPrice), ctx.coinbase.address,
                    used * EffectiveTip(ctx.baseFee, msg.gasFeeCap, msg.gasTipCap))
  }

  /** Buying, executing, refunding and tipping together move exactly the base fee out, besides what the execution
      does. */
  lemma {:induction false} ValueConserved(start: Ledger, exec: Exec, bought: Ledger, final: Ledger, msg: Message, ctx: Context, used: nat)
    requires Steps(start, exec, bought, final, msg, ctx, used)
    requires msg.gasPrice == EffectiveGasPrice(ctx.baseFee, msg.gasFeeCap, msg.gasTipCap)
    ensures Total(final) == Total(start) - used * ctx.baseFee - (Total(bought) - Total(exec.state.balances))
  {
    var tip := EffectiveTip(ctx.baseFee, msg.gasFeeCap, msg.gasTipCap);
    var paid, back, tipped := msg.gas * msg.gasPrice, (msg.gas - used) * msg.gasPrice, used * tip;
    TotalAdd(start, msg.from.address, -paid);
    TotalAdd(exec.state.balances, msg.from.address, back);
    TotalAdd(Add(exec.state.balances, msg.from.address, back), ctx.coinbase.address, tipped);
    PriceSplits(ctx.baseFee, msg.gasFeeCap, msg.gasTipCap);
    FeesAddUp(msg.gas, used, msg.gasPrice, ctx.baseFee, tip);
  }

  /** No step overdraws a balance when the sender could cover the fee cap and the cap covers the base fee. */
  lemma {:induction false} NothingOverdrawn(start: Ledger, exec: Exec, bought: Ledger, final: Ledger, msg: Message, ctx: Context, used: nat)
    requires Steps(start, exec, bought, final, msg, ctx, used)
    requires ctx.baseFee <= msg.gasFeeCap && msg.gasPrice <= msg.gasFeeCap && NonNegative(start)
    requires Balance(start, msg.from.address) >= msg.gas * msg.gasFeeCap + msg.value
    requires NonNegative(bought) ==> NonNegative(exec.state.balances)
    ensures NonNegative(final)
  {
    var tip := EffectiveTip(ctx.baseFee, msg.gasFeeCap, msg.gasTipCap);
    var paid, back, tipped := msg.gas * msg.gasPrice, (msg.gas - used) * msg.gasPrice, used * tip;
    PriceBelowCap(msg.gas, msg.gasPrice, msg.gasFeeCap);
    AddKeepsNonNegative(start, msg.from.address, -paid);
    ProductNonNegative(msg.gas - used, msg.gasPrice);
    BalanceNonNegative(exec.state.balances, msg.from.address);
    AddKeepsNonNegative(exec.state.balances, msg.from.address, back);
    ProductNonNegative(used, tip);
    BalanceNonNegative(Add(exec.state.balances, msg.from.address, back), ctx.coinbase.address);
    AddKeepsNonNegative(Add(exec.state.balances, msg.from.address, back), ctx.coinbase.address, tipped);
  }

  /** What an acceptable message's transition does to the balances as a whole. */
  lemma {:induction false} Conserved(msg: Message, ctx: Context, s: State, pool: nat, evm: Evm)
    requires GasBounded(evm) && Acceptable(msg, ctx, s, pool)
    ensures msg.from.Internal? && msg.gas <= pool
    ensures var e := Executed(msg, s, evm);
            && e.gasLeft <= msg.gas - msg.intrinsicGas.value
            && (ctx.coinbase.Internal? ==>
                  && (msg.gasPrice == EffectiveGasPrice(ctx.baseFee, msg.gasFeeCap, msg.gasTipCap) ==>
                        Total(Settled(msg, ctx, e).balances)
                        == Total(s.balances) - (msg.gas - Returned(msg, e)) * ctx.baseFee - ValueOut(e.etxs)
                           - Vanished(Prepared(msg, s), e))
                  && (!ctx.noBaseFee && msg.gasPrice <= msg.gasFeeCap && NonNegative(s.balances) && KeepsNonNegative(evm) ==>
                        NonNegative(Settled(msg, ctx, e).balances)))
  {
    hide Total, NonNegative, EffectiveGasPrice;
    var e := Executed(msg, s, evm);
    assert e == evm(Prepared(msg, s), msg.gas - msg.intrinsicGas.value);
    if ctx.coinbase.Internal? {
      var used, final := msg.gas - Returned(msg, e), Settled(msg, ctx, e).balances;
      assert Steps(s.balances, e, Bought(msg, s).balances, final, msg, ctx, used);
      if msg.gasPrice == EffectiveGasPrice(ctx.baseFee, msg.gasFeeCap, msg.gasTipCap) {
        ValueConserved(s.balances, e, Bought(msg, s).balances, final, msg, ctx, used);
      }
      if !ctx.noBaseFee && msg.gasPrice <= msg.gasFeeCap && NonNegative(s.balances) && KeepsNonNegative(evm) {
        NothingOverdrawn(s.balances, e, Bought(msg, s).balances, final, msg, ctx, used);
      }
    }
  }
}
