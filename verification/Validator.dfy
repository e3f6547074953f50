/** The stateless transaction checks and the 256-bit cost bound they give. */
module Validator {
  import opened LruMap
  import opened Types

  const U128_RANGE: nat := 0x1_0000_0000_0000_0000_0000_0000_0000_0000
  const U192_RANGE: nat := 0x1_0000_0000_0000_0000_0000_0000_0000_0000_0000_0000_0000_0000
  const U256_RANGE: nat := 0x1_0000_0000_0000_0000_0000_0000_0000_0000_0000_0000_0000_0000_0000_0000_0000_0000

  type u128 = n: nat | n < 0x1_0000_0000_0000_0000_0000_0000_0000_0000
  type u256 = n: nat | n < 0x1_0000_0000_0000_0000_0000_0000_0000_0000_0000_0000_0000_0000_0000_0000_0000_0000

  const MIN_TX_GAS_LIMIT: nat := 21_000

  datatype Config = Config(chainId: u64, maxTxGasLimit: u64)

  /** A signed transaction as the checks see it; a signer of 0 is the zero address. */
  datatype Tx = Tx(
    signer: nat, isCreate: bool, chainId: Option<u64>, gasLimit: u64, maxFee: u128, maxPriorityFee: Option<u128>,
    value: u256, nonce: u64)

  datatype Verdict =
    | Accepted | ContractCreation | WrongChain | GasTooLow | GasTooHigh | PriorityAboveMax | ZeroGasPrice
    | CostOverflow | ZeroSigner | MaxNonce

  /** The product of two 256-bit numbers, which wraps. */
  function WrappingMul(a: nat, b: nat): nat {
    a * b % U256_RANGE
  }

  function CheckedAdd(a: nat, b: nat): Option<nat> {
    if a + b < U256_RANGE then Some(a + b) else None
  }

  function Validate(config: Config, tx: Tx): Verdict {
    if tx.isCreate then ContractCreation
    else if tx.chainId.Some? && tx.chainId.value != config.chainId then WrongChain
    else if tx.gasLimit < MIN_TX_GAS_LIMIT then GasTooLow
    else if tx.gasLimit > config.maxTxGasLimit then GasTooHigh
    else if tx.maxPriorityFee.Some? && tx.maxPriorityFee.value > tx.maxFee then PriorityAboveMax
    else if tx.maxFee == 0 then ZeroGasPrice
    else if CheckedAdd(tx.value, WrappingMul(tx.gasLimit, tx.maxFee)).None? then CostOverflow
    else if tx.signer == 0 then ZeroSigner
    else if tx.nonce == U64_RANGE - 1 then MaxNonce
    else Accepted
  }

  lemma ProductBound(a: nat, b: nat, m: nat, n: nat)
    requires a <= m && b <= n
    ensures a * b <= m * n
  {
    assert a * b <= m * b && m * b <= m * n;
  }

  lemma SmallMod(x: nat, m: nat)
    requires x < m
    ensures x % m == x
  {
  }

  lemma SmallProductDoesNotWrap(a: nat, b: nat)
    requires a * b < U256_RANGE
    ensures WrappingMul(a, b) == a * b
  {
    SmallMod(a * b, U256_RANGE);
  }

  /** A 64-bit gas limit times a 128-bit fee stays below 2^192, so the 256-bit product never wraps. */
  lemma GasCostDoesNotWrap(gasLimit: u64, maxFee: u128)
    ensures gasLimit * maxFee < U192_RANGE
    ensures WrappingMul(gasLimit, maxFee) == gasLimit * maxFee
  {
    hide WrappingMul;
    ProductBound(gasLimit, maxFee, U64_RANGE - 1, U128_RANGE - 1);
    SmallProductDoesNotWrap(gasLimit, maxFee);
  }

  /** An accepted transaction can be charged any price up to its maximum fee for any gas within its limit without
      value plus cost leaving 256 bits, and its priority fee is within its maximum fee. */
  lemma AcceptedCostFits(config: Config, tx: Tx, gas: nat, price: nat)
    requires Validate(config, tx) == Accepted && gas <= tx.gasLimit && price <= tx.maxFee
    ensures tx.value + gas * price < U256_RANGE
    ensures tx.maxPriorityFee.Some? ==> tx.maxPriorityFee.value <= tx.maxFee
  {
    GasCostDoesNotWrap(tx.gasLimit, tx.maxFee);
    ProductBound(gas, price, tx.gasLimit, tx.maxFee);
  }

  /** Acceptance in unbounded arithmetic: no condition depends on the wrapping of the product. */
  lemma AcceptedIff(config: Config, tx: Tx)
    ensures Validate(config, tx) == Accepted <==>
              && !tx.isCreate
              && (tx.chainId.Some? ==> tx.chainId.value == config.chainId)
              && 21_000 <= tx.gasLimit <= config.maxTxGasLimit
              && (tx.maxPriorityFee.Some? ==> tx.maxPriorityFee.value <= tx.maxFee)
              && tx.maxFee > 0
              && tx.value + tx.gasLimit * tx.maxFee
                 < 0x1_0000_0000_0000_0000_0000_0000_0000_0000_0000_0000_0000_0000_0000_0000_0000_0000
              && tx.signer != 0
              && tx.nonce < 0xffff_ffff_ffff_ffff
  {
    GasCostDoesNotWrap(tx.gasLimit, tx.maxFee);
  }

  /** How far a transaction gets through the checks, each in unbounded arithmetic and in the order they are made. */
  predicate Passes(config: Config, tx: Tx, checks: nat) {
    && (checks >= 1 ==> !tx.isCreate)
    && (checks >= 2 ==> tx.chainId == None || tx.chainId == Some(config.chainId))
    && (checks >= 3 ==> tx.gasLimit >= 21_000)
    && (checks >= 4 ==> tx.gasLimit <= config.maxTxGasLimit)
    && (checks >= 5 ==> tx.maxPriorityFee == None || tx.maxPriorityFee.value <= tx.maxFee)
    && (checks >= 6 ==> tx.maxFee >= 1)
    && (checks >= 7 ==>
          tx.value + tx.gasLimit * tx.maxFee
          < 0x1_0000_0000_0000_0000_0000_0000_0000_0000_0000_0000_0000_0000_0000_0000_0000_0000)
    && (checks >= 8 ==> tx.signer >= 1)
    && (checks >= 9 ==> tx.nonce < 0xffff_ffff_ffff_ffff)
  }

  /** The verdict names the first check that fails. */
  lemma VerdictIsFirstFailure(config: Config, tx: Tx)
    ensures var failed := [ContractCreation, WrongChain, GasTooLow, GasTooHigh, PriorityAboveMax, ZeroGasPrice,
                           CostOverflow, ZeroSigner, MaxNonce];
            forall i :: 0 <= i < |failed| ==>
                          (Validate(config, tx) == failed[i] <==> Passes(config, tx, i) && !Passes(config, tx, i + 1))
  {
    GasCostDoesNotWrap(tx.gasLimit, tx.maxFee);
    var v := Validate(config, tx);
    assert v == ContractCreation <==> Passes(config, tx, 0) && !Passes(config, tx, 1);
    assert v == WrongChain <==> Passes(config, tx, 1) && !Passes(config, tx, 2);
    assert v == GasTooLow <==> Passes(config, tx, 2) && !Passes(config, tx, 3);
    assert v == GasTooHigh <==> Passes(config, tx, 3) && !Passes(config, tx, 4);
    assert v == PriorityAboveMax <==> Passes(config, tx, 4) && !Passes(config, tx, 5);
    assert v == ZeroGasPrice <==> Passes(config, tx, 5) && !Passes(config, tx, 6);
    assert v == CostOverflow <==> Passes(config, tx, 6) && !Passes(config, tx, 7);
    assert v == ZeroSigner <==> Passes(config, tx, 7) && !Passes(config, tx, 8);
    assert v == MaxNonce <==> Passes(config, tx, 8) && !Passes(config, tx, 9);
  }

  /** The least gas limit that can be accepted. */
  lemma LeastGasLimit(config: Config, tx: Tx)
    ensures tx.gasLimit == 20_999 ==> Validate(config, tx) != Accepted
    ensures Validate(config.(maxTxGasLimit := 21_000),
                     Tx(1, false, None, 21_000, 1, None, 0, 0)) == Accepted
  {
    GasCostDoesNotWrap(21_000, 1);
  }
}
