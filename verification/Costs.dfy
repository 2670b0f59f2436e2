/** Checked uint256 arithmetic and the cost of one deployment transaction. */
module Costs {
  import opened Wrappers
  import Digits

  datatype CostInput = CostInput(
    gasEstimate: int,
    bufferBps: int,
    baseFeePerGas: int,
    maxPriorityFeePerGas: int,
    maxFeePerGas: int,
    value: int,
    blockGasLimit: int,
    maximumWorstCaseWei: int)

  datatype CostResult = CostResult(gasLimit: nat, effectiveFee: nat, estimatedWei: nat, worstCaseWei: nat)

  datatype CostError =
    | Uint256Range | Uint256Overflow | InvalidArithmetic | GasEstimateZero | GasBufferAbsurd | MaxFeeBelowBase
    | PriorityAboveMax | GasLimitBelowEstimate | GasLimitAboveBlock | CostCapExceeded

  predicate IsUint256(n: int) {
    0 <= n <= Digits.UINT256_MAX
  }

  function CheckedAdd(left: int, right: int): (r: Result<nat, CostError>)
    ensures r.Ok? ==> r.value == left + right && IsUint256(r.value)
    ensures r.Ok? <==> left >= 0 && right >= 0 && left + right <= Digits.UINT256_MAX
  {
    if left < 0 || right < 0 || left + right > Digits.UINT256_MAX then Err(Uint256Overflow) else Ok(left + right)
  }

  function CheckedMul(left: int, right: int): (r: Result<int, CostError>)
    ensures r.Ok? ==> r.value == left * right && IsUint256(r.value)
    ensures r.Ok? <==> left >= 0 && right >= 0 && left * right <= Digits.UINT256_MAX
  {
    var result := left * right;
    if left < 0 || right < 0 || result > Digits.UINT256_MAX then Err(Uint256Overflow)
    else
      MulNat(left, right);
      Ok(result)
  }

  lemma MulNat(a: nat, b: nat)
    ensures a * b >= 0
  {
  }

  /** The quotient rounded up: the least number whose product with the denominator reaches the numerator. */
  function CeilDiv(numerator: int, denominator: int): (r: Result<nat, CostError>)
    ensures r.Ok? <==> numerator >= 0 && denominator > 0
    ensures r.Ok? ==> (r.value - 1) * denominator < numerator <= r.value * denominator
  {
    if numerator < 0 || denominator <= 0 then Err(InvalidArithmetic)
    else if numerator == 0 then Ok(0)
    else
      var q := (numerator - 1) / denominator;
      QuotientBounds(numerator - 1, denominator, q);
      Ok(q + 1)
  }

  lemma QuotientBounds(n: nat, d: int, q: int)
    requires d > 0 && q == n / d
    ensures q >= 0 && q * d <= n < (q + 1) * d
  {
    Digits.DivMod(n, d);
  }

  function ValidateCostInput(input: CostInput): Result<(), CostError> {
    if !IsUint256(input.gasEstimate) || !IsUint256(input.bufferBps) || !IsUint256(input.baseFeePerGas)
      || !IsUint256(input.maxPriorityFeePerGas) || !IsUint256(input.maxFeePerGas) || !IsUint256(input.value)
      || !IsUint256(input.blockGasLimit) || !IsUint256(input.maximumWorstCaseWei) then Err(Uint256Range)
    else if input.gasEstimate == 0 then Err(GasEstimateZero)
    else if input.bufferBps > 100_000 then Err(GasBufferAbsurd)
    else if input.maxFeePerGas < input.baseFeePerGas then Err(MaxFeeBelowBase)
    else if input.maxPriorityFeePerGas > input.maxFeePerGas then Err(PriorityAboveMax)
    else Ok(())
  }

  function CalculateCosts(input: CostInput): Result<CostResult, CostError> {
    var _ :- ValidateCostInput(input);
    var bufferFactor :- CheckedAdd(10_000, input.bufferBps);
    var bufferedGas :- CheckedMul(input.gasEstimate, bufferFactor);
    var gasLimit :- CeilDiv(bufferedGas, 10_000);
    if gasLimit < input.gasEstimate then Err(GasLimitBelowEstimate)
    else if gasLimit > input.blockGasLimit then Err(GasLimitAboveBlock)
    else
      var basePlusPriority :- CheckedAdd(input.baseFeePerGas, input.maxPriorityFeePerGas);
      var effectiveFee: nat := if input.maxFeePerGas < basePlusPriority then input.maxFeePerGas else basePlusPriority;
      var estimatedGasWei :- CheckedMul(input.gasEstimate, effectiveFee);
      var estimatedWei :- CheckedAdd(estimatedGasWei, input.value);
      var worstCaseGasWei :- CheckedMul(gasLimit, input.maxFeePerGas);
      var worstCaseWei :- CheckedAdd(worstCaseGasWei, input.value);
      if worstCaseWei > input.maximumWorstCaseWei then Err(CostCapExceeded)
      else Ok(CostResult(gasLimit, effectiveFee, estimatedWei, worstCaseWei))
  }

  lemma BufferNeverShrinks(gas: nat, bps: nat, limit: nat)
    requires gas * (10_000 + bps) <= limit * 10_000
    ensures gas <= limit
  {
    assert gas * (10_000 + bps) == gas * 10_000 + gas * bps;
    MulNat(gas, bps);
  }

  /** Adding the buffer and rounding up never goes below the estimate, so that refusal cannot occur. */
  lemma GasLimitCoversEstimate(input: CostInput)
    ensures CalculateCosts(input) != Err(GasLimitBelowEstimate)
    ensures CalculateCosts(input) != Err(InvalidArithmetic)
  {
    if ValidateCostInput(input).Ok? && CheckedMul(input.gasEstimate, 10_000 + input.bufferBps).Ok? {
      var bufferedGas := input.gasEstimate * (10_000 + input.bufferBps);
      BufferNeverShrinks(input.gasEstimate, input.bufferBps, CeilDiv(bufferedGas, 10_000).value);
    }
  }

  lemma MulMonotoneBoth(a: nat, b: nat, c: nat, d: nat)
    requires a <= c && b <= d
    ensures a * b <= c * d
  {
    Digits.MulMonotone(a, b, d);
    Digits.MulMonotone(d, a, c);
  }

  /**
    What accepted costs mean: the gas limit is the buffered estimate rounded up, the effective fee is
    the base fee plus the tip capped by the maximum, and the estimate stays below the worst case,
    which stays below the cap.
  */
  lemma CostsMeaning(input: CostInput)
    requires CalculateCosts(input).Ok?
    ensures
      var c := CalculateCosts(input).value;
      && input.gasEstimate <= c.gasLimit <= input.blockGasLimit
      && (c.gasLimit - 1) * 10_000 < input.gasEstimate * (10_000 + input.bufferBps) <= c.gasLimit * 10_000
      && input.baseFeePerGas <= c.effectiveFee <= input.maxFeePerGas
      && (c.effectiveFee == input.maxFeePerGas || c.effectiveFee == input.baseFeePerGas + input.maxPriorityFeePerGas)
      && c.estimatedWei <= c.worstCaseWei <= input.maximumWorstCaseWei
  {
    var c := CalculateCosts(input).value;
    MulMonotoneBoth(input.gasEstimate, c.effectiveFee, c.gasLimit, input.maxFeePerGas);
  }
}
