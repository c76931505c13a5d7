/** The `getAmountsOut` call data built by the Uniswap swap scenario: only the
    selector and the `amountIn` word; the `path` array is never encoded. The
    scenario's `run` (an RPC round trip) is not part of this module. */
module UniswapSwap {
  import opened Numerals
  import TokenTransfer

  /** Selector used for `getAmountsOut(uint,address[])`. */
  const SwapAmountsOutSelector: string := "0x5c11d795"

  /** `addr[2:].lower().zfill(64)`, repeated in this file of the source. */
  function EncodeAddress(addr: string): string
  {
    ZFill(Lower(DropPrefix(addr, 2)), 64)
  }

  /** `hex(value)[2:].zfill(64)`, repeated in this file of the source. */
  function EncodeUint256(value: int): string
  {
    ZFill(DropPrefix(Hex(value), 2), 64)
  }

  /** The selector followed by the `amountIn` word; `path` is ignored. */
  function BuildGetAmountsOutData(amountIn: int, path: seq<string>): string
  {
    SwapAmountsOutSelector + EncodeUint256(amountIn)
  }

  /** The two copies of the encoders compute the same functions. */
  lemma SameEncoders(value: int, addr: string)
    ensures EncodeUint256(value) == TokenTransfer.EncodeUint256(value)
    ensures EncodeAddress(addr) == TokenTransfer.EncodeAddress(addr)
  {
  }

  /** The path has no effect on the call data. */
  lemma PathIgnored(amountIn: int, path1: seq<string>, path2: seq<string>)
    ensures BuildGetAmountsOutData(amountIn, path1) == BuildGetAmountsOutData(amountIn, path2)
  {
  }

  /** The call data starts with the selector; for an amount that fits in a word
      it is 74 characters long and reading 10..74 as hex gives the amount back. */
  lemma BuildGetAmountsOutDataLayout(amountIn: int, path: seq<string>)
    ensures |BuildGetAmountsOutData(amountIn, path)| >= 10
    ensures BuildGetAmountsOutData(amountIn, path)[..10] == SwapAmountsOutSelector
    ensures 0 <= amountIn < TokenTransfer.WordBound ==>
              |BuildGetAmountsOutData(amountIn, path)| == 74
              && Value(BuildGetAmountsOutData(amountIn, path)[10..74], 16) == amountIn
  {
    var r := BuildGetAmountsOutData(amountIn, path);
    assert r[..10] == SwapAmountsOutSelector;
    if 0 <= amountIn < TokenTransfer.WordBound {
      TokenTransfer.EncodeUint256Word(amountIn);
      assert r[10..74] == EncodeUint256(amountIn);
    }
  }
}
