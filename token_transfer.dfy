/** The ERC-20 `transfer(address,uint256)` call data built by the token-transfer
    scenario. Each argument is one 32-byte word of the Solidity contract ABI
    ("Formal Specification of the Encoding"), written as 64 hex digits after the
    4-byte function selector. The scenario's `run` (an RPC round trip) is not
    part of this module. */
module TokenTransfer {
  import opened Numerals

  /** Selector of `transfer(address,uint256)`. */
  const TransferSelector: string := "0xa9059cbb"

  /** 16^64 = 2^256: the first value that does not fit in a `uint256` word. */
  const WordBound: nat := Pow(16, 64)

  /** `hex(value)[2:].zfill(64)`. */
  function EncodeUint256(value: int): string
  {
    ZFill(DropPrefix(Hex(value), 2), 64)
  }

  /** `addr[2:].lower().zfill(64)`. */
  function EncodeAddress(addr: string): string
  {
    ZFill(Lower(DropPrefix(addr, 2)), 64)
  }

  /** Selector, then the recipient word, then the amount word. */
  function BuildTransferData(to: string, amount: int): string
  {
    TransferSelector + EncodeAddress(to) + EncodeUint256(amount)
  }

  /** A `uint256` value is written as exactly one ABI word: 64 lower-case hex
      digits whose big-endian value is the number. */
  lemma EncodeUint256Word(value: int)
    requires 0 <= value < WordBound
    ensures |EncodeUint256(value)| == 64
    ensures forall i :: 0 <= i < 64 ==> IsLowerHexDigit(EncodeUint256(value)[i])
    ensures Value(EncodeUint256(value), 16) == value
  {
    PaddedNumeral(value);
    DigitsShape(value, 16);
    DigitsRoundTrip(value, 16);
    PaddedWord(Digits(value, 16), EncodeUint256(value));
  }

  /** Left-padding a numeral of at most 64 lower-case hex digits to one word
      keeps its digits and its value. */
  lemma PaddedWord(h: string, r: string)
    requires |h| <= 64 && r == Zeros(64 - |h|) + h
    requires forall i :: 0 <= i < |h| ==> IsLowerHexDigit(h[i])
    ensures |r| == 64
    ensures forall i :: 0 <= i < 64 ==> IsLowerHexDigit(r[i])
    ensures Value(r, 16) == Value(h, 16)
  {
    ValueZeros(64 - |h|, h, 16);
    forall i | 0 <= i < 64
      ensures IsLowerHexDigit(r[i])
    {
      if i >= 64 - |h| {
        assert r[i] == h[i - (64 - |h|)];
      }
    }
  }

  /** Below 2^256 the numeral has at most 64 digits and is left-padded with
      zeros. */
  lemma PaddedNumeral(value: int)
    requires 0 <= value < WordBound
    ensures |Digits(value, 16)| <= 64
    ensures EncodeUint256(value) == Zeros(64 - |Digits(value, 16)|) + Digits(value, 16)
  {
    var h := Digits(value, 16);
    assert |h| <= 64 by {
      DigitsLength(value, 16, 64);
    }
    assert DropPrefix(Hex(value), 2) == h;
    assert IsLowerHexDigit(h[0]) by {
      DigitsShape(value, 16);
    }
    if |h| == 64 {
      assert Zeros(0) + h == h;
    } else {
      ZFillShape(h, 64);
    }
  }

  /** Nothing is truncated: from 2^256 on, the result is the bare numeral,
      longer than one word. */
  lemma EncodeUint256Unpadded(value: int)
    requires value >= WordBound
    ensures EncodeUint256(value) == Digits(value, 16)
    ensures |EncodeUint256(value)| > 64
    ensures Value(EncodeUint256(value), 16) == value
  {
    assert DropPrefix(Hex(value), 2) == Digits(value, 16);
    DigitsLength(value, 16, 64);
    DigitsRoundTrip(value, 16);
  }

  /** A negative value keeps the 'x' of "-0x" (Python's `hex(-5)[2:]` is "x5"),
      so the result is not a hex word at all. */
  lemma EncodeUint256Negative(value: int)
    requires value < 0
    ensures EncodeUint256(value) == ZFill("x" + Digits(-value, 16), 64)
    ensures 'x' in EncodeUint256(value)
  {
    var t := "x" + Digits(-value, 16);
    assert DropPrefix(Hex(value), 2) == t;
    var r := EncodeUint256(value);
    if |t| >= 64 {
      assert r[0] == 'x';
    } else {
      assert r == Zeros(64 - |t|) + t;
      assert r[64 - |t|] == 'x';
    }
  }

  /** A 42-character address ("0x" and 40 more characters) becomes 24 zeros
      followed by its lower-cased 40-character body, unless that body starts
      with '+' or '-', which `zfill` keeps in front of the zeros. Any address is
      padded to at least 64 characters. */
  lemma EncodeAddressWord(addr: string)
    ensures |addr| == 42 && addr[2] != '+' && addr[2] != '-' ==>
              EncodeAddress(addr) == Zeros(24) + Lower(addr[2..])
    ensures |addr| == 42 && (addr[2] == '+' || addr[2] == '-') ==>
              EncodeAddress(addr) == [addr[2]] + Zeros(24) + Lower(addr[3..])
    ensures |EncodeAddress(addr)| == if |addr| - 2 >= 64 then |addr| - 2 else 64
  {
    var body := Lower(DropPrefix(addr, 2));
    ZFillShape(body, 64);
    if |addr| == 42 && (addr[2] == '+' || addr[2] == '-') {
      assert DropPrefix(addr, 2) == addr[2..];
      assert addr[2..][1..] == addr[3..];
      LowerFront(addr[2..]);
    }
  }

  /** The call data starts with the selector. For a 42-character recipient and
      an amount that fits in a word it is 138 characters long (10 + 64 + 64),
      the recipient word sits at 10..74, and reading 74..138 as hex gives the
      amount back. */
  lemma BuildTransferDataLayout(to: string, amount: int)
    ensures |BuildTransferData(to, amount)| >= 10
    ensures BuildTransferData(to, amount)[..10] == TransferSelector
    ensures |to| == 42 && 0 <= amount < WordBound ==>
              |BuildTransferData(to, amount)| == 138
              && BuildTransferData(to, amount)[10..74] == EncodeAddress(to)
              && Value(BuildTransferData(to, amount)[74..138], 16) == amount
  {
    var r, a, u := BuildTransferData(to, amount), EncodeAddress(to), EncodeUint256(amount);
    assert r == TransferSelector + a + u;
    WordsLayout(TransferSelector, a, u);
    if |to| == 42 && 0 <= amount < WordBound {
      assert |a| == 64 by {
        EncodeAddressWord(to);
      }
      assert |u| == 64 && Value(u, 16) == amount by {
        EncodeUint256Word(amount);
      }
      assert r[74..138] == u;
    }
  }

  /** Where the parts of a selector-and-words concatenation sit. */
  lemma WordsLayout(selector: string, a: string, u: string)
    ensures (selector + a + u)[..|selector|] == selector
    ensures |selector + a + u| == |selector| + |a| + |u|
    ensures (selector + a + u)[|selector|..|selector| + |a|] == a
    ensures (selector + a + u)[|selector| + |a|..] == u
  {
    var r := selector + a + u;
    assert r == (selector + a) + u;
    assert r[|selector + a|..] == u;
  }
}
