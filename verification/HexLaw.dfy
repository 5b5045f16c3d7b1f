/** Which inputs hexutil takes as a number, said of their characters. */
module HexLaw {
  import opened Wrappers
  import opened HexUtil

  /** The digits 0-9, a-f and A-F. */
  predicate HexDigit(c: char) {
    '0' <= c <= '9' || 'a' <= c <= 'f' || 'A' <= c <= 'F'
  }

  /** A character has the value of the digit it is in lower case, and none if it is no digit. */
  lemma NibbleIff(c: char)
    ensures Nibble(c).Some? <==> HexDigit(c)
    ensures forall n: nat :: n < 16 ==> (Nibble(c) == Some(n) <==> LowerChar(c) == Digit(n))
  {
    if Nibble(c).Some? {
      LowerDigit(c);
      forall n: nat | n < 16
        ensures Digit(n) == Digit(Nibble(c).value) ==> n == Nibble(c).value
      {
        DigitNibble(n);
        DigitNibble(Nibble(c).value);
      }
    }
  }

  predicate HexDigits(s: string) {
    forall i :: 0 <= i < |s| ==> HexDigit(s[i])
  }

  /** 0x or 0X and one digit or more. */
  predicate Prefixed(input: string) {
    |input| >= 3 && input[0] == '0' && input[1] in "xX"
  }

  /** A prefix, 1 to 64 hex digits of either case, and no leading zero unless it is the only digit. */
  predicate IsQuantity(input: string) {
    Prefixed(input) && |input| <= 66 && HexDigits(input[2..]) && (input[2] == '0' ==> |input| == 3)
  }

  /** DecodeBig accepts exactly these, and says which requirement fails first. */
  lemma AcceptedIff(input: string)
    ensures match ValueOf(CheckNumber(input))
            case Ok(_) => IsQuantity(input)
            case Err(ErrEmptyNumber) => input in ["", "0x", "0X"]
            case Err(ErrMissingPrefix) => !Prefixed(input) && input !in ["", "0x", "0X"]
            case Err(ErrLeadingZero) => Prefixed(input) && input[2] == '0' && |input| > 3
            case Err(ErrBig256Range) => Prefixed(input) && |input| > 66 && input[2] != '0'
            case Err(ErrSyntax) =>
              Prefixed(input) && |input| <= 66 && (input[2] == '0' ==> |input| == 3) && !HexDigits(input[2..])
  {
    hide HexVal;
    if |input| >= 2 {
      HexDigitsIff(input[2..]);
      assert |input| == 2 ==> input == [input[0], input[1]];
    }
  }

  lemma HexDigitsIff(s: string)
    ensures IsHex(s) <==> HexDigits(s)
  {
    forall i | 0 <= i < |s|
      ensures Nibble(s[i]).Some? <==> HexDigit(s[i])
    {
      NibbleIff(s[i]);
    }
  }

  /** Neither the result nor the error depends on the case of the prefix or the digits. */
  lemma CaseDoesNotMatter(input: string)
    ensures ValueOf(CheckNumber(Lower(input))) == ValueOf(CheckNumber(input))
    ensures ValueOf(CheckNumberText(Lower(input))) == ValueOf(CheckNumberText(input))
  {
    hide Nibble, HexVal;
    if Has0xPrefix(input) {
      assert Lower(input)[2..] == Lower(input[2..]);
      LowerHex(input[2..]);
    }
  }

  lemma {:induction false} LowerHex(s: string)
    ensures IsHex(Lower(s)) <==> IsHex(s)
    ensures IsHex(s) ==> HexVal(Lower(s)) == HexVal(s)
    decreases |s|
  {
    hide Nibble, LowerChar;
    if s != "" {
      var n := |s| - 1;
      LowerHex(s[..n]);
      LowerNibble(s[n]);
      assert Lower(s)[..n] == Lower(s[..n]) && Lower(s)[n] == LowerChar(s[n]);
      IsHexLast(s);
      IsHexLast(Lower(s));
    }
  }

  lemma IsHexLast(s: string)
    requires s != ""
    ensures IsHex(s) <==> IsHex(s[..|s| - 1]) && Nibble(s[|s| - 1]).Some?
  {
    hide Nibble;
  }

  lemma LowerNibble(c: char)
    ensures Nibble(LowerChar(c)) == Nibble(c)
  {
  }
}
