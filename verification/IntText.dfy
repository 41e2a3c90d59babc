/** Integers that arrive as decimal text: parsed into 64 bits if they fit, kept as text if they do not. */
module IntText {
  import opened Bytes
  import opened Format

  predicate FitsI64(v: int) {
    -0x8000_0000_0000_0000 <= v < 0x8000_0000_0000_0000
  }

  predicate IsSpace(c: Byte) {
    c == 0x20 || 0x09 <= c <= 0x0d
  }

  predicate IsDigit(c: Byte) {
    0x30 <= c <= 0x39
  }

  function SkipSpace(s: seq<Byte>): seq<Byte> {
    if s != [] && IsSpace(s[0]) then SkipSpace(s[1..]) else s
  }

  /** The digits a string starts with. */
  function DigitPrefix(s: seq<Byte>): seq<Byte> {
    if s != [] && IsDigit(s[0]) then [s[0]] + DigitPrefix(s[1..]) else []
  }

  function DigitsValue(s: seq<Byte>): int {
    if s == [] then 0 else 10 * DigitsValue(s[..|s| - 1]) - 0x30 + s[|s| - 1]
  }

  datatype Parsed = NotANumber | Number(value: I64)

  /** `stoll`: leading space, an optional sign, digits; whatever follows them is ignored. */
  function Stoll(s: seq<Byte>): Parsed {
    var t := SkipSpace(s);
    var signed := t != [] && (t[0] == 0x2d || t[0] == 0x2b);
    var digits := DigitPrefix(if signed then t[1..] else t);
    var value := if signed && t[0] == 0x2d then -DigitsValue(digits) else DigitsValue(digits);
    if digits != [] && FitsI64(value) then Number(value) else NotANumber
  }

  /** What `writeInt` makes of a text. Anything of twenty digits or more is not even tried. */
  function IntRec(s: Str): Rec {
    var digitCount := if s != [] && s[0] == 0x2d then |s| - 1 else |s|;
    if (digitCount <= 18 || (digitCount == 19 && |s| <= 20)) && Stoll(s).Number? then Int64(Stoll(s).value)
    else Text(BignumText, s)
  }

  // ------------------------------------------------------------------
  // Decimal text
  // ------------------------------------------------------------------

  function Digits(n: nat): (s: seq<Byte>)
    ensures s != []
  {
    if n < 10 then [0x30 + n] else Digits(n / 10) + [0x30 + n % 10]
  }

  function Decimal(v: int): (s: seq<Byte>)
    ensures s != []
  {
    if v < 0 then [0x2d] + Digits(-v) else Digits(v)
  }

  lemma {:induction false} DigitsRead(n: nat)
    ensures DigitsValue(Digits(n)) == n
    ensures forall c :: c in Digits(n) ==> IsDigit(c)
  {
    if n >= 10 {
      DigitsRead(n / 10);
      assert Digits(n)[..|Digits(n)| - 1] == Digits(n / 10);
    } else {
      assert DigitsValue([]) == 0;
      assert Digits(n)[..0] == [];
    }
  }

  lemma {:induction false} AllDigits(s: seq<Byte>)
    requires forall c :: c in s ==> IsDigit(c)
    ensures DigitPrefix(s) == s
  {
    if s != [] {
      AllDigits(s[1..]);
    }
  }

  function Pow10(n: nat): (r: nat)
    ensures r > 0
  {
    if n == 0 then 1 else 10 * Pow10(n - 1)
  }

  lemma {:induction false} DigitCount(n: nat, k: nat)
    requires n < Pow10(k) && k > 0
    ensures |Digits(n)| <= k
    decreases k
  {
    if n >= 10 {
      DigitCount(n / 10, k - 1);
    }
  }

  lemma SixtyFourBitsFit(n: nat)
    requires n <= 0x8000_0000_0000_0000
    ensures |Digits(n)| <= 19
  {
    assert Pow10(19) > 0x8000_0000_0000_0000 by {
      assert Pow10(5) == 100000;
      assert Pow10(10) == 100000 * Pow10(5);
      assert Pow10(15) == 100000 * Pow10(10);
      assert Pow10(19) == 10000 * Pow10(15);
    }
    DigitCount(n, 19);
  }

  /** What `stoll` makes of digits behind a sign, if there is one. */
  function Signed(minus: bool, n: int): Parsed {
    var value := if minus then -n else n;
    if FitsI64(value) then Number(value) else NotANumber
  }

  lemma StollDigits(n: nat)
    ensures Stoll(Digits(n)) == Signed(false, n)
  {
    hide Digits, DigitsValue, DigitPrefix;
    DigitsRead(n);
    AllDigits(Digits(n));
    assert IsDigit(Digits(n)[0]);
  }

  lemma StollMinus(n: nat)
    ensures Stoll([0x2d] + Digits(n)) == Signed(true, n)
  {
    hide Digits, DigitsValue, DigitPrefix;
    DigitsRead(n);
    AllDigits(Digits(n));
    var t := [0x2d] + Digits(n);
    assert SkipSpace(t) == t;
    assert t[1..] == Digits(n);
  }

  /** Reading the decimal text of an integer gives the integer exactly if it fits in 64 bits. */
  lemma StollDecimal(v: int)
    ensures Stoll(Decimal(v)) == if FitsI64(v) then Number(v) else NotANumber
  {
    hide Digits, Stoll;
    if v < 0 {
      StollMinus(-v);
    } else {
      StollDigits(v);
    }
  }

  /** No integer of 64 bits has too many digits to be tried. */
  lemma FittingTextTried(v: int)
    requires FitsI64(v)
    ensures |Decimal(v)| <= if v < 0 then 20 else 19
    ensures Decimal(v)[0] == 0x2d <==> v < 0
  {
    hide Digits, DigitsValue;
    var n := if v < 0 then -v else v;
    SixtyFourBitsFit(n);
    DigitsRead(n);
    assert IsDigit(Digits(n)[0]);
  }

  /** The text of an integer is read back as that integer exactly if it fits in 64 bits, and else kept. */
  lemma DecimalRecord(v: int, s: Str)
    requires s == Decimal(v)
    ensures IntRec(s) == if FitsI64(v) then Int64(v) else Text(BignumText, s)
  {
    hide Digits, Decimal, Stoll;
    StollDecimal(v);
    if FitsI64(v) {
      FittingTextTried(v);
    }
  }
}
