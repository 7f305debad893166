/** Numbers as decimal text. */
module Decimals {
  import opened Bytes
  import opened Options

  const ZERO: Byte := 0x30

  predicate IsDigit(b: Byte) { ZERO <= b < ZERO + 10 }

  function Decimal(n: nat): (r: seq<Byte>)
    ensures |r| > 0 && forall i :: 0 <= i < |r| ==> IsDigit(r[i])
  {
    if n < 10 then [ZERO + n] else Decimal(n / 10) + [ZERO + n % 10]
  }

  function Value(digits: seq<Byte>): nat
    requires forall i :: 0 <= i < |digits| ==> IsDigit(digits[i])
  {
    if digits == [] then 0
    else
      var last := digits[|digits| - 1];
      assert IsDigit(last);
      10 * Value(digits[..|digits| - 1]) + (last - ZERO)
  }

  function Parse(text: seq<Byte>): (r: Option<nat>)
    ensures r.Some? <==> text != [] && forall i :: 0 <= i < |text| ==> IsDigit(text[i])
  {
    if text != [] && forall i :: 0 <= i < |text| ==> IsDigit(text[i]) then Some(Value(text)) else None
  }

  /** Decimal text reads back as the number, so different numbers have different texts. */
  lemma {:induction false} ParseDecimal(n: nat)
    ensures Parse(Decimal(n)) == Some(n)
  {
    if n >= 10 {
      ParseDecimal(n / 10);
      assert Decimal(n)[..|Decimal(n)| - 1] == Decimal(n / 10);
    } else {
      assert Value([]) == 0;
      assert [ZERO + n][..0] == [];
    }
  }
}
