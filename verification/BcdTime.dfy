/** Binary coded decimal, as the time fields of a PEL hold it. */
module BcdTime {
  import opened Bytes

  /** Every decimal digit in four bits of its own. */
  function BCD(n: nat): nat { if n == 0 then 0 else BCD(n / 10) * 16 + n % 10 }

  function FromBCD(b: Byte): nat { b / 16 * 10 + b % 16 }

  /** Digits moved to the left: x << 4 * count. */
  function Shifted(x: nat, count: nat): nat { if count == 0 then x else 16 * Shifted(x, count - 1) }

  /** What a type of this modulus keeps of a number. */
  function Kept(n: nat, modulus: nat): nat
    requires modulus > 0
  {
    n % modulus
  }

  /** toBCD: digits are taken off the end and shifted in further and further left. The sum
      is of the type asked for, and wraps at its modulus. */
  method ToBCD(decimal: nat, modulus: nat) returns (bcd: nat)
    requires modulus > 0
    ensures bcd == BCD(decimal) % modulus
  {
    hide BCD, Shifted, Kept;
    bcd := 0;
    ghost var unwrapped: nat := 0;
    var rest, count := decimal, 0;
    NothingShifted(BCD(decimal), modulus);
    while rest != 0
      invariant bcd == Kept(unwrapped, modulus)
      invariant unwrapped + Shifted(BCD(rest), count) == BCD(decimal)
      decreases rest
    {
      var remainder := rest % 10;
      ShiftedDigit(rest, count);
      KeptEarly(unwrapped, Shifted(remainder, count), modulus);
      bcd := Kept(bcd + Shifted(remainder, count), modulus);
      unwrapped := unwrapped + Shifted(remainder, count);
      rest := rest / 10;
      count := count + 1;
    }
    AllShifted(unwrapped, count, modulus);
  }

  lemma NothingShifted(n: nat, modulus: nat)
    requires modulus > 0
    ensures Shifted(n, 0) == n && Kept(0, modulus) == 0
  {}

  /** The last digit is added where the others are still to come, further left. */
  lemma {:induction false} ShiftedDigit(n: nat, count: nat)
    ensures Shifted(BCD(n), count) == Shifted(n % 10, count) + Shifted(BCD(n / 10), count + 1)
    decreases count
  {
    hide BCD;
    Digits(n);
    if count > 0 { ShiftedDigit(n, count - 1); }
  }

  lemma {:induction false} ShiftedZero(count: nat)
    ensures Shifted(0, count) == 0
  {
    if count > 0 { ShiftedZero(count - 1); }
  }

  lemma AllShifted(n: nat, count: nat, modulus: nat)
    requires modulus > 0
    ensures Shifted(BCD(0), count) == 0 && Kept(n, modulus) == n % modulus
  {
    ShiftedZero(count);
  }

  lemma KeptEarly(a: nat, b: nat, m: nat)
    requires m > 0
    ensures Kept(Kept(a, m) + b, m) == Kept(a + b, m)
  {
    WrapEarly(a, b, m);
  }

  lemma WrapEarly(a: nat, b: nat, m: nat)
    requires m > 0
    ensures (a % m + b) % m == (a + b) % m
  {
    var q, r := (a % m + b) / m, (a % m + b) % m;
    assert a + b == (a / m + q) * m + r;
    UniqueRemainder(a + b, a / m + q, r, m);
  }

  lemma UniqueRemainder(x: nat, q: nat, r: nat, m: nat)
    requires m > 0 && r < m && x == q * m + r
    ensures x % m == r
  {
    var q', r' := x / m, x % m;
    assert q * m + r == q' * m + r';
    if q < q' {
      AtLeastOneMore(q, q' - q, m);
    } else if q' < q {
      AtLeastOneMore(q', q - q', m);
    }
  }

  lemma AtLeastOneMore(a: nat, more: nat, m: nat)
    requires more > 0
    ensures (a + more) * m >= a * m + m
  {}

  lemma Digits(n: nat)
    ensures BCD(n) == BCD(n / 10) * 16 + n % 10
  {}

  lemma LowByte(high: nat, tens: nat, ones: nat)
    requires tens < 10 && ones < 10
    ensures ((high * 16 + tens) * 16 + ones) % 256 == tens * 16 + ones
  {}

  lemma ByteOfDigits(tens: nat, ones: nat)
    requires tens < 10 && ones < 10
    ensures FromBCD(tens * 16 + ones) == tens * 10 + ones
  {}

  lemma LastTwo(high: nat, tens: nat, ones: nat)
    requires tens < 10 && ones < 10
    ensures ((high * 10 + tens) * 10 + ones) % 100 == tens * 10 + ones
  {}

  lemma SplitDigits(n: nat) returns (high: nat, tens: nat, ones: nat)
    ensures high == n / 10 / 10 && tens == n / 10 % 10 && ones == n % 10
    ensures tens < 10 && ones < 10 && n == (high * 10 + tens) * 10 + ones
  {
    var q := n / 10;
    high, tens, ones := q / 10, q % 10, n % 10;
    assert q == high * 10 + tens && n == q * 10 + ones;
  }

  lemma TwoDigitsOut(n: nat)
    ensures BCD(n) == (BCD(n / 10 / 10) * 16 + n / 10 % 10) * 16 + n % 10
  {
    hide BCD;
    Digits(n);
    Digits(n / 10);
  }

  /** A byte of BCD keeps exactly the last two decimal digits, whatever the number. */
  lemma ByteKeepsTwoDigits(n: nat)
    ensures FromBCD(BCD(n) % 256) == n % 100
  {
    hide BCD, FromBCD;
    var high, tens, ones := SplitDigits(n);
    TwoDigitsOut(n);
    LowByte(BCD(high), tens, ones);
    ByteOfDigits(tens, ones);
    LastTwo(high, tens, ones);
  }
}
