/**
 * `str(status).startswith('2')`, the scanner's test for a 2xx status code,
 * where `status` is an `int` or `None`.
 */
module StatusText {
  import opened Wrappers

  function DigitChar(d: nat): char
    requires d < 10
  {
    (48 + d) as char
  }

  /** Decimal digits of a natural number, most significant first. */
  function Digits(n: nat): (s: string)
    ensures |s| >= 1
  {
    if n < 10 then [DigitChar(n)] else Digits(n / 10) + [DigitChar(n % 10)]
  }

  /** Python's `str` of an `int` or of `None`. */
  function Str(status: Option<int>): string
  {
    match status
    case None => "None"
    case Some(n) => if n < 0 then "-" + Digits(-n) else Digits(n)
  }

  /** The scanner's 2xx test. */
  predicate StartsWithTwo(status: Option<int>)
  {
    var s := Str(status);
    |s| > 0 && s[0] == '2'
  }

  /** The most significant decimal digit. */
  function Leading(n: nat): (d: nat)
    ensures d < 10
  {
    if n < 10 then n else Leading(n / 10)
  }

  lemma {:induction false} FirstDigitIsLeading(n: nat)
    ensures Digits(n)[0] == DigitChar(Leading(n))
  {
    if n >= 10 {
      FirstDigitIsLeading(n / 10);
    }
  }

  /** On three-digit codes the test is exactly "200 to 299". */
  lemma ThreeDigitTwoHundreds(n: int)
    requires 100 <= n < 1000
    ensures StartsWithTwo(Some(n)) <==> 200 <= n < 300
  {
    var m := n / 10;
    var k := m / 10;
    assert 10 <= m < 100 && 1 <= k < 10;
    assert Leading(m) == Leading(k) == k;
    assert Leading(n) == k;
    FirstDigitIsLeading(n);
    assert n == 100 * k + 10 * (m % 10) + n % 10;
  }

  /** A missing status and a negative one never pass the test; 2, 20 and 2000 do. */
  lemma TwoHundredsQuirks()
    ensures !StartsWithTwo(None)
    ensures forall n :: n < 0 ==> !StartsWithTwo(Some(n))
    ensures StartsWithTwo(Some(2)) && StartsWithTwo(Some(20)) && StartsWithTwo(Some(2000))
  {
    forall n | n < 0 ensures !StartsWithTwo(Some(n)) {
      assert Str(Some(n))[0] == '-';
    }
    FirstDigitIsLeading(2000);
  }
}
