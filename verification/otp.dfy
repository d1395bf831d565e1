/**
 * utils/otpGenerator.js: the one-time password generator and the shared OTP
 * store. `Math.random()` is the parameter `random`, a value in [0, 1); the
 * arithmetic is exact.
 */
module OtpGenerator {
  import opened JsStrings

  function Pow10(k: nat): (r: nat)
    ensures r >= 1
  {
    if k == 0 then 1 else 10 * Pow10(k - 1)
  }

  /** A number from 10^(k-1) up to 10^k - 1 is written with exactly `k` digits. */
  lemma {:induction false} DigitCount(n: nat, k: nat)
    requires k >= 1 && Pow10(k - 1) <= n < Pow10(k)
    ensures |NatToString(n)| == k
  {
    if k > 1 {
      assert Pow10(k - 1) == 10 * Pow10(k - 2);
      DigitCount(n / 10, k - 1);
    }
  }

  /** `Math.floor(100000 + Math.random() * 900000)`. */
  function GenerateOtp(random: real): (otp: nat)
    requires 0.0 <= random < 1.0
    ensures 100000 <= otp <= 999999
  {
    var x := 100000.0 + random * 900000.0;
    assert x < 1000000.0;
    x.Floor
  }

  /** Every OTP has exactly six decimal digits, the first of them not 0. */
  lemma SixDigits(random: real)
    requires 0.0 <= random < 1.0
    ensures |NatToString(GenerateOtp(random))| == 6
    ensures NatToString(GenerateOtp(random))[0] != '0'
  {
    assert Pow10(5) == 100000 && Pow10(6) == 1000000;
    DigitCount(GenerateOtp(random), 6);
  }

  /** `otpStore`: one map from email to the OTP last sent to it, shared by every request. */
  class OtpStore {
    var otps: map<string, int>

    /** The store starts empty. */
    constructor ()
      ensures otps == map[]
    {
      otps := map[];
    }
  }
}
