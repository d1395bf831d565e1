/**
 * controllers/authController.js: OTPs sent by mail and verified once. The
 * store is the `OtpStore` object of utils/otpGenerator.js; an entry stays
 * until it is verified or replaced (nothing expires it). Sending the mail is
 * the parameter `mailFails`.
 */
module AuthController {
  import opened Wrappers
  import opened JsStrings
  import opened JsValues
  import opened OtpGenerator

  datatype Response = Sent | MailFailed | Verified | Invalid

  /** `sendOTP`: the new OTP replaces any earlier one for the email before the mail goes out. */
  method SendOtp(store: OtpStore, email: string, random: real, mailFails: bool) returns (r: Response, otp: nat)
    requires 0.0 <= random < 1.0
    modifies store
    ensures otp == GenerateOtp(random)
    ensures store.otps == old(store.otps)[email := otp]
    ensures r == (if mailFails then MailFailed else Sent)
  {
    otp := GenerateOtp(random);
    store.otps := store.otps[email := otp];
    r := if mailFails then MailFailed else Sent;
  }

  /** The check of `verifyOTP`: a stored, truthy OTP equal to `parseInt(otp)`. */
  predicate Accepts(otps: map<string, int>, email: string, otp: string) {
    email in otps && otps[email] != 0 && ParseInt(otp) == Some(otps[email])
  }

  /** `verifyOTP`: success removes the entry; failure changes nothing. */
  method VerifyOtp(store: OtpStore, email: string, otp: string) returns (r: Response)
    modifies store
    ensures r == Verified <==> Accepts(old(store.otps), email, otp)
    ensures r == Verified ==> store.otps == old(store.otps) - {email}
    ensures r != Verified ==> r == Invalid && store.otps == old(store.otps)
  {
    if email in store.otps && store.otps[email] != 0 && ParseInt(otp) == Some(store.otps[email]) {
      store.otps := store.otps - {email};
      r := Verified;
    } else {
      r := Invalid;
    }
  }

  /**
   * The code a user reads in the mail verifies, whether or not the mail
   * went out, and only once: after it is accepted the email has no entry,
   * so no code verifies for it until another is sent.
   */
  lemma SentOtpVerifiesOnce(otps: map<string, int>, email: string, random: real, typed: string)
    requires 0.0 <= random < 1.0
    ensures var otp := GenerateOtp(random);
      && Accepts(otps[email := otp], email, NatToString(otp))
      && !Accepts(otps[email := otp] - {email}, email, typed)
  {
    ParseIntOfNatToString(GenerateOtp(random));
  }

  /** A newer OTP replaces the older one: only the last code sent is accepted. */
  lemma OnlyLatestOtp(otps: map<string, int>, email: string, first: real, second: real)
    requires 0.0 <= first < 1.0 && 0.0 <= second < 1.0
    requires GenerateOtp(first) != GenerateOtp(second)
    ensures var after := otps[email := GenerateOtp(first)][email := GenerateOtp(second)];
      && Accepts(after, email, NatToString(GenerateOtp(second)))
      && !Accepts(after, email, NatToString(GenerateOtp(first)))
  {
    ParseIntOfNatToString(GenerateOtp(first));
    ParseIntOfNatToString(GenerateOtp(second));
  }
}
