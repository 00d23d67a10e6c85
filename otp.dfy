/** One-time codes: a code is drawn from a uniformly random value, only its
    SHA-256 digest is stored, and a candidate is checked by comparing digests.
    The digest function is a parameter (`hash`); the random draw is an argument. */
module Otp {
  import opened Common

  /** The code length used when invitations are issued. */
  const OtpDigits: nat := 6

  /** `generateOtp(digits)`: `value` is the draw of `crypto.randomInt(0, 10 ** digits)`;
      the code is its decimal form left-padded with '0' to `digits` characters.
      With `digits == 0` the only draw is 0 and the code is "0". */
  function GenerateOtp(value: nat, digits: nat): (code: string)
    requires value < Pow10(digits)
    ensures |code| == Max(digits, 1)
    ensures AllDigits(code)
  {
    PaddedDecimal(value, digits);
    PadStart(NatToDecimal(value), digits, '0')
  }

  /** A generated code denotes the value it was drawn from, so distinct draws
      give distinct codes. */
  lemma GeneratedCodeValue(value: nat, value': nat, digits: nat)
    requires value < Pow10(digits) && value' < Pow10(digits)
    ensures DecimalValue(GenerateOtp(value, digits)) == value
    ensures value != value' ==> GenerateOtp(value, digits) != GenerateOtp(value', digits)
  {
    PaddedDecimal(value, digits);
    PaddedDecimal(value', digits);
  }

  /** Padding the decimal form of a value below `10^digits` gives a digit string
      of `max(digits, 1)` characters that still denotes the value. */
  lemma PaddedDecimal(value: nat, digits: nat)
    requires value < Pow10(digits)
    ensures var code := PadStart(NatToDecimal(value), digits, '0');
      |code| == Max(digits, 1) && AllDigits(code) && DecimalValue(code) == value
  {
    var s := NatToDecimal(value);
    if digits >= 1 {
      DecimalLength(value, digits);
    } else {
      assert value == 0;
    }
    DecimalRoundTrip(value);
    var code := PadStart(s, digits, '0');
    assert code == Repeat('0', |code| - |s|) + s;
    LeadingZerosKeepValue(|code| - |s|, s);
  }

  /** `hashOtp`: the stored form of a code. */
  function HashOtp(hash: string -> string, otp: string): string {
    hash(otp)
  }

  /** `verifyOtp(stored, otp)`: a constant-time comparison of the stored digest
      with the digest of the candidate. The comparison throws when the two
      differ in length; that outcome is `None`. */
  function VerifyOtp(hash: string -> string, stored: string, otp: string): (r: Option<bool>)
    ensures r.None? <==> |stored| != |HashOtp(hash, otp)|
    ensures r == Some(true) <==> stored == HashOtp(hash, otp)
  {
    var provided := HashOtp(hash, otp);
    if |stored| != |provided| then None else Some(stored == provided)
  }

  /** The digest stored for a code accepts that code. */
  lemma VerifyIssuedCode(hash: string -> string, otp: string)
    ensures VerifyOtp(hash, HashOtp(hash, otp), otp) == Some(true)
  {
  }

  /** When every digest has the same length (as hex SHA-256 digests do), checking a
      candidate against a stored digest never throws, and rejects every candidate
      whose digest differs. */
  lemma VerifyNeverThrows(hash: string -> string, issued: string, candidate: string)
    requires forall x: string, y: string :: |hash(x)| == |hash(y)|
    ensures VerifyOtp(hash, HashOtp(hash, issued), candidate).Some?
    ensures hash(candidate) != hash(issued) ==> VerifyOtp(hash, HashOtp(hash, issued), candidate) == Some(false)
  {
  }
}
