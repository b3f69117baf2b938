/** The two checks the form handlers run on trimmed input before anything is
    stored: an Indian mobile number and a name of at least two characters. */
module Validation {
  import opened Text

  /** `[\-\s]`: what may follow a `+91` or `91` country code. */
  predicate IsCodeSeparator(c: char) {
    c == '-' || IsSpace(c)
  }

  /** `code` on its own, or `code` followed by one separator. */
  predicate IsCodeWithOptionalSeparator(code: string, p: string) {
    p == code || (|p| == |code| + 1 && p[..|code|] == code && IsCodeSeparator(p[|code|]))
  }

  /** The optional group `(?:\+91[\-\s]?|91[\-\s]?|0)?` of the phone pattern. */
  predicate IsCountryPrefix(p: string) {
    || p == ""
    || IsCodeWithOptionalSeparator("+91", p)
    || IsCodeWithOptionalSeparator("91", p)
    || p == "0"
  }

  /** `[6-9]\d{9}`: ten digits, the first of them 6, 7, 8 or 9. */
  predicate IsMobileNumber(d: string) {
    |d| == 10 && '6' <= d[0] <= '9' && forall k :: 1 <= k < 10 ==> IsDigit(d[k])
  }

  /** The anchored pattern of validatePhone: the whole string splits into a
      country prefix followed by a mobile number. */
  predicate ValidatePhone(phone: string) {
    exists i :: 0 <= i <= |phone| && IsCountryPrefix(phone[..i]) && IsMobileNumber(phone[i..])
  }

  /** validateName: at least two characters (the callers pass trimmed text). */
  predicate ValidateName(name: string) {
    |name| >= 2
  }

  /** The pattern has only one way to match: the mobile number is the last ten
      characters and the prefix is everything before them, so an accepted
      string has between 10 and 14 characters. */
  lemma ValidatePhoneSplit(phone: string)
    ensures ValidatePhone(phone) <==>
      |phone| >= 10 && IsCountryPrefix(phone[..|phone| - 10]) && IsMobileNumber(phone[|phone| - 10..])
    ensures ValidatePhone(phone) ==> 10 <= |phone| <= 14
  {
  }

  /** Sample inputs: three accepted numbers (bare, `+91` with a space, a
      leading `0`), two rejected ones, and the two-character boundary of the
      name check. */
  lemma ValidationExamples()
    ensures ValidatePhone("9876543210")
    ensures ValidatePhone("+91 9876543210")
    ensures ValidatePhone("09876543210")
    ensures !ValidatePhone("12345")
    ensures !ValidatePhone("5876543210")
    ensures !ValidateName("A") && ValidateName("Al")
  {
    var bare, plus, zero := "9876543210", "+91 9876543210", "09876543210";
    assert IsMobileNumber(bare);
    assert ValidatePhone(bare) by {
      assert bare[..0] == "" && bare[0..] == bare;
    }
    assert ValidatePhone(plus) by {
      assert plus[..4] == "+91 " && plus[4..] == bare;
      assert IsCountryPrefix(plus[..4]);
    }
    assert ValidatePhone(zero) by {
      assert zero[..1] == "0" && zero[1..] == bare;
    }
    assert !ValidatePhone("12345") by {
      ValidatePhoneSplit("12345");
    }
    assert !ValidatePhone("5876543210") by {
      var five := "5876543210";
      ValidatePhoneSplit(five);
      assert five[0..] == five && five[0] == '5';
    }
  }
}
