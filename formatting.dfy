/** formatPhone, which turns an accepted phone number into the stored form
    `+91 ` followed by the national number, and a corrected variant of it. */
module Formatting {
  import opened Text
  import opened Validation

  /** `[\s\-\(\)]`: the characters formatPhone deletes everywhere. */
  predicate IsSeparator(c: char) {
    IsSpace(c) || c == '-' || c == '(' || c == ')'
  }

  predicate NoSeparators(s: string) {
    forall k :: 0 <= k < |s| ==> !IsSeparator(s[k])
  }

  /** `replace(/[\s\-\(\)]/g, '')`: keeps exactly the characters of `s` that
      are not separators, adding none; a string without separators is left
      alone. */
  function RemoveSeparators(s: string): (r: string)
    ensures NoSeparators(r)
    ensures forall c :: c in r ==> c in s
    ensures NoSeparators(s) ==> r == s
    ensures |r| <= |s|
  {
    if s == [] then []
    else if IsSeparator(s[0]) then RemoveSeparators(s[1..])
    else [s[0]] + RemoveSeparators(s[1..])
  }

  /** Deleting separators works piecewise, so it keeps the order of what it keeps. */
  lemma {:induction false} RemoveSeparatorsAppend(a: string, b: string)
    ensures RemoveSeparators(a + b) == RemoveSeparators(a) + RemoveSeparators(b)
  {
    if a == [] {
      assert a + b == b;
    } else {
      assert (a + b)[1..] == a[1..] + b;
      RemoveSeparatorsAppend(a[1..], b);
    }
  }

  /** The country-code step: drops a leading `+91`, else a leading `91`, else a
      leading `0`, and at most one of them. What is dropped is one whole code;
      no two of the codes can begin the same string, so that fixes which. */
  function StripCountryCode(t: string): (u: string)
    ensures |t| - 3 <= |u| <= |t| && u == t[|t| - |u|..]
    ensures |u| < |t| <==> ("+91" <= t || "91" <= t || "0" <= t)
    ensures t[..|t| - |u|] in {"", "+91", "91", "0"}
  {
    if "+91" <= t then assert t[..3] == "+91"; t[3..]
    else if "91" <= t then assert t[..2] == "91"; t[2..]
    else if "0" <= t then assert t[..1] == "0"; t[1..]
    else assert t[..0] == ""; t
  }

  /** `slice(-n)`: the last `n` characters, or all of them when there are fewer. */
  function KeepLast(u: string, n: nat): (v: string)
    ensures |v| <= n && |v| <= |u| && v == u[|u| - |v|..]
    ensures |u| >= n ==> |v| == n
    ensures |u| <= n ==> v == u
  {
    if |u| <= n then u else u[|u| - n..]
  }

  /** formatPhone as written: `+91 ` and then at most ten characters, none of
      them a separator. */
  function FormatPhone(phone: string): (r: string)
    ensures "+91 " <= r && |r| <= 14
    ensures NoSeparators(r[4..])
  {
    var v := KeepLast(StripCountryCode(RemoveSeparators(phone)), 10);
    assert NoSeparators(v);
    "+91 " + v
  }

  /** A code without separators followed by one separator loses just the
      separator. */
  lemma RemoveTrailingSeparator(code: string, c: char)
    requires NoSeparators(code) && IsSeparator(c)
    ensures RemoveSeparators(code + [c]) == code
  {
    RemoveSeparatorsAppend(code, [c]);
  }

  /** Behind `+91 `, text without separators keeps all of itself. */
  lemma RemoveSeparatorsPrefixed(v: string)
    requires NoSeparators(v)
    ensures RemoveSeparators("+91 " + v) == "+91" + v
  {
    assert NoSeparators("+91");
    assert "+91 " == "+91" + [' '];
    RemoveTrailingSeparator("+91", ' ');
    RemoveSeparatorsAppend("+91 ", v);
  }

  /** On text without separators and of at most ten characters, formatting a
      value that already starts with `+91 ` gives it back. */
  lemma FormatPrefixed(v: string)
    requires NoSeparators(v) && |v| <= 10
    ensures FormatPhone("+91 " + v) == "+91 " + v
  {
    RemoveSeparatorsPrefixed(v);
    assert StripCountryCode("+91" + v) == v;
  }

  /** formatPhone is idempotent on every input. */
  lemma FormatPhoneIdempotent(phone: string)
    ensures FormatPhone(FormatPhone(phone)) == FormatPhone(phone)
  {
    var r := FormatPhone(phone);
    assert r == "+91 " + r[4..];
    FormatPrefixed(r[4..]);
  }

  /** The separator-free text of an accepted prefix is its country code, or
      nothing. */
  lemma RemoveSeparatorsOfPrefix(p: string)
    requires IsCountryPrefix(p)
    ensures RemoveSeparators(p) == if p == "" then ""
                                   else if p == "0" then "0"
                                   else if p[0] == '+' then "+91"
                                   else "91"
  {
    CodesHaveNoSeparators();
    if IsCodeWithOptionalSeparator("+91", p) {
      RemoveSeparatorsOfCode("+91", p);
    } else if IsCodeWithOptionalSeparator("91", p) {
      RemoveSeparatorsOfCode("91", p);
    } else if p == "0" {
      assert NoSeparators(p);
    }
  }

  lemma CodesHaveNoSeparators()
    ensures NoSeparators("+91") && NoSeparators("91") && NoSeparators("0")
  {
  }

  /** A code without separators, with or without the one separator the
      pattern allows after it, becomes the bare code. */
  lemma RemoveSeparatorsOfCode(code: string, p: string)
    requires NoSeparators(code) && IsCodeWithOptionalSeparator(code, p)
    ensures RemoveSeparators(p) == code
  {
    if p != code {
      assert p == code + [p[|code|]];
      RemoveTrailingSeparator(code, p[|code|]);
    }
  }

  /** A mobile number contains no separators. */
  lemma MobileNumberHasNoSeparators(d: string)
    requires IsMobileNumber(d)
    ensures NoSeparators(d)
  {
  }

  /** An accepted phone number splits into its prefix and its ten-digit
      national number; the separator-free form is the prefix's code followed
      by those ten digits. */
  lemma RemoveSeparatorsOfValid(phone: string)
    requires ValidatePhone(phone)
    ensures |phone| >= 10
    ensures RemoveSeparators(phone) == RemoveSeparators(phone[..|phone| - 10]) + phone[|phone| - 10..]
  {
    ValidatePhoneSplit(phone);
    var p, d := phone[..|phone| - 10], phone[|phone| - 10..];
    assert phone == p + d;
    RemoveSeparatorsAppend(p, d);
    MobileNumberHasNoSeparators(d);
  }

  /** The country-code step on an accepted number P + D, D its last ten
      digits: it leaves D, except that for a bare D starting with 91 it takes
      the 91 away. */
  lemma StripCountryCodeOfValid(phone: string)
    requires ValidatePhone(phone)
    ensures |phone| >= 10
    ensures var p, d := phone[..|phone| - 10], phone[|phone| - 10..];
      StripCountryCode(RemoveSeparators(phone)) == if p == "" && "91" <= d then d[2..] else d
  {
    RemoveSeparatorsOfValid(phone);
    ValidatePhoneSplit(phone);
    var p, d := phone[..|phone| - 10], phone[|phone| - 10..];
    RemoveSeparatorsOfPrefix(p);
    StripCountryCodeOfMobile(RemoveSeparators(p), d);
  }

  /** The country-code step on a code the pattern accepts followed by a
      mobile number. */
  lemma StripCountryCodeOfMobile(code: string, d: string)
    requires code == "" || code == "0" || code == "+91" || code == "91"
    requires IsMobileNumber(d)
    ensures StripCountryCode(code + d) == if code == "" && "91" <= d then d[2..] else d
  {
    var t := code + d;
    assert !("+91" <= d) && !("0" <= d);
    if code == "0" {
      assert "0" <= t && !("+91" <= t) && !("91" <= t) && t[1..] == d;
    } else if code == "+91" {
      assert "+91" <= t && t[3..] == d;
    } else if code == "91" {
      assert "91" <= t && !("+91" <= t) && t[2..] == d;
    } else {
      assert t == d;
    }
  }

  /** `+91 ` and a mobile number is accepted; `+91 ` and eight characters is not. */
  lemma ValidatePrefixed(v: string)
    requires |v| == 10 || |v| == 8
    ensures ValidatePhone("+91 " + v) <==> |v| == 10 && IsMobileNumber(v)
  {
    var s := "+91 " + v;
    ValidatePhoneSplit(s);
    if |v| == 10 {
      assert s[..|s| - 10] == "+91 " && s[|s| - 10..] == v;
    } else {
      assert s[|s| - 10..][0] == '1';
    }
  }

  /** What formatPhone makes of an accepted number P + D, D its last ten
      digits: `+91 ` + D whenever P is non-empty or D does not start with 91,
      and only then; for a bare D that starts with 91 it keeps the last eight
      digits. The formatted value passes validatePhone again exactly when it
      kept all ten digits. */
  lemma FormatValidPhone(phone: string)
    requires ValidatePhone(phone)
    ensures |phone| >= 10
    ensures var p, d := phone[..|phone| - 10], phone[|phone| - 10..];
      && (FormatPhone(phone) == "+91 " + d <==> (p != "" || !("91" <= d)))
      && (p == "" && "91" <= d ==> FormatPhone(phone) == "+91 " + d[2..])
      && (ValidatePhone(FormatPhone(phone)) <==> (p != "" || !("91" <= d)))
  {
    StripCountryCodeOfValid(phone);
    ValidatePhoneSplit(phone);
    var p, d := phone[..|phone| - 10], phone[|phone| - 10..];
    if p == "" && "91" <= d {
      ValidatePrefixed(d[2..]);
    } else {
      ValidatePrefixed(d);
    }
  }

  /** The defect: every bare ten-digit number that starts with 91 is
      accepted, then loses its first two digits, and the stored result is no
      longer accepted. */
  lemma FormatPhoneDropsDigits(d: string)
    requires IsMobileNumber(d) && "91" <= d
    ensures ValidatePhone(d)
    ensures FormatPhone(d) == "+91 " + d[2..]
    ensures !ValidatePhone(FormatPhone(d))
  {
    assert d[..0] == "" && d[0..] == d;
    FormatValidPhone(d);
  }

  /** 9123456789 is such a number. */
  lemma BareNinetyOneExample()
    ensures IsMobileNumber("9123456789") && "91" <= "9123456789"
  {
  }

  /** The evidently intended formatter: `+91 ` and the last ten characters
      once the separators are gone, without the country-code step. */
  function CanonicalPhone(phone: string): (r: string)
    ensures "+91 " <= r && |r| <= 14
    ensures NoSeparators(r[4..])
  {
    var v := KeepLast(RemoveSeparators(phone), 10);
    assert NoSeparators(v);
    "+91 " + v
  }

  /** The corrected formatter gives `+91 ` and the ten digits of an accepted
      number. */
  lemma CanonicalOfValid(phone: string)
    requires ValidatePhone(phone)
    ensures |phone| >= 10 && CanonicalPhone(phone) == "+91 " + phone[|phone| - 10..]
  {
    RemoveSeparatorsOfValid(phone);
    var t := RemoveSeparators(phone);
    assert t[|t| - 10..] == phone[|phone| - 10..];
  }

  /** For every accepted number, the corrected formatter keeps all ten digits,
      produces a number that is accepted again and is idempotent on it; it
      agrees with formatPhone except exactly in the bare-91 case. */
  lemma CanonicalPhoneKeepsDigits(phone: string)
    requires ValidatePhone(phone)
    ensures |phone| >= 10
    ensures var p, d := phone[..|phone| - 10], phone[|phone| - 10..];
      && CanonicalPhone(phone) == "+91 " + d
      && ValidatePhone(CanonicalPhone(phone))
      && CanonicalPhone(CanonicalPhone(phone)) == CanonicalPhone(phone)
      && (FormatPhone(phone) == CanonicalPhone(phone) <==> (p != "" || !("91" <= d)))
  {
    CanonicalOfValid(phone);
    ValidatePhoneSplit(phone);
    var d := phone[|phone| - 10..];
    ValidatePrefixed(d);
    MobileNumberHasNoSeparators(d);
    RemoveSeparatorsPrefixed(d);
    FormatValidPhone(phone);
  }
}
