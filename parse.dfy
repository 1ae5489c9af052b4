/** Unsigned integer parsing as the standard library's `u64::from_str_radix` (and
    `usize::from_str`, with a 64-bit `usize`) does it, and the digit formatting it
    inverts. Parsing is what turns environment variables into item bounds and
    seeds. */
module Parse {
  import opened Wrappers

  /** 2^64: every `u64` (and 64-bit `usize`) is below it. */
  const U64_LIMIT: nat := 0x1_0000_0000_0000_0000

  /** `char::to_digit(radix)`: decimal digits, then letters of either case from 10 up. */
  function ToDigit(c: char, radix: nat): (d: Option<nat>)
    requires 2 <= radix <= 36
    ensures d.Some? ==> d.value < radix
  {
    var v: int :=
      if '0' <= c <= '9' then c as int - '0' as int
      else if 'a' <= c <= 'z' then c as int - 'a' as int + 10
      else if 'A' <= c <= 'Z' then c as int - 'A' as int + 10
      else radix;
    if v < radix then Some(v) else None
  }

  /** The value of a string of digits, most significant first; `None` when some
      character is not a digit of the radix. */
  function DigitsValue(s: string, radix: nat): Option<nat>
    requires 2 <= radix <= 36
    decreases |s|
  {
    if |s| == 0 then Some(0)
    else
      match DigitsValue(s[..|s| - 1], radix)
      case None => None
      case Some(v) =>
        match ToDigit(s[|s| - 1], radix)
        case None => None
        case Some(d) => Some(v * radix + d)
  }

  /** `u64::from_str_radix(s, radix)`: an optional leading `+` (a `-` is not a digit
      of an unsigned type), at least one digit, and a value that fits 64 bits.
      Any violation is an error, here `None`. */
  function ParseU64(s: string, radix: nat): (r: Option<nat>)
    requires 2 <= radix <= 36
    ensures r.Some? ==> r.value < U64_LIMIT
    ensures r.Some? ==> |s| > 0
  {
    if |s| == 0 then None
    else if (s[0] == '+' || s[0] == '-') && |s| == 1 then None
    else
      var digits := if s[0] == '+' then s[1..] else s;
      match DigitsValue(digits, radix)
      case Some(v) => if v < U64_LIMIT then Some(v) else None
      case None => None
  }

  /** The lower-case digit character for `d`. */
  function DigitChar(d: nat): char
    requires d < 36
  {
    if d < 10 then ('0' as int + d) as char else ('a' as int + d - 10) as char
  }

  /** `n` written in `radix`, without leading zeros (as `format!` writes it). */
  function Format(n: nat, radix: nat): (s: string)
    requires 2 <= radix <= 36
    ensures |s| > 0 && s[0] != '+' && s[0] != '-'
    decreases n
  {
    if n < radix then [DigitChar(n)] else Format(n / radix, radix) + [DigitChar(n % radix)]
  }

  lemma ToDigitOfDigitChar(d: nat, radix: nat)
    requires 2 <= radix <= 36 && d < radix
    ensures ToDigit(DigitChar(d), radix) == Some(d)
  {
  }

  lemma {:induction false} DigitsValueOfFormat(n: nat, radix: nat)
    requires 2 <= radix <= 36
    ensures DigitsValue(Format(n, radix), radix) == Some(n)
    decreases n
  {
    var s := Format(n, radix);
    if n < radix {
      DigitsValueAppend("", 0, n, radix);
      assert s == "" + [DigitChar(n)];
    } else {
      var q, d := n / radix, n % radix;
      DivLess(n, radix);
      DigitsValueOfFormat(q, radix);
      DigitsValueAppend(Format(q, radix), q, d, radix);
      assert s == Format(q, radix) + [DigitChar(d)];
      DivMod(n, radix);
      assert q * radix + d == n;
    }
  }

  /** Appending a digit multiplies the value so far by the radix and adds the digit. */
  lemma DigitsValueAppend(p: string, q: nat, d: nat, radix: nat)
    requires 2 <= radix <= 36 && d < radix && DigitsValue(p, radix) == Some(q)
    ensures DigitsValue(p + [DigitChar(d)], radix) == Some(q * radix + d)
  {
    var s := p + [DigitChar(d)];
    assert s[..|s| - 1] == p;
    ToDigitOfDigitChar(d, radix);
  }

  lemma DivLess(n: nat, radix: nat)
    requires 2 <= radix <= n
    ensures n / radix < n
  {
    var q := n / radix;
    DivMod(n, radix);
    assert q * radix == q * 2 + q * (radix - 2);
    assert q * (radix - 2) >= 0;
  }

  lemma DivMod(n: nat, radix: nat)
    requires radix > 0
    ensures n == (n / radix) * radix + n % radix
  {
  }

  /** Parsing undoes formatting for every 64-bit value, with or without a `+`. */
  lemma ParseFormatRoundTrip(n: nat, radix: nat)
    requires 2 <= radix <= 36 && n < U64_LIMIT
    ensures ParseU64(Format(n, radix), radix) == Some(n)
    ensures ParseU64("+" + Format(n, radix), radix) == Some(n)
  {
    DigitsValueOfFormat(n, radix);
    assert ("+" + Format(n, radix))[1..] == Format(n, radix);
  }

  /** Values that do not fit 64 bits, the empty string and a lone sign are rejected. */
  lemma ParseRejects(n: nat, radix: nat)
    requires 2 <= radix <= 36 && n >= U64_LIMIT
    ensures ParseU64(Format(n, radix), radix) == None
    ensures ParseU64("", radix) == None && ParseU64("+", radix) == None && ParseU64("-", radix) == None
  {
    DigitsValueOfFormat(n, radix);
  }

  /** An unsigned type has no negative values: a leading `-` is rejected. */
  lemma ParseRejectsMinus(m: string, radix: nat)
    requires 2 <= radix <= 36
    ensures ParseU64("-" + m, radix) == None
  {
    NoMinusDigit("-" + m, radix);
  }

  /** A `-` anywhere makes the digits invalid. */
  lemma {:induction false} NoMinusDigit(s: string, radix: nat)
    requires 2 <= radix <= 36 && |s| > 0 && s[0] == '-'
    ensures DigitsValue(s, radix) == None
    decreases |s|
  {
    if |s| > 1 {
      NoMinusDigit(s[..|s| - 1], radix);
    }
  }
}
