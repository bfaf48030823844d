/**
 Win32 error helpers: the recoverable-error classification the accept loop
 retries on, and the "<code> - <message>" rendering of an error code. The
 system message table (`FormatMessageA`) is an input: `Some(text)` when the
 lookup produced text, `None` when it failed.
 */
module WinUtils {
  import opened Win32

  /** Optional value: the outcome of a lookup that may produce nothing. */
  datatype Option<+T> = None | Some(value: T)

  /** True for the transient resource-exhaustion and busy-object codes; false for every other code. */
  function IsRecoverableError(code: uint32): (r: bool)
    ensures r <==> code in {4, 8, 14, 170, 231, 1450}
  {
    match code
    // out of memory or kernel pool
    case ERROR_NOT_ENOUGH_MEMORY => true
    case ERROR_OUTOFMEMORY => true
    case ERROR_NO_SYSTEM_RESOURCES => true
    // per-process handle quota reached
    case ERROR_TOO_MANY_OPEN_FILES => true
    // every instance or the object itself in use for now
    case ERROR_PIPE_BUSY => true
    case ERROR_BUSY => true
    case _ => false
  }

  /** The codes the listener meets in normal operation are never treated as transient. */
  lemma OrdinaryCodesAreFatal()
    ensures !IsRecoverableError(ERROR_SUCCESS)
    ensures !IsRecoverableError(ERROR_OPERATION_ABORTED)
    ensures !IsRecoverableError(ERROR_IO_PENDING)
    ensures !IsRecoverableError(ERROR_PIPE_CONNECTED)
  {
  }

  // ---------------------------------------------------------------------------
  // Decimal rendering (`std::to_string` of an unsigned value)

  predicate IsDigit(c: char) {
    '0' <= c <= '9'
  }

  predicate AllDigits(s: string) {
    forall i :: 0 <= i < |s| ==> IsDigit(s[i])
  }

  function DigitChar(d: int): (c: char)
    requires 0 <= d < 10
    ensures IsDigit(c) && c as int - '0' as int == d
  {
    ('0' as int + d) as char
  }

  function DigitValue(c: char): (d: nat)
    requires IsDigit(c)
    ensures d < 10
  {
    c as int - '0' as int
  }

  /** The shortest decimal numeral for `n`: digits only, no leading zero. */
  function Decimal(n: nat): (s: string)
    ensures |s| >= 1 && AllDigits(s)
    ensures s[0] == '0' ==> n == 0 && |s| == 1
    decreases n
  {
    if n < 10 then [DigitChar(n)] else Decimal(n / 10) + [DigitChar(n % 10)]
  }

  /** The value of a decimal numeral, most significant digit first. */
  function ParseDecimal(s: string): nat
    requires AllDigits(s)
    decreases |s|
  {
    if |s| == 0 then 0 else ParseDecimal(s[..|s| - 1]) * 10 + DigitValue(s[|s| - 1])
  }

  lemma {:induction false} DecimalRoundTrip(n: nat)
    ensures ParseDecimal(Decimal(n)) == n
    decreases n
  {
    if n >= 10 {
      var s := Decimal(n);
      assert s[..|s| - 1] == Decimal(n / 10);
      DecimalRoundTrip(n / 10);
    }
  }

  /** The longest prefix of `s` made of digits. */
  function LeadingDigits(s: string): (r: string)
    ensures r <= s && AllDigits(r)
    ensures |r| < |s| ==> !IsDigit(s[|r|])
    decreases |s|
  {
    if |s| == 0 || !IsDigit(s[0]) then [] else [s[0]] + LeadingDigits(s[1..])
  }

  lemma LeadingDigitsStopAtSeparator(digits: string, rest: string)
    requires AllDigits(digits)
    ensures LeadingDigits(digits + SEPARATOR + rest) == digits
  {
    var s := digits + SEPARATOR + rest;
    var r := LeadingDigits(s);
    assert s[|digits|] == ' ';
    assert r == s[..|r|] == digits;
  }

  // ---------------------------------------------------------------------------
  // Message rendering

  const SEPARATOR: string := " - "

  const UNKNOWN_ERROR: string := "Unknown error"

  predicate IsCrLf(c: char) {
    c == '\r' || c == '\n'
  }

  /**
   Removes every trailing carriage return and line feed. The result is the
   longest prefix of `s` that does not end in CR or LF and beyond which only
   CR and LF follow.
   */
  function TrimTrailingCrLf(s: string): (r: string)
    ensures r <= s
    ensures |r| == 0 || !IsCrLf(r[|r| - 1])
    ensures forall i :: |r| <= i < |s| ==> IsCrLf(s[i])
    decreases |s|
  {
    if |s| > 0 && IsCrLf(s[|s| - 1]) then TrimTrailingCrLf(s[..|s| - 1]) else s
  }

  lemma TrimIsIdempotent(s: string)
    ensures TrimTrailingCrLf(TrimTrailingCrLf(s)) == TrimTrailingCrLf(s)
  {
  }

  /** Only the trailing run goes: a CR or LF followed by other text stays where it was. */
  lemma TrimKeepsInteriorBreaks(s: string, i: nat)
    requires i < |s| && IsCrLf(s[i])
    requires exists j :: i < j < |s| && !IsCrLf(s[j])
    ensures i < |TrimTrailingCrLf(s)| && TrimTrailingCrLf(s)[i] == s[i]
  {
    var j :| i < j < |s| && !IsCrLf(s[j]);
    var r := TrimTrailingCrLf(s);
    assert j < |r|;
  }

  /**
   `"<code> - <message>"`: the decimal code, the separator, then either the
   system text without its trailing line break or, when the lookup produced
   no characters, `"Unknown error"`.
   */
  function FormatErrorMessage(code: uint32, systemText: Option<string>): (r: string)
    ensures Decimal(code) + SEPARATOR <= r
    ensures systemText == None || systemText == Some("") ==>
              r[|Decimal(code) + SEPARATOR|..] == UNKNOWN_ERROR
    ensures systemText.Some? && systemText.value != "" ==>
              r[|Decimal(code) + SEPARATOR|..] == TrimTrailingCrLf(systemText.value)
  {
    var prefix := Decimal(code) + SEPARATOR;
    if systemText == None || systemText.value == "" then
      prefix + UNKNOWN_ERROR
    else
      prefix + TrimTrailingCrLf(systemText.value)
  }

  /** The code a formatted message names: the value of its leading numeral. */
  function CodeOfMessage(message: string): nat {
    ParseDecimal(LeadingDigits(message))
  }

  /** Reading the numeral back out of a formatted message gives the code that was formatted. */
  lemma FormatErrorMessageNamesCode(code: uint32, systemText: Option<string>)
    ensures CodeOfMessage(FormatErrorMessage(code, systemText)) == code
  {
    var r := FormatErrorMessage(code, systemText);
    var prefix := Decimal(code) + SEPARATOR;
    assert r == Decimal(code) + SEPARATOR + r[|prefix|..];
    LeadingDigitsStopAtSeparator(Decimal(code), r[|prefix|..]);
    DecimalRoundTrip(code);
  }

  /** The message part never ends in a line break and never adds characters to the system text. */
  lemma FormattedTextIsTrimmedPrefix(code: uint32, text: string)
    requires text != ""
    ensures var m := FormatErrorMessage(code, Some(text))[|Decimal(code) + SEPARATOR|..];
            m <= text && (|m| == 0 || !IsCrLf(m[|m| - 1]))
  {
  }
}
