/**
 * The texts of the info panel: Bluetooth link status and the battery charge,
 * formatted with `%d` into a fixed character buffer.
 */
module InfoText {
  import opened CInt

  /** The initial contents of the battery text buffer; the buffer holds these and a NUL. */
  const BatteryBufferInit: string := "Xxxxxxxxxxxxxxxxxxxxxxx 00"
  const BatteryBufferSize: nat := |BatteryBufferInit| + 1

  function BluetoothText(linked: bool): string {
    if linked then "Linked" else "Offline"
  }

  /** The two Bluetooth texts differ, so the text shown determines the link state. */
  lemma BluetoothTextDetermines(a: bool, b: bool)
    requires BluetoothText(a) == BluetoothText(b)
    ensures a == b
  {
  }

  // ---------------------------------------------------------------------
  // Decimal digits, as `%d` writes a non-negative number
  // ---------------------------------------------------------------------

  predicate IsDigit(c: char) {
    '0' <= c <= '9'
  }

  predicate IsDecimal(s: string) {
    |s| >= 1 && forall i :: 0 <= i < |s| ==> IsDigit(s[i])
  }

  function DigitChar(d: int): char
    requires 0 <= d < 10
  {
    ['0', '1', '2', '3', '4', '5', '6', '7', '8', '9'][d]
  }

  function DigitValue(c: char): nat {
    if IsDigit(c) then (c as int - '0' as int) else 0
  }

  lemma DigitValueOfChar(d: int)
    requires 0 <= d < 10
    ensures IsDigit(DigitChar(d)) && DigitValue(DigitChar(d)) == d
  {
  }

  /** `n` in decimal: a digit first and no leading zero. */
  function Dec(n: nat): (r: string)
    ensures |r| >= 1 && IsDigit(r[0])
    ensures n > 0 ==> r[0] != '0'
    decreases n
  {
    if n < 10 then [DigitChar(n)] else Dec(n / 10) + [DigitChar(n % 10)]
  }

  /** Every character `Dec` writes is a digit. */
  lemma {:induction false} DecDigits(n: nat)
    ensures IsDecimal(Dec(n))
    decreases n
  {
    if n >= 10 {
      DecDigits(n / 10);
      DigitValueOfChar(n % 10);
    }
  }

  /** The number a string of decimal digits denotes. */
  function ParseDec(s: string): nat
    decreases |s|
  {
    if s == [] then 0 else ParseDec(s[..|s| - 1]) * 10 + DigitValue(s[|s| - 1])
  }

  /** Reading the digits back gives the number: `Dec` loses nothing. */
  lemma {:induction false} ParseDecOfDec(n: nat)
    ensures ParseDec(Dec(n)) == n
    decreases n
  {
    var s := Dec(n);
    if n < 10 {
      DigitValueOfChar(n);
      assert s[..|s| - 1] == [];
    } else {
      ParseDecOfDec(n / 10);
      DigitValueOfChar(n % 10);
      assert s[..|s| - 1] == Dec(n / 10);
    }
  }

  /** Distinct numbers have distinct decimal texts. */
  lemma DecInjective(m: nat, n: nat)
    requires Dec(m) == Dec(n)
    ensures m == n
  {
    ParseDecOfDec(m);
    ParseDecOfDec(n);
  }

  function Pow10(k: nat): nat {
    if k == 0 then 1 else 10 * Pow10(k - 1)
  }

  /** A number below 10^k takes at most k digits. */
  lemma {:induction false} DecLength(n: nat, k: nat)
    requires 1 <= k && n < Pow10(k)
    ensures |Dec(n)| <= k
    decreases k
  {
    if n >= 10 {
      DecLength(n / 10, k - 1);
    }
  }

  // ---------------------------------------------------------------------
  // snprintf into a fixed buffer, and the battery text
  // ---------------------------------------------------------------------

  /** What `snprintf(buf, size, ...)` leaves in `buf` before the NUL: `s`, cut to `size - 1` characters. */
  function Snprintf(size: nat, s: string): (r: string)
    requires size >= 1
    ensures |r| < size && |r| <= |s|
    ensures r == s[..|r|]
    ensures |s| < size ==> r == s
  {
    if |s| < size then s else s[..size - 1]
  }

  /** The battery text, by format: `! N%` while plugged in, `N%` otherwise. */
  function BatteryFormat(plugged: bool, level: nat): string {
    if plugged then "! " + Dec(level) + "%" else Dec(level) + "%"
  }

  /**
   * The battery text as the buffer holds it. For a `uint8_t` level it always fits,
   * ends in '%', and starts with '!' exactly when the charger is plugged in.
   */
  function BatteryText(plugged: bool, level: uint8): (r: string)
    ensures r == BatteryFormat(plugged, level)
    ensures 2 <= |r| <= 6 && |r| < BatteryBufferSize
    ensures r[|r| - 1] == '%'
    ensures plugged <==> r[0] == '!'
  {
    DecLength(level, 3);
    Snprintf(BatteryBufferSize, BatteryFormat(plugged, level))
  }

  /** Reads a battery text back into (plugged, level); the partner of BatteryText. */
  function ParseBattery(s: string): Option<(bool, nat)> {
    if |s| < 2 || s[|s| - 1] != '%' then None
    else
      var body := s[..|s| - 1];
      if |body| >= 2 && body[..2] == "! " then
        if IsDecimal(body[2..]) then Some((true, ParseDec(body[2..]))) else None
      else if IsDecimal(body) then Some((false, ParseDec(body)))
      else None
  }

  /** The battery text determines both the charging state and the level. */
  lemma BatteryTextRoundTrip(plugged: bool, level: uint8)
    ensures ParseBattery(BatteryText(plugged, level)) == Some((plugged, level))
  {
    var d := Dec(level);
    var s := BatteryText(plugged, level);
    ParseDecOfDec(level);
    DecDigits(level);
    if plugged {
      assert s[..|s| - 1] == "! " + d;
      assert ("! " + d)[..2] == "! ";
      assert ("! " + d)[2..] == d;
    } else {
      assert s[..|s| - 1] == d;
      assert IsDigit(d[0]);
    }
  }
}
