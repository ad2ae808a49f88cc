/**
 * The confirmation code of app.py:254:
 * `f"ILH-Saude-{cpf_key}-{now.strftime('%Y%m%d%H%M%S')}"`. The clock is replaced
 * by a timestamp parameter.
 */
module Protocol {
  import opened Normalizer

  /** A wall-clock instant to the second, as `datetime.now()` gives it. */
  datatype Timestamp = Timestamp(year: nat, month: nat, day: nat, hour: nat, minute: nat, second: nat)

  /** The ranges `datetime` guarantees (years from 1000 on, where `%Y` has four digits). */
  predicate ValidTimestamp(t: Timestamp) {
    1000 <= t.year <= 9999 && 1 <= t.month <= 12 && 1 <= t.day <= 31
    && t.hour < 24 && t.minute < 60 && t.second < 60
  }

  function Pow10(n: nat): (r: nat)
    ensures r >= 1
  {
    if n == 0 then 1 else 10 * Pow10(n - 1)
  }

  function DigitChar(d: nat): (c: char)
    requires d < 10
    ensures IsDigit(c)
  {
    ('0' as int + d) as char
  }

  function DigitValue(c: char): (d: nat)
    requires IsDigit(c)
    ensures d < 10
  {
    c as int - '0' as int
  }

  /** `n` written with exactly `width` decimal digits, zero-padded on the left (`%02d`, `%04d`). */
  function Pad(n: nat, width: nat): (r: string)
    ensures |r| == width && AllDigits(r)
  {
    if width == 0 then [] else Pad(n / 10, width - 1) + [DigitChar(n % 10)]
  }

  /** The number a digit string denotes. */
  function ParseDigits(s: string): nat
    requires AllDigits(s)
  {
    if s == [] then 0 else 10 * ParseDigits(s[..|s| - 1]) + DigitValue(s[|s| - 1])
  }

  /** Reading back a padded number gives the number, when it fits the width. */
  lemma {:induction false} ParsePad(n: nat, width: nat)
    requires n < Pow10(width)
    ensures ParseDigits(Pad(n, width)) == n
  {
    if width > 0 {
      var p := Pad(n, width);
      assert p[..|p| - 1] == Pad(n / 10, width - 1);
      assert n / 10 < Pow10(width - 1);
      ParsePad(n / 10, width - 1);
    }
  }

  /** `strftime('%Y%m%d%H%M%S')` */
  function Stamp(t: Timestamp): (r: string)
    ensures |r| == 14 && AllDigits(r)
  {
    Pad(t.year, 4) + Pad(t.month, 2) + Pad(t.day, 2) + Pad(t.hour, 2) + Pad(t.minute, 2) + Pad(t.second, 2)
  }

  /** Reads the six fields back out of a 14-digit stamp. */
  function ParseStamp(s: string): Timestamp
    requires |s| == 14 && AllDigits(s)
  {
    Timestamp(ParseDigits(s[..4]), ParseDigits(s[4..6]), ParseDigits(s[6..8]),
              ParseDigits(s[8..10]), ParseDigits(s[10..12]), ParseDigits(s[12..]))
  }

  lemma StampRoundTrip(t: Timestamp)
    requires ValidTimestamp(t)
    ensures ParseStamp(Stamp(t)) == t
  {
    var s := Stamp(t);
    assert s[..4] == Pad(t.year, 4);
    assert s[4..6] == Pad(t.month, 2);
    assert s[6..8] == Pad(t.day, 2);
    assert s[8..10] == Pad(t.hour, 2);
    assert s[10..12] == Pad(t.minute, 2);
    assert s[12..] == Pad(t.second, 2);
    assert Pow10(2) == 100 && Pow10(4) == 10000;
    ParsePad(t.year, 4);
    ParsePad(t.month, 2);
    ParsePad(t.day, 2);
    ParsePad(t.hour, 2);
    ParsePad(t.minute, 2);
    ParsePad(t.second, 2);
  }

  /** Two different instants (to the second) never share a stamp. */
  lemma StampInjective(t: Timestamp, u: Timestamp)
    requires ValidTimestamp(t) && ValidTimestamp(u) && Stamp(t) == Stamp(u)
    ensures t == u
  {
    StampRoundTrip(t);
    StampRoundTrip(u);
  }

  const Prefix: string := "ILH-Saude-"

  /** The protocol number shown to the applicant. */
  function ProtocolCode(cpfKey: string, t: Timestamp): (p: string)
    ensures |p| == |Prefix| + |cpfKey| + 1 + 14
    ensures p[..|Prefix|] == Prefix && p[|Prefix|..|Prefix| + |cpfKey|] == cpfKey
    ensures p[|Prefix| + |cpfKey|] == '-' && p[|Prefix| + |cpfKey| + 1..] == Stamp(t)
  {
    Prefix + cpfKey + "-" + Stamp(t)
  }

  /** `ILH-Saude-<11 digits>-<14 digits>` */
  predicate IsProtocolShape(p: string) {
    |p| == |Prefix| + 11 + 1 + 14 && p[..|Prefix|] == Prefix
    && AllDigits(p[|Prefix|..|Prefix| + 11]) && p[|Prefix| + 11] == '-'
    && AllDigits(p[|Prefix| + 12..])
  }

  /** Splits a protocol number back into its CPF key and its instant. */
  function ParseProtocol(p: string): (string, Timestamp)
    requires IsProtocolShape(p)
  {
    (p[|Prefix|..|Prefix| + 11], ParseStamp(p[|Prefix| + 12..]))
  }

  /** With an 11-digit key the code has the documented shape and gives back the key and the instant. */
  lemma ProtocolRoundTrip(cpfKey: string, t: Timestamp)
    requires |cpfKey| == 11 && AllDigits(cpfKey) && ValidTimestamp(t)
    ensures IsProtocolShape(ProtocolCode(cpfKey, t))
    ensures ParseProtocol(ProtocolCode(cpfKey, t)) == (cpfKey, t)
  {
    var p := ProtocolCode(cpfKey, t);
    assert p[..|Prefix|] == Prefix;
    assert p[|Prefix|..|Prefix| + 11] == cpfKey;
    assert p[|Prefix| + 12..] == Stamp(t);
    StampRoundTrip(t);
  }
}
