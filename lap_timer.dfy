/** The lap-timer arithmetic of Game.display_text in main.py: the elapsed
    milliseconds since the lap baseline become a seconds field (Python's
    str(int(...))) and a milliseconds field (str(...).zfill(3)). */
module LapTimer {

  predicate IsDigit(c: char)
  {
    '0' <= c <= '9'
  }

  predicate AllDigits(s: string)
  {
    forall i :: 0 <= i < |s| ==> IsDigit(s[i])
  }

  function DigitChar(d: int): (c: char)
    requires 0 <= d < 10
    ensures IsDigit(c) && c as int - '0' as int == d
  {
    ('0' as int + d) as char
  }

  function Pow10(k: nat): (p: nat)
    ensures p >= 1
  {
    if k == 0 then 1 else 10 * Pow10(k - 1)
  }

  /** Python's str on a non-negative int: its decimal digits, most
      significant first, with no leading zero except for 0 itself. */
  function DecimalString(n: nat): (s: string)
    ensures |s| >= 1 && AllDigits(s)
    ensures s[0] == '0' ==> n == 0
    decreases n
  {
    if n < 10 then [DigitChar(n)] else DecimalString(n / 10) + [DigitChar(n % 10)]
  }

  /** The number a string of decimal digits denotes. */
  function DecimalValue(s: string): nat
    requires AllDigits(s)
    decreases |s|
  {
    if s == [] then 0
    else
      DecimalValue(s[..|s| - 1]) * 10 + (s[|s| - 1] as int - '0' as int)
  }

  /** Reading back what DecimalString writes gives the number again. */
  lemma {:induction false} DecimalRoundTrip(n: nat)
    ensures DecimalValue(DecimalString(n)) == n
  {
    if n >= 10 {
      var s := DecimalString(n);
      assert s[..|s| - 1] == DecimalString(n / 10);
      DecimalRoundTrip(n / 10);
    }
  }

  /** A number below 10^k has at most k digits. */
  lemma {:induction false} DecimalStringLength(n: nat, k: nat)
    requires 1 <= k && n < Pow10(k)
    ensures |DecimalString(n)| <= k
  {
    if n >= 10 {
      assert n / 10 < Pow10(k - 1);
      DecimalStringLength(n / 10, k - 1);
    }
  }

  /** k zero characters. */
  function Zeros(k: nat): (r: string)
    ensures |r| == k && forall i :: 0 <= i < k ==> r[i] == '0'
  {
    seq(k, _ => '0')
  }

  /** Python's str.zfill: pad on the left with '0' up to `width`, keeping a
      leading sign in front of the padding; a string already as long as
      `width` comes back as it is. */
  function ZFill(s: string, width: nat): (r: string)
    ensures |r| == if |s| >= width then |s| else width
    ensures |s| >= width ==> r == s
    ensures |s| < width && |s| > 0 && (s[0] == '+' || s[0] == '-') ==>
              r[0] == s[0] && r[|r| - |s| + 1..] == s[1..] &&
              forall i :: 1 <= i <= |r| - |s| ==> r[i] == '0'
    ensures (|s| == 0 || (s[0] != '+' && s[0] != '-')) ==>
              r[|r| - |s|..] == s && forall i :: 0 <= i < |r| - |s| ==> r[i] == '0'
  {
    if |s| >= width then s
    else if |s| > 0 && (s[0] == '+' || s[0] == '-') then [s[0]] + Zeros(width - |s|) + s[1..]
    else Zeros(width - |s|) + s
  }

  /** Leading zeros do not change the number a digit string denotes. */
  lemma {:induction false} LeadingZeros(k: nat, s: string)
    requires AllDigits(s)
    ensures AllDigits(Zeros(k) + s) && DecimalValue(Zeros(k) + s) == DecimalValue(s)
    decreases |s|
  {
    var z := Zeros(k) + s;
    if s == [] {
      assert z == Zeros(k);
      ZerosValue(k);
    } else {
      var init := s[..|s| - 1];
      assert AllDigits(init) by {
        forall i | 0 <= i < |init| ensures IsDigit(init[i]) {
          assert init[i] == s[i];
        }
      }
      assert z[..|z| - 1] == Zeros(k) + init;
      LeadingZeros(k, init);
    }
  }

  lemma {:induction false} ZerosValue(k: nat)
    ensures AllDigits(Zeros(k)) && DecimalValue(Zeros(k)) == 0
  {
    if k > 0 {
      assert Zeros(k)[..k - 1] == Zeros(k - 1);
      ZerosValue(k - 1);
    }
  }

  /** zfill on a digit string keeps it a digit string that denotes the
      same number. */
  lemma ZFillDigits(s: string, width: nat)
    requires AllDigits(s)
    ensures AllDigits(ZFill(s, width)) && DecimalValue(ZFill(s, width)) == DecimalValue(s)
  {
    if |s| < width {
      assert ZFill(s, width) == Zeros(width - |s|) + s;
      LeadingZeros(width - |s|, s);
    }
  }

  /** The seconds shown: int((t % 60000) / 1000). Python's true division is
      exact enough here that int() of it equals the integer quotient. */
  function Seconds(t: int): (sec: nat)
    ensures sec < 60
    ensures sec * 1000 <= t % 60000 < (sec + 1) * 1000
  {
    (t % 60000) / 1000
  }

  /** The seconds field, str(Seconds(t)): one or two digits. */
  function SecondsText(t: int): (r: string)
    ensures 1 <= |r| <= 2 && AllDigits(r) && DecimalValue(r) == Seconds(t)
    ensures r[0] == '0' ==> r == "0" && Seconds(t) == 0
  {
    DecimalStringLength(Seconds(t), 2);
    DecimalRoundTrip(Seconds(t));
    DecimalString(Seconds(t))
  }

  /** The milliseconds field, str(t % 1000).zfill(3): always three digits. */
  function MillisText(t: int): (r: string)
    ensures |r| == 3 && AllDigits(r) && DecimalValue(r) == t % 1000
  {
    var ms := DecimalString(t % 1000);
    assert Pow10(3) == 1000;
    DecimalStringLength(t % 1000, 3);
    DecimalRoundTrip(t % 1000);
    ZFillDigits(ms, 3);
    ZFill(ms, 3)
  }

  /** Read together, the two fields show the elapsed time modulo one
      minute: seconds * 1000 + milliseconds == t mod 60000. */
  lemma TimerShowsElapsedModMinute(t: int)
    ensures DecimalValue(SecondsText(t)) * 1000 + DecimalValue(MillisText(t)) == t % 60000
  {
    var secs, ms := SecondsText(t), MillisText(t);
    assert DecimalValue(secs) == Seconds(t) && DecimalValue(ms) == t % 1000;
    SplitMinute(t);
  }

  lemma SplitMinute(t: int)
    ensures Seconds(t) * 1000 + t % 1000 == t % 60000
  {
    var m := t % 60000;
    assert t == 60000 * (t / 60000) + m;
    assert m == 1000 * (m / 1000) + m % 1000;
    assert t == 1000 * (60 * (t / 60000) + m / 1000) + m % 1000;
  }
}
