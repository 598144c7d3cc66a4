/** The parameter command OnClickSetPara builds from the Gain, Channel and
    Rate text fields. */
module Commands {
  import opened Optional

  const GainMax: nat := 7
  const ChannelMax: nat := 3
  const RateMax: nat := 8

  predicate IsDigit(c: char) {
    '0' <= c <= '9'
  }

  predicate AllDigits(s: string) {
    forall i :: 0 <= i < |s| ==> IsDigit(s[i])
  }

  /** The ASCII whitespace Python strips around a number. */
  predicate IsSpace(c: char) {
    c == ' ' || c == '\t' || c == '\n' || c == '\r' || c as int == 0x0B || c as int == 0x0C
  }

  function TrimLeft(s: string): string
    decreases |s|
  {
    if s != [] && IsSpace(s[0]) then TrimLeft(s[1..]) else s
  }

  function TrimRight(s: string): string
    decreases |s|
  {
    if s != [] && IsSpace(s[|s| - 1]) then TrimRight(s[..|s| - 1]) else s
  }

  /** The value of a string of decimal digits, most significant first. */
  function DigitsValue(ds: string): nat
    requires AllDigits(ds)
    decreases |ds|
  {
    if ds == [] then 0
    else DigitsValue(ds[..|ds| - 1]) * 10 + (ds[|ds| - 1] as int - '0' as int)
  }

  /** string.atoi, which is Python 2's int(s, 10): surrounding whitespace,
      an optional sign (whitespace may follow it) and at least one decimal
      digit; anything else raises ValueError, here None. */
  function Atoi(s: string): (r: Option<int>)
    ensures s != [] && AllDigits(s) ==> r == Some(DigitsValue(s))
    ensures TrimLeft(s) == [] ==> r == None
  {
    var t := TrimRight(TrimLeft(s));
    if t != [] && (t[0] == '-' || t[0] == '+') then
      var ds := TrimLeft(t[1..]);
      if ds != [] && AllDigits(ds) then
        var v: int := DigitsValue(ds);
        Some(if t[0] == '-' then -v else v)
      else None
    else if t != [] && AllDigits(t) then Some(DigitsValue(t))
    else None
  }

  function Digit(d: nat): (c: char)
    requires d < 10
    ensures IsDigit(c) && c as int - '0' as int == d
  {
    ('0' as int + d) as char
  }

  /** str(n) for a natural number. */
  function Show(n: nat): (s: string)
    ensures s != [] && AllDigits(s)
    decreases n
  {
    if n < 10 then [Digit(n)] else Show(n / 10) + [Digit(n % 10)]
  }

  lemma {:induction false} ShowValue(n: nat)
    ensures DigitsValue(Show(n)) == n
    decreases n
  {
    if n >= 10 {
      ShowValue(n / 10);
      var s := Show(n);
      assert s[..|s| - 1] == Show(n / 10);
    }
  }

  /** atoi reads back what str writes. */
  lemma AtoiShow(n: nat)
    ensures Atoi(Show(n)) == Some(n)
  {
    var s := Show(n);
    assert TrimLeft(s) == s;
    assert TrimRight(s) == s;
    ShowValue(n);
  }

  /** One parameter as OnClickSetPara leaves it: None when atoi rejects the
      text, otherwise the text itself, or str(max) when its value exceeds
      max. */
  function Clamp(text: string, max: nat): (r: Option<string>)
    ensures r.Some? <==> Atoi(text).Some?
    ensures r.Some? && Atoi(text).value <= max ==> r.value == text
  {
    match Atoi(text)
    case None => None
    case Some(v) => Some(if v > max then Show(max) else text)
  }

  /** A parameter is accepted exactly when atoi accepts it; what is kept
      reads back as the value clamped to the maximum, and a value at or
      under the maximum is kept as typed. */
  lemma ClampValue(text: string, max: nat)
    ensures Clamp(text, max).Some? <==> Atoi(text).Some?
    ensures Clamp(text, max).Some? ==>
      var v := Atoi(text).value;
      && Atoi(Clamp(text, max).value) == Some(if v > max then max else v)
      && (v <= max ==> Clamp(text, max).value == text)
  {
    if Atoi(text).Some? && Atoi(text).value > max {
      AtoiShow(max);
    }
  }

  /** The command: "FC" followed by the three clamped parameters, or None
      when one of them is rejected. */
  function Command(gain: string, channel: string, rate: string): (r: Option<string>)
    ensures r.Some? <==> Atoi(gain).Some? && Atoi(channel).Some? && Atoi(rate).Some?
    ensures r.Some? ==> |r.value| >= 5 && r.value[..2] == "FC"
  {
    match (Clamp(gain, GainMax), Clamp(channel, ChannelMax), Clamp(rate, RateMax))
    case (Some(g), Some(c), Some(r)) => Some("FC" + g + c + r)
    case _ => None
  }

  /** Parameters typed as plain numbers give a five-character command, each
      digit being the parameter clamped to its maximum. */
  lemma CommandOfNumbers(g: nat, c: nat, r: nat)
    ensures Command(Show(g), Show(c), Show(r))
         == Some("FC" + [Digit(if g > GainMax then GainMax else g),
                         Digit(if c > ChannelMax then ChannelMax else c),
                         Digit(if r > RateMax then RateMax else r)])
  {
    var dg := Digit(if g > GainMax then GainMax else g);
    var dc := Digit(if c > ChannelMax then ChannelMax else c);
    var dr := Digit(if r > RateMax then RateMax else r);
    assert "FC" + [dg] + [dc] + [dr] == "FC" + [dg, dc, dr];
    ClampShow(g, GainMax);
    ClampShow(c, ChannelMax);
    ClampShow(r, RateMax);
  }

  lemma ClampShow(n: nat, max: nat)
    requires max < 10
    ensures Clamp(Show(n), max) == Some([Digit(if n > max then max else n)])
  {
    AtoiShow(n);
  }
}
