/** Static helpers of the delivery game (GameUtils): the MM:SS clock format and the
    "missing position means infinitely far" distance convention. */
module GameUtils {

  datatype Option<T> = None | Some(value: T)

  /** A point of the 3D scene. */
  datatype Vec3 = Vec3(x: real, y: real, z: real)

  /** A distance as the game sees it: a finite value, or Infinity when a position is missing. */
  datatype Extent = Finite(value: real) | Infinite

  /** A scene object that may carry a position (a restaurant, a house, the player's mesh). */
  datatype Entity = Entity(name: string, position: Option<Vec3>)

  /** The threshold isNear uses when the caller gives none. */
  const DefaultNearThreshold: real := 5.0

  /** `d < bound` with JavaScript's reading of Infinity: never below a finite bound. */
  predicate Below(d: Extent, bound: real) {
    d.Finite? && d.value < bound
  }

  /** distance(vec1, vec2): Infinity when either argument is missing, otherwise the Euclidean
      distance, which is supplied by the caller as `metric`. */
  function Distance(a: Option<Vec3>, b: Option<Vec3>, metric: (Vec3, Vec3) -> real): (d: Extent)
    ensures d.Infinite? <==> a.None? || b.None?
    ensures d.Finite? ==> d.value == metric(a.value, b.value)
  {
    if a.None? || b.None? then Infinite else Finite(metric(a.value, b.value))
  }

  /** A missing position is never close enough for any finite radius. */
  lemma MissingIsNeverBelow(a: Option<Vec3>, b: Option<Vec3>, metric: (Vec3, Vec3) -> real, bound: real)
    requires a.None? || b.None?
    ensures !Below(Distance(a, b, metric), bound)
  {
  }

  /** isNear(obj1, obj2, threshold). */
  function IsNear(a: Option<Entity>, b: Option<Entity>, metric: (Vec3, Vec3) -> real, threshold: real): (near: bool)
    ensures a.None? || b.None? ==> !near
    ensures a.Some? && b.Some? && (a.value.position.None? || b.value.position.None?) ==> !near
    ensures a.Some? && b.Some? && a.value.position.Some? && b.value.position.Some? ==>
              (near <==> metric(a.value.position.value, b.value.position.value) < threshold)
  {
    if a.None? || b.None? || a.value.position.None? || b.value.position.None? then false
    else Below(Distance(a.value.position, b.value.position, metric), threshold)
  }

  /** isNear called without a threshold. */
  function IsNearDefault(a: Option<Entity>, b: Option<Entity>, metric: (Vec3, Vec3) -> real): (near: bool)
    ensures near <==> a.Some? && b.Some? && a.value.position.Some? && b.value.position.Some? &&
                      metric(a.value.position.value, b.value.position.value) < 5.0
  {
    IsNear(a, b, metric, DefaultNearThreshold)
  }

  // ---------------------------------------------------------------------------
  // Decimal text, as Number.prototype.toString and String.prototype.padStart produce it

  predicate IsDigit(c: char) {
    '0' <= c <= '9'
  }

  predicate AllDigits(s: string) {
    forall i :: 0 <= i < |s| ==> IsDigit(s[i])
  }

  function DigitChar(d: nat): (c: char)
    requires d < 10
    ensures IsDigit(c)
  {
    ('0' as int + d) as char
  }

  function DigitValue(c: char): (d: nat)
    requires IsDigit(c)
    ensures d < 10
  {
    c as int - '0' as int
  }

  /** The decimal spelling of a natural number, without leading zeros. */
  function NatToString(n: nat): (s: string)
    decreases n
  {
    if n < 10 then [DigitChar(n)] else NatToString(n / 10) + [DigitChar(n % 10)]
  }

  /** toString() of an integer: a leading '-' for negative values. */
  function IntToString(n: int): string {
    if n < 0 then "-" + NatToString(-n) else NatToString(n)
  }

  /** padStart(2, '0'). */
  function PadTwo(s: string): (r: string)
    ensures |s| >= 2 ==> r == s
    ensures |s| < 2 ==> |r| == 2 && r[2 - |s|..] == s && forall i :: 0 <= i < 2 - |s| ==> r[i] == '0'
  {
    if |s| >= 2 then s else if |s| == 1 then ['0'] + s else "00"
  }

  /** `%` of JavaScript: the remainder of the quotient truncated toward zero, so it takes the sign
      of the dividend. */
  function JsRem(a: int, b: int): (r: int)
    requires b > 0
    ensures a >= 0 ==> 0 <= r < b && a == (a / b) * b + r
    ensures a < 0 ==> -b < r <= 0 && a == -((-a) / b) * b + r
  {
    if a >= 0 then a % b else -((-a) % b)
  }

  /** formatTime(seconds): minutes = floor(seconds / 60) and seconds % 60, each padded to two digits
      and joined by ':'. Dafny's `/` by a positive divisor is the floor division the source uses. */
  function FormatTime(seconds: int): string {
    PadTwo(IntToString(seconds / 60)) + ":" + PadTwo(IntToString(JsRem(seconds, 60)))
  }

  // ---------------------------------------------------------------------------
  // Reading a clock back

  /** The value of a string of decimal digits (leading zeros allowed). */
  function ParseDigits(s: string): nat
    requires AllDigits(s)
  {
    if s == [] then 0 else 10 * ParseDigits(s[..|s| - 1]) + DigitValue(s[|s| - 1])
  }

  /** The index of the first ':' in t. */
  function FindColon(t: string): (k: Option<nat>)
    ensures k.Some? ==> k.value < |t| && t[k.value] == ':' && ':' !in t[..k.value]
    ensures k.None? ==> ':' !in t
  {
    if t == [] then None
    else if t[0] == ':' then Some(0)
    else
      match FindColon(t[1..])
      case None => None
      case Some(k) => assert t[..k + 1] == [t[0]] + t[1..][..k]; Some(k + 1)
  }

  /** Parses "M:S" (each part one or more decimal digits) back into M * 60 + S seconds. */
  function ParseTime(t: string): Option<nat> {
    match FindColon(t)
    case None => None
    case Some(k) => ParseFields(t[..k], t[k + 1..])
  }

  /** The minutes and seconds fields around the colon, when both are non-empty digit strings. */
  function ParseFields(mins: string, secs: string): Option<nat> {
    if mins != [] && secs != [] && AllDigits(mins) && AllDigits(secs)
    then Some(ParseDigits(mins) * 60 + ParseDigits(secs))
    else None
  }

  lemma {:induction false} NatToStringDigits(n: nat)
    ensures var s := NatToString(n); |s| >= 1 && AllDigits(s) && ParseDigits(s) == n
    ensures n < 10 ==> |NatToString(n)| == 1
    ensures 10 <= n < 100 ==> |NatToString(n)| == 2
    decreases n
  {
    if n >= 10 {
      NatToStringDigits(n / 10);
      var s := NatToString(n);
      assert s[..|s| - 1] == NatToString(n / 10);
    }
  }

  /** A leading '0' does not change the value of a digit string. */
  lemma {:induction false} LeadingZero(s: string)
    requires AllDigits(s)
    ensures AllDigits(['0'] + s) && ParseDigits(['0'] + s) == ParseDigits(s)
    decreases |s|
  {
    if s != [] {
      var z := ['0'] + s;
      assert z[..|z| - 1] == ['0'] + s[..|s| - 1];
      LeadingZero(s[..|s| - 1]);
    }
  }

  /** A natural number padded to two digits reads back as itself. */
  lemma PaddedNat(n: nat)
    ensures var p := PadTwo(NatToString(n));
            |p| >= 2 && AllDigits(p) && ParseDigits(p) == n && ':' !in p
    ensures n < 100 ==> |PadTwo(NatToString(n))| == 2
  {
    NatToStringDigits(n);
    var s := NatToString(n);
    if |s| < 2 {
      LeadingZero(s);
      assert PadTwo(s) == ['0'] + s;
    }
  }

  /** The first ':' is the one with no ':' before it. */
  lemma {:induction false} FindColonAt(t: string, i: nat)
    requires i < |t| && t[i] == ':' && ':' !in t[..i]
    ensures FindColon(t) == Some(i)
    decreases i
  {
    if i > 0 {
      assert t[0] == t[..i][0];
      assert t[1..][..i - 1] == t[1..i];
      assert t[1..i] == t[..i][1..];
      FindColonAt(t[1..], i - 1);
    }
  }

  lemma FindColonAfter(a: string, b: string)
    requires ':' !in a
    ensures FindColon(a + ":" + b) == Some(|a|)
  {
    var t := a + ":" + b;
    assert t[..|a|] == a;
    FindColonAt(t, |a|);
  }

  /** Text with no ':' before an inserted ':' parses as its two sides. */
  lemma SplitAtColon(m: string, r: string)
    requires ':' !in m
    ensures ParseTime(m + ":" + r) == ParseFields(m, r)
  {
    var t := m + ":" + r;
    FindColonAfter(m, r);
    assert t[..|m|] == m;
    assert t[|m| + 1..] == r;
  }

  /** For a natural number, the minutes field is the padded decimal of s div 60 and the seconds
      field the padded decimal of s mod 60, both digit strings of length at least 2. */
  lemma FormatTimeFields(s: nat)
    ensures FormatTime(s) == PadTwo(NatToString(s / 60)) + ":" + PadTwo(NatToString(s % 60))
    ensures var m, r := PadTwo(NatToString(s / 60)), PadTwo(NatToString(s % 60));
            |m| >= 2 && |r| == 2 && AllDigits(m) && AllDigits(r) &&
            ParseDigits(m) == s / 60 && ParseDigits(r) == s % 60 && s % 60 < 60
  {
    PaddedNat(s / 60);
    PaddedNat(s % 60);
    assert JsRem(s, 60) == s % 60;
    assert IntToString(s / 60) == NatToString(s / 60);
    assert IntToString(s % 60) == NatToString(s % 60);
  }

  lemma FieldsValue(m: string, r: string)
    requires m != [] && r != [] && AllDigits(m) && AllDigits(r)
    ensures ParseFields(m, r) == Some(ParseDigits(m) * 60 + ParseDigits(r))
  {
  }

  lemma DivMod(s: nat, d: nat)
    requires d > 0
    ensures (s / d) * d + s % d == s
  {
  }

  /** Round trip: reading formatTime(s) back gives s, for every natural s. */
  lemma FormatTimeRoundTrip(s: nat)
    ensures ParseTime(FormatTime(s)) == Some(s)
  {
    var q, k := s / 60, s % 60;
    var m, r := PadTwo(NatToString(q)), PadTwo(NatToString(k));
    FormatTimeFields(s);
    PaddedNat(q);
    FieldsValue(m, r);
    DivMod(s, 60);
    ReadBack(FormatTime(s), m, r, s);
  }

  /** A clock text made of two fields that parse to s reads back as s. */
  lemma ReadBack(t: string, m: string, r: string, s: nat)
    requires t == m + ":" + r && ':' !in m && ParseFields(m, r) == Some(s)
    ensures ParseTime(t) == Some(s)
  {
    SplitAtColon(m, r);
  }

  /** Below 100 minutes the clock is exactly "MM:SS": two digits of minutes, ':', two digits of
      seconds, and the seconds field is in 0..59. */
  lemma FormatTimeShape(s: nat)
    requires s < 6000
    ensures var t := FormatTime(s);
            |t| == 5 && t[2] == ':' && AllDigits(t[..2]) && AllDigits(t[3..]) &&
            ParseDigits(t[..2]) == s / 60 && ParseDigits(t[3..]) == s % 60 && ParseDigits(t[3..]) < 60
  {
    var m, r := PadTwo(NatToString(s / 60)), PadTwo(NatToString(s % 60));
    PaddedNat(s / 60);
    PaddedNat(s % 60);
    var t := m + ":" + r;
    assert FormatTime(s) == t;
    assert t[..2] == m && t[3..] == r;
  }

  /** For a negative count the JavaScript operators give a signed minutes field and a negative
      remainder: -5 seconds is shown as "-1:-5". */
  lemma FormatTimeNegative()
    ensures FormatTime(-5) == "-1:-5"
  {
    assert IntToString(-1) == "-1";
    assert JsRem(-5, 60) == -5;
    assert IntToString(-5) == "-5";
  }
}
