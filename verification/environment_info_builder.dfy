/** RaygunEnvironmentInfoBuilder: the environment section of a crash report. Each
    group of platform lookups is guarded separately, so a lookup that raises leaves
    the fields it had not yet assigned unset and does not affect the other groups.
    The platform's answers are inputs; the window bounds and the UTC offset are
    floating-point values and are not part of this model. */
module EnvironmentInfoBuilder {
  import opened Common

  /** The outcome of a platform lookup: a value, or an exception. */
  datatype Lookup<+T> = Found(value: T) | Failed

  /** RaygunEnvironmentInfo without its floating-point fields. */
  datatype EnvironmentInfo = EnvironmentInfo(
    osVersion: Option<string>,
    currentOrientation: Option<string>,
    architecture: Option<string>,
    deviceManufacturer: Option<string>,
    deviceName: Option<string>,
    locale: Option<string>)

  /** EasClientDeviceInformation */
  datatype DeviceInformation = DeviceInformation(systemManufacturer: string, systemProductName: string, operatingSystem: string)

  /** What the platform answers when the environment is read. */
  datatype Platform = Platform(
    // Window.Current != null
    hasWindow: bool,
    // SimpleOrientationSensor.GetDefault() and GetCurrentOrientation(): None when
    // there is no sensor
    orientation: Lookup<Option<string>>,
    // the time zone lookup and CultureInfo.CurrentCulture.DisplayName
    locale: Lookup<string>,
    // new EasClientDeviceInformation()
    device: Lookup<DeviceInformation>,
    // AnalyticsInfo.VersionInfo.DeviceFamilyVersion, None when the runtime types
    // or properties cannot be reached
    deviceFamilyVersion: Option<string>,
    // Package.Current.Id.Architecture
    architecture: Lookup<string>)

  // ---------------------------------------------------------------------------
  // long.TryParse with NumberStyles.Integer

  const Int64Min := -0x8000_0000_0000_0000
  const Int64Max := 0x7FFF_FFFF_FFFF_FFFF

  /** The white space NumberStyles.AllowLeadingWhite and AllowTrailingWhite accept. */
  predicate IsNumberWhite(c: char) {
    c == ' ' || '\t' <= c <= '\r'
  }

  function SkipLeadingWhite(s: string): (r: string)
    ensures |r| <= |s|
    ensures r == [] || !IsNumberWhite(r[0])
  {
    if s != [] && IsNumberWhite(s[0]) then SkipLeadingWhite(s[1..]) else s
  }

  function SkipTrailingWhite(s: string): (r: string)
    ensures |r| <= |s|
    ensures r == [] || !IsNumberWhite(r[|r| - 1])
  {
    if s != [] && IsNumberWhite(s[|s| - 1]) then SkipTrailingWhite(s[..|s| - 1]) else s
  }

  /** What SkipLeadingWhite leaves is a suffix of its input. */
  lemma {:induction false} SkipLeadingIsSuffix(s: string)
    ensures SkipLeadingWhite(s) == s[|s| - |SkipLeadingWhite(s)|..]
    decreases |s|
  {
    if s != [] && IsNumberWhite(s[0]) {
      SkipLeadingIsSuffix(s[1..]);
      assert s[1..][|s| - 1 - |SkipLeadingWhite(s)|..] == s[|s| - |SkipLeadingWhite(s)|..];
    }
  }

  /** What SkipTrailingWhite leaves is a prefix of its input. */
  lemma {:induction false} SkipTrailingIsPrefix(s: string)
    ensures SkipTrailingWhite(s) == s[..|SkipTrailingWhite(s)|]
    decreases |s|
  {
    if s != [] && IsNumberWhite(s[|s| - 1]) {
      SkipTrailingIsPrefix(s[..|s| - 1]);
    }
  }

  predicate AllDigits(s: string) {
    forall k :: 0 <= k < |s| ==> '0' <= s[k] <= '9'
  }

  /** long.TryParse(s, out v): white space, an optional sign, at least one decimal
      digit and white space, denoting a value in the range of a 64-bit integer. */
  function ParseInt64(s: string): (r: Option<int>)
    ensures r.Some? ==> Int64Min <= r.value <= Int64Max
  {
    match SignedValue(SkipTrailingWhite(SkipLeadingWhite(s)))
    case None => None
    case Some(v) => if Int64Min <= v <= Int64Max then Some(v) else None
  }

  /** The value of an optional sign followed by at least one decimal digit. */
  function SignedValue(t: string): Option<int> {
    if t == [] then None
    else
      var digits := if t[0] == '-' || t[0] == '+' then t[1..] else t;
      if digits == [] || !AllDigits(digits) then None
      else if t[0] == '-' then Some(-(ValueOfDigits(digits) as int))
      else Some(ValueOfDigits(digits))
  }

  /** long.ToString(): the decimal text of a number. */
  function DecimalText(v: int): string {
    if v < 0 then "-" + DigitsOf(-v) else DigitsOf(v)
  }

  lemma DigitsHaveNoWhite(s: string)
    requires AllDigits(s) && s != []
    ensures SkipLeadingWhite(s) == s && SkipTrailingWhite(s) == s
  {
  }

  lemma NegativeTextParses(n: nat)
    requires n > 0
    ensures var text := "-" + DigitsOf(n);
      SkipTrailingWhite(SkipLeadingWhite(text)) == text && SignedValue(text) == Some(-(n as int))
  {
    var digits := DigitsOf(n);
    var text := "-" + digits;
    assert SkipLeadingWhite(text) == text;
    assert SkipTrailingWhite(text) == text by {
      assert text[|text| - 1] == digits[|digits| - 1];
    }
    assert SignedValue(text) == Some(-(n as int)) by {
      assert text[1..] == digits;
      DigitsRoundTrip(n);
    }
  }

  lemma PositiveTextParses(n: nat)
    ensures var text := DigitsOf(n);
      SkipTrailingWhite(SkipLeadingWhite(text)) == text && SignedValue(text) == Some(n)
  {
    var text := DigitsOf(n);
    DigitsHaveNoWhite(text);
    assert SignedValue(text) == Some(n) by {
      assert text[0] != '-' && text[0] != '+';
      DigitsRoundTrip(n);
    }
  }

  /** A text with nothing to skip whose signed value is in range parses to it. */
  lemma ParsesTo(text: string, v: int)
    requires SkipTrailingWhite(SkipLeadingWhite(text)) == text && SignedValue(text) == Some(v)
    requires Int64Min <= v <= Int64Max
    ensures ParseInt64(text) == Some(v)
  {
  }

  /** Parsing the decimal text of a 64-bit number gives the number back. */
  lemma ParseInt64RoundTrip(v: int)
    requires Int64Min <= v <= Int64Max
    ensures ParseInt64(DecimalText(v)) == Some(v)
  {
    var text := DecimalText(v);
    if v < 0 {
      var n: nat := -v;
      assert text == "-" + DigitsOf(n);
      NegativeTextParses(n);
    } else {
      assert text == DigitsOf(v);
      PositiveTextParses(v);
    }
    ParsesTo(text, v);
  }

  // ---------------------------------------------------------------------------
  // GetOSVersion

  const Bit16 := 0x1_0000
  const Bit32 := 0x1_0000_0000
  const Bit48 := 0x1_0000_0000_0000
  const Bit64 := 0x1_0000_0000_0000_0000

  /** (ushort)(v >> shift): an arithmetic right shift of a 64-bit value (a floor
      division), truncated to its low 16 bits. */
  function Component(v: int, shift: int): (r: int)
    requires shift == 0 || shift == 16 || shift == 32 || shift == 48
    ensures 0 <= r < Bit16
  {
    var divisor := if shift == 48 then Bit48 else if shift == 32 then Bit32 else if shift == 16 then Bit16 else 1;
    (v / divisor) % Bit16
  }

  /** Version.ToString() of a four-part version. */
  function VersionText(major: nat, minor: nat, build: nat, revision: nat): string {
    DigitsOf(major) + "." + DigitsOf(minor) + "." + DigitsOf(build) + "." + DigitsOf(revision)
  }

  /** GetOSVersion: the device family version, a 64-bit number holding four 16-bit
      parts from the most significant down, written as a dotted version; None when
      it is unavailable or does not parse. */
  function OSVersionOf(deviceFamilyVersion: Option<string>): (r: Option<string>)
    ensures r.Some? <==> deviceFamilyVersion.Some? && ParseInt64(deviceFamilyVersion.value).Some?
  {
    if deviceFamilyVersion.None? then None
    else
      match ParseInt64(deviceFamilyVersion.value)
      case None => None
      case Some(v) => Some(VersionText(Component(v, 48), Component(v, 32), Component(v, 16), Component(v, 0)))
  }

  /** The 64-bit number a version is packed into, as a signed 64-bit value. */
  function Packed(a: nat, b: nat, c: nat, d: nat): (v: int)
    requires a < Bit16 && b < Bit16 && c < Bit16 && d < Bit16
    ensures Int64Min <= v <= Int64Max
  {
    var u := a * Bit48 + b * Bit32 + c * Bit16 + d;
    if u <= Int64Max then u else u - Bit64
  }

  lemma ComponentsOfPacked(a: nat, b: nat, c: nat, d: nat)
    requires a < Bit16 && b < Bit16 && c < Bit16 && d < Bit16
    ensures var v := Packed(a, b, c, d);
      Component(v, 48) == a && Component(v, 32) == b && Component(v, 16) == c && Component(v, 0) == d
  {
    var u := a * Bit48 + b * Bit32 + c * Bit16 + d;
    // the signed value differs from u by 0 or by 2^64
    var m := if u <= Int64Max then 0 else 1;
    var v := Packed(a, b, c, d);
    assert v == u - m * Bit64;
    ComponentOf(v, u, m, 48, a, b * Bit32 + c * Bit16 + d, Bit16);
    ComponentOf(v, u, m, 32, a * Bit16 + b, c * Bit16 + d, Bit32);
    LowBits(a, b);
    ComponentOf(v, u, m, 16, a * Bit32 + b * Bit16 + c, d, Bit48);
    LowBits(a * Bit16 + b, c);
    ComponentOf(v, u, m, 0, u, 0, Bit64);
    LowBits(a * Bit32 + b * Bit16 + c, d);
  }

  /** The component at `shift` of v = u - m * 2^64, where u = high * 2^shift + low,
      is high modulo 2^16. */
  lemma ComponentOf(v: int, u: int, m: int, shift: int, high: int, low: int, rest: int)
    requires shift == 0 || shift == 16 || shift == 32 || shift == 48
    requires var divisor := if shift == 48 then Bit48 else if shift == 32 then Bit32 else if shift == 16 then Bit16 else 1;
      0 <= low < divisor && u == high * divisor + low && divisor * rest == Bit64
    requires rest % Bit16 == 0 && v == u - m * Bit64
    ensures Component(v, shift) == high % Bit16
  {
    var divisor := if shift == 48 then Bit48 else if shift == 32 then Bit32 else if shift == 16 then Bit16 else 1;
    ShiftOf(u, m, divisor, high, low, rest);
  }

  lemma LowBits(high: int, low: int)
    requires 0 <= low < Bit16
    ensures (high * Bit16 + low) % Bit16 == low
  {
    DivModUnique(high * Bit16 + low, Bit16, high, low);
  }

  lemma MulAtLeast(k: int, d: int)
    requires k >= 1 && d > 0
    ensures k * d >= d
  {
  }

  /** Euclidean division is unique: a quotient and a remainder in range are x / d
      and x % d. */
  lemma DivModUnique(x: int, d: int, q: int, s: int)
    requires d > 0 && 0 <= s < d && x == q * d + s
    ensures x / d == q && x % d == s
  {
    var q0 := x / d;
    var s0 := x % d;
    assert x == q0 * d + s0;
    assert (q - q0) * d == s0 - s;
    if q > q0 {
      MulAtLeast(q - q0, d);
    } else if q < q0 {
      MulAtLeast(q0 - q, d);
    }
  }

  /** Dividing u - m * 2^64 = high * divisor + low - m * 2^64 by the divisor leaves
      high, up to a multiple of 2^16. */
  lemma ShiftOf(u: int, m: int, divisor: int, high: int, low: int, rest: int)
    requires divisor > 0 && 0 <= low < divisor && u == high * divisor + low
    requires divisor * rest == Bit64 && rest % Bit16 == 0
    ensures ((u - m * Bit64) / divisor) % Bit16 == high % Bit16
  {
    var y := high - m * rest;
    assert u - m * Bit64 == y * divisor + low;
    DivModUnique(u - m * Bit64, divisor, y, low);
    var r := rest / Bit16;
    assert rest == r * Bit16;
    assert y == high - (m * r) * Bit16;
    DivModUnique(high, Bit16, high / Bit16, high % Bit16);
    assert y == (high / Bit16 - m * r) * Bit16 + high % Bit16;
    DivModUnique(y, Bit16, high / Bit16 - m * r, high % Bit16);
  }

  /** A packed version reads back as its four parts. */
  lemma OSVersionRoundTrip(a: nat, b: nat, c: nat, d: nat)
    requires a < Bit16 && b < Bit16 && c < Bit16 && d < Bit16
    ensures OSVersionOf(Some(DecimalText(Packed(a, b, c, d)))) == Some(VersionText(a, b, c, d))
  {
    ParseInt64RoundTrip(Packed(a, b, c, d));
    ComponentsOfPacked(a, b, c, d);
  }

  // ---------------------------------------------------------------------------
  // Build

  /** The environment read from the platform, group by group. */
  function EnvironmentOf(p: Platform): (r: EnvironmentInfo)
    // screen group
    ensures r.currentOrientation == (if p.hasWindow && p.orientation.Found? then p.orientation.value else None)
    // time and locale group
    ensures r.locale == (if p.locale.Found? then Some(p.locale.value) else None)
    // device group: the decoded version, or else the device's operating system
    ensures p.device.Failed? ==> r.deviceManufacturer.None? && r.deviceName.None? && r.osVersion.None?
    ensures p.device.Found? ==>
      r.deviceManufacturer == Some(p.device.value.systemManufacturer) &&
      r.deviceName == Some(p.device.value.systemProductName) &&
      r.osVersion == Some(if OSVersionOf(p.deviceFamilyVersion).Some? then OSVersionOf(p.deviceFamilyVersion).value
                          else p.device.value.operatingSystem)
    // package group
    ensures r.architecture == (if p.architecture.Found? then Some(p.architecture.value) else None)
  {
    var orientation := if p.hasWindow && p.orientation.Found? then p.orientation.value else None;
    var locale := if p.locale.Found? then Some(p.locale.value) else None;
    var manufacturer := if p.device.Found? then Some(p.device.value.systemManufacturer) else None;
    var name := if p.device.Found? then Some(p.device.value.systemProductName) else None;
    var os := if p.device.Found? then
                var decoded := OSVersionOf(p.deviceFamilyVersion);
                Some(if decoded.Some? then decoded.value else p.device.value.operatingSystem)
              else None;
    var architecture := if p.architecture.Found? then Some(p.architecture.value) else None;
    EnvironmentInfo(os, orientation, architecture, manufacturer, name, locale)
  }

  /** A failing lookup changes only the fields of its own group. */
  lemma FailureStaysInGroup(p: Platform)
    ensures var r := EnvironmentOf(p);
      var q := EnvironmentOf(p.(locale := Failed));
      q == r.(locale := None)
    ensures var r := EnvironmentOf(p);
      var q := EnvironmentOf(p.(architecture := Failed));
      q == r.(architecture := None)
    ensures var r := EnvironmentOf(p);
      var q := EnvironmentOf(p.(orientation := Failed));
      q == r.(currentOrientation := None)
    ensures var r := EnvironmentOf(p);
      var q := EnvironmentOf(p.(device := Failed));
      q == r.(deviceManufacturer := None, deviceName := None, osVersion := None)
  {
  }

  /** Build */
  method Build(p: Platform) returns (r: EnvironmentInfo)
    ensures r == EnvironmentOf(p)
  {
    r := EnvironmentInfo(None, None, None, None, None, None);
    if p.hasWindow && p.orientation.Found? && p.orientation.value.Some? {
      r := r.(currentOrientation := p.orientation.value);
    }
    if p.locale.Found? {
      r := r.(locale := Some(p.locale.value));
    }
    if p.device.Found? {
      var device := p.device.value;
      r := r.(deviceManufacturer := Some(device.systemManufacturer));
      r := r.(deviceName := Some(device.systemProductName));
      var decoded := OSVersionOf(p.deviceFamilyVersion);
      r := r.(osVersion := Some(if decoded.Some? then decoded.value else device.operatingSystem));
    }
    if p.architecture.Found? {
      r := r.(architecture := Some(p.architecture.value));
    }
  }
}
