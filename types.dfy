/** Values shared by the services and the sensor page of the heat-pump app. */
module Types {

  datatype Option<T> = None | Some(value: T)

  /** A JavaScript number as the app handles it: the literal 0, or whatever
      `Number(text)` yields for the text content of a SOAP element. The
      floating-point value itself (and NaN) is not modelled, so a converted
      number stays symbolic. */
  datatype Number = Zero | FromText(text: string)

  /** One sensor as the sensor list and the settings store hold it
      (`SensorDeviceData` extended with the last reading of `SensorData`).
      `value` and `timestamp` are `None` where the object has no such
      property, as for a sensor just created by the edit dialog. */
  datatype SensorData = SensorData(
    rxId: int,
    soapId: string,
    name: string,
    unit: string,
    value: Option<Number>,
    timestamp: Option<string>)

  predicate IsDigit(c: char) {
    '0' <= c <= '9'
  }

  function DigitChar(d: nat): (c: char)
    requires d < 10
    ensures IsDigit(c) && c as int - '0' as int == d
  {
    ('0' as int + d) as char
  }

  /** Decimal rendering of a natural number, as `String(n)` gives it. */
  function NatToString(n: nat): (s: string)
    ensures |s| > 0
    ensures forall i :: 0 <= i < |s| ==> IsDigit(s[i])
    ensures (s[0] == '0') == (n == 0)
    decreases n
  {
    if n < 10 then [DigitChar(n)] else NatToString(n / 10) + [DigitChar(n % 10)]
  }

  /** Decimal rendering of an integer, with a leading '-' when negative. */
  function IntToString(i: int): (s: string)
    ensures |s| > 0
    ensures (s[0] == '-') == (i < 0)
    ensures i >= 0 ==> IsDigit(s[0])
    ensures forall k :: 0 < k < |s| ==> IsDigit(s[k])
  {
    if i < 0 then "-" + NatToString(-i) else NatToString(i)
  }
}
