/** `SettingsService`: the seven connection settings and the sensor list,
    the poll interval read from them, and the load rule. The persistent
    `Preferences` storage is a parameter: `stored` maps a key to the text
    `Preferences.get` returned for it; a key it lacks stands for a `null`
    value or a failed read, which the code treats alike. */
module Settings {
  import opened Types

  const SettingKeys: set<string> := {
    "server_name_extern", "server_name_intern", "connection", "username",
    "password", "authentication", "queue_dealy" }

  /** getDefaulSettings: every setting empty. */
  function DefaultSettings(): (d: map<string, string>)
    ensures d.Keys == SettingKeys
    ensures forall k :: k in d ==> d[k] == ""
  {
    map[ "server_name_extern" := "",
         "server_name_intern" := "",
         "connection" := "",
         "username" := "",
         "password" := "",
         "authentication" := "",
         "queue_dealy" := "" ]
  }

  /** The value `readSettings` gives one key: the stored text when it is
      truthy (present and non-empty), otherwise the empty string. */
  function LoadedValue(stored: map<string, string>, key: string): (v: string)
    ensures v != "" <==> key in stored && stored[key] != ""
    ensures v != "" ==> v == stored[key]
  {
    if key in stored && stored[key] != "" then stored[key] else ""
  }

  // ---------------------------------------------------------------------
  // parseInt(text, 10)
  // ---------------------------------------------------------------------

  /** StrWhiteSpaceChar of ECMAScript: white space and line terminators. */
  predicate IsJsWhiteSpace(c: char) {
    c == '\t' || c == '\U{000B}' || c == '\U{000C}' || c == ' ' || c == '\U{00A0}' || c == '\U{FEFF}'
    || c == '\n' || c == '\r' || c == '\U{2028}' || c == '\U{2029}'
    || c == '\U{1680}' || ('\U{2000}' <= c <= '\U{200A}') || c == '\U{202F}' || c == '\U{205F}'
    || c == '\U{3000}'
  }

  /** The text with its leading white space removed. */
  function TrimStart(s: string): (t: string)
    ensures |t| <= |s| && t == s[|s| - |t|..]
    ensures forall i :: 0 <= i < |s| - |t| ==> IsJsWhiteSpace(s[i])
    ensures |t| > 0 ==> !IsJsWhiteSpace(t[0])
  {
    if s != [] && IsJsWhiteSpace(s[0]) then TrimStart(s[1..]) else s
  }

  /** The longest prefix made of decimal digits. */
  function DigitPrefix(s: string): (d: string)
    ensures |d| <= |s| && d == s[..|d|]
    ensures forall i :: 0 <= i < |d| ==> IsDigit(d[i])
    ensures |d| < |s| ==> !IsDigit(s[|d|])
  {
    if s != [] && IsDigit(s[0]) then [s[0]] + DigitPrefix(s[1..]) else []
  }

  function DigitValue(c: char): (d: nat)
    requires IsDigit(c)
    ensures d < 10
  {
    c as int - '0' as int
  }

  /** The number a string of decimal digits denotes. */
  function DigitsValue(ds: string): nat
    requires forall i :: 0 <= i < |ds| ==> IsDigit(ds[i])
  {
    if ds == [] then 0
    else DigitsValue(ds[..|ds| - 1]) * 10 + DigitValue(ds[|ds| - 1])
  }

  /** parseInt(text, 10): skip leading white space, take one optional sign,
      then the longest run of decimal digits; no digit at all is NaN (`None`). */
  function ParseInt(s: string): (r: Option<int>)
    ensures r.Some? ==>
      |TrimStart(s)| > 0 && (IsDigit(TrimStart(s)[0]) || TrimStart(s)[0] == '-' || TrimStart(s)[0] == '+')
    ensures r.Some? && r.value < 0 ==> TrimStart(s)[0] == '-'
    ensures |TrimStart(s)| > 0 && IsDigit(TrimStart(s)[0]) ==> r.Some? && r.value >= 0
  {
    var t := TrimStart(s);
    var negative := |t| > 0 && t[0] == '-';
    var body := if |t| > 0 && (t[0] == '-' || t[0] == '+') then t[1..] else t;
    var digits := DigitPrefix(body);
    if digits == [] then None
    else
      var magnitude: int := DigitsValue(digits);
      Some(if negative then -magnitude else magnitude)
  }

  /** getQueueDealyInSec on the stored text: the parsed number when it is
      positive, otherwise 1. */
  function QueueDelayInSec(setting: string): (d: int)
    ensures d >= 1
    ensures ParseInt(setting).None? ==> d == 1
    ensures ParseInt(setting).Some? && ParseInt(setting).value <= 0 ==> d == 1
    ensures ParseInt(setting).Some? && ParseInt(setting).value > 0 ==> d == ParseInt(setting).value
  {
    match ParseInt(setting)
    case None => 1
    case Some(n) => if n <= 0 then 1 else n
  }

  lemma {:induction false} DigitsValueOfDecimal(n: nat)
    ensures DigitsValue(NatToString(n)) == n
    decreases n
  {
    var s := NatToString(n);
    if n >= 10 {
      assert s[..|s| - 1] == NatToString(n / 10);
      DigitsValueOfDecimal(n / 10);
    }
  }

  lemma {:induction false} DigitPrefixOfDigits(ds: string, rest: string)
    requires forall i :: 0 <= i < |ds| ==> IsDigit(ds[i])
    requires rest == [] || !IsDigit(rest[0])
    ensures DigitPrefix(ds + rest) == ds
  {
    if ds != [] {
      assert (ds + rest)[1..] == ds[1..] + rest;
      DigitPrefixOfDigits(ds[1..], rest);
    } else {
      assert ds + rest == rest;
    }
  }

  /** parseInt reads the decimal rendering of a number back, and stops at
      the first character that is not a digit ("15s" is 15). */
  lemma ParseIntOfDecimal(n: nat, rest: string)
    requires rest == [] || !IsDigit(rest[0])
    ensures ParseInt(NatToString(n) + rest) == Some(n)
  {
    var s := NatToString(n) + rest;
    assert s[0] == NatToString(n)[0];
    assert TrimStart(s) == s;
    DigitPrefixOfDigits(NatToString(n), rest);
    DigitsValueOfDecimal(n);
  }

  /** A leading minus sign makes the result negative. */
  lemma ParseIntOfNegative(n: nat)
    ensures ParseInt("-" + NatToString(n)) == Some(-(n as int))
  {
    var s := "-" + NatToString(n);
    assert TrimStart(s) == s;
    assert s[1..] == NatToString(n) + [];
    DigitPrefixOfDigits(NatToString(n), []);
    DigitsValueOfDecimal(n);
  }

  /** A configured interval of n >= 1 seconds is used as is, even with
      trailing text; zero and negative numbers give 1. */
  lemma QueueDelayOfNumber(n: nat, rest: string)
    requires rest == [] || !IsDigit(rest[0])
    ensures n >= 1 ==> QueueDelayInSec(NatToString(n) + rest) == n
    ensures QueueDelayInSec("-" + NatToString(n)) == 1
  {
    ParseIntOfDecimal(n, rest);
    ParseIntOfNegative(n);
  }

  /** Text that does not start with white space, a sign or a digit is NaN. */
  lemma ParseIntOfWord(w: string)
    requires |w| > 0 && !IsJsWhiteSpace(w[0]) && !IsDigit(w[0]) && w[0] != '-' && w[0] != '+'
    ensures ParseInt(w) == None
  {
    assert TrimStart(w) == w;
    assert DigitPrefix(w) == [];
  }

  /** The unset setting and text that is not a number give 1. */
  lemma QueueDelayOfText(w: string)
    requires |w| > 0 && !IsJsWhiteSpace(w[0]) && !IsDigit(w[0]) && w[0] != '-' && w[0] != '+'
    ensures QueueDelayInSec("") == 1
    ensures QueueDelayInSec(w) == 1
  {
    assert TrimStart("") == "";
    assert DigitPrefix("") == [];
    ParseIntOfWord(w);
  }

  // ---------------------------------------------------------------------
  // The store
  // ---------------------------------------------------------------------

  class SettingsStore {
    var settingsData: map<string, string>
    var sensorDeviceData: seq<SensorData>

    /** The defaults, then the stored settings and sensors read in.
        `storedSensors` is the decoded JSON list, `None` when it is missing
        or cannot be parsed. */
    constructor (stored: map<string, string>, storedSensors: Option<seq<SensorData>>)
      ensures settingsData.Keys == SettingKeys
      ensures forall k :: k in settingsData ==> settingsData[k] == LoadedValue(stored, k)
      ensures sensorDeviceData == if storedSensors.Some? then storedSensors.value else []
    {
      settingsData := DefaultSettings();
      sensorDeviceData := [];
      new;
      ReadSettings(stored);
      ReadSensors(storedSensors);
    }

    /** readSettings: every key already present is loaded by the rule of
        `LoadedValue`; no key is added or removed. */
    method ReadSettings(stored: map<string, string>)
      modifies this`settingsData
      ensures settingsData.Keys == old(settingsData.Keys)
      ensures forall k :: k in settingsData ==> settingsData[k] == LoadedValue(stored, k)
    {
      var pending := settingsData.Keys;
      while pending != {}
        invariant pending <= settingsData.Keys == old(settingsData.Keys)
        invariant forall k :: k in settingsData && k !in pending ==> settingsData[k] == LoadedValue(stored, k)
        decreases pending
      {
        var key :| key in pending;
        settingsData := settingsData[key := LoadedValue(stored, key)];
        pending := pending - {key};
      }
    }

    /** readSensors: the stored list, or an empty one. */
    method ReadSensors(storedSensors: Option<seq<SensorData>>)
      modifies this`sensorDeviceData
      ensures sensorDeviceData == if storedSensors.Some? then storedSensors.value else []
    {
      if storedSensors.Some? {
        sensorDeviceData := storedSensors.value;
      } else {
        sensorDeviceData := [];
      }
    }

    /** get: the value of a setting, or "" for a key that is not one. */
    function Get(key: string): (v: string)
      reads this
      ensures key !in settingsData ==> v == ""
      ensures key in settingsData ==> v == settingsData[key]
    {
      if key !in settingsData then "" else settingsData[key]
    }

    /** getQueueDealyInSec: reload the settings, then parse the interval.
        A missing `queue_dealy` property reads as `undefined`, which parses
        to NaN just as the empty string does. */
    method GetQueueDelayInSec(stored: map<string, string>) returns (d: int)
      modifies this`settingsData
      ensures settingsData.Keys == old(settingsData.Keys)
      ensures forall k :: k in settingsData ==> settingsData[k] == LoadedValue(stored, k)
      ensures d >= 1 && d == QueueDelayInSec(Get("queue_dealy"))
      ensures "queue_dealy" in old(settingsData) ==> d == QueueDelayInSec(LoadedValue(stored, "queue_dealy"))
    {
      ReadSettings(stored);
      d := QueueDelayInSec(Get("queue_dealy"));
    }

    /** getAll: reload the settings and return them. */
    method GetAll(stored: map<string, string>) returns (all: map<string, string>)
      modifies this`settingsData
      ensures all == settingsData && all.Keys == old(settingsData.Keys)
      ensures forall k :: k in all ==> all[k] == LoadedValue(stored, k)
    {
      ReadSettings(stored);
      all := settingsData;
    }

    /** setAll: the given settings replace the current ones wholesale. */
    method SetAll(settings: map<string, string>)
      modifies this`settingsData
      ensures settingsData == settings
    {
      settingsData := settings;
    }

    /** setSensors: the given list replaces the current one wholesale. */
    method SetSensors(sensorList: seq<SensorData>)
      modifies this`sensorDeviceData
      ensures sensorDeviceData == sensorList
    {
      sensorDeviceData := sensorList;
    }
  }
}
