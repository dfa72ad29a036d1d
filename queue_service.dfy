/** `QueueService`: the FIFO of sensor reads waiting to be sent, the poll
    timer that drains it one entry per tick, the host selection and the
    values it publishes (queue length, current index, connection).

    Timing is not modelled: a timer is its period, a tick is one atomic call
    of `Tick`, and each `BehaviorSubject` is a field holding the last value
    sent to it. What a tick learns from the device and the network (the
    interface type, the outcome of the server probe, the HTTP answers and the
    random draws for the client nonce) is passed in. The measurement store is
    the log `measurements`. */
module Queue {
  import opened Types
  import Http
  import Settings

  /** One queued pair `[request, index]`. */
  datatype Entry = Entry(request: SensorData, index: int)

  /** What `checkServer` on the internal host gave: an exception or a status. */
  datatype Probe = ProbeThrew | ProbeStatus(status: int)

  /** One `addMeasurement(rx_id, value)` call. */
  datatype Measurement = Measurement(rxId: int, value: Number)

  /** The automatic mode probes the internal host unless the device is on a
      cellular network. */
  predicate Probes(mode: string, connectionType: string) {
    mode != "intern" && mode != "extern" && connectionType != "cellular"
  }

  /** getHostName's decision: the side whose host is used, as published. */
  function SelectSide(mode: string, connectionType: string, probe: Probe): (side: string)
    ensures side == "intern" || side == "extern"
    ensures mode == "intern" ==> side == "intern"
    ensures mode == "extern" ==> side == "extern"
    ensures mode != "intern" && mode != "extern" ==>
      (side == "intern" <==> Probes(mode, connectionType) && probe == ProbeStatus(401))
  {
    if mode == "intern" then "intern"
    else if mode == "extern" then "extern"
    else if connectionType == "cellular" then "extern"
    else match probe
      case ProbeThrew => "extern"
      case ProbeStatus(status) => if status != 401 then "extern" else "intern"
  }

  /** The setting holding the host name of a side. */
  function HostKey(side: string): (key: string)
    ensures key in Settings.SettingKeys
    ensures key == "server_name_intern" <==> side == "intern"
  {
    if side == "intern" then "server_name_intern" else "server_name_extern"
  }

  /** The probe outcome matters only when the automatic mode probes. */
  lemma ProbeOnlyWhenProbing(mode: string, connectionType: string, p: Probe, q: Probe)
    ensures !Probes(mode, connectionType) ==> SelectSide(mode, connectionType, p) == SelectSide(mode, connectionType, q)
    ensures SelectSide(mode, connectionType, p) != SelectSide(mode, connectionType, q) ==>
      Probes(mode, connectionType) && (p == ProbeStatus(401) || q == ProbeStatus(401))
  {
    if mode != "intern" && mode != "extern" {
      assert SelectSide(mode, connectionType, p) == "intern" <==> Probes(mode, connectionType) && p == ProbeStatus(401);
      assert SelectSide(mode, connectionType, q) == "intern" <==> Probes(mode, connectionType) && q == ProbeStatus(401);
    }
  }

  class QueueService {
    const settings: Settings.SettingsStore
    var queueDelay: int
    var queue: seq<Entry>
    /** The running poll timer's period in milliseconds; `None` before the
        first `processQueue` continuation has installed it. */
    var timer: Option<int>
    var publishedLength: int
    var publishedConnection: string
    var publishedIndex: int
    var measurements: seq<Measurement>

    /** The poll interval is at least a second, and a running timer always
        ticks at the current interval. */
    predicate Valid()
      reads this
    {
      queueDelay >= 1 && (timer.Some? ==> timer.value == queueDelay * 1000)
    }

    /** The synchronous part of the constructor: the three subjects start at
        0, "" and -1; `processQueue` continues later, in `ProcessQueue`. */
    constructor (settings: Settings.SettingsStore)
      ensures Valid()
      ensures this.settings == settings
      ensures queue == [] && timer == None && queueDelay == 1
      ensures publishedLength == 0 && publishedConnection == "" && publishedIndex == -1
      ensures measurements == []
    {
      this.settings := settings;
      queueDelay := 1;
      queue := [];
      timer := None;
      publishedLength := 0;
      publishedConnection := "";
      publishedIndex := -1;
      measurements := [];
    }

    /** processQueue after its await: read the interval and start the timer. */
    method ProcessQueue(stored: map<string, string>)
      modifies this`queueDelay, this`timer, settings`settingsData
      ensures Valid()
      ensures queueDelay == Settings.QueueDelayInSec(settings.Get("queue_dealy"))
      ensures timer == Some(queueDelay * 1000)
      ensures settings.settingsData.Keys == old(settings.settingsData.Keys)
      ensures forall k :: k in settings.settingsData ==> settings.settingsData[k] == Settings.LoadedValue(stored, k)
    {
      queueDelay := settings.GetQueueDelayInSec(stored);
      timer := Some(queueDelay * 1000);
    }

    /** checkNewSettings: a changed interval is taken over, and a running
        timer is restarted with it; an unchanged one changes nothing. */
    method CheckNewSettings(stored: map<string, string>)
      requires Valid()
      modifies this`queueDelay, this`timer, settings`settingsData
      ensures Valid()
      ensures settings.settingsData.Keys == old(settings.settingsData.Keys)
      ensures forall k :: k in settings.settingsData ==> settings.settingsData[k] == Settings.LoadedValue(stored, k)
      ensures Settings.QueueDelayInSec(settings.Get("queue_dealy")) == old(queueDelay) ==>
        queueDelay == old(queueDelay) && timer == old(timer)
      ensures Settings.QueueDelayInSec(settings.Get("queue_dealy")) != old(queueDelay) ==>
        queueDelay == Settings.QueueDelayInSec(settings.Get("queue_dealy")) &&
        timer == (if old(timer).Some? then Some(queueDelay * 1000) else None)
    {
      var delay := settings.GetQueueDelayInSec(stored);
      if delay != queueDelay {
        queueDelay := delay;
        if timer.Some? {
          timer := Some(queueDelay * 1000);
        }
      }
    }

    /** addToQueue: re-check the interval, append the pair at the tail and
        publish the new length. */
    method AddToQueue(request: SensorData, index: int, stored: map<string, string>)
      requires Valid()
      modifies this`queueDelay, this`timer, this`queue, this`publishedLength, settings`settingsData
      ensures Valid()
      ensures queue == old(queue) + [Entry(request, index)]
      ensures publishedLength == |queue|
      ensures settings.settingsData.Keys == old(settings.settingsData.Keys)
      ensures forall k :: k in settings.settingsData ==> settings.settingsData[k] == Settings.LoadedValue(stored, k)
      ensures Settings.QueueDelayInSec(settings.Get("queue_dealy")) == old(queueDelay) ==>
        queueDelay == old(queueDelay) && timer == old(timer)
      ensures Settings.QueueDelayInSec(settings.Get("queue_dealy")) != old(queueDelay) ==>
        queueDelay == Settings.QueueDelayInSec(settings.Get("queue_dealy")) &&
        timer == (if old(timer).Some? then Some(queueDelay * 1000) else None)
    {
      CheckNewSettings(stored);
      queue := queue + [Entry(request, index)];
      publishedLength := |queue|;
    }

    /** clearQueue: drop every pair; nothing is published. */
    method ClearQueue()
      modifies this`queue
      ensures queue == []
    {
      queue := [];
    }

    /** getHostName: pick the side, publish it, and return its host name. */
    method GetHostName(connectionType: string, probe: Probe) returns (host: string)
      modifies this`publishedConnection
      ensures publishedConnection == SelectSide(settings.Get("connection"), connectionType, probe)
      ensures host == settings.Get(HostKey(publishedConnection))
    {
      if settings.Get("connection") == "intern" {
        publishedConnection := "intern";
        return settings.Get("server_name_intern");
      }
      if settings.Get("connection") == "extern" {
        publishedConnection := "extern";
        return settings.Get("server_name_extern");
      }
      if connectionType == "cellular" {
        publishedConnection := "extern";
        return settings.Get("server_name_extern");
      }
      if probe.ProbeThrew? || probe.status != 401 {
        publishedConnection := "extern";
        return settings.Get("server_name_extern");
      }
      publishedConnection := "intern";
      host := settings.Get("server_name_intern");
    }

    /** The read `sendRequests` makes for a dequeued entry: every request
        goes to the host of the side `getHostName` publishes, an unsupported
        method sends nothing, and a Basic read sends the entry's envelope. */
    function ReadOf(entry: Entry, connectionType: string, probe: Probe, wire: Http.Wire,
                    draws: seq<nat>, lib: Http.Library): (x: Http.Exchange)
      requires |draws| >= Http.CnonceLength
      requires forall i :: 0 <= i < |draws| ==> draws[i] < |Http.Alphabet|
      reads settings
      ensures Http.WellFormed(x.result)
      ensures Http.SentTo(x.sent, Http.Url(settings.Get(HostKey(SelectSide(settings.Get("connection"), connectionType, probe)))))
      ensures settings.Get("authentication") != "Basic" && settings.Get("authentication") != "Digest" ==>
        x.sent == [] && !x.result.valid
      ensures settings.Get("authentication") == "Basic" ==>
        |x.sent| == 1 && x.sent[0].body == Some(Http.SoapRequestGetData(entry.request.soapId))
    {
      var host := settings.Get(HostKey(SelectSide(settings.Get("connection"), connectionType, probe)));
      Http.GetData(lib, wire, Http.RandomString(Http.CnonceLength, draws), host, entry.request.soapId,
                   settings.Get("username"), settings.Get("password"), settings.Get("authentication"))
    }

    /** sendRequests: on an empty queue publish -1 and stop; otherwise take
        the head, publish the new length and its index, read it from the
        selected host and store exactly one measurement for its sensor. */
    method SendRequests(connectionType: string, probe: Probe, wire: Http.Wire,
                        draws: seq<nat>, lib: Http.Library)
      requires |draws| >= Http.CnonceLength
      requires forall i :: 0 <= i < |draws| ==> draws[i] < |Http.Alphabet|
      modifies this`queue, this`publishedLength, this`publishedIndex, this`publishedConnection, this`measurements
      ensures old(queue) == [] ==>
        queue == [] && publishedIndex == -1 && publishedLength == old(publishedLength) &&
        publishedConnection == old(publishedConnection) && measurements == old(measurements)
      ensures old(queue) != [] ==>
        queue == old(queue)[1..] && publishedLength == |queue| && publishedIndex == old(queue)[0].index &&
        publishedConnection == SelectSide(settings.Get("connection"), connectionType, probe) &&
        measurements == old(measurements) +
          [Measurement(old(queue)[0].request.rxId, ReadOf(old(queue)[0], connectionType, probe, wire, draws, lib).result.value)]
    {
      if |queue| == 0 {
        publishedIndex := -1;
        return;
      }
      var entry := queue[0];
      queue := queue[1..];
      publishedLength := |queue|;
      publishedIndex := entry.index;

      var oid := entry.request.soapId;
      var hostname := GetHostName(connectionType, probe);
      var username := settings.Get("username");
      var password := settings.Get("password");
      var authentication := settings.Get("authentication");
      // The digest path draws its client nonce inside digestRequest; it is
      // drawn here, from the same draws, and the Basic path ignores it.
      var cnonce := Http.GetRandomString(Http.CnonceLength, draws);
      var data := Http.GetData(lib, wire, cnonce, hostname, oid, username, password, authentication);
      measurements := measurements + [Measurement(entry.request.rxId, data.result.value)];
    }

    /** One tick of the timer `processQueue` starts: send when there is
        something queued, otherwise publish -1. */
    method Tick(connectionType: string, probe: Probe, wire: Http.Wire,
                draws: seq<nat>, lib: Http.Library)
      requires |draws| >= Http.CnonceLength
      requires forall i :: 0 <= i < |draws| ==> draws[i] < |Http.Alphabet|
      modifies this`queue, this`publishedLength, this`publishedIndex, this`publishedConnection, this`measurements
      ensures old(queue) == [] ==>
        queue == [] && publishedIndex == -1 && publishedLength == old(publishedLength) &&
        publishedConnection == old(publishedConnection) && measurements == old(measurements)
      ensures old(queue) != [] ==>
        queue == old(queue)[1..] && publishedLength == |queue| && publishedIndex == old(queue)[0].index &&
        publishedConnection == SelectSide(settings.Get("connection"), connectionType, probe) &&
        measurements == old(measurements) +
          [Measurement(old(queue)[0].request.rxId, ReadOf(old(queue)[0], connectionType, probe, wire, draws, lib).result.value)]
    {
      if |queue| > 0 {
        SendRequests(connectionType, probe, wire, draws, lib);
      } else {
        publishedIndex := -1;
      }
    }
  }
}
