# HPassistant heat-pump reader: a Dafny model of its polling core

HPassistant is an Ionic/Angular app that reads values from a heat pump's
SOAP web service. This project models the part of the app that does the
polling, and proves properties of that model:

- **`Http`** (`http_service.dfy`) covers `HttpService`:
  - the `getDpRequest` SOAP envelope;
  - the `key="value"` extractor for the `WWW-Authenticate` challenge;
  - the RFC 2617 digest (`qop=auth`, `algorithm=MD5`, `nc=00000001`) and its `Authorization` header;
  - the 15-character client nonce;
  - the error result;
  - the Basic and Digest read flows and the `getData` dispatch.

  MD5, base64 (`btoa`) and the XML parser are the parameters of a `Library` value. What the server answers is a `Wire` value: the outcome of the first and the second HTTP request. A read returns its result together with the requests it sent.
- **`Settings`** (`settings_service.dfy`) covers `SettingsService`:
  - the seven settings and their defaults;
  - the load rule (stored text if non-empty, else `""`);
  - `get`;
  - `parseInt(…, 10)` and the poll interval derived from it;
  - the store, a class whose methods replace its fields.

  The persistent `Preferences` store is a `map` parameter.
- **`Queue`** (`queue_service.dfy`) covers `QueueService`:
  - the FIFO of `[request, index]` pairs;
  - the poll timer, which is restarted only when the interval changes;
  - the host selection (`intern`, `extern`, or automatic by cellular state and a probe of the internal host);
  - the values it publishes: length, current index and connection;
  - one measurement per dequeued entry.
- **`SensorList`** (`tab1_page.dfy`) covers `Tab1Page`:
  - the in-place reorder;
  - the `rx_id → position` map;
  - the edit dialog (new / edit / delete / clean) and its `confirm`, `cancel` and reset;
  - the handler for incoming readings.
- **`Types`** (`types.dfy`) holds the shared sensor record and the decimal rendering of numbers.

Each module models one source file. State that the source changes in
place lives in a class whose methods declare what they modify; pure
computations are functions with lemmas about them.

## Model

| member | source | states |
|---|---|---|
| Http.SoapRequestGetData | src/app/services/http.service.ts:35-56 | the envelope is a fixed head, then the oid verbatim, then a fixed tail, so the oid can be read back out of it |
| Http.OidBetweenTags | src/app/services/http.service.ts:47 | the oid stands unescaped directly between `<oid>` and `</oid>`; distinct oids give distinct envelopes |
| Http.ErrorDataResult | src/app/services/http.service.ts:135-142 | an error result has value 0, unit "", valid false and message "Error: " + message |
| Http.GetValueFromSoapResponse | src/app/services/http.service.ts:183-198 | the result is valid exactly when the value and unit elements exist and the unit text is not null; a valid result carries the value and unit text, an invalid one is an error result |
| Http.GetPartOfHeader | src/app/services/http.service.ts:151-162 | the result, when present, is the value of the leftmost `key="…"` whose value is non-empty and closed by a quote (an empty `key=""` is skipped), so it is non-empty and quote-free; it is absent exactly when no position matches |
| Http.MatchAt | src/app/services/http.service.ts:153 | one attempt of the pattern `key="[^"]+"` at a position: a captured value is non-empty and quote-free |
| Http.MatchAtShape | src/app/services/http.service.ts:153 | a match at a position means `key="` stands there, followed by the captured value and a closing quote |
| Http.FindFrom | src/app/services/http.service.ts:153-154 | the `exec` scan from a position on: a value it finds is non-empty and quote-free |
| Http.FindFromIsLeftmost | src/app/services/http.service.ts:153-154 | what the scan finds is the value at the leftmost matching position |
| Http.FindFromNone | src/app/services/http.service.ts:153-155 | the scan finds nothing exactly when no position matches |
| Http.FirstMatchExtracted | src/app/services/http.service.ts:153-157 | a match at a position with no match before it is the one returned |
| Http.HeaderText | src/app/services/http.service.ts:226-231 | a present header is read as its text; a missing one as "undefined", from which neither a realm nor a nonce is extracted, so the read stops with "realm not found" |
| Http.NoQuoteNoMatch | src/app/services/http.service.ts:153 | a text without a double quote holds no `key="value"` for any key |
| Http.ChallengeRealm | src/app/services/http.service.ts:226 | on a typical challenge the realm is extracted |
| Http.ChallengeNonce | src/app/services/http.service.ts:231 | on a typical challenge the nonce is extracted |
| Http.ChallengeWithoutNonce | src/app/services/http.service.ts:231-234 | a challenge without a nonce yields no nonce |
| Http.AlphabetIsAlphanumeric | src/app/services/http.service.ts:170 | the alphabet has 62 characters, all letters or digits |
| Http.RandomString | src/app/services/http.service.ts:169-176 | the string `getRandomString(length)` yields (line 99 draws the client nonce with length 15) has exactly `length` characters, the i-th being the alphabet character at the i-th draw, all letters or digits |
| Http.GetRandomString | src/app/services/http.service.ts:169-176 | the counted loop builds exactly `RandomString(length, draws)` |
| Http.DigestResponse | src/app/services/http.service.ts:100-102 | the response is the RFC 2617 request-digest KD(H(A1), nonce:nc:cnonce:qop:H(A2)) with H(A1) over user:realm:password and H(A2) over method:uri |
| Http.DigestHeader | src/app/services/http.service.ts:104-113 | the header is "Digest " and the nine auth-params username, realm, nonce, uri, algorithm, qop, nc, cnonce, response in that order, joined by ", " |
| Http.ProbeRequest | src/app/services/http.service.ts:65-73 | the probe is a POST to the URL with no content type, no credentials and no body |
| Http.BasicRead | src/app/services/http.service.ts:275-306 | exactly one request: the SOAP POST to the host's `/ws` carrying `Basic` and the base64 of `username:password`, with the oid's envelope; a thrown request gives an error result with its text; every result is well formed; every request goes to the host |
| Http.BasicIgnoresStatus | src/app/services/http.service.ts:297-305 | a Basic read never looks at the status or the challenge; any answer is decoded |
| Http.DigestHandshake | src/app/services/http.service.ts:208-245 | a handshake that stops has an error result and sent only to the host; one that reaches the POST's answer did so only after a 401 probe and an answered POST, with exactly the probe and the POST sent to the host, and carries that answer's status and body |
| Http.DigestRead | src/app/services/http.service.ts:208-251 | every result is well formed and every request goes to the host; a valid result only after a 401 probe, two requests and a 200 answer (the error message of a rejected POST is the corrected one, see Findings) |
| Http.DigestReadAsWritten | src/app/services/http.service.ts:208-251 | the same guarantees for the read as written, whose rejected-POST message names the probe's status |
| Http.DigestReadErrors | src/app/services/http.service.ts:215-248 | a Digest read sends the probe first and at most two requests; a thrown probe, a non-401 status, a missing realm (checked first) and a missing nonce each stop after the probe with their own error; a thrown or non-200 POST gives an error |
| Http.DigestReadAuthenticates | src/app/services/http.service.ts:226-250 | with a 401 challenge carrying realm and nonce, the second request is the SOAP POST with the digest over exactly those values, and a 200 answer is decoded |
| Http.AsWrittenReportsProbeStatus | src/app/services/http.service.ts:246-247 | as written a rejected POST is always reported as "got 401"; the corrected read names the POST's own status, and the two differ whenever that status is not 401 |
| Types.IntToString | src/app/services/http.service.ts:221-223 | the rendering of a status is non-empty, starts with '-' exactly for a negative number and is otherwise all digits (the same rendering at line 247) |
| Http.IntToStringInjective | src/app/services/http.service.ts:247 | different statuses render differently, so the corrected message identifies the status |
| Http.GetData | src/app/services/http.service.ts:318-330 | "Basic" and "Digest" go to their reads (Digest to the corrected one); every request goes to the host; any other method gives "authentication method '<m>' not implemented." and sends nothing; every result is well formed |
| Settings.DefaultSettings | src/app/services/settings.service.ts:116-126 | the defaults have exactly the seven keys, all "" |
| Settings.LoadedValue | src/app/services/settings.service.ts:55-60 | a loaded value is non-empty exactly when the stored text is present and non-empty, and is then that text |
| Settings.ParseInt | src/app/services/settings.service.ts:157 | `parseInt(text, 10)`: a number only when the text after leading white space starts with a digit or a sign; a negative one only after a minus; a leading digit always gives a non-negative number |
| Settings.ParseIntOfDecimal | src/app/services/settings.service.ts:157 | parseInt reads a decimal numeral back and stops at the first non-digit |
| Settings.ParseIntOfNegative | src/app/services/settings.service.ts:157 | a leading minus gives the negated number |
| Settings.ParseIntOfWord | src/app/services/settings.service.ts:157-158 | text that starts with no space, sign or digit is NaN |
| Settings.QueueDelayInSec | src/app/services/settings.service.ts:156-163 | the interval is at least 1; NaN and values <= 0 give 1, a positive parsed value is returned unchanged |
| Settings.QueueDelayOfNumber | src/app/services/settings.service.ts:157-160 | a configured n >= 1 (even with trailing text) is used as is; a negative one gives 1 |
| Settings.QueueDelayOfText | src/app/services/settings.service.ts:157-158 | the unset setting and any text starting with no white space, sign or digit give 1 |
| Settings.SettingsStore.constructor | src/app/services/settings.service.ts:42-46 | after construction the seven keys hold their loaded values and the sensor list is the stored one or empty |
| Settings.SettingsStore.ReadSettings | src/app/services/settings.service.ts:52-66 | every present key gets its loaded value; the key set is unchanged |
| Settings.SettingsStore.ReadSensors | src/app/services/settings.service.ts:85-97 | the sensor list becomes the stored list, or empty when missing or unreadable |
| Settings.SettingsStore.Get | src/app/services/settings.service.ts:191-197 | an unknown key gives "", a known one its value |
| Settings.SettingsStore.GetQueueDelayInSec | src/app/services/settings.service.ts:154-164 | the settings are reloaded and the interval is the normalised reloaded `queue_dealy`, at least 1 |
| Settings.SettingsStore.GetAll | src/app/services/settings.service.ts:181-184 | the settings are reloaded and returned |
| Settings.SettingsStore.SetAll | src/app/services/settings.service.ts:171-174 | the settings are replaced wholesale |
| Settings.SettingsStore.SetSensors | src/app/services/settings.service.ts:140-143 | the sensor list is replaced wholesale |
| Queue.SelectSide | src/app/services/queue.service.ts:84-117 | "intern" and "extern" pick their side; otherwise the side is intern exactly when the device is not cellular and the probe answered 401 |
| Queue.ProbeOnlyWhenProbing | src/app/services/queue.service.ts:98-114 | the probe outcome changes the choice only in automatic mode off a cellular network, and only through a 401 |
| Queue.QueueService.constructor | src/app/services/queue.service.ts:28-45 | the queue starts empty with published length 0, connection "" and index -1, and no timer yet |
| Queue.QueueService.ProcessQueue | src/app/services/queue.service.ts:70-74 | the interval is read from the settings and a timer with that period is started |
| Queue.QueueService.CheckNewSettings | src/app/services/queue.service.ts:47-58 | an unchanged interval changes nothing; a changed one is taken over and a running timer restarted with it; a running timer always ticks at the current interval |
| Queue.QueueService.AddToQueue | src/app/services/queue.service.ts:60-64 | the interval is re-checked as `checkNewSettings` does (an unchanged one keeps interval and timer, a changed one is taken over and a running timer restarted with it), then the pair is appended at the tail and the new length is published |
| Queue.QueueService.ClearQueue | src/app/services/queue.service.ts:66-68 | the queue becomes empty and nothing is published |
| Queue.QueueService.GetHostName | src/app/services/queue.service.ts:84-117 | the published connection is the selected side and the host is that side's configured name |
| Queue.QueueService.ReadOf | src/app/services/queue.service.ts:131-138 | the read of an entry is well formed and every request it sends goes to the host of the side `getHostName` selects; an unsupported method sends nothing and gives an invalid result; a Basic read sends one request carrying the entry's envelope |
| Queue.QueueService.SendRequests | src/app/services/queue.service.ts:121-140 | an empty queue publishes -1 and changes nothing else; otherwise exactly the head is removed, the new length and its index are published, and exactly one measurement with its `rx_id` and the read's value is stored, valid or not |
| Queue.QueueService.Tick | src/app/services/queue.service.ts:73-81 | a tick on an empty queue publishes -1 and changes nothing else; otherwise the head is removed, the new length, its index and the selected side are published, and exactly one measurement with its `rx_id` and the read's value is appended |
| SensorList.Moved | src/app/tab1/tab1.page.ts:98-111 | a reorder keeps the length and puts the element from `from` at `to` |
| SensorList.MovedAt | src/app/tab1/tab1.page.ts:101-111 | elements between `from` and `to` shift one place toward `from`; all others stay |
| SensorList.MovedIsPermutation | src/app/tab1/tab1.page.ts:98-111 | a reorder is a permutation |
| SensorList.IndexMap | src/app/tab1/tab1.page.ts:132-137 | every key of the map points at a position holding that `rx_id` |
| SensorList.IndexMapKeys | src/app/tab1/tab1.page.ts:132-137 | the keys are exactly the `rx_id`s of the list |
| SensorList.IndexMapIsLastIndex | src/app/tab1/tab1.page.ts:134-135 | with duplicate ids the last position wins |
| SensorList.ToSensorData | src/app/tab1/tab1.page.ts:124-130 | all sensor fields are kept; value is 0 and timestamp "" |
| SensorList.ConfirmedSensor | src/app/tab1/tab1.page.ts:225-234 | an empty oid becomes '/1/2/3/4/5', an empty name 'not named', other fields are kept; no value or timestamp |
| SensorList.RemoveAt | src/app/tab1/tab1.page.ts:242 | `splice(i, 1)` removes exactly the element at i (one fewer, same multiset less that one, order kept), or nothing past the end |
| SensorList.Tab1Page.constructor | src/app/tab1/tab1.page.ts:65-85 | the page starts with no sensors, an empty map and the dialog closed |
| SensorList.Tab1Page.UpdateMap | src/app/tab1/tab1.page.ts:132-137 | the map is rebuilt as `IndexMap` of the list |
| SensorList.Tab1Page.ShiftDown | src/app/tab1/tab1.page.ts:101-105 | positions from `from` to `to - 1` take their right neighbour, all others unchanged |
| SensorList.Tab1Page.ShiftUp | src/app/tab1/tab1.page.ts:106-110 | positions from `from` down to `to + 1` take their left neighbour, all others unchanged |
| SensorList.Tab1Page.MoveInPlace | src/app/tab1/tab1.page.ts:100-111 | the list becomes `Moved(list, from, to)` |
| SensorList.Tab1Page.HandleReorder | src/app/tab1/tab1.page.ts:98-116 | the list is moved, stored in the settings and the map rebuilt |
| SensorList.Tab1Page.SetDefault | src/app/tab1/tab1.page.ts:208-218 | all four flags false and all edit fields empty or 0 |
| SensorList.Tab1Page.Cancel | src/app/tab1/tab1.page.ts:220-222 | the dialog is closed and the list untouched |
| SensorList.Tab1Page.Confirmed | src/app/tab1/tab1.page.ts:235-243 | new appends the record, edit replaces only the edited position, delete removes exactly it, otherwise the list is unchanged |
| SensorList.Tab1Page.ApplyDialog | src/app/tab1/tab1.page.ts:235-243 | the push, index assignment and splice leave the list `Confirmed` describes |
| SensorList.Tab1Page.Confirm | src/app/tab1/tab1.page.ts:224-250 | the list becomes the confirmed list, a clean records one removal request for the edited `rx_id`, the list is stored, the map rebuilt and the dialog closed |
| SensorList.Tab1Page.New | src/app/tab1/tab1.page.ts:298-310 | an empty dialog in new mode whose `rx_id` is the current time |
| SensorList.Tab1Page.Edit | src/app/tab1/tab1.page.ts:284-296 | the dialog holds the sensor's fields and index, in edit mode |
| SensorList.Tab1Page.Delete | src/app/tab1/tab1.page.ts:252-266 | the dialog holds the sensor's fields, index and measurement count, in delete mode |
| SensorList.Tab1Page.Clean | src/app/tab1/tab1.page.ts:268-282 | the dialog holds the sensor's fields, index and measurement count, in clean mode |
| SensorList.Tab1Page.OnLastUpdate | src/app/tab1/tab1.page.ts:176-191 | a reading for an unknown id changes nothing; a known one sets only that sensor's value and date |
| SensorList.Tab1Page.NgOnInit | src/app/tab1/tab1.page.ts:156-165 | the stored sensors are reloaded and shown through `toSensorData`, the map rebuilt and the dialog closed |

## Left out

- Network and device I/O: the HTTP requests, `checkServer` and `Network.getStatus` are replaced by their outcomes, which are parameters. A throwing `Network.getStatus` is not modelled.
- MD5, `btoa` and `DOMParser` are uninterpreted functions. The `InvalidCharacterError` that `btoa` throws on non-Latin-1 credentials is not modelled.
- `Number()` on the value text and NaN are floating point. A value stays symbolic (`Number.FromText`).
- `Math.random` is replaced by a sequence of draws, each below 62.
- Timing and concurrency: the rxjs timers, overlapping asynchronous ticks and the missing request timeouts are not modelled. Each tick and each awaited continuation is one atomic method.
- The `timestamp: new Date()` of results and the German date formatting of readings are not modelled. The formatted date is a parameter.
- Http.GetPartOfHeader: the key is matched as literal text. The code builds a regular expression from it, which differs only for keys with regex metacharacters; the app uses only `realm` and `nonce`.
- Http.GetValueFromSoapResponse: an empty unit text is a valid result, as the code does; only a `null` unit is rejected.
- Http.GetData: the Digest branch calls the corrected `DigestRead`, so a rejected authenticated POST reports its own status where `getData` as written reports 401 (see Findings). Through it `ReadOf`, `SendRequests` and `Tick` use the corrected message; the stored measurement value is 0 either way.
- Settings.SettingsStore.constructor: the code starts `readSettings()` and `readSensors()` without awaiting them, so right after construction the store still holds the defaults and the loaded values arrive later. The model states the state once both reads have completed.
- Settings.ParseInt: JavaScript's `parseInt` returns a double, so numerals above 2^53 are rounded and very long ones give Infinity. The model parses exactly over unbounded integers.
- Queue.QueueService.SendRequests: the client nonce is drawn in the tick rather than inside `digestRequest`. The result is the same for Digest reads, and Basic reads ignore it.
- Aliasing: `setSensors` and `setAll` store the caller's own array or object, and `getAll` hands out the store's own object. Later in-place changes are therefore shared between caller and store; the settings page, which is not part of this model, edits the object it got between two `setAll` calls. The model copies the value at the time of each call.
- Settings.SettingsStore.Get: the store is modelled as a map of its own keys. JavaScript's `in` at line 192 of `settings.service.ts` also finds names inherited from `Object.prototype` (`toString`, `constructor`, `__proto__`), for which `get` returns the inherited property instead of `""`. The app passes only the seven setting names.
- `rx-db.service.ts` is not part of this model. Measurement writes are a log, and removal requests a list of ids.
- Sensor JSON (de)serialisation, `Preferences.set`, `handleRefresh`, `initData`, `toggle_sort_button`, the page's subscriptions and `ngOnDestroy`, `getDefaultSensorDeviceData` and `tab3.page.ts` are not part of this model.
- JavaScript's `sensorList[i] = x` with `i` beyond the end would grow the array with holes. The model requires an edit or delete in progress to name an existing position, which `edit` and `delete` establish.

## Findings

| source | as written | input that shows it | evidently intended | confidence | as-written member | corrected member |
|---|---|---|---|---|---|---|
| src/app/services/http.service.ts:246-247 | a rejected authenticated POST is reported as "Http status 200 expected but got " followed by the probe's status, which is always 401 there | probe answered 401 with realm and nonce, then the POST answered 500: the message says "got 401" | the message names the POST's own status ("got 500") | high, not executed | Http.DigestReadAsWritten | Http.DigestRead |
