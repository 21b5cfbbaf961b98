# Weather Underground to MQTT bridge: verified model of the request handler

This project models the core of `HASS_addon/pws_server.py`. That file is a small HTTP server. A personal weather
station uploads its readings to it as a Weather Underground style query string
(`GET /?tempf=..&humidity=..&baromin=..`). The server does three things with an upload:

1. It decodes the query with `parse_wu_data` into a dictionary of labelled, unit-converted readings
   (`'Temperature_out_[C]'`, `'Wind_speed_[km/h]'`, ...).
2. It publishes the readings one by one on the MQTT topics `homeassistant/weatherstation/<suffix>`, through a `publish`
   helper that only checks the client's status code.
3. It answers the station with an HTML page. The page shows the dictionary with its single quotes turned into double
   quotes.

The model follows the revision as written:

- The decoder handles seventeen source keys, one independent branch each, including `yearlyrainin`.
- Temperatures, wind and pressure are rounded to integers with Python's `round`.
- Wind is reported in km/h.
- Rain, solar radiation and UV pass through unconverted, so rain stays in inches.
- `lowbatt` 0 becomes 100 and any other integer becomes 0. When `lowbatt` is absent there is no entry at all.
- A decode error propagates out of `do_GET`.
- Each publish looks its reading up with `[...]`. The first missing reading raises `KeyError`. That ends the
  publication sequence, and the page is never written, because the write comes after the last publish.

Later revisions of the bridge round to decimals, use m/s and mm, default `lowbatt` to 100, and add wind chill,
absolute pressure, a `last_update` topic and discovery documents. The model covers this revision only.

Modules, one per concern:

- `Wrappers` (`wrappers.dfy`): the `Option` and `Result` datatypes.
- `Readings` (`readings.dfy`): the seventeen readings. For each one: its source key, its dictionary label, its topic
  suffix and its conversion rule. Also the common decode/publish order, and inverse lookups showing that keys and
  suffixes are distinct.
- `PyNumbers` (`pynumbers.dfy`): Python `round` as round-half-to-even on reals. Also a decimal instance of
  `int()`/`float()`, and `str()` on integers.
- `Decoder` (`decoder.dfy`): `parse_wu_data`. It is generic over a pair of partial parsers (`NumberSyntax`). `None`
  stands for Python's `ValueError`.
- `DecoderProperties` (`decoder_properties.dfy`): properties relating decodes of different queries.
- `Publication` (`publication.dfy`): the topic list, the publication sequence with its cut-off at the first missing
  reading, and the `publish` status helper.
- `Rendering` (`rendering.dfy`): `str()` of the dictionary, the quote replacement and the HTML page.
- `Handler` (`handler.dfy`): `do_GET` as a whole.
- `WorkedExamples` (`worked_examples.dfy`): concrete uploads decoded with the decimal parsers.

## Model

| member | source | states |
|---|---|---|
| Readings.OrderListsEveryReadingOnce | HASS_addon/pws_server.py:54-110 | the decoder tests seventeen readings, each exactly once |
| Readings.SourceKeyInverse | HASS_addon/pws_server.py:56-105 | every reading is decoded from its own query key; no two readings share a key |
| Readings.LabelsAreDistinct | HASS_addon/pws_server.py:58-109 | two different readings never share a dictionary label |
| Readings.TopicSuffixInverse | HASS_addon/pws_server.py:127-143 | every reading is published on its own topic suffix; no two share one |
| PyNumbers.Round | HASS_addon/pws_server.py:57 | Python `round`: the result is an integer within one half of the input, and a tie goes to the even neighbour |
| PyNumbers.RoundIsUnique | HASS_addon/pws_server.py:57 | those two properties determine `round`'s result completely |
| PyNumbers.ParseIntShowInt | HASS_addon/pws_server.py:60 | `int()` reads back what `str()` writes for every integer |
| PyNumbers.ParseFloatAcceptsInts | HASS_addon/pws_server.py:57 | every string `int()` accepts, `float()` accepts with the same value |
| Decoder.Convert | HASS_addon/pws_server.py:57-109 | a value converts iff its parser (`int()` for humidity, wind direction, lowbatt; `float()` otherwise) accepts it; temperatures are an integer within 1/2 of (F-32)*5/9, wind within 1/2 of mph*1.609344, pressure within 1/2 of inHg*33.86389; humidity and direction are the parsed integer; rain, solar and UV the parsed float unchanged; lowbatt 0 gives 100, any other integer 0 |
| Decoder.DecodeReading | HASS_addon/pws_server.py:56-109 | a present key's branch fails iff its value list is empty (IndexError) or its first value does not parse (ValueError); the error records that branch's key and, for ValueError, the text; otherwise it yields the conversion of the first value |
| Decoder.DecodeFrom | HASS_addon/pws_server.py:55-110 | running branches in order on an empty dictionary succeeds iff no present key fails; the keys are exactly the readings whose source key is present; each value is its branch's result; on failure the error is the first failing branch's |
| Decoder.Decode | HASS_addon/pws_server.py:54-110 | `parse_wu_data` succeeds iff every present source key parses; a reading is in the result iff its source key is in the query; on failure the branch that raised is the first bad key in branch order |
| DecoderProperties.DecodeFromSeesFirstValues | HASS_addon/pws_server.py:56-105 | any run of branches gives the same outcome on two queries with the same source keys and first values |
| DecoderProperties.OnlyFirstValuesMatter | HASS_addon/pws_server.py:56-105 | extra values for a key, and keys outside the vocabulary, never change the decoded result or the error |
| DecoderProperties.EmptyQueryDecodesToEmpty | HASS_addon/pws_server.py:55-110 | an empty query decodes to an empty dictionary (no defaults, not even for lowbatt) |
| DecoderProperties.LowBatteryRule | HASS_addon/pws_server.py:104-109 | lowbatt absent gives no entry; present and 0 gives 100; present and any other integer gives 0 |
| DecoderProperties.DecodedKeys | HASS_addon/pws_server.py:56-105 | after a successful decode, a reading has an entry iff its query key was sent |
| DecoderProperties.DecodedValue | HASS_addon/pws_server.py:56-109 | after a successful decode, each key sent has a non-empty value list and its reading holds the conversion of the first value |
| DecoderProperties.ReadingValue | HASS_addon/pws_server.py:56-103 | each present key's stored value obeys its conversion (rounded Celsius, km/h, hPa; integer or float identity) |
| DecoderProperties.FailureNamesFirstBadKey | HASS_addon/pws_server.py:56-109 | decoding fails as a whole iff some present key has no value or an unparsable one; the branch that raised is the first such key in branch order, and the error is IndexError for an empty list or ValueError for the unparsable text |
| DecoderProperties.SingleReadingDecode | HASS_addon/pws_server.py:55-110 | a query that feeds exactly one reading decodes to a one-entry dictionary holding that reading's value |
| Publication.RunFrom | HASS_addon/pws_server.py:127-143 | the i-th message goes to the i-th reading's topic with that reading's value; the sequence stops exactly at the first reading missing from the dictionary, which it reports |
| Publication.PublishRun | HASS_addon/pws_server.py:127-143 | the seventeen publishes go to the listed topics in order; the run is complete iff no lookup raised, otherwise it stops at the first missing reading |
| Publication.TopicsAreDistinct | HASS_addon/pws_server.py:127-143 | every topic is `homeassistant/weatherstation/` plus its suffix, and the seventeen topics are pairwise distinct |
| Publication.MissingReadingCutsOff | HASS_addon/pws_server.py:127-143 | if the reading for the (k+1)-th topic is the first one missing, exactly the first k messages are published, on the first k topics |
| Publication.CompleteIffAllPresent | HASS_addon/pws_server.py:127-143 | all seventeen messages go out iff every reading is in the dictionary |
| Publication.PublishOutcome | HASS_addon/pws_server.py:43-49 | the helper inspects only the status: 0 is a delivery, any other value a failure notice naming the topic |
| Publication.Transmit | HASS_addon/pws_server.py:40-49 | every message is handed to the client; the helper records a failure iff the status is non-zero, naming that message's topic, and never stops later messages |
| Rendering.Present | HASS_addon/pws_server.py:124 | lists exactly the readings of the given order that are in the dictionary; when the given order is strictly increasing in branch order, so is the list, so each reading appears at most once |
| Rendering.PresentIsInsertionOrder | HASS_addon/pws_server.py:124 | `str()` shows exactly the dictionary's keys, strictly in branch order, which is the decoder's insertion order |
| Rendering.PyStr | HASS_addon/pws_server.py:124 | `str(http_message)` is braced, is `{}` exactly for the empty dictionary, and otherwise opens with a single-quoted key |
| Rendering.ReplaceQuotes | HASS_addon/pws_server.py:124 | `str.replace("'", '"')` keeps the length and swaps exactly the single quotes |
| Rendering.AckTextIsDoubleQuoted | HASS_addon/pws_server.py:124 | the acknowledgement is the dictionary with its keys in double quotes and entries in insertion order; no single quote remains |
| Rendering.HtmlPage | HASS_addon/pws_server.py:125 | the page is the fixed head, the dictionary with double-quoted keys between the h1 tags, and the fixed tail; no single quote appears in it |
| Handler.HandleGet | HASS_addon/pws_server.py:113-146 | `do_GET`: the status is always 200; at most seventeen messages are published, the i-th on the i-th topic and only if its source key is present; a decode error means nothing is published and no page; a page means no fault and all seventeen topics published |
| Handler.Respond | HASS_addon/pws_server.py:113-146 | the status is always 200; a decode error means nothing is published and no page is written; otherwise the publication sequence runs, and the page is written iff no lookup raised KeyError; a KeyError carries the missing reading's label |
| Handler.BodyOnlyForCompleteUploads | HASS_addon/pws_server.py:121-146 | the page is written iff the upload carries all seventeen source keys and all of them parse; then all seventeen topics were published, in order |
| Handler.AbsentKeyCutsOffPublication | HASS_addon/pws_server.py:121-143 | if a query decodes but its (k+1)-th source key in publication order is the first one absent, exactly k topics are published, then KeyError on that reading's label, and no page |
| Handler.DoGet | HASS_addon/pws_server.py:113-146 | `do_GET` with the client in the loop (the `publish` helper of lines 40-49), every message of the sequence is handed over whatever statuses come back, and a failure is recorded iff the status is non-zero |
| WorkedExamples.SingleKeyDecode | HASS_addon/pws_server.py:55-110 | a query with one key and one value decodes to just that reading's converted value |
| WorkedExamples.FreezingPoint | HASS_addon/pws_server.py:57 | `tempf=32` gives `Temperature_out_[C] = 0` |
| WorkedExamples.BoilingPoint | HASS_addon/pws_server.py:57 | `tempf=212` gives `Temperature_out_[C] = 100` |
| WorkedExamples.TenMilesPerHour | HASS_addon/pws_server.py:69 | `windspeedmph=10` gives `Wind_speed_[km/h] = 16` |
| WorkedExamples.StandardPressure | HASS_addon/pws_server.py:102 | `baromin=29.92` gives `Barometric_pressure_[hpa] = 1013` |
| WorkedExamples.PressureDecode | HASS_addon/pws_server.py:101-103 | a lone `baromin` value that `float()` reads as x decodes to x inHg in hPa, rounded to a whole number |
| WorkedExamples.BatteryFlags | HASS_addon/pws_server.py:104-109 | `lowbatt=0` gives 100 and `lowbatt=1` gives 0 |
| WorkedExamples.FractionalHumidityFails | HASS_addon/pws_server.py:59-60 | `humidity=45.5` is rejected by `int()`, so the whole decode fails with a ValueError raised in the `humidity` branch on the text `45.5` |
| WorkedExamples.RepeatedKeyReadsFirstValue | HASS_addon/pws_server.py:56-58 | `tempf=32&tempf=212` decodes as `tempf=32` |
| WorkedExamples.LoneTemperatureRun | HASS_addon/pws_server.py:127-128 | with only the temperature decoded, one message goes to `homeassistant/weatherstation/temperature_out`, then the humidity lookup fails |
| WorkedExamples.LoneTemperatureUpload | HASS_addon/pws_server.py:113-143 | an upload with only `tempf=32` publishes 0 on the temperature topic, raises KeyError on `Humidity_out_[%]` and writes no page |

## Left out

- The HTTP transport is left out: `TCPServer`, `serve_forever`, `send_response`/`send_header`/`end_headers` and
  `wfile` (lines 113-119, 146, 150-156). The status is recorded as 200. The page is recorded as written or not.
- The MQTT client is left out: its construction, credentials, last will, `connect`/`loop_start` and the
  `on_connect`/`on_disconnect` callbacks (lines 22-39). They are a foreign library and its network lifecycle. The
  client is the function `client(i, message)`, which gives the status of the i-th publish call. The message id it
  also returns is ignored, as in the source.
- `urlparse`/`parse_qs` (line 121) is treated as a given primitive. Its result is the key-to-list map `Query`.
- The decode errors carry the query key of the branch that raised. Python's exceptions do not carry it:
  `int('45.5')` raises `ValueError: invalid literal for int() with base 10: '45.5'`, and `[0]` on an empty list raises
  a bare `IndexError`. Python shows the branch only in the traceback.
- Printing and logging (lines 24-28, 33, 46, 49) are left out. A failed publish is recorded as `Failed(topic)`, which
  is the fact the log line reports.
- Floating point is left out. Values are exact reals, so `(F-32)*5/9`, `mph*1.609344` and `inHg*33.86389` are exact
  products. Where an IEEE product lands on the other side of a .5 boundary, Python's integer can differ from the
  model's.
- Python's `float()` accepts `inf` and `nan`. Reals cannot hold them, so a `float()` parser here yields finite values
  only.
- `PyNumbers.ParseInt`, `PyNumbers.ParseFloat`: these accept only an optional sign with ASCII digits and, for floats,
  one optional decimal point. Python also accepts surrounding whitespace, digit-separating underscores, exponents and
  non-ASCII digits. The decoder and all its properties are stated for any pair of parsers. These two instances are
  used only for the worked examples.
- Python's `str()` of a float writes the shortest round-trip form. That form depends on the IEEE value, not on a real
  number, so `Rendering` takes the float text as a parameter. `AckTextIsDoubleQuoted` assumes only that this text
  has no single quote.
- The MQTT payload is the reading itself (`Message.payload` is a `Value`). The client library's conversion of the
  number to bytes is not modelled.
- `do_GET` calls `parse_wu_data` again for every publish. The function is pure, and the first call already
  succeeded, so each call yields the same dictionary. The model decodes once.
- An exception escaping `do_GET` is handed to the server library. The model records it as a `Fault` and does not
  model what the library then does with the connection.
