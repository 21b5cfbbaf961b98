/** Worked uploads, decoded with the decimal instance of int() and float(). */
module WorkedExamples {

  import opened Wrappers
  import opened Readings
  import opened Decoder
  import opened DecoderProperties
  import opened Publication
  import opened Handler
  import PyNumbers

  /** A query carrying a single key with a single value decodes to at most
      the one reading that key feeds. */
  lemma SingleKeyDecode(r: Reading, text: string, v: Value)
    requires Convert(ConversionOf(r), text, DecimalSyntax) == Some(v)
    ensures Decode(map[SourceKey(r) := [text]], DecimalSyntax) == Success(map[r := v])
  {
    var raw := map[SourceKey(r) := [text]];
    forall s: Reading | SourceKey(s) in raw ensures s == r {
      SourceKeyInverse(s);
      SourceKeyInverse(r);
    }
    SingleReadingDecode(raw, DecimalSyntax, r, v);
  }

  /** Freezing point: tempf=32 gives 0 degrees Celsius. */
  lemma FreezingPoint()
    ensures Decode(map["tempf" := ["32"]], DecimalSyntax) == Success(map[TemperatureOut := Int(0)])
  {
    assert PyNumbers.ParseFloat("32") == Some(32.0);
    PyNumbers.RoundIsUnique(0.0, 0);
    SingleKeyDecode(TemperatureOut, "32", Int(0));
  }

  /** Boiling point: tempf=212 gives 100 degrees Celsius. */
  lemma BoilingPoint()
    ensures Decode(map["tempf" := ["212"]], DecimalSyntax) == Success(map[TemperatureOut := Int(100)])
  {
    assert PyNumbers.DigitsValue("212") == 212 by {
      assert "212"[..2] == "21" && "21"[..1] == "2";
    }
    assert PyNumbers.ParseInt("212") == Some(212);
    PyNumbers.ParseFloatAcceptsInts("212");
    PyNumbers.RoundIsUnique(100.0, 100);
    SingleKeyDecode(TemperatureOut, "212", Int(100));
  }

  /** windspeedmph=10 gives 16 km/h. */
  lemma TenMilesPerHour()
    ensures Decode(map["windspeedmph" := ["10"]], DecimalSyntax) == Success(map[WindSpeed := Int(16)])
  {
    assert PyNumbers.ParseFloat("10") == Some(10.0);
    PyNumbers.RoundIsUnique(10.0 * 1.609344, 16);
    SingleKeyDecode(WindSpeed, "10", Int(16));
  }

  /** baromin=29.92 gives 1013 hPa. */
  lemma StandardPressure()
    ensures Decode(map["baromin" := ["29.92"]], DecimalSyntax) == Success(map[BarometricPressure := Int(1013)])
  {
    StandardPressureText();
    PyNumbers.RoundIsUnique(29.92 * 33.86389, 1013);
    PressureDecode("29.92", 29.92, 1013);
  }

  /** A lone baromin value that float() reads as x decodes to x inHg
      rounded to whole hPa. */
  lemma PressureDecode(text: string, x: real, n: int)
    requires PyNumbers.ParseFloat(text) == Some(x)
    requires n == PyNumbers.Round(x * HpaPerInHg)
    ensures Decode(map["baromin" := [text]], DecimalSyntax) == Success(map[BarometricPressure := Int(n)])
  {
    PressureConversion(text, x, n);
    assert SourceKey(BarometricPressure) == "baromin";
    SingleKeyDecode(BarometricPressure, text, Int(n));
  }

  lemma PressureConversion(text: string, x: real, n: int)
    requires PyNumbers.ParseFloat(text) == Some(x)
    requires n == PyNumbers.Round(x * HpaPerInHg)
    ensures Convert(ConversionOf(BarometricPressure), text, DecimalSyntax) == Some(Int(n))
  {
  }

  lemma StandardPressureText()
    ensures PyNumbers.ParseFloat("29.92") == Some(29.92)
  {
    assert PyNumbers.DotIndex("29.92") == 2;
    assert "29.92"[..2] == "29" && "29.92"[3..] == "92";
    assert PyNumbers.DigitsValue("29") == 29 by { assert "29"[..1] == "2"; }
    assert PyNumbers.DigitsValue("92") == 92 by { assert "92"[..1] == "9"; }
    assert PyNumbers.Pow10(2) == 100;
  }

  /** lowbatt=0 reports a full battery, lowbatt=1 an empty one. */
  lemma BatteryFlags()
    ensures Decode(map["lowbatt" := ["0"]], DecimalSyntax) == Success(map[LowBattery := Int(100)])
    ensures Decode(map["lowbatt" := ["1"]], DecimalSyntax) == Success(map[LowBattery := Int(0)])
  {
    assert PyNumbers.ParseInt("0") == Some(0);
    assert PyNumbers.ParseInt("1") == Some(1);
    SingleKeyDecode(LowBattery, "0", Int(100));
    SingleKeyDecode(LowBattery, "1", Int(0));
  }

  /** int() rejects "45.5", so humidity=45.5 makes the whole decode fail. */
  lemma FractionalHumidityFails()
    ensures Decode(map["humidity" := ["45.5"]], DecimalSyntax) == Failure(NotANumber("humidity", "45.5"))
  {
    var raw := map["humidity" := ["45.5"]];
    assert !PyNumbers.IsDigit("45.5"[2]);
    assert PyNumbers.ParseInt("45.5") == None;
    FailureNamesFirstBadKey(raw, DecimalSyntax);
    assert SourceKey(HumidityOut) in raw && !Parses(ConversionOf(HumidityOut), raw[SourceKey(HumidityOut)][0], DecimalSyntax);
    assert Decode(raw, DecimalSyntax).Failure?;
    var k :| 0 <= k < |Order| && Fails(Order[k], raw, DecimalSyntax)
             && Decode(raw, DecimalSyntax).error ==
                  (if |raw[SourceKey(Order[k])]| == 0 then EmptyValueList(SourceKey(Order[k]))
                   else NotANumber(SourceKey(Order[k]), raw[SourceKey(Order[k])][0]));
    SourceKeyInverse(Order[k]);
  }

  /** A repeated key: only its first value is read. */
  lemma RepeatedKeyReadsFirstValue()
    ensures Decode(map["tempf" := ["32", "212"]], DecimalSyntax) == Success(map[TemperatureOut := Int(0)])
  {
    OnlyFirstValuesMatter(map["tempf" := ["32", "212"]], map["tempf" := ["32"]], DecimalSyntax);
    FreezingPoint();
  }

  /** An upload with only tempf publishes the temperature and then stops at
      the humidity lookup, without writing the page. */
  lemma LoneTemperatureUpload(showFloat: real -> string)
    ensures HandleGet(map["tempf" := ["32"]], DecimalSyntax, showFloat) ==
              Exchange(200, [Message("homeassistant/weatherstation/temperature_out", Int(0))],
                       None, Some(KeyError("Humidity_out_[%]")))
  {
    FreezingPoint();
    LoneTemperatureRun();
  }

  lemma LoneTemperatureRun()
    ensures PublishRun(map[TemperatureOut := Int(0)]) ==
              Run([Message("homeassistant/weatherstation/temperature_out", Int(0))], Some(HumidityOut))
  {
    FirstReadingOnlyRun(map[TemperatureOut := Int(0)]);
    TemperatureTopic();
  }

  lemma TemperatureTopic()
    ensures Topic(TemperatureOut) == "homeassistant/weatherstation/temperature_out"
  {
  }

  /** A dictionary holding the temperature but not the humidity publishes
      the temperature alone. */
  lemma FirstReadingOnlyRun(d: map<Reading, Value>)
    requires TemperatureOut in d && HumidityOut !in d
    ensures PublishRun(d) == Run([Message(Topic(TemperatureOut), d[TemperatureOut])], Some(HumidityOut))
  {
    MissingReadingCutsOff(d, 1);
    var run := PublishRun(d);
    assert run.attempted[0] == Message(AllTopics()[0], d[Order[0]]);
    assert run.attempted == [run.attempted[0]];
  }
}
