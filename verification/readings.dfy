/** The fixed vocabulary of the weather-station handler: which query keys it
    reads, under which label each reading is stored, on which topic suffix it
    is published, and which unit conversion applies to it. */
module Readings {

  import opened Wrappers

  /** One reading the handler knows about; the handler in HASS_addon/pws_server.py
      knows exactly these seventeen. */
  datatype Reading =
    | TemperatureOut | HumidityOut | DewPoint | WindDirection | WindSpeed
    | WindGustSpeed | RainRate | RainDaily | RainWeekly | RainMonthly
    | RainYearly | SolarRadiation | Uv | TemperatureIn | HumidityIn
    | BarometricPressure | LowBattery

  /** The order in which the decoder tests the source keys, which is also the
      order in which the request handler publishes the readings. */
  const Order: seq<Reading> :=
    [ TemperatureOut, HumidityOut, DewPoint, WindDirection, WindSpeed,
      WindGustSpeed, RainRate, RainDaily, RainWeekly, RainMonthly,
      RainYearly, SolarRadiation, Uv, TemperatureIn, HumidityIn,
      BarometricPressure, LowBattery ]

  /** The query-string key a reading is decoded from. */
  function SourceKey(r: Reading): string
  {
    match r
    case TemperatureOut => "tempf"
    case HumidityOut => "humidity"
    case DewPoint => "dewptf"
    case WindDirection => "winddir"
    case WindSpeed => "windspeedmph"
    case WindGustSpeed => "windgustmph"
    case RainRate => "rainin"
    case RainDaily => "dailyrainin"
    case RainWeekly => "weeklyrainin"
    case RainMonthly => "monthlyrainin"
    case RainYearly => "yearlyrainin"
    case SolarRadiation => "solarradiation"
    case Uv => "UV"
    case TemperatureIn => "indoortempf"
    case HumidityIn => "indoorhumidity"
    case BarometricPressure => "baromin"
    case LowBattery => "lowbatt"
  }

  /** The key under which a decoded reading is stored in the result dictionary. */
  function Label(r: Reading): string
  {
    match r
    case TemperatureOut => "Temperature_out_[C]"
    case HumidityOut => "Humidity_out_[%]"
    case DewPoint => "Dew_point_[C]"
    case WindDirection => "Wind_direction_[degree]"
    case WindSpeed => "Wind_speed_[km/h]"
    case WindGustSpeed => "Wind_gust_speed_[km/h]"
    case RainRate => "Rain_rate_[]"
    case RainDaily => "Rain_daily_[]"
    case RainWeekly => "Rain_weekly_[]"
    case RainMonthly => "Rain_monthly_[]"
    case RainYearly => "Rain_yearly_[]"
    case SolarRadiation => "Solar_radiation_[W/m^2]"
    case Uv => "UV_[index]"
    case TemperatureIn => "Temperature_in_[C]"
    case HumidityIn => "Humidity_in_[%]"
    case BarometricPressure => "Barometric_pressure_[hpa]"
    case LowBattery => "Low_battery_[]"
  }

  /** The last segment of the topic a reading is published on. */
  function TopicSuffix(r: Reading): string
  {
    match r
    case TemperatureOut => "temperature_out"
    case HumidityOut => "humidity_out"
    case DewPoint => "dewpoint"
    case WindDirection => "wind_direction"
    case WindSpeed => "wind_speed"
    case WindGustSpeed => "wind_gust_speed"
    case RainRate => "rain_rate"
    case RainDaily => "rain_daily"
    case RainWeekly => "rain_weekly"
    case RainMonthly => "rain_monthly"
    case RainYearly => "rain_yearly"
    case SolarRadiation => "solar_radiation"
    case Uv => "uv_index"
    case TemperatureIn => "temperature_in"
    case HumidityIn => "humidity_in"
    case BarometricPressure => "barometric_pressure"
    case LowBattery => "low_battery"
  }

  /** The rule that turns a reading's raw text into its stored number. */
  datatype Conversion =
    | FahrenheitToCelsius  // float, (F - 32) * 5 / 9, rounded to an integer
    | MphToKmh             // float, times 1.609344, rounded to an integer
    | InHgToHpa            // float, times 33.86389, rounded to an integer
    | WholeNumber          // int, unchanged
    | Decimal              // float, unchanged (rain stays in inches)
    | BatteryFlag          // int, 0 becomes 100 and anything else 0

  function ConversionOf(r: Reading): Conversion
  {
    match r
    case TemperatureOut => FahrenheitToCelsius
    case DewPoint => FahrenheitToCelsius
    case TemperatureIn => FahrenheitToCelsius
    case HumidityOut => WholeNumber
    case HumidityIn => WholeNumber
    case WindDirection => WholeNumber
    case WindSpeed => MphToKmh
    case WindGustSpeed => MphToKmh
    case BarometricPressure => InHgToHpa
    case RainRate => Decimal
    case RainDaily => Decimal
    case RainWeekly => Decimal
    case RainMonthly => Decimal
    case RainYearly => Decimal
    case SolarRadiation => Decimal
    case Uv => Decimal
    case LowBattery => BatteryFlag
  }

  /** Conversions that go through Python's int() rather than float(). */
  predicate ParsesAsInt(c: Conversion)
  {
    c == WholeNumber || c == BatteryFlag
  }

  /** The position of a reading in Order. */
  function Position(r: Reading): (i: nat)
    ensures i < |Order| && Order[i] == r
  {
    match r
    case TemperatureOut => 0
    case HumidityOut => 1
    case DewPoint => 2
    case WindDirection => 3
    case WindSpeed => 4
    case WindGustSpeed => 5
    case RainRate => 6
    case RainDaily => 7
    case RainWeekly => 8
    case RainMonthly => 9
    case RainYearly => 10
    case SolarRadiation => 11
    case Uv => 12
    case TemperatureIn => 13
    case HumidityIn => 14
    case BarometricPressure => 15
    case LowBattery => 16
  }

  /** The decoder looks for every reading, and the handler publishes it, exactly once. */
  lemma OrderListsEveryReadingOnce()
    ensures |Order| == 17
    ensures forall r: Reading :: r in Order
    ensures forall i, j :: 0 <= i < j < |Order| ==> Order[i] != Order[j]
  {
    forall r: Reading ensures r in Order {
      assert Order[Position(r)] == r;
    }
  }

  /** The reading a query key is decoded into, if any. */
  function ReadingOfKey(k: string): (r: Option<Reading>)
  {
    if k == "tempf" then Some(TemperatureOut)
    else if k == "humidity" then Some(HumidityOut)
    else if k == "dewptf" then Some(DewPoint)
    else if k == "winddir" then Some(WindDirection)
    else if k == "windspeedmph" then Some(WindSpeed)
    else if k == "windgustmph" then Some(WindGustSpeed)
    else if k == "rainin" then Some(RainRate)
    else if k == "dailyrainin" then Some(RainDaily)
    else if k == "weeklyrainin" then Some(RainWeekly)
    else if k == "monthlyrainin" then Some(RainMonthly)
    else if k == "yearlyrainin" then Some(RainYearly)
    else if k == "solarradiation" then Some(SolarRadiation)
    else if k == "UV" then Some(Uv)
    else if k == "indoortempf" then Some(TemperatureIn)
    else if k == "indoorhumidity" then Some(HumidityIn)
    else if k == "baromin" then Some(BarometricPressure)
    else if k == "lowbatt" then Some(LowBattery)
    else None
  }

  /** Distinct readings come from distinct query keys. */
  lemma SourceKeyInverse(r: Reading)
    ensures ReadingOfKey(SourceKey(r)) == Some(r)
  {
    if Position(r) < 8 {
      EarlySourceKeyInverse(r);
    } else {
      LateSourceKeyInverse(r);
    }
  }

  lemma EarlySourceKeyInverse(r: Reading)
    requires Position(r) < 8
    ensures ReadingOfKey(SourceKey(r)) == Some(r)
  {
  }

  lemma LateSourceKeyInverse(r: Reading)
    requires Position(r) >= 8
    ensures ReadingOfKey(SourceKey(r)) == Some(r)
  {
  }

  /** The reading published on a topic suffix, if any. */
  function ReadingOfSuffix(t: string): (r: Option<Reading>)
  {
    if t == "temperature_out" then Some(TemperatureOut)
    else if t == "humidity_out" then Some(HumidityOut)
    else if t == "dewpoint" then Some(DewPoint)
    else if t == "wind_direction" then Some(WindDirection)
    else if t == "wind_speed" then Some(WindSpeed)
    else if t == "wind_gust_speed" then Some(WindGustSpeed)
    else if t == "rain_rate" then Some(RainRate)
    else if t == "rain_daily" then Some(RainDaily)
    else if t == "rain_weekly" then Some(RainWeekly)
    else if t == "rain_monthly" then Some(RainMonthly)
    else if t == "rain_yearly" then Some(RainYearly)
    else if t == "solar_radiation" then Some(SolarRadiation)
    else if t == "uv_index" then Some(Uv)
    else if t == "temperature_in" then Some(TemperatureIn)
    else if t == "humidity_in" then Some(HumidityIn)
    else if t == "barometric_pressure" then Some(BarometricPressure)
    else if t == "low_battery" then Some(LowBattery)
    else None
  }

  /** Distinct readings are published on distinct topic suffixes. */
  lemma TopicSuffixInverse(r: Reading)
    ensures ReadingOfSuffix(TopicSuffix(r)) == Some(r)
  {
    if Position(r) < 8 {
      EarlyTopicSuffixInverse(r);
    } else {
      LateTopicSuffixInverse(r);
    }
  }

  lemma EarlyTopicSuffixInverse(r: Reading)
    requires Position(r) < 8
    ensures ReadingOfSuffix(TopicSuffix(r)) == Some(r)
  {
  }

  lemma LateTopicSuffixInverse(r: Reading)
    requires Position(r) >= 8
    ensures ReadingOfSuffix(TopicSuffix(r)) == Some(r)
  {
  }

  /** Distinct readings are stored under distinct dictionary labels, so the
      page's dictionary never merges two readings. */
  lemma LabelsAreDistinct(a: Reading, b: Reading)
    requires a != b
    ensures Label(a) != Label(b)
  {
  }
}
