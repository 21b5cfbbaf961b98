/** Properties of the reading decoder that relate several calls or pin down
    particular readings. */
module DecoderProperties {

  import opened Wrappers
  import opened Readings
  import opened Decoder

  /** The value parse_wu_data consults for a key: the first one, if any. */
  function FirstValue(values: seq<string>): Option<string>
  {
    if |values| == 0 then None else Some(values[0])
  }

  /** Two queries that present the same source keys with the same first values. */
  predicate SameFirstValues(raw1: Query, raw2: Query)
  {
    forall r: Reading ::
      && (SourceKey(r) in raw1 <==> SourceKey(r) in raw2)
      && (SourceKey(r) in raw1 ==> FirstValue(raw1[SourceKey(r)]) == FirstValue(raw2[SourceKey(r)]))
  }

  lemma {:induction false} DecodeFromSeesFirstValues(rs: seq<Reading>, raw1: Query, raw2: Query, syn: NumberSyntax)
    requires SameFirstValues(raw1, raw2)
    ensures DecodeFrom(rs, raw1, syn) == DecodeFrom(rs, raw2, syn)
  {
    if rs != [] {
      var r := rs[0];
      assert SourceKey(r) in raw1 ==> DecodeReading(r, raw1, syn) == DecodeReading(r, raw2, syn) by {
        if SourceKey(r) in raw1 {
          assert FirstValue(raw1[SourceKey(r)]) == FirstValue(raw2[SourceKey(r)]);
        }
      }
      DecodeFromSeesFirstValues(rs[1..], raw1, raw2, syn);
    }
  }

  /** Only the first value of each source key is consulted: further values,
      and keys outside the vocabulary, never change the outcome. */
  lemma OnlyFirstValuesMatter(raw1: Query, raw2: Query, syn: NumberSyntax)
    requires SameFirstValues(raw1, raw2)
    ensures Decode(raw1, syn) == Decode(raw2, syn)
  {
    DecodeFromSeesFirstValues(Order, raw1, raw2, syn);
  }

  /** The dictionary starts empty, so an empty query decodes to an empty
      dictionary whatever the parsers are. */
  lemma EmptyQueryDecodesToEmpty(syn: NumberSyntax)
    ensures Decode(map[], syn) == Success(map[])
  {
    var res := Decode(map[], syn);
    assert res.Success?;
    assert res.value.Keys == {};
  }

  /** The low-battery branch: present and 0 gives 100, present and any other
      integer gives 0, absent gives no entry at all. */
  lemma LowBatteryRule(raw: Query, syn: NumberSyntax)
    requires Decode(raw, syn).Success?
    ensures SourceKey(LowBattery) !in raw ==> LowBattery !in Decode(raw, syn).value
    ensures SourceKey(LowBattery) in raw ==>
              var b := syn.parseInt(raw[SourceKey(LowBattery)][0]).value;
              Decode(raw, syn).value[LowBattery] == (if b == 0 then Int(100) else Int(0))
  {
    if SourceKey(LowBattery) in raw {
      DecodedValue(raw, syn, LowBattery);
    } else {
      DecodedKeys(raw, syn, LowBattery);
    }
  }

  /** A successful decode holds an entry for exactly the readings whose key
      was sent. */
  lemma DecodedKeys(raw: Query, syn: NumberSyntax, r: Reading)
    requires Decode(raw, syn).Success?
    ensures r in Decode(raw, syn).value <==> SourceKey(r) in raw
  {
  }

  /** A successful decode holds, for each key sent, the conversion of the
      key's first value. */
  lemma DecodedValue(raw: Query, syn: NumberSyntax, r: Reading)
    requires Decode(raw, syn).Success?
    requires SourceKey(r) in raw
    ensures |raw[SourceKey(r)]| > 0 && r in Decode(raw, syn).value
    ensures Convert(ConversionOf(r), raw[SourceKey(r)][0], syn) == Some(Decode(raw, syn).value[r])
  {
    assert DecodeReading(r, raw, syn).Success?;
  }

  /** The reading each present key yields, as the conversion table promises:
      temperatures, wind and pressure are integers within one half of the
      exact converted value; humidity and wind direction are the parsed
      integer; rain, solar radiation and UV are the parsed float unchanged. */
  lemma ReadingValue(raw: Query, syn: NumberSyntax, r: Reading)
    ensures Decode(raw, syn).Success? && SourceKey(r) in raw ==>
      r in Decode(raw, syn).value &&
      var v := Decode(raw, syn).value[r];
      var text := raw[SourceKey(r)][0];
      match ConversionOf(r)
      case FahrenheitToCelsius => v.Int? && Near(v.i, Celsius(syn.parseFloat(text).value))
      case MphToKmh => v.Int? && Near(v.i, syn.parseFloat(text).value * KmhPerMph)
      case InHgToHpa => v.Int? && Near(v.i, syn.parseFloat(text).value * HpaPerInHg)
      case WholeNumber => v == Int(syn.parseInt(text).value)
      case Decimal => v == Float(syn.parseFloat(text).value)
      case BatteryFlag => v == (if syn.parseInt(text).value == 0 then Int(100) else Int(0))
  {
    if Decode(raw, syn).Success? && SourceKey(r) in raw {
      assert DecodeReading(r, raw, syn).Success?;
    }
  }

  /** Decoding fails as a whole exactly when some present key has no value
      or a value its parser rejects; the branch that raised is the first such
      key in branch order. */
  lemma FailureNamesFirstBadKey(raw: Query, syn: NumberSyntax)
    ensures Decode(raw, syn).Failure? <==>
              exists r :: SourceKey(r) in raw &&
                (|raw[SourceKey(r)]| == 0 || !Parses(ConversionOf(r), raw[SourceKey(r)][0], syn))
    ensures Decode(raw, syn).Failure? ==>
              exists k :: 0 <= k < |Order| && Fails(Order[k], raw, syn)
                && (forall j :: 0 <= j < k ==> !Fails(Order[j], raw, syn))
                && Decode(raw, syn).error ==
                     (if |raw[SourceKey(Order[k])]| == 0 then EmptyValueList(SourceKey(Order[k]))
                      else NotANumber(SourceKey(Order[k]), raw[SourceKey(Order[k])][0]))
  {
  }

  lemma SingleReadingEntries(raw: Query, syn: NumberSyntax, r: Reading, v: Value)
    requires forall s :: SourceKey(s) in raw ==> s == r
    requires SourceKey(r) in raw
    requires DecodeReading(r, raw, syn) == Success(v)
    ensures Decode(raw, syn).Success?
    ensures Decode(raw, syn).value.Keys == {r}
    ensures Decode(raw, syn).value[r] == v
  {
  }

  /** A query that feeds exactly one reading decodes to that reading alone. */
  lemma SingleReadingDecode(raw: Query, syn: NumberSyntax, r: Reading, v: Value)
    requires forall s :: SourceKey(s) in raw ==> s == r
    requires SourceKey(r) in raw
    requires DecodeReading(r, raw, syn) == Success(v)
    ensures Decode(raw, syn) == Success(map[r := v])
  {
    SingleReadingEntries(raw, syn, r, v);
    SingletonMap(Decode(raw, syn).value, r, v);
  }

  lemma SingletonMap(d: map<Reading, Value>, r: Reading, v: Value)
    requires d.Keys == {r} && d[r] == v
    ensures d == map[r := v]
  {
  }
}
