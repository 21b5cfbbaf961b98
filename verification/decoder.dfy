/** The reading decoder: MyHttpRequestHandler.parse_wu_data, which turns the
    query-string multimap of one upload into a dictionary of labelled,
    unit-converted readings. */
module Decoder {

  import opened Wrappers
  import opened Readings
  import PyNumbers

  /** The multimap parse_qs yields: each key with the list of its values. */
  type Query = map<string, seq<string>>

  /** A stored number: Python's int (from int() or round()) or float. */
  datatype Value = Int(i: int) | Float(x: real)

  /** The two string parsers the decoder calls, int() and float(), as partial
      functions that answer None where Python raises ValueError. */
  datatype NumberSyntax = NumberSyntax(parseInt: string -> Option<int>, parseFloat: string -> Option<real>)

  /** The decimal instance of the parsers. */
  const DecimalSyntax: NumberSyntax := NumberSyntax(PyNumbers.ParseInt, PyNumbers.ParseFloat)

  /** Why decoding a present key raised: its value list was empty (IndexError
      on [0]), or its first value did not parse (ValueError). The key records
      the branch that raised; Python's exception itself does not carry it. */
  datatype DecodeError = EmptyValueList(key: string) | NotANumber(key: string, text: string)

  const KmhPerMph: real := 1.609344
  const HpaPerInHg: real := 33.86389

  /** The exact Celsius value of a Fahrenheit temperature. */
  function Celsius(f: real): real
  {
    (f - 32.0) * 5.0 / 9.0
  }

  /** n is an integer within one half of x. */
  predicate Near(n: int, x: real)
  {
    x - 0.5 <= n as real <= x + 0.5
  }

  /** Whether the parser a conversion uses accepts the text. */
  predicate Parses(c: Conversion, text: string, syn: NumberSyntax)
  {
    if ParsesAsInt(c) then syn.parseInt(text).Some? else syn.parseFloat(text).Some?
  }

  /** Parse one raw value and apply a conversion to it. */
  function Convert(c: Conversion, text: string, syn: NumberSyntax): (v: Option<Value>)
    ensures v.Some? <==> Parses(c, text, syn)
    ensures v.Some? && c == FahrenheitToCelsius ==>
              v.value.Int? && Near(v.value.i, Celsius(syn.parseFloat(text).value))
    ensures v.Some? && c == MphToKmh ==>
              v.value.Int? && Near(v.value.i, syn.parseFloat(text).value * KmhPerMph)
    ensures v.Some? && c == InHgToHpa ==>
              v.value.Int? && Near(v.value.i, syn.parseFloat(text).value * HpaPerInHg)
    ensures v.Some? && c == WholeNumber ==> v.value == Int(syn.parseInt(text).value)
    ensures v.Some? && c == Decimal ==> v.value == Float(syn.parseFloat(text).value)
    ensures v.Some? && c == BatteryFlag ==>
              v.value == (if syn.parseInt(text).value == 0 then Int(100) else Int(0))
  {
    match c
    case FahrenheitToCelsius =>
      (match syn.parseFloat(text)
       case None => None
       case Some(f) => Some(Int(PyNumbers.Round((f - 32.0) * 5.0 / 9.0))))
    case MphToKmh =>
      (match syn.parseFloat(text)
       case None => None
       case Some(mph) => Some(Int(PyNumbers.Round(mph * 1.609344))))
    case InHgToHpa =>
      (match syn.parseFloat(text)
       case None => None
       case Some(inHg) => Some(Int(PyNumbers.Round(inHg * 33.86389))))
    case WholeNumber =>
      (match syn.parseInt(text)
       case None => None
       case Some(n) => Some(Int(n)))
    case Decimal =>
      (match syn.parseFloat(text)
       case None => None
       case Some(x) => Some(Float(x)))
    case BatteryFlag =>
      (match syn.parseInt(text)
       case None => None
       case Some(b) => Some(if b == 0 then Int(100) else Int(0)))
  }

  /** One branch of the decoder: the reading's key is present, so its first
      value is parsed and converted, or the branch raises. */
  function DecodeReading(r: Reading, raw: Query, syn: NumberSyntax): (res: Result<Value, DecodeError>)
    requires SourceKey(r) in raw
    ensures res.Failure? <==>
              |raw[SourceKey(r)]| == 0 || !Parses(ConversionOf(r), raw[SourceKey(r)][0], syn)
    ensures res.Success? ==> Convert(ConversionOf(r), raw[SourceKey(r)][0], syn) == Some(res.value)
    ensures res.Failure? && |raw[SourceKey(r)]| == 0 ==> res.error == EmptyValueList(SourceKey(r))
    ensures res.Failure? && |raw[SourceKey(r)]| > 0 ==>
              res.error == NotANumber(SourceKey(r), raw[SourceKey(r)][0])
  {
    var key := SourceKey(r);
    var values := raw[key];
    if |values| == 0 then Failure(EmptyValueList(key))
    else match Convert(ConversionOf(r), values[0], syn)
      case None => Failure(NotANumber(key, values[0]))
      case Some(v) => Success(v)
  }

  /** The branch for r raises. */
  predicate Fails(r: Reading, raw: Query, syn: NumberSyntax)
  {
    SourceKey(r) in raw && DecodeReading(r, raw, syn).Failure?
  }

  /** The branches for rs, run in order on an initially empty dictionary; the
      first branch that raises ends decoding with its error. */
  function DecodeFrom(rs: seq<Reading>, raw: Query, syn: NumberSyntax): (res: Result<map<Reading, Value>, DecodeError>)
    ensures res.Success? <==> forall i :: 0 <= i < |rs| ==> !Fails(rs[i], raw, syn)
    ensures res.Success? ==> res.value.Keys == set r | r in rs && SourceKey(r) in raw
    ensures res.Success? ==> forall r :: r in res.value ==> DecodeReading(r, raw, syn) == Success(res.value[r])
    ensures res.Failure? ==>
              exists i :: 0 <= i < |rs| && Fails(rs[i], raw, syn)
                          && res.error == DecodeReading(rs[i], raw, syn).error
                          && forall j :: 0 <= j < i ==> !Fails(rs[j], raw, syn)
  {
    if rs == [] then Success(map[])
    else
      var r := rs[0];
      if Fails(r, raw, syn) then Failure(DecodeReading(r, raw, syn).error)
      else match DecodeFrom(rs[1..], raw, syn)
        case Failure(e) =>
          var i :| 0 <= i < |rs| - 1 && Fails(rs[1..][i], raw, syn)
                   && e == DecodeReading(rs[1..][i], raw, syn).error
                   && forall j :: 0 <= j < i ==> !Fails(rs[1..][j], raw, syn);
          FirstFailureShifts(rs, raw, syn, i);
          Failure(e)
        case Success(m) =>
          AllPassShifts(rs, raw, syn);
          if SourceKey(r) in raw then Success(m[r := DecodeReading(r, raw, syn).value]) else Success(m)
  }

  /** parse_wu_data: every one of the seventeen branches, in source order. */
  function Decode(raw: Query, syn: NumberSyntax): (res: Result<map<Reading, Value>, DecodeError>)
    ensures res.Success? <==> forall r :: SourceKey(r) in raw ==> DecodeReading(r, raw, syn).Success?
    ensures res.Success? ==> forall r :: r in res.value <==> SourceKey(r) in raw
    ensures res.Success? ==> forall r :: r in res.value ==> DecodeReading(r, raw, syn) == Success(res.value[r])
    ensures res.Failure? ==>
              exists k :: 0 <= k < |Order| && Fails(Order[k], raw, syn)
                          && res.error == DecodeReading(Order[k], raw, syn).error
                          && forall j :: 0 <= j < k ==> !Fails(Order[j], raw, syn)
  {
    OrderListsEveryReadingOnce();
    var res := DecodeFrom(Order, raw, syn);
    assert res.Success? <== forall r :: SourceKey(r) in raw ==> DecodeReading(r, raw, syn).Success?;
    res
  }

  lemma FirstFailureShifts(rs: seq<Reading>, raw: Query, syn: NumberSyntax, i: nat)
    requires 0 <= i < |rs| - 1
    requires !Fails(rs[0], raw, syn)
    requires forall j :: 0 <= j < i ==> !Fails(rs[1..][j], raw, syn)
    ensures rs[i + 1] == rs[1..][i]
    ensures forall j :: 0 <= j < i + 1 ==> !Fails(rs[j], raw, syn)
  {
    forall j | 0 <= j < i + 1 ensures !Fails(rs[j], raw, syn) {
      if j > 0 { assert rs[j] == rs[1..][j - 1]; }
    }
  }

  lemma AllPassShifts(rs: seq<Reading>, raw: Query, syn: NumberSyntax)
    requires |rs| > 0
    requires !Fails(rs[0], raw, syn)
    requires forall j :: 0 <= j < |rs| - 1 ==> !Fails(rs[1..][j], raw, syn)
    ensures forall j :: 0 <= j < |rs| ==> !Fails(rs[j], raw, syn)
  {
    forall j | 0 <= j < |rs| ensures !Fails(rs[j], raw, syn) {
      if j > 0 { assert rs[j] == rs[1..][j - 1]; }
    }
  }
}
