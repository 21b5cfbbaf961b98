/** do_GET: one upload request, from the query multimap to the status line,
    the messages handed to publish and the HTML body. */
module Handler {

  import opened Wrappers
  import opened Readings
  import opened Decoder
  import opened Publication
  import opened Rendering

  const HttpOk: int := 200

  /** The exception that escapes do_GET, if any: a decode error raised by
      parse_wu_data, or the KeyError raised by looking up a reading the
      dictionary lacks, reported with that reading's label. */
  datatype Fault = BadQuery(error: DecodeError) | KeyError(key: string)

  /** What one request produces. The status line and headers go out before
      anything else; the body is written only after the last publish. */
  datatype Exchange = Exchange(status: int, attempted: seq<Message>, body: Option<string>, fault: Option<Fault>)

  /** do_GET once parse_wu_data has returned or raised. */
  function Respond(decoded: Result<map<Reading, Value>, DecodeError>, showFloat: real -> string): (x: Exchange)
    ensures x.status == HttpOk
    ensures decoded.Failure? ==>
              x.attempted == [] && x.body == None && x.fault == Some(BadQuery(decoded.error))
    ensures decoded.Success? ==> x.attempted == PublishRun(decoded.value).attempted
    ensures x.body.Some? <==> decoded.Success? && PublishRun(decoded.value).missing.None?
    ensures x.body.Some? ==> x.body.value == HtmlPage(decoded.value, showFloat) && x.fault.None?
    ensures decoded.Success? && PublishRun(decoded.value).missing.Some? ==>
              x.fault == Some(KeyError(Label(PublishRun(decoded.value).missing.value)))
  {
    match decoded
    case Failure(e) => Exchange(HttpOk, [], None, Some(BadQuery(e)))
    case Success(d) =>
      var run := PublishRun(d);
      match run.missing
      case Some(r) => Exchange(HttpOk, run.attempted, None, Some(KeyError(Label(r))))
      case None => Exchange(HttpOk, run.attempted, Some(HtmlPage(d, showFloat)), None)
  }

  /** do_GET: decode the query, publish the readings, write the page. */
  function HandleGet(raw: Query, syn: NumberSyntax, showFloat: real -> string): (x: Exchange)
    ensures x.status == HttpOk
    ensures |x.attempted| <= |Order|
    ensures forall i :: 0 <= i < |x.attempted| ==>
              SourceKey(Order[i]) in raw && x.attempted[i].topic == AllTopics()[i]
    ensures Decode(raw, syn).Failure? ==>
              x.attempted == [] && x.body == None && x.fault == Some(BadQuery(Decode(raw, syn).error))
    ensures x.body.Some? ==> x.fault.None? && |x.attempted| == |Order|
  {
    Respond(Decode(raw, syn), showFloat)
  }

  /** The page is written only when the upload carried all seventeen source
      keys and every one of them parsed; then all seventeen topics were
      published, in order. */
  lemma BodyOnlyForCompleteUploads(raw: Query, syn: NumberSyntax, showFloat: real -> string)
    ensures HandleGet(raw, syn, showFloat).body.Some? <==>
              (forall r :: SourceKey(r) in raw) && Decode(raw, syn).Success?
    ensures HandleGet(raw, syn, showFloat).body.Some? ==>
              |HandleGet(raw, syn, showFloat).attempted| == |Order|
              && forall i :: 0 <= i < |Order| ==> HandleGet(raw, syn, showFloat).attempted[i].topic == AllTopics()[i]
  {
    var x := HandleGet(raw, syn, showFloat);
    if Decode(raw, syn).Success? {
      var d := Decode(raw, syn).value;
      CompleteIffAllPresent(d);
      assert (forall r :: r in d) <==> (forall r :: SourceKey(r) in raw);
    }
  }

  /** When the query decodes but its (k+1)-th source key in publication order
      is the first one absent, the first k topics are published, then the
      lookup raises KeyError and nothing else is published or written. */
  lemma AbsentKeyCutsOffPublication(raw: Query, syn: NumberSyntax, showFloat: real -> string, k: nat)
    requires Decode(raw, syn).Success?
    requires k < |Order|
    requires SourceKey(Order[k]) !in raw
    requires forall j :: 0 <= j < k ==> SourceKey(Order[j]) in raw
    ensures |HandleGet(raw, syn, showFloat).attempted| == k
    ensures forall i :: 0 <= i < k ==> HandleGet(raw, syn, showFloat).attempted[i].topic == AllTopics()[i]
    ensures HandleGet(raw, syn, showFloat).fault == Some(KeyError(Label(Order[k])))
    ensures HandleGet(raw, syn, showFloat).body == None
  {
    MissingReadingCutsOff(Decode(raw, syn).value, k);
  }

  /** do_GET with the client in the loop: the messages go out through the
      publish helper one by one, and whatever statuses the client returns,
      every message of the sequence is handed over. */
  method DoGet(raw: Query, syn: NumberSyntax, showFloat: real -> string, client: (nat, Message) -> int)
    returns (x: Exchange, log: seq<Delivery>)
    ensures x == HandleGet(raw, syn, showFloat)
    ensures |log| == |x.attempted|
    ensures forall i :: 0 <= i < |log| ==> (log[i].Failed? <==> client(i, x.attempted[i]) != 0)
  {
    x := HandleGet(raw, syn, showFloat);
    log := Transmit(x.attempted, client);
  }
}
