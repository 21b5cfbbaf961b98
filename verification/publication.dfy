/** The publication sequence of do_GET and the publish helper: one MQTT
    message per reading, on a fixed topic, in a fixed order. */
module Publication {

  import opened Wrappers
  import opened Readings
  import opened Decoder

  const TopicPrefix: string := "homeassistant"
  const BaseTopic: string := TopicPrefix + "/weatherstation"

  /** The topic a reading is published on. */
  function Topic(r: Reading): string
  {
    BaseTopic + "/" + TopicSuffix(r)
  }

  /** The seventeen topics, in publication order. */
  function AllTopics(): (ts: seq<string>)
    ensures |ts| == |Order|
  {
    seq(|Order|, i requires 0 <= i < |Order| => Topic(Order[i]))
  }

  /** One call of publish: a topic and the reading handed over as payload. */
  datatype Message = Message(topic: string, payload: Value)

  /** What the publication sequence does with a decoded dictionary: the
      messages handed to publish, and the reading whose lookup raised
      KeyError and cut the sequence off, if any. */
  datatype Run = Run(attempted: seq<Message>, missing: Option<Reading>)

  /** The publish statements for rs, in order; a reading missing from d ends
      the sequence before its own publish. */
  function RunFrom(rs: seq<Reading>, d: map<Reading, Value>): (run: Run)
    ensures |run.attempted| <= |rs|
    ensures forall i :: 0 <= i < |run.attempted| ==>
              rs[i] in d && run.attempted[i] == Message(Topic(rs[i]), d[rs[i]])
    ensures run.missing.None? <==> |run.attempted| == |rs|
    ensures run.missing.Some? ==>
              rs[|run.attempted|] !in d && run.missing.value == rs[|run.attempted|]
  {
    if rs == [] then Run([], None)
    else if rs[0] !in d then Run([], Some(rs[0]))
    else
      var rest := RunFrom(rs[1..], d);
      Run([Message(Topic(rs[0]), d[rs[0]])] + rest.attempted, rest.missing)
  }

  /** The seventeen publish statements of do_GET. */
  function PublishRun(d: map<Reading, Value>): (run: Run)
    ensures |run.attempted| <= |Order|
    ensures forall i :: 0 <= i < |run.attempted| ==>
              Order[i] in d && run.attempted[i] == Message(AllTopics()[i], d[Order[i]])
    ensures run.missing.None? <==> |run.attempted| == |Order|
    ensures run.missing.Some? ==>
              Order[|run.attempted|] !in d && run.missing.value == Order[|run.attempted|]
  {
    RunFrom(Order, d)
  }

  /** The seventeen topics all lie under homeassistant/weatherstation and
      no two coincide. */
  lemma TopicsAreDistinct()
    ensures forall i :: 0 <= i < |Order| ==>
              AllTopics()[i] == "homeassistant/weatherstation/" + TopicSuffix(Order[i])
    ensures forall i, j :: 0 <= i < j < |Order| ==> AllTopics()[i] != AllTopics()[j]
  {
    OrderListsEveryReadingOnce();
    forall i, j | 0 <= i < j < |Order| ensures AllTopics()[i] != AllTopics()[j] {
      var prefix := BaseTopic + "/";
      if AllTopics()[i] == AllTopics()[j] {
        assert TopicSuffix(Order[i]) == AllTopics()[i][|prefix|..];
        assert TopicSuffix(Order[j]) == AllTopics()[j][|prefix|..];
        TopicSuffixInverse(Order[i]);
        TopicSuffixInverse(Order[j]);
      }
    }
  }

  /** If the first reading missing from d is the one for the (k+1)-th topic,
      exactly the first k messages are published and none after. */
  lemma MissingReadingCutsOff(d: map<Reading, Value>, k: nat)
    requires k < |Order|
    requires Order[k] !in d
    requires forall j :: 0 <= j < k ==> Order[j] in d
    ensures |PublishRun(d).attempted| == k
    ensures PublishRun(d).missing == Some(Order[k])
    ensures forall i :: 0 <= i < k ==> PublishRun(d).attempted[i].topic == AllTopics()[i]
  {
  }

  /** All seventeen messages go out exactly when every reading is present. */
  lemma CompleteIffAllPresent(d: map<Reading, Value>)
    ensures PublishRun(d).missing.None? <==> forall r :: r in d
  {
    OrderListsEveryReadingOnce();
    var run := PublishRun(d);
    if run.missing.None? {
      forall r: Reading ensures r in d {
        assert Order[Position(r)] == r;
      }
    }
  }

  /** What the publish helper makes of the client's status: 0 is a delivery,
      anything else only a failure notice naming the topic. */
  datatype Delivery = Delivered | Failed(topic: string)

  function PublishOutcome(topic: string, status: int): (o: Delivery)
    ensures o == Delivered <==> status == 0
    ensures o.Failed? ==> o.topic == topic
  {
    if status == 0 then Delivered else Failed(topic)
  }

  /** Hands each message to the client in turn through the publish helper.
      client(i, m) is the status the client returns for the i-th call. A
      non-zero status is only recorded and never stops later messages. */
  method Transmit(msgs: seq<Message>, client: (nat, Message) -> int) returns (log: seq<Delivery>)
    ensures |log| == |msgs|
    ensures forall i :: 0 <= i < |msgs| ==> (log[i] == Delivered <==> client(i, msgs[i]) == 0)
    ensures forall i :: 0 <= i < |msgs| && log[i].Failed? ==> log[i].topic == msgs[i].topic
  {
    log := [];
    var i := 0;
    while i < |msgs|
      invariant 0 <= i <= |msgs|
      invariant |log| == i
      invariant forall j :: 0 <= j < i ==> (log[j] == Delivered <==> client(j, msgs[j]) == 0)
      invariant forall j :: 0 <= j < i && log[j].Failed? ==> log[j].topic == msgs[j].topic
    {
      log := log + [PublishOutcome(msgs[i].topic, client(i, msgs[i]))];
      i := i + 1;
    }
  }
}
