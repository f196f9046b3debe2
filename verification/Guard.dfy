/**
 The fast path's threshold comparison, and the in-memory configuration that the
 pub/sub subscriber keeps for it.
 */
module Guard {
  import opened Common

  /** What a configuration value may be: JSON keeps numbers, strings and null apart. */
  datatype Threshold = Number(value: real) | Text(chars: string) | Null

  datatype Inference = Scored(score: real) | Crashed

  datatype GuardResult = GuardResult(score: real, passed: bool)

  function Effective(t: Threshold, fallback: real): Threshold {
    if t.Null? then Number(fallback) else t
  }

  /** A crashed model, or a threshold that is no number, fails open. */
  predicate FailsOpen(t: Threshold, inference: Inference) {
    inference.Crashed? || t.Text?
  }

  function Score(t: Threshold, fallback: real, inference: Inference): (r: GuardResult)
    ensures !r.passed <==> inference.Scored? && !t.Text? && inference.score >= if t.Null? then fallback else t.value
    ensures r.score == if inference.Scored? && !t.Text? then inference.score else 0.0
    ensures FailsOpen(t, inference) <==> inference.Crashed? || t.Text?
  {
    match (inference, Effective(t, fallback))
    case (Scored(x), Number(limit)) => GuardResult(x, x < limit)
    case _ => GuardResult(0.0, true)
  }

  // ---- Live configuration --------------------------------------------------

  type Mapping = map<string, Threshold>

  datatype Payload = Fields(values: Mapping) | Malformed

  datatype Message = Message(kind: string, payload: Payload)

  const KEY := "sensitivity_threshold"

  predicate Mentions(m: Message, key: string) {
    m.kind == "message" && m.payload.Fields? && key in m.payload.values
  }

  /** The value of the last message that sets the key, or else the one held before. */
  function Latest(ms: seq<Message>, key: string, before: Option<Threshold>): Option<Threshold> {
    if ms == [] then before
    else if Mentions(ms[|ms| - 1], key) then Some(ms[|ms| - 1].payload.values[key])
    else Latest(ms[..|ms| - 1], key, before)
  }

  function Lookup(m: Mapping, key: string): Option<Threshold> {
    if key in m then Some(m[key]) else None
  }

  /** What `PUT /api/settings` publishes: every value is a string. */
  function Published(updates: map<string, string>): Payload {
    Fields(map k | k in updates :: Text(updates[k]))
  }

  class ConfigSubscriber {
    const fallback: real
    var config: Mapping

    constructor (sensitivity: real)
      ensures fallback == sensitivity && config == map["sensitivity_threshold" := Number(sensitivity)]
    {
      fallback := sensitivity;
      config := map[KEY := Number(sensitivity)];
    }

    function GetThreshold(): Threshold reads this {
      if KEY in config then config[KEY] else Number(fallback)
    }

    /**
     Every key ends at the value of the last usable message that mentions it; so
     does the threshold that the request path reads.
     */
    method Listen(messages: seq<Message>)
      modifies this
      ensures Some(GetThreshold()) == Latest(messages, KEY, Some(old(GetThreshold())))
      ensures forall key :: Lookup(config, key) == Latest(messages, key, Lookup(old(config), key))
      ensures forall key, i ::
                (0 <= i < |messages| && Mentions(messages[i], key)
                 && forall j :: i < j < |messages| ==> !Mentions(messages[j], key)) ==>
                key in config && config[key] == messages[i].payload.values[key]
      ensures forall key :: (forall j :: 0 <= j < |messages| ==> !Mentions(messages[j], key)) ==>
                (key in config <==> key in old(config)) && (key in config ==> config[key] == old(config)[key])
    {
      for i := 0 to |messages|
        invariant forall key :: Lookup(config, key) == Latest(messages[..i], key, Lookup(old(config), key))
      {
        var m := messages[i];
        assert messages[..i + 1][..i] == messages[..i];
        if m.kind == "message" && m.payload.Fields? {
          config := config + m.payload.values;
        }
      }
      assert messages[..|messages|] == messages;
      LatestOverDefault(messages, KEY, old(GetThreshold()));
      LatestIsLast(messages, old(config), config);
      assert Lookup(config, KEY) == Latest(messages, KEY, Lookup(old(config), KEY));
    }
  }

  lemma {:induction false} LatestAt(ms: seq<Message>, key: string, before: Option<Threshold>, i: nat)
    requires i < |ms| && Mentions(ms[i], key) && forall j :: i < j < |ms| ==> !Mentions(ms[j], key)
    ensures Latest(ms, key, before) == Some(ms[i].payload.values[key])
  {
    if i < |ms| - 1 { LatestAt(ms[..|ms| - 1], key, before, i); }
  }

  lemma {:induction false} LatestNone(ms: seq<Message>, key: string, before: Option<Threshold>)
    requires forall j :: 0 <= j < |ms| ==> !Mentions(ms[j], key)
    ensures Latest(ms, key, before) == before
  {
    if ms != [] { LatestNone(ms[..|ms| - 1], key, before); }
  }

  lemma LatestIsLast(ms: seq<Message>, before: Mapping, after: Mapping)
    requires forall key :: Lookup(after, key) == Latest(ms, key, Lookup(before, key))
    ensures forall key, i :: 0 <= i < |ms| && Mentions(ms[i], key) && (forall j :: i < j < |ms| ==> !Mentions(ms[j], key)) ==>
              key in after && after[key] == ms[i].payload.values[key]
    ensures forall key :: (forall j :: 0 <= j < |ms| ==> !Mentions(ms[j], key)) ==>
              (key in after <==> key in before) && (key in after ==> after[key] == before[key])
  {
    forall key, i | 0 <= i < |ms| && Mentions(ms[i], key) && (forall j :: i < j < |ms| ==> !Mentions(ms[j], key))
      ensures key in after && after[key] == ms[i].payload.values[key]
    {
      LatestAt(ms, key, Lookup(before, key), i);
      assert Lookup(after, key) == Some(ms[i].payload.values[key]);
    }
    forall key | forall j :: 0 <= j < |ms| ==> !Mentions(ms[j], key)
      ensures (key in after <==> key in before) && (key in after ==> after[key] == before[key])
    {
      LatestNone(ms, key, Lookup(before, key));
      assert Lookup(after, key) == Lookup(before, key);
    }
  }

  /** Starting from a value instead of none matters only if no message sets the key. */
  lemma {:induction false} LatestOverDefault(ms: seq<Message>, key: string, before: Threshold)
    ensures Latest(ms, key, Some(before)) == if Latest(ms, key, None).Some? then Latest(ms, key, None) else Some(before)
  {
    if ms != [] { LatestOverDefault(ms[..|ms| - 1], key, before); }
  }

  lemma {:induction false} LatestIsText(ms: seq<Message>, before: Threshold)
    requires before.Text?
    requires forall i :: 0 <= i < |ms| && Mentions(ms[i], KEY) ==> ms[i].payload.values[KEY].Text?
    ensures Latest(ms, KEY, Some(before)).Some? && Latest(ms, KEY, Some(before)).value.Text?
  {
    if ms != [] && !Mentions(ms[|ms| - 1], KEY) {
      LatestIsText(ms[..|ms| - 1], before);
    }
  }

  /**
   Once the settings API has published a threshold, it stays a string however
   many further settings updates follow, so the guard never stops a request.
   */
  lemma PublishedThresholdNeverStops(first: map<string, string>, rest: seq<map<string, string>>,
                                     before: Option<Threshold>, fallback: real, inference: Inference)
    requires KEY in first
    ensures var ms := [Message("message", Published(first))]
                      + seq(|rest|, i requires 0 <= i < |rest| => Message("message", Published(rest[i])));
            Latest(ms, KEY, before).Some? && Score(Latest(ms, KEY, before).value, fallback, inference).passed
  {
    var tail := seq(|rest|, i requires 0 <= i < |rest| => Message("message", Published(rest[i])));
    LatestAfterFirst(Message("message", Published(first)), tail, before);
    LatestIsText(tail, Published(first).values[KEY]);
  }

  lemma {:induction false} LatestAfterFirst(m: Message, ms: seq<Message>, before: Option<Threshold>)
    requires Mentions(m, KEY)
    ensures Latest([m] + ms, KEY, before) == Latest(ms, KEY, Some(m.payload.values[KEY]))
  {
    if ms == [] {
      assert [m] + ms == [m];
    } else {
      assert ([m] + ms)[..|ms|] == [m] + ms[..|ms| - 1];
      LatestAfterFirst(m, ms[..|ms| - 1], before);
    }
  }
}
