/** Topic names: how the server builds them and how the data callback takes the client id out of them. */
module Topics {
  import opened Text

  datatype Direction = Inbound | Outbound

  /** Topic a client receives its packets on. */
  function InboundTopic(channel: string, id: string): string { channel + "/" + id + "/A" }

  /** Topic a client sends its packets on. */
  function OutboundTopic(channel: string, id: string): string { channel + "/" + id + "/B" }

  function DataTopic(channel: string, id: string, d: Direction): string {
    if d.Inbound? then InboundTopic(channel, id) else OutboundTopic(channel, id)
  }

  function ReceiveTopic(channel: string): string { channel + "_RX" }

  function TransmitTopic(channel: string): string { channel + "_TX" }

  function ExtractClientId(topic: string): string {
    var first := Find(topic, '/', 0);
    var second := Find(topic, '/', first + 1);
    if first != -1 && second != -1 then topic[first + 1..second] else ""
  }

  /** What the extraction means, on every string: the second segment of a topic of three segments or more. */
  lemma {:induction false} ExtractIsSecondSegment(topic: string)
    ensures ExtractClientId(topic) ==
            if |Split(topic, '/')| >= 3 then Split(topic, '/')[1] else ""
  {
    var first := Find(topic, '/', 0);
    SplitFromPosition(topic, 0);
    assert topic[0..] == topic;
    if first >= 0 {
      SplitFromPosition(topic, first + 1);
      var second := Find(topic, '/', first + 1);
      assert second >= 0 ==> |Split(topic[second + 1..], '/')| >= 1;
    }
  }

  /** Splitting the part of a string from a position on at the first slash found there. */
  lemma SplitFromPosition(s: string, from: nat)
    requires from <= |s|
    ensures var k := Find(s, '/', from);
            Split(s[from..], '/') == if k < 0 then [s[from..]] else [s[from..k]] + Split(s[k + 1..], '/')
  {
    var k := Find(s, '/', from);
    if k < 0 {
      SplitWhole(s[from..], '/');
    } else {
      assert s[from..] == s[from..k] + ['/'] + s[k + 1..];
      SplitFirst(s[from..k], '/', s[k + 1..]);
    }
  }

  /** The segments of a data topic. */
  lemma {:induction false} DataTopicSegments(channel: string, rest: string)
    ensures Split(channel + "/" + rest, '/') == Split(channel, '/') + Split(rest, '/')
  {
    var topic := channel + "/" + rest;
    var k := Find(channel, '/', 0);
    if k == -1 {
      SplitFirst(channel, '/', rest);
      SplitWhole(channel, '/');
    } else {
      var a, b := channel[..k], channel[k + 1..];
      assert channel == a + ['/'] + b;
      assert topic == a + ['/'] + (b + "/" + rest);
      SplitFirst(a, '/', b);
      SplitFirst(a, '/', b + "/" + rest);
      DataTopicSegments(b, rest);
    }
  }

  function SecondSegment(s: string): string {
    if |Split(s, '/')| >= 2 then Split(s, '/')[1] else ""
  }

  /** Exactly when the callback finds the id again: a slash-free channel needs a slash-free id; a channel
      with a slash yields its own second segment whatever the id is. */
  lemma ExtractExact(channel: string, id: string, d: Direction)
    ensures ExtractClientId(DataTopic(channel, id, d)) == id <==>
            if '/' in channel then id == SecondSegment(channel) else '/' !in id
  {
    var tail := if d.Inbound? then "A" else "B";
    DataTopicIs(channel, id, d, tail);
    if '/' in channel {
      SplitMany(channel);
    } else {
      SplitWhole(channel, '/');
      if '/' in id {
        SplitMany(id);
        SplitPieces(id);
        assert '/' !in Split(id, '/')[0];
      } else {
        SplitWhole(id, '/');
      }
    }
  }

  lemma {:induction false} DataTopicIs(channel: string, id: string, d: Direction, tail: string)
    requires tail == if d.Inbound? then "A" else "B"
    ensures Split(DataTopic(channel, id, d), '/') == Split(channel, '/') + Split(id, '/') + [tail]
    ensures ExtractClientId(DataTopic(channel, id, d)) == (Split(channel, '/') + Split(id, '/'))[1]
  {
    DataTopicRegroups(channel, id, d, tail);
    DataTopicSegments(channel, id + "/" + tail);
    DataTopicSegments(id, tail);
    SplitWhole(tail, '/');
    ExtractIsSecondSegment(DataTopic(channel, id, d));
  }

  lemma DataTopicRegroups(channel: string, id: string, d: Direction, tail: string)
    requires tail == if d.Inbound? then "A" else "B"
    ensures DataTopic(channel, id, d) == channel + "/" + (id + "/" + tail)
  {
  }

  lemma {:induction false} SplitMany(s: string)
    requires '/' in s
    ensures |Split(s, '/')| >= 2
  {
    var k := Find(s, '/', 0);
    assert s == s[..k] + ['/'] + s[k + 1..];
    SplitFirst(s[..k], '/', s[k + 1..]);
  }

  lemma {:induction false} SplitPieces(s: string)
    ensures forall i :: 0 <= i < |Split(s, '/')| ==> '/' !in Split(s, '/')[i]
  {
    if s != [] { SplitPieces(s[1..]); }
  }

  /** The default channel name has a slash, so the callback looks up the same id for every client. */
  lemma DefaultChannelLosesIds(id: string, d: Direction)
    ensures ExtractClientId(DataTopic("mqtt_tunnel/commands", id, d)) == "commands"
  {
    var tail := if d.Inbound? then "A" else "B";
    DefaultChannelSplits("mqtt_tunnel", "commands", "mqtt_tunnel/commands");
    DataTopicIs("mqtt_tunnel/commands", id, d, tail);
  }

  lemma {:induction false} DefaultChannelSplits(a: string, b: string, channel: string)
    requires '/' !in a && '/' !in b && channel == a + "/" + b
    ensures Split(channel, '/') == [a, b]
  {
    SplitFirst(a, '/', b);
    SplitWhole(b, '/');
  }

  /** Different clients and different directions never share a data topic, whatever the ids contain. */
  lemma DataTopicsInjective(channel: string, id1: string, d1: Direction, id2: string, d2: Direction)
    requires DataTopic(channel, id1, d1) == DataTopic(channel, id2, d2)
    ensures id1 == id2 && d1 == d2
  {
    var t1, t2 := DataTopic(channel, id1, d1), DataTopic(channel, id2, d2);
    assert t1[|t1| - 1] == if d1.Inbound? then 'A' else 'B';
    assert t2[|t2| - 1] == if d2.Inbound? then 'A' else 'B';
    assert t1[|channel| + 1..|t1| - 2] == id1;
    assert t2[|channel| + 1..|t2| - 2] == id2;
  }

  /** No data topic is a command topic of the same channel. */
  lemma DataTopicsAvoidCommands(channel: string, id: string, d: Direction)
    ensures DataTopic(channel, id, d) != ReceiveTopic(channel)
    ensures DataTopic(channel, id, d) != TransmitTopic(channel)
  {
    assert DataTopic(channel, id, d)[|channel|] == '/';
    assert ReceiveTopic(channel)[|channel|] == '_';
    assert TransmitTopic(channel)[|channel|] == '_';
  }
}
