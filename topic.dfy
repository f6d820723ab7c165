/** The Sparkplug B topic namespace (src/node.rs `topic`, `topic_device`):
    spBv1.0/{group}/{message type}/{node}[/{device}], as section 4.1 "Topic
    Namespace Elements" of the Eclipse Sparkplug 3.0 specification lays it out.
    The builders neither escape nor check the names they are given. */
module Topics {

  const Namespace: string := "spBv1.0"

  // The message types the node publishes.
  const NBIRTH: string := "NBIRTH"
  const DBIRTH: string := "DBIRTH"
  const DDATA: string := "DDATA"
  const DDEATH: string := "DDEATH"
  const NDEATH: string := "NDEATH"

  /** `topic`: the node-scoped topic for a message type. */
  function Topic(group: string, node: string, kind: string): string {
    Namespace + "/" + group + "/" + kind + "/" + node
  }

  /** `topic_device`: the device-scoped topic for a message type; the caller
      passes the device's `name()`. */
  function TopicDevice(group: string, node: string, kind: string, device: string): string {
    Namespace + "/" + group + "/" + kind + "/" + node + "/" + device
  }

  /** A name that is safe inside a topic: it holds no level separator. */
  predicate Safe(name: string) {
    '/' !in name
  }

  /** The levels of a topic: the pieces between its '/' separators, in order. */
  function Levels(s: string): (r: seq<string>)
    ensures |r| >= 1
  {
    if s == [] then [""]
    else
      var rest := Levels(s[1..]);
      if s[0] == '/' then [""] + rest else [[s[0]] + rest[0]] + rest[1..]
  }

  /** A safe name is a single level. */
  lemma {:induction false} LevelsOfSafe(a: string)
    requires Safe(a)
    ensures Levels(a) == [a]
  {
    if a != [] {
      LevelsOfSafe(a[1..]);
      assert [a[0]] + a[1..] == a;
    }
  }

  /** A safe name followed by a separator is the first level of what follows. */
  lemma {:induction false} LevelsJoin(a: string, b: string)
    requires Safe(a)
    ensures Levels(a + "/" + b) == [a] + Levels(b)
  {
    if a == [] {
      assert a + "/" + b == "/" + b;
      assert ("/" + b)[1..] == b;
    } else {
      assert (a + "/" + b)[1..] == a[1..] + "/" + b;
      LevelsJoin(a[1..], b);
      assert [a[0]] + a[1..] == a;
    }
  }

  /** A node topic built from safe names splits back into the namespace, the
      group, the message type and the node, in that order. */
  lemma TopicLevels(group: string, node: string, kind: string)
    requires Safe(group) && Safe(node) && Safe(kind)
    ensures Levels(Topic(group, node, kind)) == [Namespace, group, kind, node]
  {
    assert Topic(group, node, kind) == Namespace + "/" + (group + "/" + (kind + "/" + node));
    LevelsJoin(Namespace, group + "/" + (kind + "/" + node));
    LevelsJoin(group, kind + "/" + node);
    LevelsJoin(kind, node);
    LevelsOfSafe(node);
  }

  /** A device topic built from safe names splits back into the namespace, the
      group, the message type, the node and the device, in that order. */
  lemma TopicDeviceLevels(group: string, node: string, kind: string, device: string)
    requires Safe(group) && Safe(node) && Safe(kind) && Safe(device)
    ensures Levels(TopicDevice(group, node, kind, device)) == [Namespace, group, kind, node, device]
  {
    assert TopicDevice(group, node, kind, device)
      == Namespace + "/" + (group + "/" + (kind + "/" + (node + "/" + device)));
    LevelsJoin(Namespace, group + "/" + (kind + "/" + (node + "/" + device)));
    LevelsJoin(group, kind + "/" + (node + "/" + device));
    LevelsJoin(kind, node + "/" + device);
    LevelsJoin(node, device);
    LevelsOfSafe(device);
  }

  /** A device topic is its node's topic for the same message type, one level deeper. */
  lemma TopicDeviceExtendsTopic(group: string, node: string, kind: string, device: string)
    ensures TopicDevice(group, node, kind, device) == Topic(group, node, kind) + "/" + device
  {
  }

  /** With safe names, distinct (group, type, node, device) tuples never share a
      device topic, and no device topic is a node topic. */
  lemma TopicsDistinguish(group: string, node: string, kind: string, device: string,
                          group': string, node': string, kind': string, device': string)
    requires Safe(group) && Safe(node) && Safe(kind) && Safe(device)
    requires Safe(group') && Safe(node') && Safe(kind') && Safe(device')
    ensures TopicDevice(group, node, kind, device) == TopicDevice(group', node', kind', device')
            ==> group == group' && node == node' && kind == kind' && device == device'
    ensures TopicDevice(group, node, kind, device) != Topic(group', node', kind')
  {
    TopicDeviceLevels(group, node, kind, device);
    TopicDeviceLevels(group', node', kind', device');
    TopicLevels(group', node', kind');
  }

  /** The worked example of a DDATA topic. */
  lemma ExampleDataTopic()
    ensures TopicDevice("plant1", "line1", DDATA, "eng1") == "spBv1.0/plant1/DDATA/line1/eng1"
  {
  }
}
