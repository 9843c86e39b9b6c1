/** The topic names of an entity (cmha/src/devices/mod.rs) and the prefixes used to purge them.
    A topic is a list of levels separated by '/', as in section 4.7.1.1 of MQTT Version 5.0. */
module Topics {
  import opened Wrappers

  datatype EntityDetails = EntityDetails(deviceIdentifier: string, id: string)

  datatype Kind = Command | State | Availability

  function KindName(kind: Kind): string {
    match kind
    case Command => "command"
    case State => "state"
    case Availability => "availability"
  }

  /** A name that fits in one topic level. */
  predicate LevelName(s: string) {
    '/' !in s
  }

  /** The last level of an entity's path: its id, with the item appended when there is one. */
  function Leaf(id: string, item: Option<string>): string {
    match item
    case None => id
    case Some(i) => id + "_" + i
  }

  function TopicPath(e: EntityDetails, item: Option<string>): string {
    var basicPath := e.deviceIdentifier + "/" + e.id;
    match item
    case None => basicPath
    case Some(i) => basicPath + "_" + i
  }

  function TopicFor(e: EntityDetails, item: Option<string>, kind: Kind): string {
    TopicPath(e, item) + "/" + KindName(kind)
  }

  // ----- Levels: the reference reading of a topic -----

  function Levels(topic: string): (levels: seq<string>)
    ensures |levels| > 0
  {
    if topic == "" then [""]
    else if topic[0] == '/' then [""] + Levels(topic[1..])
    else
      var rest := Levels(topic[1..]);
      [[topic[0]] + rest[0]] + rest[1..]
  }

  function Join(levels: seq<string>): string
    requires |levels| > 0
  {
    if |levels| == 1 then levels[0] else levels[0] + "/" + Join(levels[1..])
  }

  lemma {:induction false} LevelsCons(name: string, rest: string)
    requires LevelName(name)
    ensures Levels(name) == [name]
    ensures Levels(name + "/" + rest) == [name] + Levels(rest)
  {
    if name == "" {
      assert (name + "/" + rest)[1..] == rest;
    } else {
      LevelsCons(name[1..], rest);
      assert (name + "/" + rest)[1..] == name[1..] + "/" + rest;
      assert name == [name[0]] + name[1..];
    }
  }

  /** Splitting undoes joining, for any list of '/'-free names. */
  lemma {:induction false} LevelsOfJoin(levels: seq<string>)
    requires |levels| > 0
    requires forall i :: 0 <= i < |levels| ==> LevelName(levels[i])
    ensures Levels(Join(levels)) == levels
  {
    if |levels| == 1 {
      LevelsCons(levels[0], "");
    } else {
      LevelsOfJoin(levels[1..]);
      LevelsCons(levels[0], Join(levels[1..]));
    }
  }

  /** Joining undoes splitting, for every string. */
  lemma {:induction false} JoinOfLevels(topic: string)
    ensures Join(Levels(topic)) == topic
    ensures forall i :: 0 <= i < |Levels(topic)| ==> LevelName(Levels(topic)[i])
  {
    if topic == "" {
    } else {
      JoinOfLevels(topic[1..]);
      var rest := Levels(topic[1..]);
      if topic[0] != '/' {
        assert Levels(topic)[1..] == rest[1..];
        assert Join(Levels(topic)) == [topic[0]] + Join(rest);
      } else {
        assert Levels(topic)[1..] == rest;
      }
    }
  }

  lemma TopicIsThreeLevels(e: EntityDetails, item: Option<string>, kind: Kind)
    ensures TopicFor(e, item, kind) == Join([e.deviceIdentifier, Leaf(e.id, item), KindName(kind)])
  {
    var d, l, k := e.deviceIdentifier, Leaf(e.id, item), KindName(kind);
    assert [d, l, k][1..][1..] == [k] && [d, l, k][1..] == [l, k];
    assert Join([l, k]) == l + "/" + k;
    assert TopicPath(e, item) == d + "/" + l;
  }

  /** Every topic parses back to its device, its path and its kind, and to nothing else. */
  lemma TopicParsesBack(e: EntityDetails, item: Option<string>, kind: Kind)
    requires LevelName(e.deviceIdentifier) && LevelName(Leaf(e.id, item))
    ensures Levels(TopicFor(e, item, kind)) == [e.deviceIdentifier, Leaf(e.id, item), KindName(kind)]
  {
    TopicIsThreeLevels(e, item, kind);
    LevelsOfJoin([e.deviceIdentifier, Leaf(e.id, item), KindName(kind)]);
  }

  /** Two topics coincide exactly when device, path and kind do. */
  lemma TopicsCoincide(e: EntityDetails, i: Option<string>, k: Kind, f: EntityDetails, j: Option<string>, l: Kind)
    requires LevelName(e.deviceIdentifier) && LevelName(Leaf(e.id, i))
    requires LevelName(f.deviceIdentifier) && LevelName(Leaf(f.id, j))
    ensures TopicFor(e, i, k) == TopicFor(f, j, l) <==>
            e.deviceIdentifier == f.deviceIdentifier && Leaf(e.id, i) == Leaf(f.id, j) && k == l
  {
    TopicParsesBack(e, i, k);
    TopicParsesBack(f, j, l);
    var a, b := Levels(TopicFor(e, i, k)), Levels(TopicFor(f, j, l));
    if a == b {
      assert a[0] == b[0] && a[1] == b[1] && a[2] == b[2];
      TopicIsThreeLevels(e, i, k);
      TopicIsThreeLevels(f, j, l);
    }
  }

  // ----- Purging by path prefix -----

  predicate StartsWith(key: string, prefix: string) {
    prefix <= key
  }

  predicate Purged(key: string, prefixes: set<string>) {
    exists p :: p in prefixes && StartsWith(key, p)
  }

  /** The prefixes that a removal purges: the path, without an item, of each entity removed. */
  function PathsOf(entities: set<EntityDetails>): set<string> {
    set e | e in entities :: TopicPath(e, None)
  }

  /** A prefix with a first level matches level by level. */
  lemma PrefixByLevel(a: string, x: string, b: string, y: string)
    requires LevelName(a) && LevelName(b)
    ensures StartsWith(b + "/" + y, a + "/" + x) <==> a == b && StartsWith(y, x)
  {
    var p, t := a + "/" + x, b + "/" + y;
    assert p[|a|] == '/' && t[|b|] == '/';
    assert p[..|a|] == a && t[..|b|] == b;
    assert p[|a| + 1..] == x && t[|b| + 1..] == y;
    assert forall k :: 0 <= k < |a| ==> p[k] == a[k] && a[k] != '/';
    assert forall k :: 0 <= k < |b| ==> t[k] == b[k] && b[k] != '/';
  }

  /** An entity's prefix meets exactly the topics of its own device whose path extends its id. */
  lemma PrefixMeets(e: EntityDetails, f: EntityDetails, item: Option<string>, kind: Kind)
    requires LevelName(e.deviceIdentifier) && LevelName(e.id)
    requires LevelName(f.deviceIdentifier)
    ensures StartsWith(TopicFor(f, item, kind), TopicPath(e, None)) <==>
            e.deviceIdentifier == f.deviceIdentifier && e.id <= Leaf(f.id, item)
  {
    var l, k := Leaf(f.id, item), KindName(kind);
    assert TopicFor(f, item, kind) == f.deviceIdentifier + "/" + (l + "/" + k);
    PrefixByLevel(e.deviceIdentifier, e.id, f.deviceIdentifier, l + "/" + k);
    assert (l + "/" + k)[|l|] == '/' && (l + "/" + k)[..|l|] == l;
  }

  /** What a removal purges, exactly: a topic goes if and only if a removed entity of the same device
      has an id that the topic's path extends. */
  lemma PurgeMeetsExactly(removed: set<EntityDetails>, f: EntityDetails, item: Option<string>, kind: Kind)
    requires forall e :: e in removed ==> LevelName(e.deviceIdentifier) && LevelName(e.id)
    requires LevelName(f.deviceIdentifier)
    ensures Purged(TopicFor(f, item, kind), PathsOf(removed)) <==>
            exists e :: e in removed && e.deviceIdentifier == f.deviceIdentifier && e.id <= Leaf(f.id, item)
  {
    var t := TopicFor(f, item, kind);
    if Purged(t, PathsOf(removed)) {
      var p :| p in PathsOf(removed) && StartsWith(t, p);
      var e :| e in removed && p == TopicPath(e, None);
      PrefixMeets(e, f, item, kind);
    }
    if e :| e in removed && e.deviceIdentifier == f.deviceIdentifier && e.id <= Leaf(f.id, item) {
      PrefixMeets(e, f, item, kind);
      assert TopicPath(e, None) in PathsOf(removed);
    }
  }

  /** So every topic of a removed entity goes, whatever its item and kind, and every topic of a device
      none of whose entities is removed stays. */
  lemma PurgeIsPrecise(removed: set<EntityDetails>, f: EntityDetails, item: Option<string>, kind: Kind)
    ensures f in removed ==> Purged(TopicFor(f, item, kind), PathsOf(removed))
    ensures
      (forall e :: e in removed ==> LevelName(e.deviceIdentifier) && LevelName(e.id)) &&
      LevelName(f.deviceIdentifier) &&
      (forall e :: e in removed ==> e.deviceIdentifier != f.deviceIdentifier)
      ==> !Purged(TopicFor(f, item, kind), PathsOf(removed))
  {
    if f in removed {
      assert TopicPath(f, None) in PathsOf(removed);
      assert TopicFor(f, item, kind)[..|TopicPath(f, None)|] == TopicPath(f, None);
    }
    if
      && (forall e :: e in removed ==> LevelName(e.deviceIdentifier) && LevelName(e.id))
      && LevelName(f.deviceIdentifier)
      && (forall e :: e in removed ==> e.deviceIdentifier != f.deviceIdentifier)
    {
      PurgeMeetsExactly(removed, f, item, kind);
    }
  }

  /** The levels of the topics of an entity, as Home Assistant subscribes to them. */
  lemma TopicsAre(device: string, id: string)
    requires LevelName(device) && LevelName(id)
    ensures var e := EntityDetails(device, id);
            && Levels(TopicFor(e, None, Command)) == [device, id, "command"]
            && Levels(TopicFor(e, None, State)) == [device, id, "state"]
            && Levels(TopicFor(e, None, Availability)) == [device, id, "availability"]
            && Levels(TopicFor(e, Some("attributes"), State)) == [device, id + "_attributes", "state"]
  {
    var e := EntityDetails(device, id);
    TopicParsesBack(e, None, Command);
    TopicParsesBack(e, None, State);
    TopicParsesBack(e, None, Availability);
    TopicParsesBack(e, Some("attributes"), State);
    assert id + "_" + "attributes" == id + "_attributes";
  }
}
