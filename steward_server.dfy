/** The server-side client registry plugin (steward/plugins/steward_server,
    whose class the source names `PluginInfoIO`, with plugin name
    "StewardServer"). It keeps `_active_connections`, an insertion-ordered
    dictionary from client id to the details the client registered with,
    and handles three events: CLIENT_REGISTER adds a client unless its id is
    already present, CLIENT_STOP removes the client named by the second
    segment of the message topic, and LIST_CLIENTS answers a command with
    the (id, details) pairs on the topic the command came in on. */
module StewardServer {
  import opened Python
  import opened Events

  /** An insertion-ordered dictionary: (key, value) entries, oldest first. */
  type Connections = seq<(Value, Value)>

  predicate DistinctKeys(c: Connections)
  {
    forall i, j | 0 <= i < j < |c| :: c[i].0 != c[j].0
  }

  function Keys(c: Connections): set<Value>
  {
    set i | 0 <= i < |c| :: c[i].0
  }

  /** `c.get(k)`: the value stored under `k`, if any. */
  function Get(c: Connections, k: Value): Option<Value>
  {
    if c == [] then None
    else if c[0].0 == k then Some(c[0].1)
    else Get(c[1..], k)
  }

  lemma {:induction false} GetKeys(c: Connections, k: Value)
    ensures Get(c, k).Some? <==> k in Keys(c)
  {
    if c != [] {
      GetKeys(c[1..], k);
      assert Keys(c) == {c[0].0} + Keys(c[1..]);
    }
  }

  /** Looking up a key in `c + [(k, v)]`: the entry appended answers only
      for a key not already in `c`. */
  lemma {:induction false} GetAppend(c: Connections, k: Value, v: Value, q: Value)
    ensures Get(c + [(k, v)], q) == if Get(c, q).Some? then Get(c, q) else if q == k then Some(v) else None
  {
    if c != [] {
      assert (c + [(k, v)])[1..] == c[1..] + [(k, v)];
      GetAppend(c[1..], k, v, q);
    }
  }

  /** With distinct keys, the entry at position `i` is what lookup of its
      key answers. */
  lemma {:induction false} GetAt(c: Connections, i: nat)
    requires DistinctKeys(c) && i < |c|
    ensures Get(c, c[i].0) == Some(c[i].1)
  {
    if i > 0 {
      GetAt(c[1..], i - 1);
    }
  }

  /** Position of the entry for key `k`. */
  function KeyIndex(c: Connections, k: Value): (i: nat)
    requires k in Keys(c)
    ensures i < |c| && c[i].0 == k
  {
    if c[0].0 == k then 0
    else
      assert Keys(c) == {c[0].0} + Keys(c[1..]);
      1 + KeyIndex(c[1..], k)
  }

  /** The entries of `c` other than the one for `k`, in their order. */
  function Without(c: Connections, k: Value): Connections
  {
    if c == [] then []
    else if c[0].0 == k then Without(c[1..], k)
    else [c[0]] + Without(c[1..], k)
  }

  /** Dropping an absent key changes nothing. */
  lemma {:induction false} WithoutAbsent(c: Connections, k: Value)
    requires k !in Keys(c)
    ensures Without(c, k) == c
  {
    if c != [] {
      assert Keys(c) == {c[0].0} + Keys(c[1..]);
      WithoutAbsent(c[1..], k);
    }
  }

  /** With distinct keys, dropping the key of the entry at position `i`
      cuts out exactly that position. */
  lemma {:induction false} WithoutAt(c: Connections, i: nat)
    requires DistinctKeys(c) && i < |c|
    ensures Without(c, c[i].0) == c[..i] + c[i + 1..]
  {
    if i == 0 {
      assert c[0].0 !in Keys(c[1..]);
      WithoutAbsent(c[1..], c[0].0);
    } else {
      WithoutAt(c[1..], i - 1);
      assert c[1..][i - 1].0 == c[i].0;
      assert [c[0]] + (c[1..][..i - 1] + c[1..][i..]) == c[..i] + c[i + 1..];
    }
  }

  /** `del c[k]` for a key that is present: that one entry goes, the rest
      keep their order. */
  function Remove(c: Connections, k: Value): (r: Connections)
    requires DistinctKeys(c) && k in Keys(c)
    ensures r == Without(c, k)
    ensures DistinctKeys(r)
    ensures Keys(r) == Keys(c) - {k}
    ensures |r| == |c| - 1
  {
    var i := KeyIndex(c, k);
    var r := c[..i] + c[i + 1..];
    WithoutAt(c, i);
    assert forall j | 0 <= j < |r| :: r[j] == if j < i then c[j] else c[j + 1];
    assert Keys(r) == Keys(c) - {k} by {
      forall x | x in Keys(c) - {k} ensures x in Keys(r) {
        var j :| 0 <= j < |c| && c[j].0 == x;
        assert r[if j < i then j else j - 1].0 == x;
      }
    }
    r
  }

  /** Lookup after a removal: the removed key is gone, every other key
      answers as before. */
  lemma GetRemove(c: Connections, k: Value, q: Value)
    requires DistinctKeys(c) && k in Keys(c)
    ensures Get(Remove(c, k), q) == if q == k then None else Get(c, q)
  {
    var r := Remove(c, k);
    GetKeys(r, q);
    GetKeys(c, q);
    if q != k && q in Keys(c) {
      var j :| 0 <= j < |c| && c[j].0 == q;
      var i := KeyIndex(c, k);
      var jr := if j < i then j else j - 1;
      assert r[jr] == c[j];
      GetAt(c, j);
      GetAt(r, jr);
    }
  }

  // ---------------------------------------------------------------------
  // The three handlers as transitions of `_active_connections`

  /** `register_client`: read `payload['id']` and, when that id is not yet
      present, store the whole payload under it. A payload that is not a
      dict raises TypeError, a dict without 'id' KeyError, and an id that
      cannot be a dictionary key TypeError; a present id leaves the
      dictionary as it was (the first registration wins). */
  function Register(c: Connections, payload: Value): (r: Result<Connections>)
    requires DistinctKeys(c)
    ensures !payload.Dict? ==> r == Raise(TypeError)
    ensures payload.Dict? && "id" !in payload.entries ==> r == Raise(KeyError)
    ensures payload.Dict? && "id" in payload.entries ==>
              var id := payload.entries["id"];
              && (!Hashable(id) ==> r == Raise(TypeError))
              && (Hashable(id) && id in Keys(c) ==> r == Ok(c))
              && (Hashable(id) && id !in Keys(c) ==> r == Ok(c + [(id, payload)]))
    ensures r.Ok? ==> DistinctKeys(r.value)
  {
    match GetItem(payload, "id")
    case Raise(e) => Raise(e)
    case Ok(id) =>
      if !Hashable(id) then Raise(TypeError)
      else if id !in Keys(c) then
        var r := c + [(id, payload)];
        assert forall i | 0 <= i < |c| :: c[i].0 in Keys(c);
        Ok(r)
      else Ok(c)
  }

  /** `unregister_client`: the client id is the second '/'-segment of the
      message topic (IndexError when the topic has no '/'); that id's entry
      is deleted when present, and nothing changes otherwise. */
  function Unregister(c: Connections, topic: string): (r: Result<Connections>)
    requires DistinctKeys(c)
    ensures r.Raise? <==> '/' !in topic
    ensures r.Raise? ==> r.exc == IndexError
    ensures r.Ok? ==> var id := Str(Split(topic, '/')[1]);
              && r.value == Without(c, id)
              && DistinctKeys(r.value)
              && Keys(r.value) == Keys(c) - {id}
              && (id !in Keys(c) ==> r.value == c)
  {
    match TopicSegment(topic, 1)
    case Raise(e) => Raise(e)
    case Ok(seg) =>
      var id := Str(seg);
      if id in Keys(c) then Ok(Remove(c, id))
      else
        WithoutAbsent(c, id);
        Ok(c)
  }

  /** How a client reads the response back: one dictionary entry per
      two-item tuple, keeping the order. */
  function ReadItems(v: Value): Option<Connections>
  {
    if v.List? && forall i | 0 <= i < |v.items| :: v.items[i].Tuple? && |v.items[i].items| == 2 then
      Some(seq(|v.items|, i requires 0 <= i < |v.items| => (v.items[i].items[0], v.items[i].items[1])))
    else None
  }

  /** The payload of the LIST_CLIENTS response:
      `list(_active_connections.items())`, a list of (id, details) tuples.
      Reading it back gives the registry's entries, in insertion order. */
  function ItemsPayload(c: Connections): (v: Value)
    ensures ReadItems(v) == Some(c)
  {
    var v := List(seq(|c|, i requires 0 <= i < |c| => Tuple([c[i].0, c[i].1])));
    assert forall i | 0 <= i < |v.items| :: v.items[i] == Tuple([c[i].0, c[i].1]);
    var back := seq(|v.items|, i requires 0 <= i < |v.items| => (v.items[i].items[0], v.items[i].items[1]));
    assert forall i | 0 <= i < |c| :: back[i] == c[i];
    assert back == c;
    v
  }

  /** The publications `command_list_clients` makes: for a command, one
      RESPONSE event with the request's name and the entries as payload,
      on the request's own topic; nothing for any other kind of event. */
  function ListClients(c: Connections, event: Event, message: Message): (out: seq<(string, Event)>)
    ensures |out| == if event.IsCommand() then 1 else 0
    ensures forall p | p in out ::
              && p.0 == message.topic
              && p.1.kind == RESPONSE
              && p.1.name == event.name
              && ReadItems(p.1.payload) == Some(c)
  {
    if event.IsCommand() then [(message.topic, Event(RESPONSE, event.name, ItemsPayload(c)))] else []
  }

  // ---------------------------------------------------------------------
  // Properties relating the handlers

  /** After a successful registration the registered id answers with the
      details it was first registered with (the new payload if it was
      absent, the old details otherwise), and every other id answers as
      before. */
  lemma RegisterGet(c: Connections, payload: Value, q: Value)
    requires DistinctKeys(c) && Register(c, payload).Ok?
    ensures var id := payload.entries["id"];
            Get(Register(c, payload).value, q) ==
              if q == id && id !in Keys(c) then Some(payload) else Get(c, q)
  {
    var id := payload.entries["id"];
    GetKeys(c, q);
    if id !in Keys(c) {
      GetAppend(c, id, payload, q);
    }
  }

  /** After a successful unregistration the id named by the topic is
      absent, and every other id answers as before. */
  lemma UnregisterGet(c: Connections, topic: string, q: Value)
    requires DistinctKeys(c) && Unregister(c, topic).Ok?
    ensures var id := Str(Split(topic, '/')[1]);
            Get(Unregister(c, topic).value, q) == if q == id then None else Get(c, q)
  {
    var id := Str(Split(topic, '/')[1]);
    GetKeys(c, q);
    if id in Keys(c) {
      GetRemove(c, id, q);
    }
  }

  /** A client that registers with id X and later stops on topic
      `prefix/X` is gone afterwards; when X was new, the dictionary is back
      to what it was before the registration. */
  lemma RegisterThenUnregister(c: Connections, payload: Value, prefix: string, x: string)
    requires DistinctKeys(c)
    requires payload.Dict? && "id" in payload.entries && payload.entries["id"] == Str(x)
    requires '/' !in prefix && '/' !in x
    ensures Register(c, payload).Ok?
    ensures var c1 := Register(c, payload).value;
            var r := Unregister(c1, prefix + "/" + x);
            && r.Ok?
            && Str(x) !in Keys(r.value)
            && (Str(x) !in Keys(c) ==> r.value == c)
  {
    var c1 := Register(c, payload).value;
    SecondSegment(prefix, x);
    assert Split(prefix + "/" + x, '/')[1] == x;
    if Str(x) !in Keys(c) {
      assert c1 == c + [(Str(x), payload)];
      assert c1[|c|].0 == Str(x);
      assert KeyIndex(c1, Str(x)) == |c| by {
        var i := KeyIndex(c1, Str(x));
        assert c1[i].0 == Str(x);
        assert DistinctKeys(c1) && c1[i].0 == c1[|c|].0;
      }
      assert Remove(c1, Str(x)) == c1[..|c|] + c1[|c| + 1..];
      assert c1[..|c|] == c;
    }
  }

  /** The plugin object. `published` records what `send_response_event`
      hands to the MQTT client: (topic, event) pairs, oldest first. */
  class StewardServerPlugin {
    var activeConnections: Connections
    var published: seq<(string, Event)>

    ghost predicate Valid()
      reads this
    {
      DistinctKeys(activeConnections)
    }

    constructor ()
      ensures Valid() && activeConnections == [] && published == []
    {
      activeConnections := [];
      published := [];
    }

    /** `register_client(event, message)`. */
    method RegisterClient(event: Event, message: Message) returns (raised: Option<Exception>)
      requires Valid()
      modifies this`activeConnections
      ensures Valid()
      ensures var r := Register(old(activeConnections), event.payload);
              if r.Ok? then activeConnections == r.value && raised == None
              else activeConnections == old(activeConnections) && raised == Some(r.exc)
    {
      var data := event.payload;
      var clientId := GetItem(event.payload, "id");
      if clientId.Raise? {
        return Some(clientId.exc);
      }
      if !Hashable(clientId.value) {
        return Some(TypeError);
      }
      if clientId.value !in Keys(activeConnections) {
        activeConnections := activeConnections + [(clientId.value, data)];
      }
      raised := None;
    }

    /** `unregister_client(event, message)`. */
    method UnregisterClient(event: Event, message: Message) returns (raised: Option<Exception>)
      requires Valid()
      modifies this`activeConnections
      ensures Valid()
      ensures var r := Unregister(old(activeConnections), message.topic);
              if r.Ok? then activeConnections == r.value && raised == None
              else activeConnections == old(activeConnections) && raised == Some(r.exc)
    {
      var segment := TopicSegment(message.topic, 1);
      if segment.Raise? {
        return Some(segment.exc);
      }
      var clientId := Str(segment.value);
      if clientId in Keys(activeConnections) {
        activeConnections := Remove(activeConnections, clientId);
      }
      raised := None;
    }

    /** `command_list_clients(event, message)`. */
    method CommandListClients(event: Event, message: Message)
      requires Valid()
      modifies this`published
      ensures Valid()
      ensures activeConnections == old(activeConnections)
      ensures published == old(published) + ListClients(activeConnections, event, message)
    {
      if event.IsCommand() {
        var data := ItemsPayload(activeConnections);
        var response := Event(RESPONSE, event.name, data);
        SendResponseEvent(message, response);
      }
    }

    /** `send_response_event(message, event)` of the plugin base class:
        publish the event on the message's topic. */
    method SendResponseEvent(message: Message, event: Event)
      modifies this`published
      ensures published == old(published) + [(message.topic, event)]
    {
      published := published + [(message.topic, event)];
    }
  }
}
