/** How the client registry plugin's handlers reach the dispatcher: its
    three methods carry `is_event_handler` tags, and the server hands the
    plugin object to `find_event_handlers`, which files each method under
    its tag. */
module Wiring {
  import opened Python
  import opened MessageAgents

  /** The plugin's three event handlers, and every other attribute the
      object has (methods, fields, inherited and special attributes). */
  datatype PluginMember = RegisterClient | UnregisterClient | CommandListClients | Other(name: string)

  /** The attributes of the plugin object that carry a tag, and the tags
      the decorators give them. */
  function DecoratedAttributes(): map<string, Attribute<PluginMember>>
  {
    map[
      "register_client" := Attribute(RegisterClient, true, Tagged(Some("CLIENT_REGISTER"))),
      "unregister_client" := Attribute(UnregisterClient, true, Tagged(Some("CLIENT_STOP"))),
      "command_list_clients" := Attribute(CommandListClients, true, Tagged(Some("LIST_CLIENTS")))
    ]
  }

  /** The registry `find_event_handlers` leaves when it scans `target`
      starting from the registry `m`. */
  ghost function HandlersOf(m: Registry<PluginMember>, target: map<string, Attribute<PluginMember>>): Registry<PluginMember>
  {
    RegisterAll(m, target, SortedNames(target.Keys))
  }

  /** The tag `find_event_handlers` files an attribute under, if any. */
  function FiledUnder(a: Attribute<PluginMember>): Option<string>
  {
    if Registers(a) then Some(TagName(a)) else None
  }

  /** The only handler a scan files under a name is the one attribute
      tagged with that name. */
  lemma SingleTagged(target: map<string, Attribute<PluginMember>>, attr: string, event: string)
    requires attr in target
    requires forall n | n in target :: FiledUnder(target[n]) == Some(event) <==> n == attr
    ensures Lookup(HandlersOf(map[], target), event) == [target[attr].value]
  {
    var names := SortedNames(target.Keys);
    FoundHandlers(map[], target, event);
    var found := TaggedNames(target, names, event);
    SortedUnique(found, [attr]);
  }

  /** No handler is filed under a name no attribute is tagged with. */
  lemma NoneTagged(target: map<string, Attribute<PluginMember>>, event: string)
    requires forall n | n in target :: FiledUnder(target[n]) != Some(event)
    ensures Lookup(HandlersOf(map[], target), event) == []
  {
    FoundHandlers(map[], target, event);
    FirstIsMember(TaggedNames(target, SortedNames(target.Keys), event));
  }

  /** The tag each attribute name of the plugin carries. */
  function PluginTag(n: string): Option<string>
  {
    var d := DecoratedAttributes();
    if n in d then FiledUnder(d[n]) else None
  }

  /** Each of the three event names is the tag of exactly one decorated
      attribute. */
  lemma PluginTagsDistinct(event: string, attr: string)
    requires (attr, event) in {("register_client", "CLIENT_REGISTER"), ("unregister_client", "CLIENT_STOP"),
                               ("command_list_clients", "LIST_CLIENTS")}
    ensures forall n :: PluginTag(n) == Some(event) <==> n == attr
  {
    var d := DecoratedAttributes();
    assert d.Keys == {"register_client", "unregister_client", "command_list_clients"};
  }

  /** No attribute name is tagged with any other event name. */
  lemma PluginTagsOnly(event: string)
    requires event !in {"CLIENT_REGISTER", "CLIENT_STOP", "LIST_CLIENTS"}
    ensures forall n :: PluginTag(n) != Some(event)
  {
    var d := DecoratedAttributes();
    assert d.Keys == {"register_client", "unregister_client", "command_list_clients"};
  }

  /** On the plugin object, every attribute is filed under its plugin tag. */
  lemma TargetTags(target: map<string, Attribute<PluginMember>>)
    requires forall n | n in DecoratedAttributes() :: n in target && target[n] == DecoratedAttributes()[n]
    requires forall n | n in target && n !in DecoratedAttributes() :: !Registers(target[n])
    ensures forall n | n in target :: FiledUnder(target[n]) == PluginTag(n)
  {
  }

  /** Scanning the plugin object, whatever its other attributes are as long
      as they carry no truthy tag, files `register_client` alone under
      CLIENT_REGISTER, `unregister_client` alone under CLIENT_STOP,
      `command_list_clients` alone under LIST_CLIENTS, and nothing under
      any other name. */
  lemma PluginHandlers(target: map<string, Attribute<PluginMember>>)
    requires forall n | n in DecoratedAttributes() :: n in target && target[n] == DecoratedAttributes()[n]
    requires forall n | n in target && n !in DecoratedAttributes() :: !Registers(target[n])
    ensures Lookup(HandlersOf(map[], target), "CLIENT_REGISTER") == [RegisterClient]
    ensures Lookup(HandlersOf(map[], target), "CLIENT_STOP") == [UnregisterClient]
    ensures Lookup(HandlersOf(map[], target), "LIST_CLIENTS") == [CommandListClients]
    ensures forall e | e !in {"CLIENT_REGISTER", "CLIENT_STOP", "LIST_CLIENTS"} ::
              Lookup(HandlersOf(map[], target), e) == []
  {
    TargetTags(target);
    var d := DecoratedAttributes();
    assert d.Keys == {"register_client", "unregister_client", "command_list_clients"};
    PluginTagged(target, "register_client", "CLIENT_REGISTER");
    PluginTagged(target, "unregister_client", "CLIENT_STOP");
    PluginTagged(target, "command_list_clients", "LIST_CLIENTS");
    forall e | e !in {"CLIENT_REGISTER", "CLIENT_STOP", "LIST_CLIENTS"}
      ensures Lookup(HandlersOf(map[], target), e) == []
    {
      PluginUntagged(target, e);
    }
  }

  /** A scan of the plugin files a decorated method alone under its tag. */
  lemma PluginTagged(target: map<string, Attribute<PluginMember>>, attr: string, event: string)
    requires forall n | n in target :: FiledUnder(target[n]) == PluginTag(n)
    requires (attr, event) in {("register_client", "CLIENT_REGISTER"), ("unregister_client", "CLIENT_STOP"),
                               ("command_list_clients", "LIST_CLIENTS")}
    requires attr in target
    ensures Lookup(HandlersOf(map[], target), event) == [target[attr].value]
  {
    PluginTagsDistinct(event, attr);
    assert forall n | n in target :: FiledUnder(target[n]) == Some(event) <==> n == attr;
    SingleTagged(target, attr, event);
  }

  /** A scan of the plugin files nothing under an event name none of its
      decorators names. */
  lemma PluginUntagged(target: map<string, Attribute<PluginMember>>, event: string)
    requires forall n | n in target :: FiledUnder(target[n]) == PluginTag(n)
    requires event !in {"CLIENT_REGISTER", "CLIENT_STOP", "LIST_CLIENTS"}
    ensures Lookup(HandlersOf(map[], target), event) == []
  {
    PluginTagsOnly(event);
    NoneTagged(target, event);
  }
}
