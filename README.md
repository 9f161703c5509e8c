# Steward event hub: handler registry, client registry and log colouriser

Steward is a small event hub. Clients and the server exchange typed events
over an MQTT broker. Inside each process a `MessageAgent` routes every
inbound event to the handlers registered for its name. Plugins supply
those handlers as methods tagged with the `is_event_handler` decorator.

This project models the in-process bookkeeping behind that plumbing, in
Dafny, and proves properties of it:

- **Handler registry and dispatcher** (`message_agent.dfy`, module
  `MessageAgents`). The class `MessageAgent` holds the dictionary from
  event name to its ordered handler list. `AddHandler` appends to a list,
  or creates it for a new name. `FindEventHandlers` visits a target's
  attributes in `dir()` order. It registers each callable attribute whose
  `handles_event` tag is truthy, under that tag. `MessageProcessor` copies
  the event name's list, then calls each handler on the copy in order. A
  handler may call `add_handler` while it runs. An exception from a handler
  ends the dispatch and escapes: there is no per-handler isolation. Each
  method is proved against a specification function (`WithHandler`,
  `RegisterAll`, `Dispatch`), and the lemmas state what those functions
  promise.
- **Client registry plugin** (`steward_server.dfy`, module
  `StewardServer`). The class `StewardServerPlugin` holds
  `_active_connections`, an insertion-ordered dictionary from client id to
  the details payload. `RegisterClient` is first-writer-wins.
  `UnregisterClient` takes the id from the second `/`-segment of the MQTT
  topic. `CommandListClients` answers a command with a RESPONSE event that
  lists the (id, details) pairs in insertion order. The response goes back
  on the topic the command came from.
- **How the plugin's handlers are registered** (`wiring.dfy`, module
  `Wiring`). Scanning the plugin object files each of its three tagged
  methods alone under its event name.
- **Level-name colouriser** (`logger.dfy`, module `Logger`). This covers
  the `COLORS` table with its level aliases, the console formatter's
  level-name rewrite, and the file formatter, which leaves the level name
  alone.
- **Python runtime facts the core relies on** (`python.dfy`, module
  `Python`). These are payload values and hashability, `v['id']`,
  `str.split`, Python's ordering of `str`, and `dir()`, which returns
  attribute names sorted.
- `events.dfy` (module `Events`) holds the decoded event (kind, name,
  payload) and the MQTT message (topic).

Where the source and its documentation differ, the model follows the code:

- Dispatch has no fault isolation.
- An unknown event name is a silent no-op.
- `steward/event.py` defines no event kind, no `is_command`, no JSON codec,
  and a constructor whose signature does not match its callers. The
  callers build events as `StewardEvent(kind, name, payload=...)`, so the
  event here is the value those callers evidently mean. It is taken
  already decoded.

## Model

| member | source | states |
|---|---|---|
| `MessageAgents.WithHandler` | steward/message_agent.py:14-19 | adding a handler puts it at the end of the name's existing list, or creates the list `[h]` for a new name; every other name keeps its list; the name set grows by exactly that name |
| `MessageAgents.MessageAgent.constructor` | steward/message_agent.py:9-11 | a new agent has no handlers |
| `MessageAgents.MessageAgent.AddHandler` | steward/message_agent.py:14-19 | the handler dictionary after `add_handler` is `WithHandler` of the one before |
| `MessageAgents.TaggedNamesExact` | steward/message_agent.py:22-27 | an attribute is picked for an event exactly when it is callable and its `handles_event` tag is present, not None, not empty, and equal to that event; the picked names keep the visiting order, so sorted names give a sorted selection |
| `MessageAgents.RegisterAllLookup` | steward/message_agent.py:21-27 | visiting a list of attribute names leaves each event's handler list extended by the values of exactly the attributes tagged with it, in visiting order; nothing else is added |
| `MessageAgents.FoundHandlers` | steward/message_agent.py:21-27 | after `find_event_handlers(target)`, each event's list gains exactly the target's callable attributes tagged with that event, ordered by attribute name as `dir()` lists them |
| `MessageAgents.MessageAgent.FindEventHandlers` | steward/message_agent.py:21-27 | the scan visits `dir(target)` in order and registers attribute by attribute; the result is `RegisterAll` over the sorted attribute names |
| `MessageAgents.MessageAgent.VisitAll` | steward/message_agent.py:22-27 | visiting a list of attribute names one by one leaves the registry `RegisterAll` of the old one over those names, in order |
| `MessageAgents.MessageAgent.Visit` | steward/message_agent.py:23-27 | one attribute is registered under its tag when it is callable and its tag is present, not None and not empty; otherwise the registry is unchanged |
| `MessageAgents.Dispatch` | steward/message_agent.py:34 | an event whose name has no entry makes no call, raises nothing, and leaves the registry as it was |
| `MessageAgents.Run` | steward/message_agent.py:35-36 | an exception that escapes the dispatch loop is the one raised by the last handler called, and every handler called before it returned normally |
| `MessageAgents.RunCallsInOrder` | steward/message_agent.py:35-36 | the i-th call is to the i-th handler of the copied list, with the event and the message; there are never more calls than handlers in the copy |
| `MessageAgents.RunCompletes` | steward/message_agent.py:35-36 | a dispatch completes without an exception exactly when no handler in the copy raises, and then every handler in the copy is called once |
| `MessageAgents.RunStopsAtFirstRaise` | steward/message_agent.py:35-36 | when the handler at position k is the first to raise, exactly k+1 handlers are called and its exception escapes; the handlers after it are not called |
| `MessageAgents.AddedDuringDispatchNotCalled` | steward/message_agent.py:35 | a handler not in the name's list when the event arrives is not called for it, even when another handler registers it during the dispatch |
| `MessageAgents.DuplicateRegistrationCalledTwice` | steward/message_agent.py:16-36 | adding the same handler twice under a name stores it twice; a dispatch of that name in which nothing raises calls it twice, right after the handlers registered before it |
| `MessageAgents.MessageAgent.Invoke` | steward/message_agent.py:36 | calling a handler applies the `add_handler` calls it makes, in order, and reports whether it raised |
| `MessageAgents.MessageAgent.MessageProcessor` | steward/message_agent.py:29-36 | the calls made, the exception that escapes and the registry left behind are those of `Dispatch` on the registry as it was when the event arrived |
| `Python.Below` | steward/message_agent.py:22 | Python's `<` on strings, by which `dir()` sorts: lexicographic by code point, a proper prefix first |
| `Python.BelowIrreflexive` | steward/message_agent.py:22 | no string is below itself |
| `Python.BelowTransitive` | steward/message_agent.py:22 | `<` on strings is transitive |
| `Python.BelowTotal` | steward/message_agent.py:22 | of two different strings one is below the other, so `dir()`'s order is total |
| `Python.BelowAsymmetric` | steward/message_agent.py:22 | of two strings at most one is below the other |
| `Python.Dir` | steward/message_agent.py:22 | `dir(target)` lists the target's attribute names, each once, in strictly increasing string order |
| `Python.SortedNames` | steward/message_agent.py:22 | the sorted listing of a set of names is strictly sorted and holds exactly those names |
| `Python.SortedUnique` | steward/message_agent.py:22 | two strictly sorted name lists with the same elements are equal, so `dir()`'s order is determined by the attribute names |
| `Python.GetItem` | steward/plugins/steward_server/main.py:31 | `payload['id']` succeeds exactly on a dict holding 'id'; other values raise TypeError, a dict without 'id' raises KeyError |
| `Python.Split` | steward/plugins/steward_server/main.py:48 | `topic.split('/')` gives at least one piece; no piece holds a '/'; there are two or more pieces exactly when the topic holds a '/'; joining the pieces with '/' gives back the topic |
| `Python.SplitJoin` | steward/plugins/steward_server/main.py:48 | splitting a '/'-join of slash-free pieces gives back those pieces |
| `Python.TopicSegment` | steward/plugins/steward_server/main.py:48 | `topic.split('/')[1]` is the second piece when there is one, and raises IndexError otherwise |
| `Python.SecondSegment` | steward/plugins/steward_server/main.py:48 | the second segment of `prefix/X` is X when neither part holds a '/' |
| `StewardServer.Register` | steward/plugins/steward_server/main.py:30-33 | a non-dict payload raises TypeError; a dict without 'id' raises KeyError; an unhashable id raises TypeError; an absent id gets the whole payload appended at the end; a present id leaves the dictionary unchanged (first registration wins); ids stay distinct |
| `StewardServer.RegisterGet` | steward/plugins/steward_server/main.py:30-33 | after registering, the id answers with the new payload if it was absent and with its first details otherwise; every other id answers as before |
| `StewardServer.WithoutAbsent` | steward/plugins/steward_server/main.py:49-51 | dropping an id that is not in the dictionary leaves every entry in place, in order |
| `StewardServer.WithoutAt` | steward/plugins/steward_server/main.py:51 | with distinct ids, dropping the id of the entry at position i cuts out exactly that position: the entries before it and after it stay, in order |
| `StewardServer.Remove` | steward/plugins/steward_server/main.py:51 | `del` of a present key keeps every other entry in its insertion order and drops only that key's entry (`Without`): one entry fewer, ids stay distinct |
| `StewardServer.GetRemove` | steward/plugins/steward_server/main.py:51 | after `del`, the removed id is absent and every other id answers as before |
| `StewardServer.Unregister` | steward/plugins/steward_server/main.py:48-51 | a topic without '/' raises IndexError; otherwise the id is the topic's second segment, and the result is the dictionary without that id's entry, every other entry in its insertion order; an absent id changes nothing |
| `StewardServer.UnregisterGet` | steward/plugins/steward_server/main.py:48-51 | after unregistering, the topic's id is absent and every other id answers as before |
| `StewardServer.RegisterThenUnregister` | steward/plugins/steward_server/main.py:30-51 | registering id X and then stopping on topic `prefix/X` (no '/' in either) succeeds and leaves X absent; when X was new, the dictionary is exactly what it was before the registration |
| `StewardServer.ItemsPayload` | steward/plugins/steward_server/main.py:66 | the response payload `list(_active_connections.items())`, read back as (id, details) pairs the way a client does, gives the registry's entries in insertion order |
| `Events.Event.IsCommand` | steward/plugins/steward_server/main.py:65 | `event.is_command` holds exactly of events of kind COMMAND |
| `StewardServer.ListClients` | steward/plugins/steward_server/main.py:65-68 | a command gets exactly one publication: on the request's topic, kind RESPONSE, the request's name, and the entries in insertion order as payload; any other kind of event publishes nothing |
| `StewardServer.StewardServerPlugin.constructor` | steward/plugins/steward_server/main.py:7-14 | a new plugin has no active connections and has published nothing |
| `StewardServer.StewardServerPlugin.RegisterClient` | steward/plugins/steward_server/main.py:17-33 | the dictionary becomes `Register` of the old one and nothing is raised, or it is unchanged and `Register`'s exception is raised |
| `StewardServer.StewardServerPlugin.UnregisterClient` | steward/plugins/steward_server/main.py:36-51 | the dictionary becomes `Unregister` of the old one for the message's topic, or it is unchanged and IndexError is raised |
| `StewardServer.StewardServerPlugin.CommandListClients` | steward/plugins/steward_server/main.py:54-68 | the dictionary is not modified; the publications gain exactly `ListClients` of it |
| `StewardServer.StewardServerPlugin.SendResponseEvent` | steward/plugins/_base_plugin.py:17-18 | the event is published on the message's topic, after everything published before |
| `Wiring.SingleTagged` | steward/message_agent.py:21-27 | when exactly one attribute is tagged with an event, a scan from an empty registry files that attribute's value alone under it |
| `Wiring.NoneTagged` | steward/message_agent.py:21-27 | when no attribute is tagged with an event, a scan files nothing under it |
| `Wiring.PluginHandlers` | steward/plugins/steward_server/main.py:16-53 | scanning the plugin files `register_client` alone under CLIENT_REGISTER, `unregister_client` under CLIENT_STOP, `command_list_clients` under LIST_CLIENTS, and nothing under any other name |
| `Logger.ColorsAreCodes` | steward/logger.py:9-33 | every entry of COLORS, aliases included, is an ANSI colour code: ESC, '[', digits and ';', then 'm' |
| `Logger.ColorFor` | steward/logger.py:41 | the colour is a colour code: `COLORS[levelname]` when the table has the name, the reset code `ESC[0m` otherwise |
| `Logger.LevelAliases` | steward/logger.py:29-33 | INFO is bright blue; WARNING and WARN are both bright yellow; ERROR is bright red; DEBUG is orange; CRITICAL is not in the table and gets the reset code |
| `Logger.Colorize` | steward/logger.py:42 | the rewritten level name is the colour, then the name, then the reset code, and stripping the colour gives the name back |
| `Logger.StripColorized` | steward/logger.py:42 | stripping the leading colour code and the trailing reset from a coloured name gives the name back, whatever characters it holds |
| `Logger.ColoredClone` | steward/logger.py:38-43 | the copy handed to the base formatter keeps the message and time, and its level name is the original wrapped in its colour and the reset code |
| `Logger.ColoredFormat` | steward/logger.py:37-43 | the console formatter's line is the file formatter's line for the same record with its level name wrapped in its colour and the reset code |
| `Logger.FileFormat` | steward/logger.py:45-48 | the file formatter renders the record exactly as the console formatter's copy would render with its colour stripped, so it adds no colour |

## Left out

- MQTT and sockets are left out: the broker client, `loop_forever`, signal handlers and the raw-socket clients with their threads and `pickle`. The core only receives events from them.
- `StewardEvent.fromJSON` and `toJSON` do not exist in `steward/event.py`. The event is taken already decoded, and published events are recorded as values, not as JSON. There is no codec round trip to prove.
- The event id and timestamp come from `nanoid` and the wall clock. They are not read by the core, so the event model leaves them out.
- The calls to `self.logger.warn` and `self.logger.debug` in the agent and the plugin write logs only, so they are not modelled. `add_handler` calls the logger without checking for None, so an agent built without a logger would raise AttributeError. Every caller in the repository passes a logger, so the model assumes one.
- The plugin handlers default `message` to None, and `unregister_client` would then fail on `message.topic`. The dispatcher always passes the message, so the model makes it required.
- MessageAgents.MessageProcessor: a handler's behaviour is a function of the handler, the event and the message. It consists of the `add_handler` calls it makes and whether it raises. Its other effects, such as plugin state and publishing, are modelled separately on each plugin's own state (`StewardServerPlugin`) and are not threaded through the generic dispatch.
- `message_processor` copies the handler list with `list(...)` before the loop. The model's handler lists are values, so the dispatch behaves the same with or without that copy; `AddedDuringDispatchNotCalled` shows the effect, not that the copy is needed.
- `getattr` side effects (properties) are not modelled. The target is a map from attribute name to the value `getattr` returns.
- The `handles_event` tag is modelled as None or a string. Every decorator use in the repository passes a string literal.
- Dictionary keys use structural equality on payload values. Python's cross-type numeric equality does not arise, because payload values here hold no floats or booleans.
- `get_logger` is left out: handler and file setup, rotation, and random logger names. The line rendering of `logging.Formatter.format` is a parameter of the formatters. The deep copy is implicit, because records are values here and the caller's record cannot change.
- Plugin discovery (`steward/steward_plugins.py`) and the other plugins (file I/O, time, quotes) are left out: filesystem, HTTP, database and clock.
