/** The handler registry and dispatcher (`MessageAgent`): a dictionary from
    event name to the ordered list of handlers for it, filled by explicit
    registration or by scanning an object for methods tagged with the
    `is_event_handler` decorator, and a dispatcher that calls, in order,
    every handler registered for an inbound event's name. */
module MessageAgents {
  import opened Python
  import opened Events

  /** The `handles_event` attribute that `is_event_handler(event)` sets on a
      function: absent, or present holding the decorator's argument. */
  datatype Tag = Untagged | Tagged(event: Option<string>)

  /** One attribute of a target object, as `getattr` returns it. */
  datatype Attribute<H> = Attribute(value: H, callable: bool, tag: Tag)

  /** Whether `find_event_handlers` registers the attribute: it is callable
      and carries a truthy tag (neither None nor the empty name). */
  predicate Registers<H>(a: Attribute<H>)
  {
    a.callable && a.tag.Tagged? && a.tag.event.Some? && a.tag.event.value != ""
  }

  /** The event name a registering attribute is filed under. */
  function TagName<H>(a: Attribute<H>): string
    requires Registers(a)
  {
    a.tag.event.value
  }

  /** `self.handlers`: event name to handlers, in registration order. */
  type Registry<H> = map<string, seq<H>>

  /** The handlers registered for a name; none when the name is absent. */
  function Lookup<H>(m: Registry<H>, name: string): seq<H>
  {
    if name in m then m[name] else []
  }

  /** The registry after `add_handler(name, h)`: `h` goes at the end of the
      name's list, which is created when the name is new, and every other
      name keeps its list. */
  function WithHandler<H>(m: Registry<H>, name: string, h: H): (r: Registry<H>)
    ensures r.Keys == m.Keys + {name}
    ensures r[name] == Lookup(m, name) + [h]
    ensures forall n | n in m && n != name :: r[n] == m[n]
  {
    if name in m then m[name := m[name] + [h]] else m[name := [h]]
  }

  /** A call to `add_handler` made by a handler while it runs. */
  datatype Registration<H> = Registration(name: string, handler: H)

  /** The registry after a series of `add_handler` calls, in order. */
  function WithAll<H>(m: Registry<H>, regs: seq<Registration<H>>): Registry<H>
    decreases |regs|
  {
    if regs == [] then m
    else
      var last := regs[|regs| - 1];
      WithHandler(WithAll(m, regs[..|regs| - 1]), last.name, last.handler)
  }

  // ---------------------------------------------------------------------
  // find_event_handlers

  /** Every name of `names` is an attribute of `target`. */
  predicate AllIn<H>(names: seq<string>, target: map<string, Attribute<H>>)
  {
    forall i | 0 <= i < |names| :: names[i] in target
  }

  /** The effect of one attribute on the registry. */
  function RegisterStep<H>(m: Registry<H>, a: Attribute<H>): Registry<H>
  {
    if Registers(a) then WithHandler(m, TagName(a), a.value) else m
  }

  /** The registry after visiting `names`, in order. */
  function RegisterAll<H>(m: Registry<H>, target: map<string, Attribute<H>>, names: seq<string>): Registry<H>
    requires AllIn(names, target)
    decreases |names|
  {
    if names == [] then m
    else RegisterStep(RegisterAll(m, target, names[..|names| - 1]), target[names[|names| - 1]])
  }

  /** A prefix of names of `target` holds names of `target` only. */
  lemma AllInPrefix<H>(names: seq<string>, target: map<string, Attribute<H>>, i: nat)
    requires AllIn(names, target) && i <= |names|
    ensures AllIn(names[..i], target)
  {
    assert forall j | 0 <= j < i :: names[..i][j] == names[j];
  }

  lemma RegisterAllSnoc<H>(m: Registry<H>, target: map<string, Attribute<H>>, names: seq<string>, n: string)
    requires AllIn(names, target) && n in target
    ensures AllIn(names + [n], target)
    ensures RegisterAll(m, target, names + [n]) == RegisterStep(RegisterAll(m, target, names), target[n])
  {
    assert (names + [n])[..|names|] == names;
  }

  /** The names among `names`, in order, of the attributes registered under
      `event`. */
  function TaggedNames<H>(target: map<string, Attribute<H>>, names: seq<string>, event: string): (found: seq<string>)
    requires AllIn(names, target)
    ensures forall i | 0 <= i < |found| :: found[i] in names
    decreases |names|
  {
    if names == [] then []
    else
      var n := names[|names| - 1];
      var a := target[n];
      TaggedNames(target, names[..|names| - 1], event)
        + (if Registers(a) && TagName(a) == event then [n] else [])
  }

  /** The attribute values behind a list of names. */
  function Values<H>(target: map<string, Attribute<H>>, names: seq<string>): (vs: seq<H>)
    requires AllIn(names, target)
    ensures |vs| == |names| && forall i | 0 <= i < |names| :: vs[i] == target[names[i]].value
  {
    seq(|names|, i requires 0 <= i < |names| => target[names[i]].value)
  }

  /** Exactly the callable, truthily tagged attributes among `names` are
      picked for `event`, keeping the order of `names`. */
  lemma {:induction false} TaggedNamesExact<H>(target: map<string, Attribute<H>>, names: seq<string>, event: string)
    requires AllIn(names, target)
    ensures forall n :: n in TaggedNames(target, names, event) <==>
      n in names && Registers(target[n]) && TagName(target[n]) == event
    ensures StrictlySorted(names) ==> StrictlySorted(TaggedNames(target, names, event))
    decreases |names|
  {
    if names != [] {
      var init := names[..|names| - 1];
      TaggedNamesExact(target, init, event);
      assert names == init + [names[|names| - 1]];
      if StrictlySorted(names) {
        var t := TaggedNames(target, init, event);
        assert StrictlySorted(init);
        forall i | 0 <= i < |t| ensures Below(t[i], names[|names| - 1]) {
          assert t[i] in init;
        }
      }
    }
  }

  /** Visiting `names` appends, to each event's list, the values of the
      attributes tagged with that event, in the order of `names`. */
  lemma {:induction false} RegisterAllLookup<H>(m: Registry<H>, target: map<string, Attribute<H>>, names: seq<string>, event: string)
    requires AllIn(names, target)
    ensures Lookup(RegisterAll(m, target, names), event)
         == Lookup(m, event) + Values(target, TaggedNames(target, names, event))
    decreases |names|
  {
    if names != [] {
      var init := names[..|names| - 1];
      var n := names[|names| - 1];
      AllInPrefix(names, target, |names| - 1);
      RegisterAllLookup(m, target, init, event);
      var before := RegisterAll(m, target, init);
      var a := target[n];
      var tn := TaggedNames(target, init, event);
      assert RegisterAll(m, target, names) == RegisterStep(before, a);
      if Registers(a) && TagName(a) == event {
        assert TaggedNames(target, names, event) == tn + [n];
        ValuesSnoc(target, tn, n);
        LookupStepTagged(before, a, event);
        assert Lookup(m, event) + Values(target, tn) + [a.value]
            == Lookup(m, event) + (Values(target, tn) + [a.value]);
      } else {
        assert TaggedNames(target, names, event) == tn;
        LookupStepOther(before, a, event);
      }
    }
  }

  /** A visited attribute tagged with `event` adds its value to the end of
      the event's list. */
  lemma LookupStepTagged<H>(m: Registry<H>, a: Attribute<H>, event: string)
    requires Registers(a) && TagName(a) == event
    ensures Lookup(RegisterStep(m, a), event) == Lookup(m, event) + [a.value]
  {
  }

  /** A visited attribute not tagged with `event` leaves the event's list
      alone. */
  lemma LookupStepOther<H>(m: Registry<H>, a: Attribute<H>, event: string)
    requires !(Registers(a) && TagName(a) == event)
    ensures Lookup(RegisterStep(m, a), event) == Lookup(m, event)
  {
  }

  lemma ValuesSnoc<H>(target: map<string, Attribute<H>>, names: seq<string>, n: string)
    requires AllIn(names, target) && n in target
    ensures AllIn(names + [n], target)
    ensures Values(target, names + [n]) == Values(target, names) + [target[n].value]
  {
  }

  /** What `find_event_handlers(target)` does to the registry: for every
      event name, the handlers registered under it are followed by the
      values of exactly the callable attributes whose tag is that name,
      ordered by attribute name as `dir()` lists them. */
  lemma FoundHandlers<H>(m: Registry<H>, target: map<string, Attribute<H>>, event: string)
    ensures var names := SortedNames(target.Keys);
            var found := TaggedNames(target, names, event);
            && Lookup(RegisterAll(m, target, names), event) == Lookup(m, event) + Values(target, found)
            && StrictlySorted(found)
            && forall n :: n in found <==> n in target && Registers(target[n]) && TagName(target[n]) == event
  {
    var names := SortedNames(target.Keys);
    RegisterAllLookup(m, target, names, event);
    TaggedNamesExact(target, names, event);
  }

  // ---------------------------------------------------------------------
  // message_processor

  /** What a handler does when called: the `add_handler` calls it makes,
      then whether it raises. */
  datatype Reaction<H> = Reaction(registrations: seq<Registration<H>>, raised: Option<Exception>)

  /** One handler call `handler(event, message)`. */
  datatype Invocation<H> = Invocation(handler: H, event: Event, message: Message)

  /** The calls made by a dispatch, the registry it leaves, and the
      exception that escaped it, if any. */
  datatype Dispatched<H> = Dispatched(calls: seq<Invocation<H>>, registry: Registry<H>, raised: Option<Exception>)

  /** Calling the handlers of `pending` in order, starting from registry
      `m`, until one raises. An exception that escapes is the one the last
      handler called raised; every handler called before it returned. */
  function Run<H>(pending: seq<H>, m: Registry<H>, event: Event, message: Message,
                  react: (H, Event, Message) -> Reaction<H>): (d: Dispatched<H>)
    ensures d.raised.Some? ==>
              && 0 < |d.calls| <= |pending|
              && react(pending[|d.calls| - 1], event, message).raised == d.raised
              && forall i | 0 <= i < |d.calls| - 1 :: react(pending[i], event, message).raised.None?
    decreases |pending|
  {
    if pending == [] then Dispatched([], m, None)
    else
      var r := react(pending[0], event, message);
      var m' := WithAll(m, r.registrations);
      var call := Invocation(pending[0], event, message);
      if r.raised.Some? then Dispatched([call], m', r.raised)
      else
        var rest := Run(pending[1..], m', event, message, react);
        Dispatched([call] + rest.calls, rest.registry, rest.raised)
  }

  /** One step of `Run`: the first handler is called, its registrations
      applied, and unless it raised the rest of the list follows. */
  lemma RunStep<H>(pending: seq<H>, m: Registry<H>, event: Event, message: Message,
                   react: (H, Event, Message) -> Reaction<H>)
    requires pending != []
    ensures var r := react(pending[0], event, message);
            var m' := WithAll(m, r.registrations);
            var call := Invocation(pending[0], event, message);
            var rest := Run(pending[1..], m', event, message, react);
            Run(pending, m, event, message, react)
              == if r.raised.Some? then Dispatched([call], m', r.raised)
                 else Dispatched([call] + rest.calls, rest.registry, rest.raised)
  {
  }

  /** One step of `Run` from position `i` of a list, seen from the calls
      already made. */
  lemma RunAdvance<H>(pending: seq<H>, i: nat, m: Registry<H>, event: Event, message: Message,
                      react: (H, Event, Message) -> Reaction<H>, calls: seq<Invocation<H>>)
    requires i < |pending|
    ensures var r := react(pending[i], event, message);
            var m' := WithAll(m, r.registrations);
            var calls' := calls + [Invocation(pending[i], event, message)];
            var here := Run(pending[i..], m, event, message, react);
            var next := Run(pending[i + 1..], m', event, message, react);
            && (r.raised.Some? ==> Dispatched(calls + here.calls, here.registry, here.raised) == Dispatched(calls', m', r.raised))
            && (r.raised.None? ==>
                  Dispatched(calls + here.calls, here.registry, here.raised)
                  == Dispatched(calls' + next.calls, next.registry, next.raised))
  {
    assert pending[i..][1..] == pending[i + 1..];
    RunStep(pending[i..], m, event, message, react);
    var r := react(pending[i], event, message);
    var next := Run(pending[i + 1..], WithAll(m, r.registrations), event, message, react);
    assert calls + ([Invocation(pending[i], event, message)] + next.calls)
        == (calls + [Invocation(pending[i], event, message)]) + next.calls;
  }

  /** `message_processor` on a decoded event: the handlers registered for
      the event's name when it arrives, in order; nothing for an unknown
      name. */
  function Dispatch<H>(m: Registry<H>, event: Event, message: Message,
                       react: (H, Event, Message) -> Reaction<H>): (d: Dispatched<H>)
    ensures event.name !in m ==> d == Dispatched([], m, None)
  {
    if event.name in m then Run(m[event.name], m, event, message, react)
    else Dispatched([], m, None)
  }

  /** Handlers are called in list order, each once, with the event and the
      message, and only handlers from the list: never more calls than the
      list has. */
  lemma {:induction false} RunCallsInOrder<H>(pending: seq<H>, m: Registry<H>, event: Event, message: Message,
                                              react: (H, Event, Message) -> Reaction<H>)
    ensures var d := Run(pending, m, event, message, react);
            && |d.calls| <= |pending|
            && forall i | 0 <= i < |d.calls| :: d.calls[i] == Invocation(pending[i], event, message)
    decreases |pending|
  {
    if pending != [] && react(pending[0], event, message).raised.None? {
      var r := react(pending[0], event, message);
      RunCallsInOrder(pending[1..], WithAll(m, r.registrations), event, message, react);
    }
  }

  /** When no handler raises, every handler of the list is called, and the
      dispatch completes without an exception; conversely a dispatch
      completes only when no handler raised. */
  lemma {:induction false} RunCompletes<H>(pending: seq<H>, m: Registry<H>, event: Event, message: Message,
                                           react: (H, Event, Message) -> Reaction<H>)
    ensures var d := Run(pending, m, event, message, react);
            d.raised.None? <==> forall i | 0 <= i < |pending| :: react(pending[i], event, message).raised.None?
    ensures var d := Run(pending, m, event, message, react);
            d.raised.None? ==> |d.calls| == |pending|
    decreases |pending|
  {
    if pending != [] {
      var r := react(pending[0], event, message);
      RunCompletes(pending[1..], WithAll(m, r.registrations), event, message, react);
      assert forall i | 1 <= i < |pending| :: pending[i] == pending[1..][i - 1];
    }
  }

  /** No fault isolation: when the handler at position `k` is the first to
      raise, the calls stop with it, its exception escapes, and the
      handlers after it are not called. */
  lemma {:induction false} RunStopsAtFirstRaise<H>(pending: seq<H>, m: Registry<H>, event: Event, message: Message,
                                                   react: (H, Event, Message) -> Reaction<H>, k: nat)
    requires k < |pending|
    requires react(pending[k], event, message).raised.Some?
    requires forall i | 0 <= i < k :: react(pending[i], event, message).raised.None?
    ensures var d := Run(pending, m, event, message, react);
            |d.calls| == k + 1 && d.raised == react(pending[k], event, message).raised
    decreases |pending|
  {
    if k > 0 {
      var r := react(pending[0], event, message);
      assert r.raised.None?;
      forall i | 0 <= i < k - 1 ensures react(pending[1..][i], event, message).raised.None? {
        assert pending[1..][i] == pending[i + 1];
      }
      RunStopsAtFirstRaise(pending[1..], WithAll(m, r.registrations), event, message, react, k - 1);
    }
  }

  /** Dispatch works on a snapshot: a handler that is not registered for the
      event's name when the event arrives is not called for it, even when a
      handler registers it during the dispatch. */
  lemma AddedDuringDispatchNotCalled<H>(m: Registry<H>, event: Event, message: Message,
                                        react: (H, Event, Message) -> Reaction<H>, h: H)
    requires h !in Lookup(m, event.name)
    ensures forall c | c in Dispatch(m, event, message, react).calls :: c.handler != h
  {
    if event.name in m {
      RunCallsInOrder(m[event.name], m, event, message, react);
    }
  }

  /** Registering a handler twice under one name files it twice, so that a
      dispatch in which no handler raises calls it twice, after the
      handlers registered before it. */
  lemma DuplicateRegistrationCalledTwice<H>(m: Registry<H>, h: H, event: Event, message: Message,
                                            react: (H, Event, Message) -> Reaction<H>)
    requires forall x | x in Lookup(m, event.name) + [h] :: react(x, event, message).raised.None?
    ensures var m2 := WithHandler(WithHandler(m, event.name, h), event.name, h);
            var d := Dispatch(m2, event, message, react);
            var n := |Lookup(m, event.name)|;
            && |d.calls| == n + 2
            && d.calls[n] == d.calls[n + 1] == Invocation(h, event, message)
            && d.raised.None?
  {
    var m2 := WithHandler(WithHandler(m, event.name, h), event.name, h);
    var list := Lookup(m, event.name) + [h, h];
    assert m2[event.name] == list;
    forall i | 0 <= i < |list| ensures react(list[i], event, message).raised.None? {
      assert list[i] in Lookup(m, event.name) + [h];
    }
    RunCompletes(list, m2, event, message, react);
    RunCallsInOrder(list, m2, event, message, react);
  }

  /** The registry object. Handlers are values of type `H`. */
  class MessageAgent<H(==)> {
    var handlers: Registry<H>

    constructor ()
      ensures handlers == map[]
    {
      handlers := map[];
    }

    /** `add_handler(event_name, handler_func)`. */
    method AddHandler(name: string, h: H)
      modifies this
      ensures handlers == WithHandler(old(handlers), name, h)
    {
      if name in handlers {
        handlers := handlers[name := handlers[name] + [h]];
      } else {
        handlers := handlers[name := [h]];
      }
    }

    /** `find_event_handlers(target)`: visit the target's attributes in the
        order `dir()` lists them and register each callable one whose tag is
        truthy under that tag. */
    method FindEventHandlers(target: map<string, Attribute<H>>)
      modifies this
      ensures handlers == RegisterAll(old(handlers), target, SortedNames(target.Keys))
    {
      var names := Dir(target);
      assert AllIn(names, target);
      VisitAll(target, names);
    }

    /** The scan's loop: visit the attributes named by `names`, in order. */
    method VisitAll(target: map<string, Attribute<H>>, names: seq<string>)
      requires AllIn(names, target)
      modifies this
      ensures handlers == RegisterAll(old(handlers), target, names)
    {
      AllInPrefix(names, target, 0);
      for i := 0 to |names|
        invariant AllIn(names[..i], target)
        invariant handlers == RegisterAll(old(handlers), target, names[..i])
      {
        var n := names[i];
        Visit(target[n]);
        RegisterAllSnoc(old(handlers), target, names[..i], n);
        assert names[..i + 1] == names[..i] + [n];
      }
      assert names[..|names|] == names;
    }

    /** One attribute of the scan: registered under its tag when it is
        callable and its tag is truthy, skipped otherwise. */
    method Visit(attr: Attribute<H>)
      modifies this
      ensures handlers == RegisterStep(old(handlers), attr)
    {
      if attr.callable && attr.tag.Tagged? {
        var event := attr.tag.event;
        if event.Some? && event.value != "" {
          AddHandler(event.value, attr.value);
        }
      }
    }

    /** Run one handler: it makes its `add_handler` calls on this agent,
        then returns or raises. */
    method Invoke(h: H, event: Event, message: Message, react: (H, Event, Message) -> Reaction<H>)
      returns (raised: Option<Exception>)
      modifies this
      ensures handlers == WithAll(old(handlers), react(h, event, message).registrations)
      ensures raised == react(h, event, message).raised
    {
      var r := react(h, event, message);
      for j := 0 to |r.registrations|
        invariant handlers == WithAll(old(handlers), r.registrations[..j])
      {
        assert r.registrations[..j + 1][..j] == r.registrations[..j];
        AddHandler(r.registrations[j].name, r.registrations[j].handler);
      }
      assert r.registrations[..|r.registrations|] == r.registrations;
      raised := r.raised;
    }

    /** `message_processor` on an already decoded event: copy the event
        name's handler list, then call each handler on the copy in order;
        an exception from a handler ends the dispatch and escapes. */
    method MessageProcessor(event: Event, message: Message, react: (H, Event, Message) -> Reaction<H>)
      returns (calls: seq<Invocation<H>>, raised: Option<Exception>)
      modifies this
      ensures var d := Dispatch(old(handlers), event, message, react);
              calls == d.calls && handlers == d.registry && raised == d.raised
    {
      calls, raised := [], None;
      if event.name in handlers {
        var snapshot := handlers[event.name];
        var i := 0;
        while i < |snapshot|
          invariant 0 <= i <= |snapshot|
          invariant var rest := Run(snapshot[i..], handlers, event, message, react);
                    Run(snapshot, old(handlers), event, message, react)
                      == Dispatched(calls + rest.calls, rest.registry, rest.raised)
          invariant raised.None?
          decreases |snapshot| - i
        {
          RunAdvance(snapshot, i, handlers, event, message, react, calls);
          raised := Invoke(snapshot[i], event, message, react);
          calls := calls + [Invocation(snapshot[i], event, message)];
          if raised.Some? {
            return;
          }
          i := i + 1;
        }
      }
    }
  }
}
