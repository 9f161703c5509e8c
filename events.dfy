/** The event value exchanged over the broker, taken as already decoded, and
    the broker message that carried it. Only what the core reads is kept:
    the event's kind, its name and its payload, and the message's topic. */
module Events {
  import opened Python

  /** The kinds of event the repository constructs. */
  datatype EventType = NOTICE | COMMAND | RESPONSE | ERROR

  datatype Event = Event(kind: EventType, name: string, payload: Value)
  {
    /** `event.is_command`. */
    predicate IsCommand()
    {
      kind == COMMAND
    }
  }

  /** An MQTT message; its payload bytes are the encoded event, which is
      passed alongside it already decoded. */
  datatype Message = Message(topic: string)
}
