/** The event envelope shared by the recorder, the span tree and the replay
    (`app/observability/events.py`), reduced to the fields they decide on.
    A missing text field of the original is the empty string. */
module Events {

  datatype Event = Event(kind: string, number: nat, eventId: string, spanId: string, parent: string)

  /** Event types the span tree leaves out. */
  predicate Omitted(kind: string) {
    kind == "llm_usage" || kind == "gen_ai.chat"
  }
}
