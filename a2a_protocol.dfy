/** The message envelope of project/core/a2a_protocol.py. */
module A2AProtocol {
  import opened Artifacts

  /** `AgentMessage`: who sends what to whom, with a payload and optional metadata. */
  datatype AgentMessage = AgentMessage(
    sender: string,
    receiver: string,
    task: string,
    payload: map<string, Value>,
    meta: Option<map<string, Value>>)

  /** `AgentMessage(sender, receiver, task)`: the dataclass defaults give an empty payload and no metadata. */
  function NewMessage(sender: string, receiver: string, task: string): (m: AgentMessage)
    ensures m.sender == sender && m.receiver == receiver && m.task == task
    ensures m.payload == map[] && m.meta == None
  {
    AgentMessage(sender, receiver, task, map[], None)
  }

  /**
   * `build_message(sender, receiver, task, payload, meta)`: copies its
   * arguments into the envelope as they are; any strings, empty ones
   * included, are accepted and nothing can fail.
   */
  function BuildMessage(sender: string, receiver: string, task: string,
                        payload: map<string, Value>, meta: Option<map<string, Value>>): (m: AgentMessage)
    ensures m.sender == sender && m.receiver == receiver && m.task == task
    ensures m.payload == payload && m.meta == meta
  {
    AgentMessage(sender, receiver, task, payload, meta)
  }
}
