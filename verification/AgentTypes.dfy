/** Messages and models as the agent's bookkeeping sees them. */
module AgentTypes {
  import opened JsonText

  datatype Role = User | Assistant | ToolResult | Custom

  /** `model`, `aborted` and `errorMessage` tag assistant rows. */
  datatype AgentMessage = AgentMessage(role: Role, text: string, model: Option<string>, aborted: bool,
                                       errorMessage: Option<string>)

  datatype ThinkingLevel = Off | Minimal | Low | Medium | High | Xhigh | Max
}
