/** What clients ask the kernel for. */
module KernelRequests {
  import opened Prelude
  import opened Configuration

  type SessionId = nat

  datatype Frontend = Acp | Buzz
  datatype BuzzContext = BuzzContext(channel: string, actor: string)

  datatype ConfigSelection =
    | SelectModel(model: string)
    | SelectEffort(effort: Effort)
    | SelectMode(mode: PermissionMode, remote: bool)
  /** A prompt by its leading command, or ordinary text. */
  datatype Prompt =
    | Approve | Deny | ConfirmBypass | RequestBypass | SetPermissions(profile: PermissionProfile) | TaskQuery | Text

  /** The mode a permission command asks for. */
  function ModeOf(profile: PermissionProfile): (mode: PermissionMode)
    ensures Profile(mode) == profile && mode in {Plan, Default, FullAccess}
  {
    match profile
    case ReadOnly => Plan
    case Approval => Default
    case Unrestricted => FullAccess
  }

  datatype Request =
    | NewSession(frontend: Frontend, buzz: Option<BuzzContext>, model: Option<string>, effort: Option<Effort>,
                 mode: PermissionMode)
    | SendPrompt(session: SessionId, prompt: Prompt)
    | SetConfig(session: SessionId, selection: ConfigSelection)
    | AttachBuzzContext(session: SessionId, context: BuzzContext)
    | Cancel(session: SessionId)
    | Steer(session: SessionId)
    | ReadOnlyTaskRequest
    | Shutdown
}
