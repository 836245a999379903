/** The pure helpers of the main screen (ui/PolicySwitcherScreen.kt): how an address and a custom
    command are shown, which fields the command editor asks for, what running a custom command
    does, and what saving from the editor does. */
module Screen {
  import opened Prelude
  import opened Text
  import opened Models
  import opened ClientLists
  import opened Repository
  import opened ViewModel

  const NotConfigured := "Не настроено"

  /** `shortUrl`: a blank address reads "Не настроено"; otherwise a leading "https://" and then
      a leading "http://" are dropped, and an address with neither is shown as it is. */
  function ShortUrl(url: string): (r: string)
    ensures IsBlank(url) ==> r == NotConfigured
    ensures !IsBlank(url) && StartsWith(url, "https://") ==> r == RemovePrefix(url[8..], "http://")
    ensures !IsBlank(url) && !StartsWith(url, "https://") && StartsWith(url, "http://") ==> r == url[7..]
    ensures !IsBlank(url) && !StartsWith(url, "https://") && !StartsWith(url, "http://") ==> r == url
  {
    if IsBlank(url) then NotConfigured
    else RemovePrefix(RemovePrefix(url, "https://"), "http://")
  }

  /** The address the router store reports for a typed address without a scheme is shown as the
      trimmed typed text. */
  lemma ShortUrlShowsTypedAddress(input: string)
    requires !IsBlank(input) && !StartsWith(Trim(input), "http")
    ensures ShortUrl(NormalizeDomain(input)) == Trim(input)
  {
    var t := Trim(input);
    var n := NormalizeDomain(input);
    assert n == "https://" + t;
    assert StartsWith(n, "https://") && n[8..] == t;
    assert !IsWhitespace(n[0]);
  }

  /** `requiresPolicy`: only removing from one device can do without a policy. */
  function RequiresPolicy(t: AssistantActionType): (r: bool)
    ensures r <==> t != AssistantActionType.RemoveFromDevice
  {
    !t.RemoveFromDevice?
  }

  /** `requiresDevice`: only the two single-device actions need a device. */
  function RequiresDevice(t: AssistantActionType): (r: bool)
    ensures r <==> t == AssistantActionType.ApplyToDevice || t == AssistantActionType.RemoveFromDevice
  {
    t.ApplyToDevice? || t.RemoveFromDevice?
  }

  /** What running a custom command asks of the view-model. */
  datatype ScreenAction =
    | ApplyPolicy(clientId: string, policyId: string)
    | RemovePolicy(clientId: string)
    | ApplyPolicyToAll(policyId: string)
    | RemovePolicyFromAll(maybePolicyId: Option<string>)

  /** The `onExecute` dispatch of the commands sheet. */
  function Dispatch(command: CustomCommand): (r: Option<ScreenAction>)
    ensures command.actionType == AssistantActionType.ApplyToDevice ==>
      (r.Some? <==> command.policyId.Some? && command.deviceId.Some?) &&
      (r.Some? ==> r.value == ApplyPolicy(command.deviceId.value, command.policyId.value))
    ensures command.actionType == AssistantActionType.RemoveFromDevice ==>
      (r.Some? <==> command.deviceId.Some?) && (r.Some? ==> r.value == RemovePolicy(command.deviceId.value))
    ensures command.actionType == AssistantActionType.ApplyToAll ==>
      (r.Some? <==> command.policyId.Some?) && (r.Some? ==> r.value == ApplyPolicyToAll(command.policyId.value))
    ensures command.actionType == AssistantActionType.RemoveFromAll ==> r == Some(RemovePolicyFromAll(command.policyId))
  {
    match command.actionType
    case ApplyToDevice =>
      if command.policyId.Some? && command.deviceId.Some? then
        Some(ApplyPolicy(command.deviceId.value, command.policyId.value))
      else None
    case RemoveFromDevice =>
      if command.deviceId.Some? then Some(RemovePolicy(command.deviceId.value)) else None
    case ApplyToAll =>
      if command.policyId.Some? then Some(ApplyPolicyToAll(command.policyId.value)) else None
    case RemoveFromAll => Some(RemovePolicyFromAll(command.policyId))
  }

  /** The view-model operation each screen action is wired to, called with `fromAssistant` at
      its default, false: the optimistic step and the ticket of the call it starts. */
  function PerformAction(s: UiState, a: ScreenAction): (r: (UiState, Option<Pending>))
    ensures r.1.None? ==> r.0 == s
    ensures r.1.Some? ==> !r.1.value.fromAssistant
    ensures a.ApplyPolicy? ==> r.1.Some? ==> r.1.value.ClientApply? && r.1.value.clientId == a.clientId
    ensures a.RemovePolicy? ==> r.1.Some? ==> r.1.value.ClientClear? && r.1.value.clientId == a.clientId
    ensures a.ApplyPolicyToAll? ==> r.1.Some? ==> r.1.value.BulkApply? && r.1.value.policy.id == a.policyId
    ensures a.RemovePolicyFromAll? ==> r.1.Some? && r.1.value.BulkClear? && r.1.value.previousClients == s.clients
    ensures a.RemovePolicyFromAll? ==> r.0.clients == ClearMatching(s.clients, a.maybePolicyId)
  {
    match a
    case ApplyPolicy(clientId, policyId) => StartClientApply(s, clientId, policyId, false)
    case RemovePolicy(clientId) => StartClientClear(s, clientId, false)
    case ApplyPolicyToAll(policyId) => StartBulkApply(s, policyId, false)
    case RemovePolicyFromAll(policyId) =>
      var (t, p) := StartBulkClear(s, policyId, false);
      (t, Some(p))
  }

  /** Running a saved "remove from everyone" command that has no policy starts a bulk clear
      that, on screen, takes every client off its policy at once. */
  lemma RemoveFromAllWithoutPolicyClearsEveryone(s: UiState, command: CustomCommand)
    requires command.actionType == AssistantActionType.RemoveFromAll && command.policyId.None?
    ensures Dispatch(command).Some?
    ensures var (t, p) := PerformAction(s, Dispatch(command).value);
      p.Some? && p.value.BulkClear? && |t.clients| == |s.clients| &&
      forall i :: 0 <= i < |s.clients| ==> t.clients[i].policyId.None? && t.clients[i].id == s.clients[i].id
  {
    ClearMatchingLeavesNone(s.clients, None);
  }

  /** A command has every field the editor asks for. */
  predicate MeetsEditorRequirements(command: CustomCommand) {
    (RequiresPolicy(command.actionType) ==> command.policyId.Some?) &&
    (RequiresDevice(command.actionType) ==> command.deviceId.Some?)
  }

  /** Every command with the fields the editor asks for does something when run; for the first
      three actions the converse holds too, while removing from everyone runs even without the
      policy the editor asks for, as a removal from every client (see
      `RemoveFromAllWithoutPolicyClearsEveryone` for what that does). */
  lemma DispatchAgreesWithEditor(command: CustomCommand)
    ensures MeetsEditorRequirements(command) ==> Dispatch(command).Some?
    ensures command.actionType != AssistantActionType.RemoveFromAll ==>
      (Dispatch(command).Some? <==> MeetsEditorRequirements(command))
    ensures command.actionType == AssistantActionType.RemoveFromAll && command.policyId.None? ==>
      !MeetsEditorRequirements(command) && Dispatch(command) == Some(RemovePolicyFromAll(None))
  {
  }

  /** `commandDescription`, with placeholders for names the screen could not find. */
  function CommandDescription(command: CustomCommand, policyName: Option<string>, clientName: Option<string>): (r: string)
    ensures command.actionType == AssistantActionType.ApplyToDevice ==>
      r == clientName.GetOr("Устройство") + " → " + policyName.GetOr("Политика")
    ensures command.actionType == AssistantActionType.RemoveFromDevice ==> r == "Снять с " + clientName.GetOr("устройства")
    ensures command.actionType == AssistantActionType.ApplyToAll ==> r == "Всем → " + policyName.GetOr("Политика")
    ensures command.actionType == AssistantActionType.RemoveFromAll ==> r == Trim("Снять у всех " + policyName.GetOr(""))
  {
    match command.actionType
    case ApplyToDevice => clientName.GetOr("Устройство") + " → " + policyName.GetOr("Политика")
    case RemoveFromDevice => "Снять с " + clientName.GetOr("устройства")
    case ApplyToAll => "Всем → " + policyName.GetOr("Политика")
    case RemoveFromAll => Trim("Снять у всех " + policyName.GetOr(""))
  }

  /** A string that neither starts nor ends with whitespace loses exactly one trailing space to
      `trim`. */
  lemma {:induction false} TrimDropsTrailingSpace(s: string)
    requires s != [] && !IsWhitespace(s[0]) && !IsWhitespace(s[|s| - 1])
    ensures Trim(s + " ") == s
  {
    var t := s + " ";
    assert TrimStart(t) == t;
    assert t[..|t| - 1] == s;
    assert TrimEnd(t) == TrimEnd(s);
    TrimOfTrimmed(s);
  }

  /** Removing from everyone without a policy name reads "Снять у всех", with no trailing
      space; with a trimmed name the name follows after one space. */
  lemma RemoveFromAllDescription(command: CustomCommand, clientName: Option<string>, policyName: string)
    requires command.actionType == AssistantActionType.RemoveFromAll
    requires policyName != [] ==> !IsWhitespace(policyName[0]) && !IsWhitespace(policyName[|policyName| - 1])
    ensures CommandDescription(command, None, clientName) == "Снять у всех"
    ensures CommandDescription(command, Some(policyName), clientName) ==
      if policyName == [] then "Снять у всех" else "Снять у всех " + policyName
  {
    TrimDropsTrailingSpace("Снять у всех");
    assert "Снять у всех" + " " == "Снять у всех " == "Снять у всех " + "";
    if policyName != [] {
      var s := "Снять у всех " + policyName;
      assert s[0] == 'С' && s[|s| - 1] == policyName[|policyName| - 1];
      TrimOfTrimmed(s);
    }
  }

  /** The editor's save: a command without an id is added under the fresh id, one with an id
      updates the commands with that id. */
  function EditorSave(cmds: seq<CustomCommand>, updated: CustomCommand, freshId: string): (r: seq<CustomCommand>)
    ensures updated.id == [] ==> |r| == |cmds| + 1 && r[..|cmds|] == cmds && r[|cmds|] == updated.(id := freshId)
    ensures updated.id != [] ==>
      |r| == |cmds| &&
      forall i :: 0 <= i < |cmds| ==> r[i] == (if cmds[i].id == updated.id then updated else cmds[i])
  {
    if updated.id == [] then AddCommand(cmds, updated, freshId) else UpdateCommand(cmds, updated)
  }
}
