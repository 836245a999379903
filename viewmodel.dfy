/** The screen's state holder (ui/PolicySwitcherViewModel.kt, `PolicySwitcherViewModel`).

    Every operation that calls the router is split in two: a begin step that makes the optimistic
    change and returns a `Pending` ticket holding what the coroutine captured, and a settle step
    that takes the router's reply and the ticket and applies it to whatever the state is by then.
    The state changes themselves are the pure functions below; the class methods apply them to
    the `state` field. */
module ViewModel {
  import opened Prelude
  import opened Text
  import opened Models
  import opened ClientLists
  import opened Assistant
  import opened CredentialStore

  // ---------------------------------------------------------------------------------------
  // Messages

  const ApplyFailed := "Ошибка применения"
  const ClearFailed := "Ошибка снятия"
  const BulkApplyFailed := "Ошибка массового применения"
  const BulkClearFailed := "Ошибка массового снятия"
  const EnterCommand := "Введите команду"
  const NotRecognised := "Не распознано"
  const CheckInput := "Проверьте введённые данные"
  const ConnectFailed := "Не удалось подключиться"

  const BadDomain := "Некорректный домен/адрес"
  const EnterLogin := "Введите логин"
  const EnterPassword := "Введите пароль"
  const ChoosePolicy := "Выберите политику"

  /** The seconds a non-forced refresh waits after the previous fetch. */
  const RefreshInterval := 30

  /** `setAssistantBanner(message, isError)` */
  function WithBanner(s: UiState, message: string, isError: bool): (r: UiState)
    ensures r == s.(assistantBanner := Some(AssistantBanner(message, isError)))
  {
    s.(assistantBanner := Some(BannerForResult(!isError, message)))
  }

  // ---------------------------------------------------------------------------------------
  // Credentials

  /** Whether `validateCredentials` reports a field. The domain check is the opaque
      `domainMatches` standing for the address pattern. */
  predicate FieldFails(c: Credentials, policies: seq<Policy>, domainMatches: string -> bool, f: CredentialField) {
    match f
    case Domain => !domainMatches(c.domainOrIp)
    case Username => IsBlank(c.username)
    case Password => IsBlank(c.password)
    case DefaultPolicy => IsBlank(c.defaultPolicyId) && |policies| > 0
  }

  function FieldMessage(f: CredentialField): string {
    match f
    case Domain => BadDomain
    case Username => EnterLogin
    case Password => EnterPassword
    case DefaultPolicy => ChoosePolicy
  }

  /** The problems with a set of credentials, each failing field with its message. */
  function CredentialErrors(c: Credentials, policies: seq<Policy>, domainMatches: string -> bool): map<CredentialField, string> {
    map f | f in {Domain, Username, Password, DefaultPolicy} && FieldFails(c, policies, domainMatches, f) :: FieldMessage(f)
  }

  /** `validateCredentials`, filling the map one check at a time: the result reports exactly the
      failing fields, each with its own message. */
  method ValidateCredentials(c: Credentials, policies: seq<Policy>, domainMatches: string -> bool)
    returns (errors: map<CredentialField, string>)
    ensures errors == CredentialErrors(c, policies, domainMatches)
    ensures forall f :: f in errors <==> FieldFails(c, policies, domainMatches, f)
    ensures forall f :: f in errors ==> errors[f] == FieldMessage(f)
  {
    errors := map[];
    if !domainMatches(c.domainOrIp) {
      errors := errors[Domain := BadDomain];
    }
    if IsBlank(c.username) {
      errors := errors[Username := EnterLogin];
    }
    if IsBlank(c.password) {
      errors := errors[Password := EnterPassword];
    }
    if IsBlank(c.defaultPolicyId) && |policies| > 0 {
      errors := errors[DefaultPolicy := ChoosePolicy];
    }
  }

  /** Credentials that pass validation are complete, so the router's `verifyConnection` will
      accept them, as long as the address check never accepts a blank address. The converse
      fails only through the address check and the default policy. */
  lemma ValidCredentialsAreComplete(c: Credentials, policies: seq<Policy>, domainMatches: string -> bool)
    requires forall d :: domainMatches(d) ==> !IsBlank(d)
    ensures CredentialErrors(c, policies, domainMatches) == map[] ==> c.IsComplete()
    ensures CredentialErrors(c, policies, domainMatches) == map[] <==>
      domainMatches(c.domainOrIp) && !IsBlank(c.username) && !IsBlank(c.password) &&
      (!IsBlank(c.defaultPolicyId) || |policies| == 0)
  {
    var errors := CredentialErrors(c, policies, domainMatches);
    if errors == map[] {
      assert Domain !in errors && Username !in errors && Password !in errors && DefaultPolicy !in errors;
    } else {
      var f :| f in errors;
      assert FieldFails(c, policies, domainMatches, f);
    }
  }

  // ---------------------------------------------------------------------------------------
  // Refresh

  /** Whether `refresh(force)` goes to the router: always when forced; otherwise only with a
      ready connection and either no earlier fetch or one at least 30 seconds old. */
  predicate RefreshDue(force: bool, status: ConnectionStatus, lastFetchedAt: Option<int>, now: int) {
    force || (status.Ready? && (lastFetchedAt.None? || now - lastFetchedAt.value >= RefreshInterval))
  }

  /** Once a fetch has happened at `t`, a non-forced refresh with a ready connection fetches
      again exactly from `t + 30` on; without a ready connection it never does. */
  lemma RefreshThrottle(status: ConnectionStatus, t: int, now: int)
    ensures status.Ready? ==> (RefreshDue(false, status, Some(t), now) <==> now >= t + RefreshInterval)
    ensures !status.Ready? ==> !RefreshDue(false, status, Some(t), now)
    ensures RefreshDue(true, status, Some(t), now)
  {
  }

  // ---------------------------------------------------------------------------------------
  // Router calls in flight

  /** What an operation's coroutine captured when it started. */
  datatype Pending =
    | ClientApply(clientId: string, policy: Policy, previous: Client, fromAssistant: bool)
    | ClientClear(clientId: string, previous: Client, fromAssistant: bool)
    | BulkApply(policy: Policy, previousClients: seq<Client>, fromAssistant: bool)
    | BulkClear(policyId: Option<string>, previousClients: seq<Client>, fromAssistant: bool)

  function PolicyById(ps: seq<Policy>, id: string): (r: Option<Policy>)
    ensures r.None? <==> forall j :: 0 <= j < |ps| ==> ps[j].id != id
    ensures r.Some? ==> r.value in ps && r.value.id == id
    ensures r.Some? ==> exists i :: (0 <= i < |ps| && ps[i] == r.value &&
      forall j :: 0 <= j < i ==> ps[j].id != id)
  {
    FirstMatch(ps, (p: Policy) => p.id == id)
  }

  /** The optimistic step of `applyPolicyToClient`. Nothing happens unless both the client and
      the policy are known; then every client with that id gets the policy and is marked
      registered, the id joins the operations in flight, and the ticket remembers the first such
      client as it was. */
  function StartClientApply(s: UiState, clientId: string, policyId: string, fromAssistant: bool): (r: (UiState, Option<Pending>))
    ensures r.1.None? <==> IndexOfId(s.clients, clientId).None? || PolicyById(s.policies, policyId).None?
    ensures r.1.None? ==> r.0 == s
    ensures r.1.Some? ==>
      r.1.value == ClientApply(clientId, PolicyById(s.policies, policyId).value,
                               s.clients[IndexOfId(s.clients, clientId).value], fromAssistant) &&
      r.0 == s.(clients := r.0.clients, operationsInFlight := s.operationsInFlight + {clientId}) &&
      |r.0.clients| == |s.clients| &&
      forall i :: 0 <= i < |s.clients| ==>
        r.0.clients[i] == (if s.clients[i].id == clientId then s.clients[i].Assigned(policyId) else s.clients[i])
  {
    match IndexOfId(s.clients, clientId)
    case None => (s, None)
    case Some(i) =>
      match PolicyById(s.policies, policyId)
      case None => (s, None)
      case Some(policy) =>
        (s.(clients := ReplaceWhereId(s.clients, clientId, (c: Client) => c.Assigned(policyId)),
            operationsInFlight := s.operationsInFlight + {clientId}),
         Some(ClientApply(clientId, policy, s.clients[i], fromAssistant)))
  }

  /** The optimistic step of `clearPolicyForClient`: nothing happens for an unknown client;
      otherwise every client with that id loses its policy and nothing else, and the id joins
      the operations in flight. */
  function StartClientClear(s: UiState, clientId: string, fromAssistant: bool): (r: (UiState, Option<Pending>))
    ensures r.1.None? <==> IndexOfId(s.clients, clientId).None?
    ensures r.1.None? ==> r.0 == s
    ensures r.1.Some? ==>
      r.1.value == ClientClear(clientId, s.clients[IndexOfId(s.clients, clientId).value], fromAssistant) &&
      r.0 == s.(clients := r.0.clients, operationsInFlight := s.operationsInFlight + {clientId}) &&
      |r.0.clients| == |s.clients| &&
      forall i :: 0 <= i < |s.clients| ==>
        r.0.clients[i] == (if s.clients[i].id == clientId then s.clients[i].Cleared() else s.clients[i])
  {
    match IndexOfId(s.clients, clientId)
    case None => (s, None)
    case Some(i) =>
      (s.(clients := ReplaceWhereId(s.clients, clientId, (c: Client) => c.Cleared()),
          operationsInFlight := s.operationsInFlight + {clientId}),
       Some(ClientClear(clientId, s.clients[i], fromAssistant)))
  }

  /** Settling a single-client call. The id leaves the operations in flight. On failure every
      client with that id is put back to the captured snapshot; on a successful apply the
      router's client replaces the one with its id; on a successful clear nothing is written
      back. Only a call started by the assistant sets a banner. */
  function SettleClient(s: UiState, p: Pending, result: Result<Client>): (r: UiState)
    requires p.ClientApply? || p.ClientClear?
    ensures r == s.(clients := r.clients, operationsInFlight := s.operationsInFlight - {p.clientId},
                    assistantBanner := r.assistantBanner)
    ensures result.Failure? ==> r.clients == ReplaceWhereId(s.clients, p.clientId, (_: Client) => p.previous)
    ensures result.Success? && p.ClientApply? ==>
      r.clients == ReplaceWhereId(s.clients, result.value.id, (_: Client) => result.value)
    ensures result.Success? && p.ClientClear? ==> r.clients == s.clients
    ensures !p.fromAssistant ==> r.assistantBanner == s.assistantBanner
    ensures p.fromAssistant ==> r.assistantBanner.Some? && (r.assistantBanner.value.isError <==> result.Failure?)
    ensures p.fromAssistant && result.Success? && p.ClientApply? ==>
      r.assistantBanner.value.message == "Готово: " + result.value.name + " → " + p.policy.name
    ensures p.fromAssistant && result.Success? && p.ClientClear? ==>
      r.assistantBanner.value.message == "Снято: " + result.value.name
    ensures p.fromAssistant && result.Failure? ==>
      r.assistantBanner.value.message == result.message.GetOr(if p.ClientApply? then ApplyFailed else ClearFailed)
  {
    var s1 := s.(operationsInFlight := s.operationsInFlight - {p.clientId});
    match result
    case Success(client) =>
      if p.ClientApply? then
        var s2 := s1.(clients := ReplaceWhereId(s1.clients, client.id, (_: Client) => client));
        if p.fromAssistant then WithBanner(s2, "Готово: " + client.name + " → " + p.policy.name, false) else s2
      else
        if p.fromAssistant then WithBanner(s1, "Снято: " + client.name, false) else s1
    case Failure(message) =>
      var s2 := s1.(clients := ReplaceWhereId(s1.clients, p.clientId, (_: Client) => p.previous));
      if p.fromAssistant then
        WithBanner(s2, message.GetOr(if p.ClientApply? then ApplyFailed else ClearFailed), true)
      else s2
  }

  /** The optimistic step of `applyPolicyToAll`: nothing happens for an unknown policy;
      otherwise every client gets the policy and is marked registered, and the bulk flag goes
      up. The ticket keeps the whole list as it was. */
  function StartBulkApply(s: UiState, policyId: string, fromAssistant: bool): (r: (UiState, Option<Pending>))
    ensures r.1.None? <==> PolicyById(s.policies, policyId).None?
    ensures r.1.None? ==> r.0 == s
    ensures r.1.Some? ==>
      r.1.value == BulkApply(PolicyById(s.policies, policyId).value, s.clients, fromAssistant) &&
      r.0 == s.(clients := AssignEvery(s.clients, policyId), bulkOperationInProgress := true)
  {
    match PolicyById(s.policies, policyId)
    case None => (s, None)
    case Some(policy) =>
      (s.(clients := AssignEvery(s.clients, policyId), bulkOperationInProgress := true),
       Some(BulkApply(policy, s.clients, fromAssistant)))
  }

  /** The optimistic step of `clearPolicyFromAll`, which always starts: with no policy every
      client is cleared, otherwise the clients on that policy are. */
  function StartBulkClear(s: UiState, policyId: Option<string>, fromAssistant: bool): (r: (UiState, Pending))
    ensures r.1 == BulkClear(policyId, s.clients, fromAssistant)
    ensures r.0 == s.(clients := ClearMatching(s.clients, policyId), bulkOperationInProgress := true)
  {
    (s.(clients := ClearMatching(s.clients, policyId), bulkOperationInProgress := true),
     BulkClear(policyId, s.clients, fromAssistant))
  }

  /** Settling a bulk call: the bulk flag goes down; success installs the router's list,
      failure puts back the list captured when the call started, verbatim. */
  function SettleBulk(s: UiState, p: Pending, result: Result<seq<Client>>): (r: UiState)
    requires p.BulkApply? || p.BulkClear?
    ensures r == s.(clients := r.clients, bulkOperationInProgress := false, assistantBanner := r.assistantBanner)
    ensures result.Success? ==> r.clients == result.value
    ensures result.Failure? ==> r.clients == p.previousClients
    ensures !p.fromAssistant ==> r.assistantBanner == s.assistantBanner
    ensures p.fromAssistant ==> r.assistantBanner.Some? && (r.assistantBanner.value.isError <==> result.Failure?)
    ensures p.fromAssistant && result.Success? && p.BulkApply? ==>
      r.assistantBanner.value.message == "Готово: всем → " + p.policy.name
    ensures p.fromAssistant && result.Success? && p.BulkClear? ==>
      r.assistantBanner.value.message == "Сброшено: " + NatToString(CountUnassigned(result.value)) + " устройств"
    ensures p.fromAssistant && result.Failure? ==>
      r.assistantBanner.value.message == result.message.GetOr(if p.BulkApply? then BulkApplyFailed else BulkClearFailed)
  {
    var s1 := s.(bulkOperationInProgress := false);
    match result
    case Success(clients) =>
      var s2 := s1.(clients := clients);
      if !p.fromAssistant then s2
      else if p.BulkApply? then WithBanner(s2, "Готово: всем → " + p.policy.name, false)
      else WithBanner(s2, "Сброшено: " + NatToString(CountUnassigned(clients)) + " устройств", false)
    case Failure(message) =>
      var s2 := s1.(clients := p.previousClients);
      if p.fromAssistant then
        WithBanner(s2, message.GetOr(if p.BulkApply? then BulkApplyFailed else BulkClearFailed), true)
      else s2
  }

  // ---------------------------------------------------------------------------------------
  // What the settle steps achieve

  /** A failed apply or clear, settled straight after it started, gives back the client list
      exactly as it was, provided client ids are unique; the operations in flight lose the id. */
  lemma SingleClientFailureRestores(s: UiState, clientId: string, policyId: string, apply: bool, message: Option<string>)
    requires UniqueIds(s.clients)
    ensures var (t, p) := if apply then StartClientApply(s, clientId, policyId, false)
                          else StartClientClear(s, clientId, false);
      p.Some? ==>
        SettleClient(t, p.value, Failure(message)).clients == s.clients &&
        SettleClient(t, p.value, Failure(message)).operationsInFlight == s.operationsInFlight + {clientId} - {clientId}
  {
    match IndexOfId(s.clients, clientId)
    case None =>
    case Some(k) =>
      if apply {
        RollbackRestores(s.clients, k, (c: Client) => c.Assigned(policyId));
      } else {
        RollbackRestores(s.clients, k, (c: Client) => c.Cleared());
      }
  }

  /** When the router answers an apply with the snapshot carrying the new policy (which is what
      `FakeKeeneticRepository.applyPolicyToClient` does when its table agrees with the screen's),
      writing that answer back changes nothing visible: the list is the optimistic one. */
  lemma ApplySuccessConfirmsOptimistic(s: UiState, clientId: string, policyId: string)
    requires UniqueIds(s.clients)
    ensures var (t, p) := StartClientApply(s, clientId, policyId, false);
      p.Some? ==> SettleClient(t, p.value, Success(p.value.previous.Assigned(policyId))).clients == t.clients
  {
    var (t, p) := StartClientApply(s, clientId, policyId, false);
    if p.Some? {
      var k := IndexOfId(s.clients, clientId).value;
      var answer := s.clients[k].Assigned(policyId);
      var back := SettleClient(t, p.value, Success(answer)).clients;
      forall i | 0 <= i < |t.clients| ensures back[i] == t.clients[i] {
        if s.clients[i].id == clientId {
          assert i == k;
        }
      }
    }
  }

  /** A failed bulk call, however much happened in between, puts back the list captured when it
      started; settled straight after the start, that is the list before it. */
  lemma BulkFailureRestores(s: UiState, policyId: Option<string>, message: Option<string>)
    ensures policyId.Some? ==> var (t, p) := StartBulkApply(s, policyId.value, false);
      p.Some? ==> SettleBulk(t, p.value, Failure(message)).clients == s.clients
    ensures var (t, p) := StartBulkClear(s, policyId, false);
      SettleBulk(t, p, Failure(message)).clients == s.clients &&
      SettleBulk(t, p, Failure(message)).bulkOperationInProgress == false
  {
  }

  // ---------------------------------------------------------------------------------------
  // Registration

  predicate IsHexDigit(c: char) {
    ('0' <= c <= '9') || ('a' <= c <= 'f') || ('A' <= c <= 'F')
  }

  /** `MAC_REGEX` matching the whole string: six pairs of hex digits separated by colons. */
  predicate IsMacAddress(mac: string) {
    |mac| == 17 && forall i :: 0 <= i < 17 ==> if i % 3 == 2 then mac[i] == ':' else IsHexDigit(mac[i])
  }

  /** A well-formed MAC has nothing for `trim` to remove, and upper-casing it (as the router
      does when it stores it) keeps it well-formed. */
  lemma MacAddressShape(mac: string)
    requires IsMacAddress(mac)
    ensures Trim(mac) == mac && !IsBlank(mac)
    ensures IsMacAddress(Upper(mac))
  {
    assert !IsWhitespace(mac[0]) && !IsWhitespace(mac[16]);
    TrimOfTrimmed(mac);
  }

  /** What `registerClient` hands the router. */
  datatype Registration = Registration(name: string, mac: string, ip: Option<string>, notes: Option<string>)

  /** `registerClient`'s check: a blank name or a malformed MAC is refused before the router is
      reached; otherwise the router gets the trimmed name and MAC, the IP only when it is not
      blank, and the notes as given. */
  function RegistrationRequest(name: string, mac: string, ip: Option<string>, notes: Option<string>): (r: Option<Registration>)
    ensures r.None? <==> IsBlank(name) || !IsMacAddress(mac)
    ensures r.Some? ==> r.value.name == Trim(name) && r.value.name != [] && r.value.mac == mac
    ensures r.Some? ==>
      r.value.notes == notes && r.value.ip == (if ip.Some? && !IsBlank(ip.value) then ip else None)
  {
    if IsBlank(name) || !IsMacAddress(mac) then None
    else
      MacAddressShape(mac);
      BlankIffTrimEmpty(name);
      Some(Registration(Trim(name), Trim(mac), if ip.Some? && !IsBlank(ip.value) then ip else None, notes))
  }

  /** Settling a registration: success appends the router's client and completes; failure
      changes nothing and does not complete. */
  function SettleRegistration(s: UiState, result: Result<Client>): (r: (UiState, bool))
    ensures r.1 <==> result.Success?
    ensures result.Success? ==> r.0 == s.(clients := s.clients + [result.value])
    ensures result.Failure? ==> r.0 == s
  {
    match result
    case Success(client) => (s.(clients := s.clients + [client]), true)
    case Failure(_) => (s, false)
  }

  // ---------------------------------------------------------------------------------------
  // Editing clients

  /** `renameClient`: a blank name changes nothing; otherwise every client with the id gets the
      trimmed name and keeps everything else. */
  function RenameClient(s: UiState, clientId: string, newName: string): (r: UiState)
    ensures IsBlank(newName) ==> r == s
    ensures !IsBlank(newName) ==>
      r == s.(clients := r.clients) && |r.clients| == |s.clients| &&
      forall i :: 0 <= i < |s.clients| ==>
        r.clients[i] == (if s.clients[i].id == clientId then s.clients[i].(name := Trim(newName)) else s.clients[i])
  {
    if IsBlank(newName) then s
    else s.(clients := ReplaceWhereId(s.clients, clientId, (c: Client) => c.(name := Trim(newName))))
  }

  /** `setClientRegistration`: every client with the id gets the flag and keeps everything
      else. */
  function SetClientRegistration(s: UiState, clientId: string, registered: bool): (r: UiState)
    ensures r == s.(clients := r.clients) && |r.clients| == |s.clients|
    ensures forall i :: 0 <= i < |s.clients| ==>
      r.clients[i] == (if s.clients[i].id == clientId then s.clients[i].(registered := registered) else s.clients[i])
  {
    s.(clients := ReplaceWhereId(s.clients, clientId, (c: Client) => c.(registered := registered)))
  }

  // ---------------------------------------------------------------------------------------
  // Custom commands

  /** `addCustomCommand`: exactly one command is appended, carrying the fresh id. */
  function AddCommand(cmds: seq<CustomCommand>, command: CustomCommand, freshId: string): (r: seq<CustomCommand>)
    ensures |r| == |cmds| + 1 && r[..|cmds|] == cmds && r[|cmds|] == command.(id := freshId)
  {
    cmds + [command.(id := freshId)]
  }

  /** `updateCustomCommand`: every command with the same id is replaced; the length and every
      other command are kept. */
  function UpdateCommand(cmds: seq<CustomCommand>, command: CustomCommand): (r: seq<CustomCommand>)
    ensures |r| == |cmds|
    ensures forall i :: 0 <= i < |cmds| ==> r[i] == (if cmds[i].id == command.id then command else cmds[i])
  {
    seq(|cmds|, i requires 0 <= i < |cmds| => if cmds[i].id == command.id then command else cmds[i])
  }

  /** `removeCustomCommand`: no command with the id is left, every other command stays, in
      order. */
  function RemoveCommand(cmds: seq<CustomCommand>, commandId: string): (r: seq<CustomCommand>)
    ensures forall c :: c in r <==> c in cmds && c.id != commandId
    ensures IsSubsequence(r, cmds)
    ensures forall i :: 0 <= i < |cmds| ==>
      multiset(r)[cmds[i]] == if cmds[i].id != commandId then multiset(cmds)[cmds[i]] else 0
  {
    forall i | 0 <= i < |cmds| {
      FilterCounts(cmds, (c: CustomCommand) => c.id != commandId, cmds[i]);
    }
    FilterIsSubsequence(cmds, (c: CustomCommand) => c.id != commandId);
    Filter(cmds, (c: CustomCommand) => c.id != commandId)
  }

  /** Removing a command just added under an id nobody else has gives back the list. */
  lemma RemoveUndoesAdd(cmds: seq<CustomCommand>, command: CustomCommand, freshId: string)
    requires forall i :: 0 <= i < |cmds| ==> cmds[i].id != freshId
    ensures RemoveCommand(AddCommand(cmds, command, freshId), freshId) == cmds
  {
    var keep := (c: CustomCommand) => c.id != freshId;
    FilterConcat(cmds, [command.(id := freshId)], keep);
    FilterAll(cmds, keep);
    assert Filter([command.(id := freshId)], keep) == [];
  }

  /** Updating with a command whose id is present leaves it in the list. */
  lemma UpdateInstalls(cmds: seq<CustomCommand>, command: CustomCommand, k: nat)
    requires k < |cmds| && cmds[k].id == command.id
    ensures command in UpdateCommand(cmds, command)
    ensures forall c :: c in UpdateCommand(cmds, command) ==> c in cmds || c == command
  {
    assert UpdateCommand(cmds, command)[k] == command;
  }

  // ---------------------------------------------------------------------------------------
  // The assistant

  /** `executeAssistantCommand`: each resolved command starts the matching operation on behalf
      of the assistant; a command missing the client or policy it needs does nothing. */
  function ExecuteCommand(s: UiState, e: AssistantExecution): (r: (UiState, Option<Pending>))
    requires e.Command?
    ensures e.actionType == AssistantActionType.ApplyToDevice ==>
      r == (if e.client.None? || e.policy.None? then (s, None)
            else StartClientApply(s, e.client.value.id, e.policy.value.id, true))
    ensures e.actionType == AssistantActionType.RemoveFromDevice ==>
      r == (if e.client.None? then (s, None) else StartClientClear(s, e.client.value.id, true))
    ensures e.actionType == AssistantActionType.ApplyToAll ==>
      r == (if e.policy.None? then (s, None) else StartBulkApply(s, e.policy.value.id, true))
    ensures e.actionType == AssistantActionType.RemoveFromAll ==>
      var (t, p) := StartBulkClear(s, if e.policy.None? then None else Some(e.policy.value.id), true);
      r == (t, Some(p))
  {
    match e.actionType
    case ApplyToDevice =>
      if e.client.None? || e.policy.None? then (s, None)
      else StartClientApply(s, e.client.value.id, e.policy.value.id, true)
    case RemoveFromDevice =>
      if e.client.None? then (s, None) else StartClientClear(s, e.client.value.id, true)
    case ApplyToAll =>
      if e.policy.None? then (s, None) else StartBulkApply(s, e.policy.value.id, true)
    case RemoveFromAll =>
      var (t, p) := StartBulkClear(s, if e.policy.None? then None else Some(e.policy.value.id), true);
      (t, Some(p))
  }

  /** `handleAssistantCommand`: a blank command and one that does not parse only set an error
      banner, as does one that does not resolve (with the resolver's reason); a resolved one is
      executed. */
  function AssistantStep(fold: Fold, s: UiState, command: string): (r: (UiState, Option<Pending>))
    ensures IsBlank(command) ==> r == (WithBanner(s, EnterCommand, true), None)
    ensures !IsBlank(command) && Parse(fold, command).None? ==> r == (WithBanner(s, NotRecognised, true), None)
    ensures !IsBlank(command) && Parse(fold, command).Some? ==>
      var e := Execute(fold, Parse(fold, command).value, s);
      (e.Error? ==> r == (WithBanner(s, e.reason, true), None)) &&
      (e.Command? ==> r == ExecuteCommand(s, e))
  {
    if IsBlank(command) then (WithBanner(s, EnterCommand, true), None)
    else
      match Parse(fold, command)
      case None => (WithBanner(s, NotRecognised, true), None)
      case Some(intent) =>
        var e := Execute(fold, intent, s);
        if e.Error? then (WithBanner(s, e.reason, true), None) else ExecuteCommand(s, e)
  }

  /** Every command the resolver produces starts an operation on the state it was resolved
      against: the client and policy it names come from that state. The only commands that do
      nothing come from a remove-from-device command with no device, which the resolver never
      produces. */
  lemma ResolvedCommandsStart(fold: Fold, intent: AssistantIntent, s: UiState)
    ensures Execute(fold, intent, s).Command? ==> ExecuteCommand(s, Execute(fold, intent, s)).1.Some?
  {
    var e := Execute(fold, intent, s);
    if e.Command? {
      if e.client.Some? {
        var i :| 0 <= i < |s.clients| && s.clients[i] == e.client.value;
        assert IndexOfId(s.clients, e.client.value.id).Some?;
      }
      if e.policy.Some? {
        assert PolicyById(s.policies, e.policy.value.id).Some?;
      }
    }
  }

  // ---------------------------------------------------------------------------------------
  // The class

  class PolicySwitcherViewModel {
    var state: UiState
    var lastFetchedAt: Option<int>
    const fold: Fold
    const credentialStore: InMemoryCredentialStore

    constructor(fold: Fold, credentialStore: InMemoryCredentialStore)
      ensures state == InitialUiState && lastFetchedAt == None
      ensures this.fold == fold && this.credentialStore == credentialStore
    {
      state := InitialUiState;
      lastFetchedAt := None;
      this.fold := fold;
      this.credentialStore := credentialStore;
    }

    /** The `init` block: with saved credentials the panel closes, the connection counts as
        ready as of `now`, the saved address is shown and a forced refresh is requested; with
        none nothing happens. */
    method Init(now: int) returns (refresh: bool)
      modifies this
      ensures lastFetchedAt == old(lastFetchedAt)
      ensures refresh <==> credentialStore.credentials.Some?
      ensures credentialStore.credentials.None? ==> state == old(state)
      ensures credentialStore.credentials.Some? ==>
        state == old(state).(credentials := credentialStore.credentials.value, credsPanelExpanded := false,
                             connectionStatus := Ready(now), lastSuccessfulUrl := credentialStore.lastUrl)
    {
      var saved := credentialStore.Load();
      var lastUrl := credentialStore.LoadLastSuccessfulUrl();
      refresh := false;
      if saved.Some? {
        state := state.(credentials := saved.value, credsPanelExpanded := false,
                        connectionStatus := Ready(now), lastSuccessfulUrl := lastUrl);
        refresh := true;
      }
    }

    /** `verifyConnection`, up to the router call: invalid credentials are reported field by
        field and the call does not happen; valid ones clear the errors and mark the connection
        as being validated. */
    method BeginVerifyConnection(domainMatches: string -> bool) returns (proceed: bool)
      modifies this
      ensures lastFetchedAt == old(lastFetchedAt)
      ensures proceed <==> CredentialErrors(old(state).credentials, old(state).policies, domainMatches) == map[]
      ensures !proceed ==> state == old(state).(
        credentialErrors := CredentialErrors(old(state).credentials, old(state).policies, domainMatches),
        connectionStatus := ConnectionStatus.Error(CheckInput))
      ensures proceed ==> state == old(state).(connectionStatus := Validating, credentialErrors := map[])
    {
      var errors := ValidateCredentials(state.credentials, state.policies, domainMatches);
      if errors != map[] {
        state := state.(credentialErrors := errors, connectionStatus := ConnectionStatus.Error(CheckInput));
        return false;
      }
      state := state.(connectionStatus := Validating, credentialErrors := map[]);
      proceed := true;
    }

    /** `verifyConnection`, after the router call: success stores the credentials and the
        address, marks the connection ready as of `now`, closes the panel and requests a forced
        refresh; failure reports the router's reason. */
    method SettleVerifyConnection(result: Result<string>, now: int) returns (refresh: bool)
      modifies this, credentialStore
      ensures lastFetchedAt == old(lastFetchedAt)
      ensures refresh <==> result.Success?
      ensures result.Success? ==>
        credentialStore.credentials == Some(old(state).credentials) &&
        credentialStore.lastUrl == Some(result.value) &&
        state == old(state).(connectionStatus := Ready(now), lastSuccessfulUrl := Some(result.value),
                             credsPanelExpanded := false)
      ensures result.Failure? ==>
        credentialStore.credentials == old(credentialStore.credentials) &&
        credentialStore.lastUrl == old(credentialStore.lastUrl) &&
        state == old(state).(connectionStatus := ConnectionStatus.Error(result.message.GetOr(ConnectFailed)))
    {
      match result
      case Success(url) =>
        credentialStore.Save(state.credentials);
        credentialStore.SaveLastSuccessfulUrl(url);
        state := state.(connectionStatus := Ready(now), lastSuccessfulUrl := Some(url), credsPanelExpanded := false);
        refresh := true;
      case Failure(message) =>
        state := state.(connectionStatus := ConnectionStatus.Error(message.GetOr(ConnectFailed)));
        refresh := false;
    }

    /** `refresh(force)`, up to the router calls: it goes ahead exactly when `RefreshDue`, and
        then only raises the refreshing flag. */
    method BeginRefresh(force: bool, now: int) returns (fetch: bool)
      modifies this
      ensures lastFetchedAt == old(lastFetchedAt)
      ensures fetch <==> RefreshDue(force, old(state).connectionStatus, old(lastFetchedAt), now)
      ensures fetch ==> state == old(state).(isRefreshing := true)
      ensures !fetch ==> state == old(state)
    {
      fetch := RefreshDue(force, state.connectionStatus, lastFetchedAt, now);
      if fetch {
        state := state.(isRefreshing := true);
      }
    }

    /** `refresh(force)`, after the router calls at `now`: the fetched tables are installed and
        the fetch time is remembered and shown. */
    method SettleRefresh(policies: seq<Policy>, clients: seq<Client>, now: int)
      modifies this
      ensures lastFetchedAt == Some(now)
      ensures state == old(state).(policies := policies, clients := clients, isRefreshing := false,
                                   lastSynced := Some(now))
    {
      lastFetchedAt := Some(now);
      state := state.(policies := policies, clients := clients, isRefreshing := false, lastSynced := lastFetchedAt);
    }

    method ApplyPolicyToClient(clientId: string, policyId: string, fromAssistant: bool) returns (p: Option<Pending>)
      modifies this
      ensures lastFetchedAt == old(lastFetchedAt)
      ensures (state, p) == StartClientApply(old(state), clientId, policyId, fromAssistant)
    {
      var r := StartClientApply(state, clientId, policyId, fromAssistant);
      state, p := r.0, r.1;
    }

    method ClearPolicyForClient(clientId: string, fromAssistant: bool) returns (p: Option<Pending>)
      modifies this
      ensures lastFetchedAt == old(lastFetchedAt)
      ensures (state, p) == StartClientClear(old(state), clientId, fromAssistant)
    {
      var r := StartClientClear(state, clientId, fromAssistant);
      state, p := r.0, r.1;
    }

    method ApplyPolicyToAll(policyId: string, fromAssistant: bool) returns (p: Option<Pending>)
      modifies this
      ensures lastFetchedAt == old(lastFetchedAt)
      ensures (state, p) == StartBulkApply(old(state), policyId, fromAssistant)
    {
      var r := StartBulkApply(state, policyId, fromAssistant);
      state, p := r.0, r.1;
    }

    method ClearPolicyFromAll(policyId: Option<string>, fromAssistant: bool) returns (p: Pending)
      modifies this
      ensures lastFetchedAt == old(lastFetchedAt)
      ensures (state, p) == StartBulkClear(old(state), policyId, fromAssistant)
    {
      var r := StartBulkClear(state, policyId, fromAssistant);
      state, p := r.0, r.1;
    }

    method SettleClientOperation(p: Pending, result: Result<Client>)
      requires p.ClientApply? || p.ClientClear?
      modifies this
      ensures lastFetchedAt == old(lastFetchedAt)
      ensures state == SettleClient(old(state), p, result)
    {
      state := SettleClient(state, p, result);
    }

    method SettleBulkOperation(p: Pending, result: Result<seq<Client>>)
      requires p.BulkApply? || p.BulkClear?
      modifies this
      ensures lastFetchedAt == old(lastFetchedAt)
      ensures state == SettleBulk(old(state), p, result)
    {
      state := SettleBulk(state, p, result);
    }

    /** `registerClient`, up to the router call: the state is not touched; `None` is the
        `onComplete(false)` that never reaches the router. */
    method RegisterClient(name: string, mac: string, ip: Option<string>, notes: Option<string>)
      returns (request: Option<Registration>)
      ensures request.None? <==> IsBlank(name) || !IsMacAddress(mac)
      ensures request == RegistrationRequest(name, mac, ip, notes)
    {
      request := RegistrationRequest(name, mac, ip, notes);
    }

    /** `registerClient`, after the router call; `completed` is what reaches `onComplete`. */
    method SettleRegisterClient(result: Result<Client>) returns (completed: bool)
      modifies this
      ensures lastFetchedAt == old(lastFetchedAt)
      ensures (state, completed) == SettleRegistration(old(state), result)
    {
      var r := SettleRegistration(state, result);
      state, completed := r.0, r.1;
    }

    method Rename(clientId: string, newName: string)
      modifies this
      ensures lastFetchedAt == old(lastFetchedAt)
      ensures state == RenameClient(old(state), clientId, newName)
    {
      state := RenameClient(state, clientId, newName);
    }

    method SetRegistration(clientId: string, registered: bool)
      modifies this
      ensures lastFetchedAt == old(lastFetchedAt)
      ensures state == SetClientRegistration(old(state), clientId, registered)
    {
      state := SetClientRegistration(state, clientId, registered);
    }

    /** `addCustomCommand`, with the random id as `freshId`. */
    method AddCustomCommand(command: CustomCommand, freshId: string)
      modifies this
      ensures lastFetchedAt == old(lastFetchedAt)
      ensures state == old(state).(customCommands := AddCommand(old(state).customCommands, command, freshId))
    {
      state := state.(customCommands := AddCommand(state.customCommands, command, freshId));
    }

    method UpdateCustomCommand(command: CustomCommand)
      modifies this
      ensures lastFetchedAt == old(lastFetchedAt)
      ensures state == old(state).(customCommands := UpdateCommand(old(state).customCommands, command))
    {
      state := state.(customCommands := UpdateCommand(state.customCommands, command));
    }

    method RemoveCustomCommand(commandId: string)
      modifies this
      ensures lastFetchedAt == old(lastFetchedAt)
      ensures state == old(state).(customCommands := RemoveCommand(old(state).customCommands, commandId))
    {
      state := state.(customCommands := RemoveCommand(state.customCommands, commandId));
    }

    /** `importCommandsFromJson`, with the decoder's outcome as `decoded`: the list is replaced
        only when decoding succeeded. */
    method ImportCommands(decoded: Option<seq<CustomCommand>>) returns (ok: bool)
      modifies this
      ensures lastFetchedAt == old(lastFetchedAt)
      ensures ok <==> decoded.Some?
      ensures decoded.Some? ==> state == old(state).(customCommands := decoded.value)
      ensures decoded.None? ==> state == old(state)
    {
      ok := decoded.Some?;
      if ok {
        state := state.(customCommands := decoded.value);
      }
    }

    method HandleAssistantCommand(command: string) returns (p: Option<Pending>)
      modifies this
      ensures lastFetchedAt == old(lastFetchedAt)
      ensures (state, p) == AssistantStep(fold, old(state), command)
    {
      var r := AssistantStep(fold, state, command);
      state, p := r.0, r.1;
    }
  }
}
