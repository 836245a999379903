/** The data model of the policy switcher (model/Models.kt): router credentials, policies, LAN
    clients, custom assistant commands and the single UI snapshot with its derived views. */
module Models {
  import opened Prelude
  import opened Text

  /** Router credentials; `defaultPolicyId` plays no part in being complete. */
  datatype Credentials = Credentials(
    domainOrIp: string, username: string, password: string, defaultPolicyId: string)
  {
    /** The three fields needed to reach the router are filled in. */
    predicate IsComplete() {
      !IsBlank(domainOrIp) && !IsBlank(username) && !IsBlank(password)
    }
  }

  const EmptyCredentials := Credentials("", "", "", "")

  /** `IsComplete` is exactly "domain, login and password are not blank"; the default policy
      never matters. */
  lemma IsCompleteIgnoresDefaultPolicy(c: Credentials, defaultPolicyId: string)
    ensures c.IsComplete() <==> !IsBlank(c.domainOrIp) && !IsBlank(c.username) && !IsBlank(c.password)
    ensures c.(defaultPolicyId := defaultPolicyId).IsComplete() == c.IsComplete()
    ensures !EmptyCredentials.IsComplete()
  {
  }

  datatype CredentialField = Domain | Username | Password | DefaultPolicy

  /** Connection state; `Ready` records when the connection was last checked, in seconds. */
  datatype ConnectionStatus = NotSet | Validating | Ready(lastChecked: int) | Error(reason: string)

  datatype Policy = Policy(id: string, name: string, description: string)

  datatype Client = Client(
    id: string,
    name: string,
    mac: string,
    ip: Option<string>,
    policyId: Option<string>,
    registered: bool,
    alias: Option<string>,
    notes: Option<string>,
    hasPrivateMacWarning: bool)
  {
    /** `copy(policyId = p, registered = true)` */
    function Assigned(p: string): Client {
      this.(policyId := Some(p), registered := true)
    }

    /** `copy(policyId = null)` */
    function Cleared(): Client {
      this.(policyId := None)
    }
  }

  datatype DragState = Idle | DraggingOverApply | DraggingOverRemove | DraggingOverPolicy(policyId: string)

  /** The assistant's feedback message; its creation time is not modelled. */
  datatype AssistantBanner = AssistantBanner(message: string, isError: bool)

  datatype AssistantActionType = ApplyToDevice | RemoveFromDevice | ApplyToAll | RemoveFromAll

  datatype CustomCommand = CustomCommand(
    id: string,
    phrase: string,
    actionType: AssistantActionType,
    policyId: Option<string>,
    deviceId: Option<string>,
    enabledForAssistant: bool)

  /** A client is kept by the search when the (lower-cased) query occurs in its lower-cased name,
      MAC, IP or alias; a missing IP or alias never matches. */
  predicate MatchesQuery(c: Client, query: string) {
    Contains(Lower(c.name), query) || Contains(Lower(c.mac), query) ||
    (c.ip.Some? && Contains(Lower(c.ip.value), query)) ||
    (c.alias.Some? && Contains(Lower(c.alias.value), query))
  }

  /** The single snapshot the screen renders. Times are in seconds. */
  datatype UiState = UiState(
    credentials: Credentials,
    credentialErrors: map<CredentialField, string>,
    connectionStatus: ConnectionStatus,
    credsPanelExpanded: bool,
    lastSuccessfulUrl: Option<string>,
    lastSynced: Option<int>,
    policies: seq<Policy>,
    clients: seq<Client>,
    focusedPolicyId: Option<string>,
    dragState: DragState,
    isRefreshing: bool,
    searchQuery: string,
    assistantBanner: Option<AssistantBanner>,
    customCommands: seq<CustomCommand>,
    operationsInFlight: set<string>,
    bulkOperationInProgress: bool)
  {
    /** The first policy whose id is the focused one; none when nothing is focused or no policy
        has that id. */
    function FocusedPolicy(): (r: Option<Policy>)
      ensures r.None? <==> forall i :: 0 <= i < |policies| ==> Some(policies[i].id) != focusedPolicyId
      ensures r.Some? ==> exists i :: (0 <= i < |policies| && policies[i] == r.value &&
        Some(policies[i].id) == focusedPolicyId &&
        forall j :: 0 <= j < i ==> Some(policies[j].id) != focusedPolicyId)
    {
      match FirstIndex(policies, (p: Policy) => Some(p.id) == focusedPolicyId)
      case None => None
      case Some(i) => Some(policies[i])
    }

    /** The trimmed, lower-cased search query. */
    function SearchKey(): string {
      Lower(Trim(searchQuery))
    }

    /** The clients that match the search query, in their original order; a query that is blank
        keeps every client. */
    function ApplySearchFilter(list: seq<Client>): (r: seq<Client>)
      ensures IsBlank(searchQuery) ==> r == list
      ensures IsSubsequence(r, list)
      ensures forall c :: c in r <==> c in list && MatchesQuery(c, SearchKey())
      ensures !IsBlank(searchQuery) ==>
        forall i :: 0 <= i < |list| ==>
          multiset(r)[list[i]] == if MatchesQuery(list[i], SearchKey()) then multiset(list)[list[i]] else 0
    {
      var query := SearchKey();
      BlankIffTrimEmpty(searchQuery);
      if query == [] then
        SubsequenceReflexive(list);
        list
      else
        var kept := Filter(list, (c: Client) => MatchesQuery(c, query));
        FilterIsSubsequence(list, (c: Client) => MatchesQuery(c, query));
        CountsOfFilter(list, query);
        kept
    }

    /** Every copy of a matching client is kept and every copy of another is dropped. */
    static lemma CountsOfFilter(list: seq<Client>, query: string)
      ensures forall i :: 0 <= i < |list| ==>
        multiset(Filter(list, (c: Client) => MatchesQuery(c, query)))[list[i]] ==
        if MatchesQuery(list[i], query) then multiset(list)[list[i]] else 0
    {
      forall i | 0 <= i < |list| {
        FilterCounts(list, (c: Client) => MatchesQuery(c, query), list[i]);
      }
    }

    /** The detail view's two lists: with no focused policy, every filtered client and nothing
        else; with a focused policy, the filtered clients on it and the remaining filtered
        clients, each in the original order and together exactly the filtered clients. */
    function ClientsForFocusedPolicy(): (r: (seq<Client>, seq<Client>))
      ensures focusedPolicyId.None? ==> r == (ApplySearchFilter(clients), [])
      ensures focusedPolicyId.Some? ==>
        (forall c :: c in r.0 <==> c in ApplySearchFilter(clients) && c.policyId == focusedPolicyId) &&
        (forall c :: c in r.1 <==> c in ApplySearchFilter(clients) && c.policyId != focusedPolicyId)
      ensures IsSubsequence(r.0, ApplySearchFilter(clients))
      ensures IsSubsequence(r.1, ApplySearchFilter(clients))
      ensures multiset(r.0) + multiset(r.1) == multiset(ApplySearchFilter(clients))
    {
      var filtered := ApplySearchFilter(clients);
      if focusedPolicyId.None? then
        SubsequenceReflexive(filtered);
        (filtered, [])
      else
        var onFocus := (c: Client) => c.policyId == focusedPolicyId;
        var offFocus := (c: Client) => c.policyId != focusedPolicyId;
        FilterIsSubsequence(filtered, onFocus);
        FilterIsSubsequence(filtered, offFocus);
        FilterPartition(filtered, onFocus, offFocus);
        (Filter(filtered, onFocus), Filter(filtered, offFocus))
    }
  }

  /** The state a fresh view-model starts from. */
  const InitialUiState := UiState(
    EmptyCredentials, map[], NotSet, true, None, None, [], [], None, Idle, false, "", None, [], {},
    false)
}
