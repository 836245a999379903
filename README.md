# Policy Switcher — a Dafny model

Policy Switcher is an Android app that assigns a Keenetic router's connection policies
(profiles such as "Office", "Kids" or "WireGuard VPN") to the clients of a home network. The
user picks a client and a policy, bulk-applies or clears a policy for every client, registers
new clients by MAC address, and can also type Russian commands such as
"Включи политику WireGuard на ноутбук" ("turn on policy WireGuard on the laptop") to an
assistant.

This project models the app's core and proves properties about it:

- `Prelude`, `Text`: Kotlin's nullable values, `Result`, `firstOrNull` / `indexOfFirst` /
  `filter`, and the string operations the app relies on (`trim`, `isBlank`, `startsWith`,
  `equals(ignoreCase)`, `uppercase`/`lowercase` on ASCII Latin and U+0400-U+045F).
- `Models`: the data model of `model/Models.kt`, with the derived views of `UiState`
  (the focused policy, the search filter, the two lists of the detail view).
- `Assistant`: the command interpreter of `assistant/AssistantCommandHandler.kt`.
  - `normalize`: lower-case, canonical decomposition, blanking of characters outside
    `[a-z0-9а-яё ]`, collapsing of space runs, trim. The locale-dependent lower-casing and
    the NFD decomposition are a character-fold parameter `fold`. `StandardFold` is the concrete
    fold used for the worked examples.
  - The four patterns are modelled as whole-string matches with java.util.regex semantics:
    a greedy first group, and `.` excluding line terminators.
  - Also modelled: `parse`, name resolution and `execute`.
- `ClientLists`, `Repository`: the in-memory router `FakeKeeneticRepository`.
  - It is a class whose `policies` and `clients` fields the methods update in place.
  - Its invariant is that MACs stay distinct ignoring case.
- `CredentialStore`: `InMemoryCredentialStore`, a class with two slots.
- `ViewModel`: `PolicySwitcherViewModel`. It is a class holding the `UiState`, the time of the
  last fetch, the assistant's fold and the credential store.
  - Each coroutine-launching operation is split in two. A *begin* method applies the
    optimistic change and returns a `Pending` ticket holding what the coroutine captured.
  - A *settle* method takes the router's answer and applies the outcome.
  - The state changes themselves are pure functions, so lemmas can relate them. For example,
    a failed call puts back exactly what the optimistic step replaced.
  - Time is integer seconds.
- `Screen`: the pure helpers of `ui/PolicySwitcherScreen.kt`. These are the short address,
  the command descriptions, the editor's field requirements, the dispatch of a custom
  command and the editor's save.
- `Scenario`: the two cases of the command handler's unit test, proved for every fold that is
  stable and lower-cases the test's capitals, and then for `StandardFold`.

Paths below are relative to the repository root; `app/src/main/java/com/example/policyswitcher/`
is written out in full.

## Model

| member | source | states |
|---|---|---|
| Prelude.FirstIndex | app/src/main/java/com/example/policyswitcher/model/Models.kt:95 | `indexOfFirst`: the index found satisfies the test and is the first that does; none exactly when no element does |
| Prelude.FirstMatch | app/src/main/java/com/example/policyswitcher/assistant/AssistantCommandHandler.kt:93 | `firstOrNull`: none exactly when no element passes; otherwise the element at the first position whose element passes |
| Prelude.Filter | app/src/main/java/com/example/policyswitcher/model/Models.kt:111-116 | `filter`: the result holds exactly the elements that pass, and is no longer than the input |
| Prelude.FilterIsSubsequence | app/src/main/java/com/example/policyswitcher/model/Models.kt:111-116 | `filter` keeps the original order: its result is a subsequence of the input |
| Prelude.FilterPartition | app/src/main/java/com/example/policyswitcher/model/Models.kt:102-103 | filtering by a test and by its negation splits the list: the two multisets add up to the input's |
| Prelude.FilterCounts | app/src/main/java/com/example/policyswitcher/ui/PolicySwitcherViewModel.kt:331-333 | `filter` keeps every copy of a passing element and no copy of a failing one: the multiset count is the input's or zero |
| Prelude.FilterConcat | app/src/main/java/com/example/policyswitcher/model/Models.kt:111-116 | filtering a concatenation is the concatenation of the filtered parts |
| Prelude.FilterNone | app/src/main/java/com/example/policyswitcher/ui/PolicySwitcherViewModel.kt:331-333 | a test no element passes leaves an empty list |
| Prelude.FilterAll | app/src/main/java/com/example/policyswitcher/ui/PolicySwitcherViewModel.kt:331-333 | a test every element passes leaves the list unchanged |
| Text.Trim | app/src/main/java/com/example/policyswitcher/data/KeeneticRepository.kt:163 | `trim`: a contiguous piece of the input after its leading whitespace; everything after it is whitespace; a non-empty result neither starts nor ends with whitespace |
| Text.TrimOfTrimmed | app/src/main/java/com/example/policyswitcher/assistant/AssistantCommandHandler.kt:111 | a string that neither starts nor ends with whitespace is its own trim |
| Text.BlankIffTrimEmpty | app/src/main/java/com/example/policyswitcher/model/Models.kt:109-110 | `isBlank()` holds exactly when `trim()` is empty |
| Text.TrimIdempotent | app/src/main/java/com/example/policyswitcher/data/KeeneticRepository.kt:163 | trimming twice is trimming once |
| Text.JavaRuleIsUpperEquality | app/src/main/java/com/example/policyswitcher/data/KeeneticRepository.kt:145 | the character rule of `equals(ignoreCase = true)` agrees with comparing upper-cased characters |
| Text.UpperKeepsIgnoreCaseClass | app/src/main/java/com/example/policyswitcher/data/KeeneticRepository.kt:145-151 | upper-casing a MAC keeps it equal, ignoring case, to exactly the MACs the original was equal to |
| Text.StartsWithAppend | app/src/main/java/com/example/policyswitcher/data/KeeneticRepository.kt:164 | a string that starts with a prefix still does after something is appended |
| Models.IsCompleteIgnoresDefaultPolicy | app/src/main/java/com/example/policyswitcher/model/Models.kt:16-17 | `isComplete` holds exactly when domain, login and password are not blank; the default policy never matters; empty credentials are incomplete |
| Models.UiState.FocusedPolicy | app/src/main/java/com/example/policyswitcher/model/Models.kt:95 | none exactly when no policy has the focused id; otherwise the first policy that has it |
| Models.UiState.ApplySearchFilter | app/src/main/java/com/example/policyswitcher/model/Models.kt:108-117 | a blank query keeps the whole list; otherwise exactly the clients whose lower-cased name, MAC, IP or alias contains the trimmed, lower-cased query, in their original order, each kept client as often as in the input |
| Models.UiState.ClientsForFocusedPolicy | app/src/main/java/com/example/policyswitcher/model/Models.kt:97-106 | with no focus, all filtered clients and nothing; with a focus, the filtered clients on it and the others, each in order, together a permutation of the filtered list |
| ClientLists.ReplaceWhereId | app/src/main/java/com/example/policyswitcher/ui/PolicySwitcherViewModel.kt:160-165 | `map { if (it.id == id) f(it) else it }`: same length, and position by position the client is transformed exactly when it has the id |
| ClientLists.IndexOfId | app/src/main/java/com/example/policyswitcher/data/KeeneticRepository.kt:96 | `indexOfFirst { it.id == clientId }`: the first position with the id, none exactly when no client has it |
| ClientLists.RollbackRestores | app/src/main/java/com/example/policyswitcher/ui/PolicySwitcherViewModel.kt:167-184 | with unique ids, writing back the captured client after any update of it gives back the original list |
| ClientLists.ReplaceTwice | app/src/main/java/com/example/policyswitcher/ui/PolicySwitcherViewModel.kt:167-184 | two updates of the same id compose into one |
| ClientLists.AssignAll | app/src/main/java/com/example/policyswitcher/data/KeeneticRepository.kt:119-127 | every client ends on the policy; clients already on it are untouched; the others get it and are marked registered; ids and MACs are kept |
| ClientLists.AssignEvery | app/src/main/java/com/example/policyswitcher/ui/PolicySwitcherViewModel.kt:222-227 | the optimistic bulk apply: every client gets the policy and is marked registered |
| ClientLists.OptimisticBulkApplyAgreesExceptRegistration | app/src/main/java/com/example/policyswitcher/data/KeeneticRepository.kt:119-127 | the optimistic list and the router's list differ exactly at clients already on the policy but not registered, and only in the registered flag |
| ClientLists.ClearMatching | app/src/main/java/com/example/policyswitcher/data/KeeneticRepository.kt:129-137 | with no policy every client is cleared; with a policy exactly the clients on it are; ids and MACs are kept |
| ClientLists.ClearMatchingLeavesNone | app/src/main/java/com/example/policyswitcher/data/KeeneticRepository.kt:129-137 | after clearing, no client remains on the cleared policy, and with none given no client has any policy |
| ClientLists.ClearAllCountsEveryone | app/src/main/java/com/example/policyswitcher/ui/PolicySwitcherViewModel.kt:247-267 | after clearing every policy, the number of unassigned clients is the whole list |
| Assistant.ReplaceDisallowed | app/src/main/java/com/example/policyswitcher/assistant/AssistantCommandHandler.kt:111 | `replace("[^a-z0-9а-яё ]", " ")`: same length; allowed characters kept; every other one becomes a space |
| Assistant.CollapseSpaces | app/src/main/java/com/example/policyswitcher/assistant/AssistantCommandHandler.kt:111 | runs of spaces become one space: no double space remains, the non-space characters are kept in order, the first character is kept, and a space stands at the start and after each non-space character exactly where the input has one (`SpaceFlags`) |
| Assistant.SpaceLayoutDetermines | app/src/main/java/com/example/policyswitcher/assistant/AssistantCommandHandler.kt:111 | two strings without double spaces that have the same non-space characters and the same `SpaceFlags` are equal, so the contract of `CollapseSpaces` admits one result |
| Assistant.TrimNormalizes | app/src/main/java/com/example/policyswitcher/assistant/AssistantCommandHandler.kt:111 | trimming a string of allowed characters with no double space gives a normalised string |
| Assistant.TrimKeepsNonSpaces | app/src/main/java/com/example/policyswitcher/assistant/AssistantCommandHandler.kt:111 | trimming a string of allowed characters removes spaces only |
| Assistant.Normalize | app/src/main/java/com/example/policyswitcher/assistant/AssistantCommandHandler.kt:107-112 | a blank input comes back unchanged; otherwise the result is normalised, with no space at either end and no double space, and holds the same non-space characters as the folded, blanked input |
| Assistant.NormalizeFixes | app/src/main/java/com/example/policyswitcher/assistant/AssistantCommandHandler.kt:107-112 | under a stable fold, a normalised string without `ё`/`й` is its own normalisation |
| Assistant.NormalizeNoDecomposable | app/src/main/java/com/example/policyswitcher/assistant/AssistantCommandHandler.kt:109-111 | after the decomposition no `ё` or `й` survives normalisation |
| Assistant.NormalizeIdempotent | app/src/main/java/com/example/policyswitcher/assistant/AssistantCommandHandler.kt:107-112 | normalising twice is normalising once |
| Assistant.LastSplit | app/src/main/java/com/example/policyswitcher/assistant/AssistantCommandHandler.kt:19-20 | the last position below the bound where " на " splits the text into two non-empty parts; none when there is no such position |
| Assistant.MatchTwoGroups | app/src/main/java/com/example/policyswitcher/assistant/AssistantCommandHandler.kt:19-20 | whole-string match of `<prefix>(.+) на (.+)`: a result is a match, and among all matches it has the longest first group (greedy); none exactly when there is no match |
| Assistant.NoMatchWithoutDots | app/src/main/java/com/example/policyswitcher/assistant/AssistantCommandHandler.kt:19-20 | a line terminator after the prefix rules out every match of `(.+) на (.+)` |
| Assistant.MatchesSplit | app/src/main/java/com/example/policyswitcher/assistant/AssistantCommandHandler.kt:19-20 | every match puts a " на " right after its first group |
| Assistant.SplitMatches | app/src/main/java/com/example/policyswitcher/assistant/AssistantCommandHandler.kt:19-20 | splitting a remainder without line terminators at a " на " gives a match |
| Assistant.MatchOneGroup | app/src/main/java/com/example/policyswitcher/assistant/AssistantCommandHandler.kt:21-22 | whole-string match of `<prefix>(.+)`: a result is a match, and there is none exactly when nothing matches |
| Assistant.DistinctPrefixes | app/src/main/java/com/example/policyswitcher/assistant/AssistantCommandHandler.kt:19-22 | two prefixes that differ at some position cannot both start one string |
| Assistant.PatternsAreExclusive | app/src/main/java/com/example/policyswitcher/assistant/AssistantCommandHandler.kt:19-22 | no normalised command matches two of the four patterns, so the order of the `when` arms decides nothing |
| Assistant.ParseNormalized | app/src/main/java/com/example/policyswitcher/assistant/AssistantCommandHandler.kt:26-43 | the intent's kind is exactly the pattern that matches, no match gives none, and the names are the trimmed groups, with the disable-all group coming from either wording |
| Assistant.NormalizedRemoveAllParses | app/src/main/java/com/example/policyswitcher/assistant/AssistantCommandHandler.kt:39-42 | a match of either disable-all wording parses to removing its group from every client |
| Assistant.TurnOffIsNotDisableAll | app/src/main/java/com/example/policyswitcher/assistant/AssistantCommandHandler.kt:22 | the "выключи" wording never matches the "отключи" wording |
| Assistant.JoinPlainNames | app/src/main/java/com/example/policyswitcher/assistant/AssistantCommandHandler.kt:111 | two plain names joined by one space form a plain name |
| Assistant.CommandWordsArePlain | app/src/main/java/com/example/policyswitcher/assistant/AssistantCommandHandler.kt:19-22 | the fixed words of each of the five command shapes are a plain name, and each prefix is those words and a space |
| Assistant.MatchTwoGroupsOfJoin | app/src/main/java/com/example/policyswitcher/assistant/AssistantCommandHandler.kt:19-20 | for plain names `p` and `d` where " на " + `d` has no split point, matching `prefix p на d` gives back `p` and `d` |
| Assistant.TwoGroupCommandParses | app/src/main/java/com/example/policyswitcher/assistant/AssistantCommandHandler.kt:24-33 | a command in a two-group shape over plain names is its own normalisation and matches with exactly those groups |
| Assistant.OneGroupCommandParses | app/src/main/java/com/example/policyswitcher/assistant/AssistantCommandHandler.kt:35-42 | a command in a one-group shape over a plain name is its own normalisation and matches with that group |
| Assistant.ParseApplyRoundTrip | app/src/main/java/com/example/policyswitcher/assistant/AssistantCommandHandler.kt:27-30 | "включи политику p на d" parses back to applying `p` to `d` |
| Assistant.ParseDisableRoundTrip | app/src/main/java/com/example/policyswitcher/assistant/AssistantCommandHandler.kt:31-34 | "отключи политику p на d" parses back to removing `p` from `d` |
| Assistant.ParseEnableAllRoundTrip | app/src/main/java/com/example/policyswitcher/assistant/AssistantCommandHandler.kt:35-38 | "включи всем политику p" parses back to applying `p` to everyone |
| Assistant.ParseDisableAllRoundTrip | app/src/main/java/com/example/policyswitcher/assistant/AssistantCommandHandler.kt:39-42 | "отключи всем политику p" parses back to removing `p` from everyone |
| Assistant.ParseTurnOffAllRoundTrip | app/src/main/java/com/example/policyswitcher/assistant/AssistantCommandHandler.kt:39-42 | "выключи всем политику p" parses the same way |
| Assistant.ResolveDevice | app/src/main/java/com/example/policyswitcher/assistant/AssistantCommandHandler.kt:91-98 | none exactly when no client matches by normalised name, normalised alias or MAC equal ignoring case to the trimmed name; otherwise the first client that matches |
| Assistant.ResolvePolicy | app/src/main/java/com/example/policyswitcher/assistant/AssistantCommandHandler.kt:100-105 | none exactly when no policy matches by normalised name or by id equal ignoring case; otherwise the first that matches |
| Assistant.Execute | app/src/main/java/com/example/policyswitcher/assistant/AssistantCommandHandler.kt:47-86 | per intent: an unknown device, then an unknown policy, are errors with their messages; a command's client and policy come from the state; only removal from one device may lack a policy |
| Assistant.BannerForResult | app/src/main/java/com/example/policyswitcher/assistant/AssistantCommandHandler.kt:88-89 | the banner carries the message and is an error exactly when the outcome is not a success |
| Assistant.NamedClientIsFound | app/src/main/java/com/example/policyswitcher/assistant/AssistantCommandHandler.kt:91-98 | a client whose name normalises to a plain name is found by that name |
| Assistant.NamedPolicyIsFound | app/src/main/java/com/example/policyswitcher/assistant/AssistantCommandHandler.kt:100-105 | a policy whose name normalises to a plain name is found by that name |
| Assistant.ApplyCommandReachesNamedClient | app/src/main/java/com/example/policyswitcher/assistant/AssistantCommandHandler.kt:24-57 | an apply command naming a present client and policy parses and executes to a command on the first client and first policy that answer to those names |
| Assistant.StandardFoldIsStable | app/src/main/java/com/example/policyswitcher/assistant/AssistantCommandHandler.kt:109-110 | the concrete fold is stable: allowed characters other than `ё`/`й` fold to themselves, and no fold yields `ё` or `й` |
| Repository.NormalizeDomain | app/src/main/java/com/example/policyswitcher/data/KeeneticRepository.kt:162-165 | the trimmed input when it starts with "http", otherwise "https://" in front; either way the result starts with "http" |
| Repository.SchemedAddressIsTrimmed | app/src/main/java/com/example/policyswitcher/data/KeeneticRepository.kt:164 | putting "https://" in front of a trimmed address leaves it trimmed |
| Repository.NormalizeDomainIdempotent | app/src/main/java/com/example/policyswitcher/data/KeeneticRepository.kt:162-165 | a normalised address is its own normalisation |
| Repository.SameMacsStayDistinct | app/src/main/java/com/example/policyswitcher/data/KeeneticRepository.kt:95-137 | a list with the same MACs position by position keeps them distinct |
| Repository.SeedMacsDistinct | app/src/main/java/com/example/policyswitcher/data/KeeneticRepository.kt:32-74 | the seeded clients' MACs are distinct ignoring case |
| Repository.FakeKeeneticRepository.constructor | app/src/main/java/com/example/policyswitcher/data/KeeneticRepository.kt:24-74 | the store starts with the seeded policies and clients, satisfying its invariant |
| Repository.FakeKeeneticRepository.VerifyConnection | app/src/main/java/com/example/policyswitcher/data/KeeneticRepository.kt:76-83 | succeeds exactly when the credentials are complete, with the normalised address; otherwise fails with "Введите домен, логин и пароль" |
| Repository.FakeKeeneticRepository.FetchPolicies | app/src/main/java/com/example/policyswitcher/data/KeeneticRepository.kt:85-88 | the policy table |
| Repository.FakeKeeneticRepository.FetchClients | app/src/main/java/com/example/policyswitcher/data/KeeneticRepository.kt:90-93 | the client table |
| Repository.FakeKeeneticRepository.ApplyPolicyToClient | app/src/main/java/com/example/policyswitcher/data/KeeneticRepository.kt:95-105 | an unknown id fails with "Клиент не найден" and changes nothing; otherwise only the first client with the id gets the policy and is marked registered, and it is returned; MACs stay distinct |
| Repository.FakeKeeneticRepository.ClearPolicyForClient | app/src/main/java/com/example/policyswitcher/data/KeeneticRepository.kt:107-117 | the same shape, removing the policy and keeping every other field |
| Repository.FakeKeeneticRepository.ApplyPolicyToAll | app/src/main/java/com/example/policyswitcher/data/KeeneticRepository.kt:119-127 | the table becomes `AssignAll` of the old one and is returned; policies untouched |
| Repository.FakeKeeneticRepository.ClearPolicyFromAll | app/src/main/java/com/example/policyswitcher/data/KeeneticRepository.kt:129-137 | the table becomes `ClearMatching` of the old one and is returned |
| Repository.FakeKeeneticRepository.RegisterClient | app/src/main/java/com/example/policyswitcher/data/KeeneticRepository.kt:139-160 | a MAC equal ignoring case to a present one fails with "MAC уже зарегистрирован" and changes nothing; otherwise exactly one registered client with no policy, the upper-cased MAC and the fresh id is appended and returned; MACs stay distinct |
| CredentialStore.InMemoryCredentialStore.constructor | app/src/main/java/com/example/policyswitcher/data/CredentialStore.kt:67-69 | both slots start empty |
| CredentialStore.InMemoryCredentialStore.Load | app/src/main/java/com/example/policyswitcher/data/CredentialStore.kt:71 | returns the saved credentials, if any |
| CredentialStore.InMemoryCredentialStore.Save | app/src/main/java/com/example/policyswitcher/data/CredentialStore.kt:73-75 | overwrites the credentials; the address slot is untouched |
| CredentialStore.InMemoryCredentialStore.SaveLastSuccessfulUrl | app/src/main/java/com/example/policyswitcher/data/CredentialStore.kt:77-79 | overwrites the address; the credentials are untouched |
| CredentialStore.InMemoryCredentialStore.LoadLastSuccessfulUrl | app/src/main/java/com/example/policyswitcher/data/CredentialStore.kt:81 | returns the saved address, if any |
| ViewModel.WithBanner | app/src/main/java/com/example/policyswitcher/ui/PolicySwitcherViewModel.kt:367-369 | the state with the banner set and nothing else changed |
| ViewModel.ValidateCredentials | app/src/main/java/com/example/policyswitcher/ui/PolicySwitcherViewModel.kt:371-386 | the map holds exactly the failing fields, each with its message |
| ViewModel.ValidCredentialsAreComplete | app/src/main/java/com/example/policyswitcher/ui/PolicySwitcherViewModel.kt:371-386 | credentials that pass validation are complete, so the router will accept them; passing is exactly "no field fails" |
| ViewModel.RefreshThrottle | app/src/main/java/com/example/policyswitcher/ui/PolicySwitcherViewModel.kt:122-129 | a forced refresh always fetches; a non-forced one fetches only when the connection is ready and 30 seconds have passed since the last fetch |
| ViewModel.PolicyById | app/src/main/java/com/example/policyswitcher/ui/PolicySwitcherViewModel.kt:159 | none exactly when no policy has the id; otherwise the first policy of the list with that id |
| ViewModel.StartClientApply | app/src/main/java/com/example/policyswitcher/ui/PolicySwitcherViewModel.kt:157-165 | nothing happens unless both client and policy exist; otherwise the id goes in flight, the client is optimistically assigned, and the ticket captures the previous client |
| ViewModel.StartClientClear | app/src/main/java/com/example/policyswitcher/ui/PolicySwitcherViewModel.kt:190-197 | nothing happens for an unknown client; otherwise the id goes in flight, the client is optimistically cleared, and the ticket captures it |
| ViewModel.SettleClient | app/src/main/java/com/example/policyswitcher/ui/PolicySwitcherViewModel.kt:166-216 | the id leaves the in-flight set; failure writes back the captured client; a successful apply installs the router's client; a banner is set only for assistant calls, and is an error exactly on failure; its text is "Готово: <client> → <policy>" after an apply, "Снято: <client>" after a clear, and the error message or the default after a failure |
| ViewModel.StartBulkApply | app/src/main/java/com/example/policyswitcher/ui/PolicySwitcherViewModel.kt:219-227 | nothing happens for an unknown policy; otherwise the bulk flag goes up, every client is optimistically assigned, and the ticket captures the old list |
| ViewModel.StartBulkClear | app/src/main/java/com/example/policyswitcher/ui/PolicySwitcherViewModel.kt:247-249 | always starts: the bulk flag goes up, the matching clients are optimistically cleared, and the ticket captures the old list |
| ViewModel.SettleBulk | app/src/main/java/com/example/policyswitcher/ui/PolicySwitcherViewModel.kt:228-267 | the bulk flag goes down; success installs the router's list, failure the captured list; assistant calls get a banner that is an error exactly on failure, reading "Готово: всем → <policy>" after an apply, "Сброшено: <n> устройств" with the count of unassigned clients after a clear, and the error message or the default after a failure |
| ViewModel.SingleClientFailureRestores | app/src/main/java/com/example/policyswitcher/ui/PolicySwitcherViewModel.kt:157-217 | a failed single-client call settled straight after it started gives back the clients and the in-flight set of before |
| ViewModel.ApplySuccessConfirmsOptimistic | app/src/main/java/com/example/policyswitcher/ui/PolicySwitcherViewModel.kt:157-188 | when the router confirms an apply with the assigned client, the settled list is the optimistic one |
| ViewModel.BulkFailureRestores | app/src/main/java/com/example/policyswitcher/ui/PolicySwitcherViewModel.kt:219-267 | a failed bulk call gives back the list captured when it started |
| ViewModel.MacAddressShape | app/src/main/java/com/example/policyswitcher/ui/PolicySwitcherViewModel.kt:394 | a MAC matching the pattern is not blank, is its own trim, and still matches after upper-casing |
| ViewModel.RegistrationRequest | app/src/main/java/com/example/policyswitcher/ui/PolicySwitcherViewModel.kt:269-276 | refused exactly when the trimmed name is empty or the MAC is malformed; otherwise it carries the trimmed name (not empty), the MAC, the IP only when it is not blank, and the notes as given |
| ViewModel.SettleRegistration | app/src/main/java/com/example/policyswitcher/ui/PolicySwitcherViewModel.kt:277-285 | completes exactly on success, appending the router's client; failure changes nothing |
| ViewModel.RenameClient | app/src/main/java/com/example/policyswitcher/ui/PolicySwitcherViewModel.kt:288-293 | a blank name changes nothing; otherwise every client with the id gets the trimmed name, and every other field and client is unchanged |
| ViewModel.SetClientRegistration | app/src/main/java/com/example/policyswitcher/ui/PolicySwitcherViewModel.kt:295-299 | every client with the id gets the flag; every other field and client is unchanged |
| ViewModel.AddCommand | app/src/main/java/com/example/policyswitcher/ui/PolicySwitcherViewModel.kt:321-323 | exactly one command is appended, carrying the fresh id |
| ViewModel.UpdateCommand | app/src/main/java/com/example/policyswitcher/ui/PolicySwitcherViewModel.kt:325-329 | same length; each command with the id is replaced and every other command stays |
| ViewModel.RemoveCommand | app/src/main/java/com/example/policyswitcher/ui/PolicySwitcherViewModel.kt:331-333 | exactly the commands with other ids remain, in order, each as often as in the input |
| ViewModel.RemoveUndoesAdd | app/src/main/java/com/example/policyswitcher/ui/PolicySwitcherViewModel.kt:321-333 | removing a command just added under an unused id gives back the list |
| ViewModel.UpdateInstalls | app/src/main/java/com/example/policyswitcher/ui/PolicySwitcherViewModel.kt:325-329 | after an update whose id is present, the new command is in the list, and nothing new besides it |
| ViewModel.ExecuteCommand | app/src/main/java/com/example/policyswitcher/ui/PolicySwitcherViewModel.kt:345-365 | each resolved command starts the matching operation on the assistant's behalf; a command missing the client or policy its kind needs starts nothing |
| ViewModel.AssistantStep | app/src/main/java/com/example/policyswitcher/ui/PolicySwitcherViewModel.kt:301-315 | a blank command or one that does not parse only sets an error banner; an execution error sets its message as an error banner; a resolved command starts its operation |
| ViewModel.ResolvedCommandsStart | app/src/main/java/com/example/policyswitcher/ui/PolicySwitcherViewModel.kt:345-365 | every command `execute` produces on a state starts an operation on that state |
| ViewModel.PolicySwitcherViewModel.constructor | app/src/main/java/com/example/policyswitcher/ui/PolicySwitcherViewModel.kt:41-54 | the view-model starts from the initial state with nothing fetched |
| ViewModel.PolicySwitcherViewModel.Init | app/src/main/java/com/example/policyswitcher/ui/PolicySwitcherViewModel.kt:56-72 | with saved credentials the panel closes, the connection counts as ready from now, the saved address is shown and a refresh follows; without them nothing changes |
| ViewModel.PolicySwitcherViewModel.BeginVerifyConnection | app/src/main/java/com/example/policyswitcher/ui/PolicySwitcherViewModel.kt:94-102 | invalid credentials are reported field by field and stop; valid ones clear the errors and set Validating |
| ViewModel.PolicySwitcherViewModel.SettleVerifyConnection | app/src/main/java/com/example/policyswitcher/ui/PolicySwitcherViewModel.kt:103-118 | success saves the credentials and the address, marks the connection ready now, closes the panel and asks for a refresh; failure records the message as the error |
| ViewModel.PolicySwitcherViewModel.BeginRefresh | app/src/main/java/com/example/policyswitcher/ui/PolicySwitcherViewModel.kt:122-130 | fetches exactly when a refresh is due, raising the refreshing flag; otherwise changes nothing |
| ViewModel.PolicySwitcherViewModel.SettleRefresh | app/src/main/java/com/example/policyswitcher/ui/PolicySwitcherViewModel.kt:131-141 | the fetched tables are installed, the flag goes down, and the sync time and last fetch become now |
| ViewModel.PolicySwitcherViewModel.ApplyPolicyToClient | app/src/main/java/com/example/policyswitcher/ui/PolicySwitcherViewModel.kt:157-165 | the state and ticket are `StartClientApply` of the old state |
| ViewModel.PolicySwitcherViewModel.ClearPolicyForClient | app/src/main/java/com/example/policyswitcher/ui/PolicySwitcherViewModel.kt:190-197 | the state and ticket are `StartClientClear` of the old state |
| ViewModel.PolicySwitcherViewModel.ApplyPolicyToAll | app/src/main/java/com/example/policyswitcher/ui/PolicySwitcherViewModel.kt:219-227 | the state and ticket are `StartBulkApply` of the old state |
| ViewModel.PolicySwitcherViewModel.ClearPolicyFromAll | app/src/main/java/com/example/policyswitcher/ui/PolicySwitcherViewModel.kt:247-249 | the state and ticket are `StartBulkClear` of the old state |
| ViewModel.PolicySwitcherViewModel.SettleClientOperation | app/src/main/java/com/example/policyswitcher/ui/PolicySwitcherViewModel.kt:166-216 | the state becomes `SettleClient` of the old state |
| ViewModel.PolicySwitcherViewModel.SettleBulkOperation | app/src/main/java/com/example/policyswitcher/ui/PolicySwitcherViewModel.kt:228-267 | the state becomes `SettleBulk` of the old state |
| ViewModel.PolicySwitcherViewModel.RegisterClient | app/src/main/java/com/example/policyswitcher/ui/PolicySwitcherViewModel.kt:269-276 | the state is untouched; the request is refused exactly for a blank name or a malformed MAC |
| ViewModel.PolicySwitcherViewModel.SettleRegisterClient | app/src/main/java/com/example/policyswitcher/ui/PolicySwitcherViewModel.kt:277-285 | the state and the completion flag are `SettleRegistration` of the old state |
| ViewModel.PolicySwitcherViewModel.Rename | app/src/main/java/com/example/policyswitcher/ui/PolicySwitcherViewModel.kt:288-293 | the state becomes `RenameClient` of the old state |
| ViewModel.PolicySwitcherViewModel.SetRegistration | app/src/main/java/com/example/policyswitcher/ui/PolicySwitcherViewModel.kt:295-299 | the state becomes `SetClientRegistration` of the old state |
| ViewModel.PolicySwitcherViewModel.AddCustomCommand | app/src/main/java/com/example/policyswitcher/ui/PolicySwitcherViewModel.kt:321-323 | only the command list changes, to `AddCommand` of the old one |
| ViewModel.PolicySwitcherViewModel.UpdateCustomCommand | app/src/main/java/com/example/policyswitcher/ui/PolicySwitcherViewModel.kt:325-329 | only the command list changes, to `UpdateCommand` of the old one |
| ViewModel.PolicySwitcherViewModel.RemoveCustomCommand | app/src/main/java/com/example/policyswitcher/ui/PolicySwitcherViewModel.kt:331-333 | only the command list changes, to `RemoveCommand` of the old one |
| ViewModel.PolicySwitcherViewModel.ImportCommands | app/src/main/java/com/example/policyswitcher/ui/PolicySwitcherViewModel.kt:340-343 | a decoded list replaces the commands and reports success; a decoding failure changes nothing |
| ViewModel.PolicySwitcherViewModel.HandleAssistantCommand | app/src/main/java/com/example/policyswitcher/ui/PolicySwitcherViewModel.kt:301-315 | the state and ticket are `AssistantStep` of the old state under the view-model's fold |
| Screen.ShortUrl | app/src/main/java/com/example/policyswitcher/ui/PolicySwitcherScreen.kt:1191-1194 | a blank address reads "Не настроено"; otherwise one leading "https://" and then one leading "http://" are removed |
| Screen.ShortUrlShowsTypedAddress | app/src/main/java/com/example/policyswitcher/ui/PolicySwitcherScreen.kt:1191-1194 | an address typed without a scheme shows as typed, trimmed, although the router stored it with "https://" |
| Screen.RequiresPolicy | app/src/main/java/com/example/policyswitcher/ui/PolicySwitcherScreen.kt:1212-1217 | only removal from one device does without a policy |
| Screen.RequiresDevice | app/src/main/java/com/example/policyswitcher/ui/PolicySwitcherScreen.kt:1219-1223 | exactly the two single-device actions need a device |
| Screen.Dispatch | app/src/main/java/com/example/policyswitcher/ui/PolicySwitcherScreen.kt:280-301 | each action kind calls its view-model operation when the fields it reads are present and does nothing otherwise; removal from all runs even without a policy |
| Screen.DispatchAgreesWithEditor | app/src/main/java/com/example/policyswitcher/ui/PolicySwitcherScreen.kt:1056-1061 | a command with every field the editor asks for always does something when run; for the single-device and apply-to-all kinds, exactly those do; removal from all runs even without a policy, as a removal from every client |
| Screen.PerformAction | app/src/main/java/com/example/policyswitcher/MainActivity.kt:68-71 | each screen action starts the matching view-model operation with `fromAssistant` false; an action that starts nothing leaves the state alone; removal from all always starts a bulk clear of the matching clients |
| Screen.RemoveFromAllWithoutPolicyClearsEveryone | app/src/main/java/com/example/policyswitcher/ui/PolicySwitcherScreen.kt:298-300 | running a saved removal from all without a policy starts a bulk clear after which every client on screen has no policy, with ids and order kept |
| Screen.CommandDescription | app/src/main/java/com/example/policyswitcher/ui/PolicySwitcherScreen.kt:1196-1203 | the text for each action kind, with its placeholders for missing names |
| Screen.TrimDropsTrailingSpace | app/src/main/java/com/example/policyswitcher/ui/PolicySwitcherScreen.kt:1201 | a string without whitespace at its ends loses exactly its appended trailing space to `trim` |
| Screen.RemoveFromAllDescription | app/src/main/java/com/example/policyswitcher/ui/PolicySwitcherScreen.kt:1201 | without a policy name the text is "Снять у всех", with no trailing space; with a trimmed name it is that text, a space and the name |
| Screen.EditorSave | app/src/main/java/com/example/policyswitcher/ui/PolicySwitcherScreen.kt:316-323 | a command without an id is added under the fresh id; one with an id updates the list |
| Scenario.FoldedApplyExecutes | app/src/test/java/com/example/policyswitcher/assistant/AssistantCommandHandlerTest.kt:26-34 | a command that folds to the apply phrase for the first client's and first policy's names parses, and executes to a command on them |
| Scenario.ApplyScenario | app/src/test/java/com/example/policyswitcher/assistant/AssistantCommandHandlerTest.kt:26-34 | "Включи политику WireGuard на ноутбук" parses to applying "wireguard" to "ноутбук" and executes on client c1 with policy vpn |
| Scenario.UnknownMatchesNoPolicy | app/src/test/java/com/example/policyswitcher/assistant/AssistantCommandHandlerTest.kt:14-23 | neither test policy answers to "unknown" |
| Scenario.UnknownPolicyScenario | app/src/test/java/com/example/policyswitcher/assistant/AssistantCommandHandlerTest.kt:37-42 | "Включи политику Unknown на ноутбук" parses, and its execution is the policy-not-found error |
| Scenario.StandardFoldScenarios | app/src/test/java/com/example/policyswitcher/assistant/AssistantCommandHandlerTest.kt:26-42 | both test cases hold under the concrete fold |

## Left out

- Compose UI: layout, drag and drop, sheets and dialogs are not modelled. The dispatch, descriptions and editor save that the screen computes are modelled.
- Events, toasts and haptics: the `UiEvent` channel has no counterpart.
- Coroutines, `Mutex` and `delay`: each operation is split into a begin and a settle step, so the model covers every interleaving of settle calls that the caller chooses, but not thread-level concurrency.
- `SecureCredentialStore`: encrypted shared preferences are platform I/O. Only `InMemoryCredentialStore` is modelled.
- `exportCommandsAsJson` and JSON decoding: serialisation is a library call. `ImportCommands` takes the decoder's outcome as an `Option`.
- `DOMAIN_REGEX`: the domain check is a predicate parameter of `ValidateCredentials`. `MAC_REGEX` is modelled exactly.
- ViewModel.ValidCredentialsAreComplete: it assumes that the domain check rejects every blank address. The pattern is not modelled, so this is a premise, not a property of the pattern.
- `DOMAIN_REGEX` as written (ui/PolicySwitcherViewModel.kt:391-393): it contains `(?1)`, a PCRE subroutine call that the `java.util.regex` grammar lacks, so by that grammar `Pattern.compile` throws ("Unknown inline modifier") while the companion object initialises, before any validation. Under PCRE, `(?1)` would call group 1, `(https?://)`, not the octet group. Read from the text only, not executed; the model keeps the check abstract.
- `Locale.getDefault()` lower-casing and `Normalizer` NFD: these are the `fold` parameter, with the property the proofs need stated as `FoldIsStable`. `StandardFold` covers ASCII Latin and U+0400-U+045F only.
- `Text.Lower` / `Text.Upper`: Kotlin's `lowercase()`, `uppercase()` and `equals(ignoreCase = true)` cover all of Unicode, including 'Ä', 'É', 'Ґ' and Greek, and `uppercase()` can lengthen a string ('ß' becomes "SS"). The model's case table covers ASCII Latin and U+0400-U+045F only and leaves every other character unchanged. So the search filter, MAC upper-casing and the duplicate-MAC check agree with the source only on text within that range.
- `Instant` and `Duration`: times are integer seconds. The banner's creation time is not modelled.
- UUIDs: fresh ids are parameters.
- Router replies: they are parameters of the settle methods.
- Trivial setters: `toggleCredentialsPanel`, `updateDomain`, `updateUsername`, `updatePassword`, `updateDefaultPolicy`, `focusOnPolicy`, `updateSearchQuery`, `onDragStateChange` and `dismissAssistantBanner` each assign one field, so they are not modelled.
- `MainActivity` and the view-model factory: platform wiring. Only the four policy callbacks of the screen are modelled, in `Screen.PerformAction`.
- `Result` messages: a Kotlin exception's message may be null, so a failure carries an `Option<string>`.
- The `"\s+"` pattern in `normalize`: as written it is not a legal Kotlin string escape. It is modelled as the evident intent, collapsing each run of spaces; after the blanking step, spaces are the only whitespace left.
- `Assistant.Normalize`: the decomposition turns `ё` and `й` into a base letter and a combining mark, which the blanking step then turns into a space. The model keeps this behaviour, but its contract states only the kept non-space characters and the normalised shape, not where the spaces fall. Where they fall before the trim is stated by `Assistant.CollapseSpaces`.
- `Assistant.Execute`: removing from all still needs a known policy, as in the source, although the screen's editor lets that command have no policy.
