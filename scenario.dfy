/** The two cases of the command interpreter's unit test (AssistantCommandHandlerTest.kt),
    worked through the model: first for any stable fold that lower-cases the capitals the test
    uses, then for the standard character fold. */
module Scenario {
  import opened Prelude
  import opened Text
  import opened Models
  import opened Assistant

  /** The test's snapshot: two policies and two clients, everything else at its initial value. */
  const TestState := InitialUiState.(
    policies := [Policy("vpn", "WireGuard", ""), Policy("office", "Office", "")],
    clients := [
      Client("c1", "Ноутбук", "AA:BB:CC:00:11:22", None, None, false, None, None, false),
      Client("c2", "Телефон", "AA:BB:CC:00:11:23", None, None, false, None, None, false)
    ])

  /** The fold lower-cases the capital letters that occur in the test's commands and names. */
  ghost predicate LowersTestCapitals(fold: Fold) {
    fold('В') == ['в'] && fold('Н') == ['н'] && fold('W') == ['w'] && fold('G') == ['g'] &&
    fold('U') == ['u'] && fold('O') == ['o']
  }

  // ---------------------------------------------------------------------------------------
  // Folding, word by word

  /** Folding works character by character, so it distributes over concatenation. */
  lemma {:induction false} FoldAllConcat(fold: Fold, a: string, b: string)
    ensures FoldAll(fold, a + b) == FoldAll(fold, a) + FoldAll(fold, b)
    decreases |a|
  {
    if a == [] {
      assert a + b == b;
    } else {
      assert (a + b)[1..] == a[1..] + b;
      FoldAllConcat(fold, a[1..], b);
    }
  }

  /** A word whose first letter folds to `c` and whose rest is already folded. */
  lemma FoldCapitalized(fold: Fold, w: string, c: char)
    requires FoldIsStable(fold) && w != [] && fold(w[0]) == [c]
    requires AllAllowed(w[1..]) && NoDecomposable(w[1..])
    ensures FoldAll(fold, w) == [c] + w[1..]
  {
    FoldAllFixes(fold, w[1..]);
  }

  /** Two non-blank inputs that fold to the same text normalise to the same text. */
  lemma NormalizeAfterFold(fold: Fold, s: string, t: string)
    requires !IsBlank(s) && !IsBlank(t) && FoldAll(fold, s) == FoldAll(fold, t)
    ensures Normalize(fold, s) == Normalize(fold, t)
  {
  }

  /** A plain text is not blank. */
  lemma PlainNameNotBlank(t: string)
    requires IsPlainName(t)
    ensures !IsBlank(t)
  {
    if IsWhitespace(t[0]) {
      AllowedWhitespaceIsSpace(t[0]);
    }
  }

  /** An input that folds to a plain text normalises to that text, and so parses as it does. */
  lemma NormalizeToFolded(fold: Fold, command: string, t: string)
    requires FoldIsStable(fold) && !IsBlank(command) && IsPlainName(t) && FoldAll(fold, command) == t
    ensures Normalize(fold, command) == t
    ensures Parse(fold, command) == Parse(fold, t)
  {
    PlainNameNotBlank(t);
    FoldAllFixes(fold, t);
    NormalizeAfterFold(fold, command, t);
    NormalizeFixes(fold, t);
  }

  lemma PlainOn()
    ensures IsPlainName("на")
  {
  }

  /** Any input that folds to the apply phrase for two plain names parses to applying the first
      to the second. */
  lemma FoldedApplyParses(fold: Fold, command: string, p: string, d: string)
    requires FoldIsStable(fold) && !IsBlank(command)
    requires IsPlainName(p) && IsPlainName(d) && EndsAfterSeparator(d)
    requires FoldAll(fold, command) == ApplyPrefix + p + Separator + d
    ensures Parse(fold, command) == Some(AssistantIntent.ApplyToDevice(p, d))
  {
    var t := ApplyPrefix + p + Separator + d;
    CommandWordsArePlain();
    PlainOn();
    JoinPlainNames(ApplyWords, p);
    JoinPlainNames(ApplyWords + " " + p, "на");
    JoinPlainNames(ApplyWords + " " + p + " " + "на", d);
    assert t == ApplyWords + " " + p + " " + "на" + " " + d;
    NormalizeToFolded(fold, command, t);
    ParseApplyRoundTrip(fold, p, d);
  }

  // ---------------------------------------------------------------------------------------
  // The test's words

  lemma PlainLaptop()
    ensures IsPlainName("ноутбук")
  {
  }

  lemma PlainWireguard()
    ensures IsPlainName("wireguard")
  {
  }

  lemma PlainUnknown()
    ensures IsPlainName("unknown")
  {
  }

  lemma PlainOffice()
    ensures IsPlainName("office")
  {
  }

  /** Lower-case words and word tails that a stable fold leaves alone. */
  predicate Folded(w: string) {
    AllAllowed(w) && NoDecomposable(w)
  }

  lemma FoldedTails()
    ensures Folded("оутбук") && Folded("ire") && Folded("uard")
    ensures Folded("ffice") && Folded("nknown")
  {
  }

  /** The device name of both commands holds no separator of its own. */
  lemma LaptopEndsAfterSeparator()
    ensures EndsAfterSeparator("ноутбук")
  {
    var t := Separator + "ноутбук";
    forall j | 0 <= j < |t| ensures !SplitsAt(t, j) {
      if 1 <= j && j + |Separator| <= |t| {
        assert t[j + 3] != ' ';
      }
    }
  }

  lemma FoldLaptopName(fold: Fold)
    requires FoldIsStable(fold) && LowersTestCapitals(fold)
    ensures FoldAll(fold, "Ноутбук") == "ноутбук"
  {
    FoldedTails();
    FoldCapitalized(fold, "Ноутбук", 'н');
  }

  /** A text in two parts folds to the two folded parts. */
  lemma FoldTwo(fold: Fold, x: string, y: string, fx: string, fy: string)
    requires FoldAll(fold, x) == fx && FoldAll(fold, y) == fy
    ensures FoldAll(fold, x + y) == fx + fy
  {
    FoldAllConcat(fold, x, y);
  }

  lemma SplitWireGuard()
    ensures "WireGuard" == "Wire" + "Guard" && "wireguard" == "wire" + "guard"
    ensures "Wire"[0] == 'W' && "Wire"[1..] == "ire" && "Guard"[0] == 'G' && "Guard"[1..] == "uard"
  {
  }

  lemma FoldWireGuardName(fold: Fold)
    requires FoldIsStable(fold) && LowersTestCapitals(fold)
    ensures FoldAll(fold, "WireGuard") == "wireguard"
  {
    FoldedTails();
    SplitWireGuard();
    FoldCapitalized(fold, "Wire", 'w');
    FoldCapitalized(fold, "Guard", 'g');
    FoldTwo(fold, "Wire", "Guard", "wire", "guard");
  }

  lemma FoldOfficeName(fold: Fold)
    requires FoldIsStable(fold) && LowersTestCapitals(fold)
    ensures FoldAll(fold, "Office") == "office"
  {
    FoldedTails();
    FoldCapitalized(fold, "Office", 'o');
  }

  lemma FoldUnknownName(fold: Fold)
    requires FoldIsStable(fold) && LowersTestCapitals(fold)
    ensures FoldAll(fold, "Unknown") == "unknown"
  {
    FoldedTails();
    FoldCapitalized(fold, "Unknown", 'u');
  }

  /** A text in three parts folds to the three folded parts. */
  lemma FoldThree(fold: Fold, x: string, y: string, z: string, fx: string, fy: string, fz: string)
    requires FoldAll(fold, x) == fx && FoldAll(fold, y) == fy && FoldAll(fold, z) == fz
    ensures FoldAll(fold, x + y + z) == fx + fy + fz
  {
    FoldAllConcat(fold, x + y, z);
    FoldAllConcat(fold, x, y);
  }

  lemma FoldedCommandParts()
    ensures Folded("ключи политику ") && Folded(" на ноутбук")
  {
  }

  lemma CommandHead()
    ensures "Включи политику "[0] == 'В' && "Включи политику "[1..] == "ключи политику "
    ensures ApplyPrefix == ['в'] + "ключи политику "
  {
  }

  lemma CommandTail()
    ensures " на ноутбук" == Separator + "ноутбук"
  {
  }

  /** The words before the policy name fold to the apply prefix. */
  lemma FoldCommandHead(fold: Fold)
    requires FoldIsStable(fold) && LowersTestCapitals(fold)
    ensures FoldAll(fold, "Включи политику ") == ApplyPrefix
  {
    FoldedCommandParts();
    CommandHead();
    FoldCapitalized(fold, "Включи политику ", 'в');
  }

  /** The words after the policy name are already folded. */
  lemma FoldCommandTail(fold: Fold)
    requires FoldIsStable(fold)
    ensures FoldAll(fold, " на ноутбук") == Separator + "ноутбук"
  {
    FoldedCommandParts();
    CommandTail();
    FoldAllFixes(fold, " на ноутбук");
  }

  // ---------------------------------------------------------------------------------------
  // The two tests

  /** A command that folds to the apply phrase for `p` and `d`, against a snapshot whose first
      client's name normalises to `d` and whose first policy's name normalises to `p`, applies
      that policy to that client. */
  lemma FoldedApplyExecutes(fold: Fold, state: UiState, command: string, p: string, d: string)
    requires FoldIsStable(fold) && !IsBlank(command)
    requires IsPlainName(p) && IsPlainName(d) && EndsAfterSeparator(d)
    requires FoldAll(fold, command) == ApplyPrefix + p + Separator + d
    requires |state.clients| > 0 && Normalize(fold, state.clients[0].name) == d
    requires |state.policies| > 0 && Normalize(fold, state.policies[0].name) == p
    ensures Parse(fold, command) == Some(AssistantIntent.ApplyToDevice(p, d))
    ensures Execute(fold, AssistantIntent.ApplyToDevice(p, d), state) ==
      Command(AssistantActionType.ApplyToDevice, Some(state.clients[0]), Some(state.policies[0]))
  {
    FoldedApplyParses(fold, command, p, d);
    ApplyCommandReachesNamedClient(fold, state, p, d, 0, 0);
    NormalizeFixes(fold, d);
    NormalizeFixes(fold, p);
    assert DeviceMatches(fold, state.clients[0], d);
    assert PolicyMatches(fold, state.policies[0], p);
  }

  lemma NamesNotBlank()
    ensures !IsBlank("Ноутбук") && !IsBlank("WireGuard") && !IsBlank("Office")
  {
    assert !IsWhitespace("Ноутбук"[0]) && !IsWhitespace("WireGuard"[0]) && !IsWhitespace("Office"[0]);
  }

  lemma LaptopNormalizes(fold: Fold)
    requires FoldIsStable(fold) && LowersTestCapitals(fold)
    ensures Normalize(fold, TestState.clients[0].name) == "ноутбук"
  {
    PlainLaptop();
    FoldLaptopName(fold);
    NamesNotBlank();
    NormalizeToFolded(fold, "Ноутбук", "ноутбук");
  }

  lemma WireGuardNormalizes(fold: Fold)
    requires FoldIsStable(fold) && LowersTestCapitals(fold)
    ensures Normalize(fold, TestState.policies[0].name) == "wireguard"
  {
    PlainWireguard();
    FoldWireGuardName(fold);
    NamesNotBlank();
    NormalizeToFolded(fold, "WireGuard", "wireguard");
  }

  lemma OfficeNormalizes(fold: Fold)
    requires FoldIsStable(fold) && LowersTestCapitals(fold)
    ensures Normalize(fold, TestState.policies[1].name) == "office"
  {
    PlainOffice();
    FoldOfficeName(fold);
    NamesNotBlank();
    NormalizeToFolded(fold, "Office", "office");
  }

  /** The snapshot's policy ids differ from "unknown" in length, so not even ignoring case
      are they equal. */
  lemma IdsAreNotUnknown()
    ensures !EqualsIgnoreCase("vpn", "unknown") && !EqualsIgnoreCase("office", "unknown")
  {
    assert |Upper("vpn")| != |Upper("unknown")| && |Upper("office")| != |Upper("unknown")|;
  }

  /** Both test commands, around their policy name, fold to the apply phrase. */
  lemma FoldTestCommand(fold: Fold, policy: string, p: string)
    requires FoldIsStable(fold) && LowersTestCapitals(fold) && FoldAll(fold, policy) == p
    ensures FoldAll(fold, "Включи политику " + policy + " на ноутбук") == ApplyPrefix + p + Separator + "ноутбук"
  {
    FoldCommandHead(fold);
    FoldCommandTail(fold);
    FoldThree(fold, "Включи политику ", policy, " на ноутбук", ApplyPrefix, p, Separator + "ноутбук");
    RegroupFour(ApplyPrefix, p, Separator, "ноутбук");
  }

  lemma RegroupFour(a: string, b: string, c: string, d: string)
    ensures a + b + (c + d) == a + b + c + d
  {
  }

  lemma TestCommandNotBlank(policy: string)
    ensures !IsBlank("Включи политику " + policy + " на ноутбук")
  {
    assert ("Включи политику " + policy + " на ноутбук")[0] == 'В';
  }

  /** The first test: "Включи политику WireGuard на ноутбук" applies policy `vpn` to client
      `c1`. */
  lemma ApplyScenario(fold: Fold)
    requires FoldIsStable(fold) && LowersTestCapitals(fold)
    ensures Parse(fold, "Включи политику " + "WireGuard" + " на ноутбук") ==
      Some(AssistantIntent.ApplyToDevice("wireguard", "ноутбук"))
    ensures var e := Execute(fold, AssistantIntent.ApplyToDevice("wireguard", "ноутбук"), TestState);
      e.Command? && e.actionType == AssistantActionType.ApplyToDevice &&
      e.client.Some? && e.client.value.id == "c1" && e.policy.Some? && e.policy.value.id == "vpn"
  {
    PlainLaptop();
    PlainWireguard();
    LaptopEndsAfterSeparator();
    FoldWireGuardName(fold);
    FoldTestCommand(fold, "WireGuard", "wireguard");
    TestCommandNotBlank("WireGuard");
    LaptopNormalizes(fold);
    WireGuardNormalizes(fold);
    FoldedApplyExecutes(fold, TestState, "Включи политику " + "WireGuard" + " на ноутбук", "wireguard", "ноутбук");
  }

  /** "unknown" is its own normal form and its own trimmed form. */
  lemma UnknownIsPlain(fold: Fold)
    requires FoldIsStable(fold)
    ensures Normalize(fold, "unknown") == "unknown" && Trim("unknown") == "unknown"
  {
    PlainUnknown();
    NormalizeFixes(fold, "unknown");
    PlainNameTrimmed("unknown");
  }

  lemma WireGuardIsNotUnknown(fold: Fold)
    requires FoldIsStable(fold) && LowersTestCapitals(fold)
    ensures !PolicyMatches(fold, TestState.policies[0], "unknown")
  {
    UnknownIsPlain(fold);
    WireGuardNormalizes(fold);
    IdsAreNotUnknown();
  }

  lemma OfficeIsNotUnknown(fold: Fold)
    requires FoldIsStable(fold) && LowersTestCapitals(fold)
    ensures !PolicyMatches(fold, TestState.policies[1], "unknown")
  {
    UnknownIsPlain(fold);
    OfficeNormalizes(fold);
    IdsAreNotUnknown();
  }

  /** Neither policy of the snapshot answers to "unknown": the names normalise to other words
      and the ids differ in length. */
  lemma UnknownMatchesNoPolicy(fold: Fold)
    requires FoldIsStable(fold) && LowersTestCapitals(fold)
    ensures !HasPolicy(fold, TestState, "unknown")
  {
    WireGuardIsNotUnknown(fold);
    OfficeIsNotUnknown(fold);
    forall i | 0 <= i < |TestState.policies| ensures !PolicyMatches(fold, TestState.policies[i], "unknown") {
      assert i == 0 || i == 1;
    }
  }

  /** The laptop, the snapshot's first client, answers to "ноутбук". */
  lemma LaptopIsFound(fold: Fold)
    requires FoldIsStable(fold) && LowersTestCapitals(fold)
    ensures HasDevice(fold, TestState, "ноутбук")
  {
    PlainLaptop();
    LaptopNormalizes(fold);
    NormalizeFixes(fold, "ноутбук");
    assert DeviceMatches(fold, TestState.clients[0], "ноутбук");
  }

  /** The second test: "Включи политику Unknown на ноутбук" finds the device but reports the
      policy as not found. */
  lemma UnknownPolicyScenario(fold: Fold)
    requires FoldIsStable(fold) && LowersTestCapitals(fold)
    ensures Parse(fold, "Включи политику " + "Unknown" + " на ноутбук") ==
      Some(AssistantIntent.ApplyToDevice("unknown", "ноутбук"))
    ensures Execute(fold, AssistantIntent.ApplyToDevice("unknown", "ноутбук"), TestState) ==
      AssistantExecution.Error(PolicyNotFound("unknown"))
  {
    PlainLaptop();
    PlainUnknown();
    LaptopEndsAfterSeparator();
    FoldUnknownName(fold);
    FoldTestCommand(fold, "Unknown", "unknown");
    TestCommandNotBlank("Unknown");
    FoldedApplyParses(fold, "Включи политику " + "Unknown" + " на ноутбук", "unknown", "ноутбук");
    LaptopIsFound(fold);
    UnknownMatchesNoPolicy(fold);
  }

  /** The standard fold lower-cases the test's capitals. */
  lemma StandardFoldLowersTestCapitals()
    ensures FoldIsStable(StandardFold) && LowersTestCapitals(StandardFold)
  {
    StandardFoldIsStable();
  }

  /** Both tests, with the standard fold. */
  lemma StandardFoldScenarios()
    ensures Parse(StandardFold, "Включи политику " + "WireGuard" + " на ноутбук") ==
      Some(AssistantIntent.ApplyToDevice("wireguard", "ноутбук"))
    ensures var e := Execute(StandardFold, AssistantIntent.ApplyToDevice("wireguard", "ноутбук"), TestState);
      e.Command? && e.client.Some? && e.client.value.id == "c1" && e.policy.Some? && e.policy.value.id == "vpn"
    ensures Parse(StandardFold, "Включи политику " + "Unknown" + " на ноутбук") ==
      Some(AssistantIntent.ApplyToDevice("unknown", "ноутбук"))
    ensures Execute(StandardFold, AssistantIntent.ApplyToDevice("unknown", "ноутбук"), TestState) ==
      AssistantExecution.Error(PolicyNotFound("unknown"))
  {
    StandardFoldLowersTestCapitals();
    ApplyScenario(StandardFold);
    UnknownPolicyScenario(StandardFold);
  }
}
