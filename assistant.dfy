/** The assistant command interpreter (assistant/AssistantCommandHandler.kt): a text normaliser,
    four whole-string patterns that turn a Russian command into an intent, and a resolver that
    looks the named device and policy up in a UI snapshot. */
module Assistant {
  import opened Prelude
  import opened Text
  import opened Models

  // ---------------------------------------------------------------------------------------
  // Intents and results

  /** What a command asks for, with the names still unresolved. */
  datatype AssistantIntent =
    | ApplyToDevice(policyName: string, deviceName: string)
    | RemoveFromDevice(maybePolicyName: Option<string>, deviceName: string)
    | ApplyToAll(policyName: string)
    | RemoveFromAll(policyName: string)

  /** A command resolved against the state, or the reason it could not be. */
  datatype AssistantExecution =
    | Command(actionType: AssistantActionType, client: Option<Client>, policy: Option<Policy>)
    | Error(reason: string)

  // ---------------------------------------------------------------------------------------
  // Normalisation

  /** The locale's lower-casing followed by canonical decomposition (NFD), character by
      character; a character may decompose into several. */
  type Fold = char -> seq<char>

  function FoldAll(fold: Fold, s: string): string
    decreases |s|
  {
    if s == [] then [] else fold(s[0]) + FoldAll(fold, s[1..])
  }

  /** The characters `[a-z0-9а-яё ]` keeps. */
  predicate IsAllowed(c: char) {
    ('a' <= c <= 'z') || ('0' <= c <= '9') || ('а' <= c <= 'я') || c == 'ё' || c == ' '
  }

  /** Every character outside `[a-z0-9а-яё ]` becomes a space. */
  function ReplaceDisallowed(s: string): (r: string)
    ensures |r| == |s|
    ensures forall i :: 0 <= i < |s| ==> r[i] == (if IsAllowed(s[i]) then s[i] else ' ')
    decreases |s|
  {
    if s == [] then [] else [if IsAllowed(s[0]) then s[0] else ' '] + ReplaceDisallowed(s[1..])
  }

  predicate NoDoubleSpace(s: string) {
    forall i :: 0 <= i < |s| - 1 ==> !(s[i] == ' ' && s[i + 1] == ' ')
  }

  /** The characters that are not spaces, in order: the words of `s` run together. */
  function NonSpaces(s: string): string
    decreases |s|
  {
    if s == [] then [] else (if s[0] == ' ' then [] else [s[0]]) + NonSpaces(s[1..])
  }

  lemma {:induction false} NonSpacesConcat(a: string, b: string)
    ensures NonSpaces(a + b) == NonSpaces(a) + NonSpaces(b)
    decreases |a|
  {
    if a == [] {
      assert a + b == b;
    } else {
      assert (a + b)[1..] == a[1..] + b;
      NonSpacesConcat(a[1..], b);
    }
  }

  lemma {:induction false} NonSpacesOfSpaces(s: string)
    requires forall i :: 0 <= i < |s| ==> s[i] == ' '
    ensures NonSpaces(s) == []
    decreases |s|
  {
    if s != [] {
      NonSpacesOfSpaces(s[1..]);
    }
  }

  predicate AllAllowed(s: string) {
    forall i :: 0 <= i < |s| ==> IsAllowed(s[i])
  }

  /** The two letters of `[а-яё]` that canonical decomposition splits into a base letter and a
      combining mark: `ё` (U+0451) and `й` (U+0439). */
  predicate IsDecomposable(c: char) {
    c == 'ё' || c == 'й'
  }

  predicate NoDecomposable(s: string) {
    forall i :: 0 <= i < |s| ==> !IsDecomposable(s[i])
  }

  /** Where the spaces of `s` are, relative to its other characters: element 0 says whether
      `s` starts with a space, element `k + 1` whether the `k`-th non-space character is
      immediately followed by a space. */
  function SpaceFlags(s: string): (r: seq<bool>)
    ensures |r| == |NonSpaces(s)| + 1
    ensures r[0] <==> s != [] && s[0] == ' '
    decreases |s|
  {
    if s == [] then [false]
    else if s[0] == ' ' then [true] + SpaceFlags(s[1..])[1..]
    else [false] + SpaceFlags(s[1..])
  }

  /** Each run of spaces becomes a single space; nothing else changes: the same non-space
      characters, with a space in exactly the places where `s` has at least one. */
  function CollapseSpaces(s: string): (r: string)
    ensures NoDoubleSpace(r)
    ensures AllAllowed(s) ==> AllAllowed(r)
    ensures NoDecomposable(s) ==> NoDecomposable(r)
    ensures s != [] ==> r != [] && r[0] == s[0]
    ensures NonSpaces(r) == NonSpaces(s)
    ensures SpaceFlags(r) == SpaceFlags(s)
    decreases |s|
  {
    if |s| <= 1 then s
    else if s[0] == ' ' && s[1] == ' ' then
      CollapseSpaces(s[1..])
    else
      var r := [s[0]] + CollapseSpaces(s[1..]);
      assert r[1..] == CollapseSpaces(s[1..]);
      r
  }

  /** A string without double spaces is determined by its non-space characters and the places
      of its spaces: `CollapseSpaces` has exactly one possible result. */
  lemma {:induction false} SpaceLayoutDetermines(a: string, b: string)
    requires NoDoubleSpace(a) && NoDoubleSpace(b)
    requires NonSpaces(a) == NonSpaces(b) && SpaceFlags(a) == SpaceFlags(b)
    ensures a == b
    decreases |a| + |b|
  {
    if a == [] {
      EmptySpaceLayout(b);
    } else if a[0] == ' ' {
      assert b[0] == ' ';
      assert SpaceFlags(a[1..]) == [false] + SpaceFlags(a)[1..] by {
        assert a[1..] != [] ==> a[1..][0] == a[1] && a[1] != ' ';
        assert SpaceFlags(a)[1..] == SpaceFlags(a[1..])[1..];
      }
      assert SpaceFlags(b[1..]) == [false] + SpaceFlags(b)[1..] by {
        assert b[1..] != [] ==> b[1..][0] == b[1] && b[1] != ' ';
        assert SpaceFlags(b)[1..] == SpaceFlags(b[1..])[1..];
      }
      assert NonSpaces(a) == NonSpaces(a[1..]) && NonSpaces(b) == NonSpaces(b[1..]);
      SpaceLayoutDetermines(a[1..], b[1..]);
      assert a == [a[0]] + a[1..] && b == [b[0]] + b[1..];
    } else {
      assert NonSpaces(a) == [a[0]] + NonSpaces(a[1..]);
      assert b != [] && b[0] != ' ';
      assert NonSpaces(b) == [b[0]] + NonSpaces(b[1..]);
      assert NonSpaces(a)[0] == a[0] && NonSpaces(b)[0] == b[0];
      assert NonSpaces(a[1..]) == NonSpaces(a)[1..] && NonSpaces(b[1..]) == NonSpaces(b)[1..];
      assert SpaceFlags(a[1..]) == SpaceFlags(a)[1..] && SpaceFlags(b[1..]) == SpaceFlags(b)[1..];
      SpaceLayoutDetermines(a[1..], b[1..]);
      assert a == [a[0]] + a[1..] && b == [b[0]] + b[1..];
    }
  }

  /** A string with no non-space character that does not start with a space is empty. */
  lemma EmptySpaceLayout(b: string)
    requires NonSpaces(b) == [] && !SpaceFlags(b)[0]
    ensures b == []
  {
  }

  /** Output of `normalize` on a non-blank input: only `[a-z0-9а-яё ]`, no space at either end,
      no two spaces in a row. */
  predicate IsNormalized(r: string) {
    AllAllowed(r) && (r != [] ==> r[0] != ' ' && r[|r| - 1] != ' ') && NoDoubleSpace(r)
  }

  /** The only whitespace character among `[a-z0-9а-яё ]` is the space. */
  lemma AllowedWhitespaceIsSpace(c: char)
    requires IsAllowed(c) && IsWhitespace(c)
    ensures c == ' '
  {
  }

  /** Trimming a string of allowed characters with no double space leaves a normalised string. */
  lemma TrimNormalizes(s: string)
    requires AllAllowed(s) && NoDoubleSpace(s)
    ensures IsNormalized(Trim(s))
  {
    var k := LeadingWhitespace(s);
    var r := Trim(s);
    forall i | 0 <= i < |r| ensures r[i] == s[k + i] && IsAllowed(r[i]) {
    }
    forall i | 0 <= i < |r| - 1 ensures !(r[i] == ' ' && r[i + 1] == ' ') {
      assert r[i] == s[k + i] && r[i + 1] == s[k + i + 1];
    }
    assert IsWhitespace(' ');
  }

  /** Trimming a string of allowed characters removes spaces only. */
  lemma TrimKeepsNonSpaces(s: string)
    requires AllAllowed(s)
    ensures NonSpaces(Trim(s)) == NonSpaces(s)
  {
    var k := LeadingWhitespace(s);
    var r := Trim(s);
    forall i | 0 <= i < k ensures s[i] == ' ' {
      AllowedWhitespaceIsSpace(s[i]);
    }
    forall i | k + |r| <= i < |s| ensures s[i] == ' ' {
      AllowedWhitespaceIsSpace(s[i]);
    }
    NonSpacesOfPadded(s, k, k + |r|);
  }

  /** Spaces before position `k` and from position `m` on do not change the non-space
      characters of `s`. */
  lemma NonSpacesOfPadded(s: string, k: nat, m: nat)
    requires k <= m <= |s|
    requires forall i :: 0 <= i < k ==> s[i] == ' '
    requires forall i :: m <= i < |s| ==> s[i] == ' '
    ensures NonSpaces(s) == NonSpaces(s[k..m])
  {
    SliceInThree(s, k, m);
    SpacesSlice(s, 0, k);
    SpacesSlice(s, m, |s|);
    NonSpacesBetweenSpaces(s[0..k], s[k..m], s[m..|s|]);
  }

  lemma SliceInThree(s: string, k: nat, m: nat)
    requires k <= m <= |s|
    ensures s == s[0..k] + s[k..m] + s[m..|s|]
  {
  }

  lemma SpacesSlice(s: string, a: nat, b: nat)
    requires a <= b <= |s| && forall i :: a <= i < b ==> s[i] == ' '
    ensures forall i :: 0 <= i < b - a ==> s[a..b][i] == ' '
  {
  }

  lemma NonSpacesBetweenSpaces(head: string, middle: string, tail: string)
    requires forall i :: 0 <= i < |head| ==> head[i] == ' '
    requires forall i :: 0 <= i < |tail| ==> tail[i] == ' '
    ensures NonSpaces(head + middle + tail) == NonSpaces(middle)
  {
    NonSpacesOfSpaces(head);
    NonSpacesOfSpaces(tail);
    NonSpacesConcat(head + middle, tail);
    NonSpacesConcat(head, middle);
  }

  /** A piece of a string without `ё` or `й` has none either. */
  lemma SliceNoDecomposable(s: string, k: nat, m: nat)
    requires NoDecomposable(s) && k <= m <= |s|
    ensures NoDecomposable(s[k..m])
  {
    forall i | 0 <= i < m - k ensures !IsDecomposable(s[k..m][i]) {
      assert s[k..m][i] == s[k + i];
    }
  }

  /** `normalize`: a blank input comes back unchanged; otherwise the result is normalised and
      holds the same words as the folded input with disallowed characters blanked out. */
  function Normalize(fold: Fold, s: string): (r: string)
    ensures IsBlank(s) ==> r == s
    ensures !IsBlank(s) ==> IsNormalized(r)
    ensures !IsBlank(s) ==> NonSpaces(r) == NonSpaces(ReplaceDisallowed(FoldAll(fold, s)))
  {
    if IsBlank(s) then s
    else
      var replaced := ReplaceDisallowed(FoldAll(fold, s));
      var collapsed := CollapseSpaces(replaced);
      TrimNormalizes(collapsed);
      TrimKeepsNonSpaces(collapsed);
      Trim(collapsed)
  }

  /** What lower-casing followed by NFD does to the characters `normalize` keeps: every allowed
      character other than `ё` and `й` is its own fold, and no fold ever yields `ё` or `й`. */
  ghost predicate FoldIsStable(fold: Fold) {
    (forall c :: IsAllowed(c) && !IsDecomposable(c) ==> fold(c) == [c]) &&
    (forall c, i :: 0 <= i < |fold(c)| ==> !IsDecomposable(fold(c)[i]))
  }

  lemma {:induction false} FoldAllNoDecomposable(fold: Fold, s: string)
    requires FoldIsStable(fold)
    ensures NoDecomposable(FoldAll(fold, s))
    decreases |s|
  {
    if s != [] {
      FoldAllNoDecomposable(fold, s[1..]);
      var head, tail := fold(s[0]), FoldAll(fold, s[1..]);
      assert forall i :: 0 <= i < |head| ==> (head + tail)[i] == head[i];
      assert forall i :: 0 <= i < |tail| ==> (head + tail)[|head| + i] == tail[i];
    }
  }

  lemma {:induction false} FoldAllFixes(fold: Fold, t: string)
    requires FoldIsStable(fold) && AllAllowed(t) && NoDecomposable(t)
    ensures FoldAll(fold, t) == t
    decreases |t|
  {
    if t != [] {
      FoldAllFixes(fold, t[1..]);
      assert t == [t[0]] + t[1..];
    }
  }

  lemma {:induction false} CollapseSpacesFixes(t: string)
    requires NoDoubleSpace(t)
    ensures CollapseSpaces(t) == t
    decreases |t|
  {
    if |t| > 1 {
      CollapseSpacesFixes(t[1..]);
      assert t == [t[0]] + t[1..];
    }
  }

  /** Under a stable fold, `normalize` leaves a normalised string without `ё` or `й` as it is. */
  lemma NormalizeFixes(fold: Fold, t: string)
    requires FoldIsStable(fold) && IsNormalized(t) && NoDecomposable(t)
    ensures Normalize(fold, t) == t
  {
    if !IsBlank(t) {
      FoldAllFixes(fold, t);
      assert ReplaceDisallowed(t) == t;
      CollapseSpacesFixes(t);
      if t != [] {
        assert t[0] != ' ' && t[|t| - 1] != ' ';
        if IsWhitespace(t[0]) {
          AllowedWhitespaceIsSpace(t[0]);
        }
        if IsWhitespace(t[|t| - 1]) {
          AllowedWhitespaceIsSpace(t[|t| - 1]);
        }
      }
      TrimOfTrimmed(t);
    }
  }

  /** Under a stable fold, what `normalize` returns never holds `ё` or `й`. */
  lemma NormalizeNoDecomposable(fold: Fold, s: string)
    requires FoldIsStable(fold) && !IsBlank(s)
    ensures NoDecomposable(Normalize(fold, s))
  {
    var replaced := ReplaceDisallowed(FoldAll(fold, s));
    FoldAllNoDecomposable(fold, s);
    assert NoDecomposable(replaced);
    var collapsed := CollapseSpaces(replaced);
    var k := LeadingWhitespace(collapsed);
    var r := Trim(collapsed);
    SliceNoDecomposable(collapsed, k, k + |r|);
    assert r == Normalize(fold, s);
  }

  /** `normalize` is idempotent under a stable fold. */
  lemma NormalizeIdempotent(fold: Fold, s: string)
    requires FoldIsStable(fold)
    ensures Normalize(fold, Normalize(fold, s)) == Normalize(fold, s)
  {
    if !IsBlank(s) {
      NormalizeNoDecomposable(fold, s);
      NormalizeFixes(fold, Normalize(fold, s));
    }
  }

  // ---------------------------------------------------------------------------------------
  // The four patterns

  const Separator := " на "
  const ApplyPrefix := "включи политику "
  const DisablePrefix := "отключи политику "
  const EnableAllPrefix := "включи всем политику "
  const DisableAllPrefix := "отключи всем политику "
  const TurnOffAllPrefix := "выключи всем политику "

  /** The characters a `.` in a java.util.regex pattern does not match. */
  predicate IsLineTerminator(c: char) {
    c == '\n' || c == '\r' || c as int == 0x85 || c as int == 0x2028 || c as int == 0x2029
  }

  /** `s` is matched by a run of `.`. */
  predicate DotsMatch(s: string) {
    forall i :: 0 <= i < |s| ==> !IsLineTerminator(s[i])
  }

  /** The whole of `s` matches `<prefix>(.+) на (.+)` with groups `p` and `d`. */
  predicate TwoGroupMatch(s: string, prefix: string, p: string, d: string) {
    s == prefix + p + Separator + d && |p| >= 1 && |d| >= 1 && DotsMatch(p) && DotsMatch(d)
  }

  /** The whole of `s` matches `<prefix>(.+)` with group `g`. */
  predicate OneGroupMatch(s: string, prefix: string, g: string) {
    s == prefix + g && |g| >= 1 && DotsMatch(g)
  }

  /** A separator starts at `i` with at least one character on each side of it. */
  predicate SplitsAt(rest: string, i: int) {
    1 <= i && i + |Separator| < |rest| && rest[i..i + |Separator|] == Separator
  }

  /** The last separator position below `bound`. */
  function LastSplit(rest: string, bound: nat): (r: Option<nat>)
    ensures r.Some? ==> r.value < bound && SplitsAt(rest, r.value)
    ensures r.Some? ==> forall j :: r.value < j < bound ==> !SplitsAt(rest, j)
    ensures r.None? ==> forall j :: 0 <= j < bound ==> !SplitsAt(rest, j)
  {
    if bound == 0 then None
    else if SplitsAt(rest, bound - 1) then Some(bound - 1)
    else LastSplit(rest, bound - 1)
  }

  lemma DotsMatchParts(s: string, a: string, b: string)
    requires s == a + b
    ensures DotsMatch(s) <==> DotsMatch(a) && DotsMatch(b)
  {
    assert forall i :: 0 <= i < |a| ==> s[i] == a[i];
    assert forall i :: 0 <= i < |b| ==> s[|a| + i] == b[i];
  }

  /** java.util.regex `matches` of `<prefix>(.+) на (.+)`: the whole string must match, and the
      greedy first group makes the split fall at the LAST separator that leaves a non-empty
      second group. */
  function MatchTwoGroups(prefix: string, s: string): (r: Option<(string, string)>)
    ensures r.Some? ==> TwoGroupMatch(s, prefix, r.value.0, r.value.1)
    ensures r.Some? ==> forall p, d :: TwoGroupMatch(s, prefix, p, d) ==> |p| <= |r.value.0|
    ensures r.None? ==> forall p, d :: !TwoGroupMatch(s, prefix, p, d)
  {
    if !StartsWith(s, prefix) then None
    else
      var rest := s[|prefix|..];
      assert s == prefix + rest;
      if !DotsMatch(rest) then
        NoMatchWithoutDots(s, prefix, rest);
        None
      else
        var split := LastSplit(rest, |rest|);
        MatchesSplit(s, prefix, rest);
        match split
        case None => None
        case Some(i) =>
          var p := rest[..i];
          var d := rest[i + |Separator|..];
          SplitMatches(s, prefix, rest, i);
          Some((p, d))
  }

  /** What follows a common prefix is equal. */
  lemma AfterPrefix(prefix: string, a: string, b: string)
    requires prefix + a == prefix + b
    ensures a == b
  {
    assert a == (prefix + a)[|prefix|..];
    assert b == (prefix + b)[|prefix|..];
  }

  /** A line terminator after the prefix rules out every match. */
  lemma NoMatchWithoutDots(s: string, prefix: string, rest: string)
    requires s == prefix + rest && !DotsMatch(rest)
    ensures forall p, d :: !TwoGroupMatch(s, prefix, p, d)
  {
    forall p, d ensures !TwoGroupMatch(s, prefix, p, d) {
      if s == prefix + p + Separator + d {
        AfterPrefix(prefix, rest, p + Separator + d);
        DotsMatchParts(rest, p + Separator, d);
        DotsMatchParts(p + Separator, p, Separator);
      }
    }
  }

  /** Every match puts a separator right after its first group. */
  lemma MatchesSplit(s: string, prefix: string, rest: string)
    requires s == prefix + rest
    ensures forall p, d :: TwoGroupMatch(s, prefix, p, d) ==> SplitsAt(rest, |p|)
  {
    forall p, d | TwoGroupMatch(s, prefix, p, d) ensures SplitsAt(rest, |p|) {
      AfterPrefix(prefix, rest, p + Separator + d);
      assert rest[|p|..|p| + |Separator|] == Separator;
    }
  }

  /** Splitting a line-terminator-free remainder at a separator gives a match. */
  lemma SplitMatches(s: string, prefix: string, rest: string, i: nat)
    requires s == prefix + rest && DotsMatch(rest) && SplitsAt(rest, i)
    ensures TwoGroupMatch(s, prefix, rest[..i], rest[i + |Separator|..])
  {
    var p := rest[..i];
    var d := rest[i + |Separator|..];
    assert rest == p + Separator + d;
    DotsMatchParts(rest, p + Separator, d);
    DotsMatchParts(p + Separator, p, Separator);
  }

  /** java.util.regex `matches` of `<prefix>(.+)`. */
  function MatchOneGroup(prefix: string, s: string): (r: Option<string>)
    ensures r.Some? ==> OneGroupMatch(s, prefix, r.value)
    ensures r.None? ==> forall g :: !OneGroupMatch(s, prefix, g)
  {
    if StartsWith(s, prefix) && |s| > |prefix| && DotsMatch(s[|prefix|..]) then
      assert s == prefix + s[|prefix|..];
      Some(s[|prefix|..])
    else
      forall g ensures !OneGroupMatch(s, prefix, g) {
        if s == prefix + g {
          assert s[|prefix|..] == g;
        }
      }
      None
  }

  /** Two prefixes that differ inside both cannot both start the same string. */
  lemma DistinctPrefixes(s: string, a: string, b: string, k: nat)
    requires k < |a| && k < |b| && a[k] != b[k]
    ensures !(StartsWith(s, a) && StartsWith(s, b))
  {
    if StartsWith(s, a) {
      assert s[k] == a[k];
    }
  }

  predicate ApplyMatches(n: string) { MatchTwoGroups(ApplyPrefix, n).Some? }
  predicate DisableMatches(n: string) { MatchTwoGroups(DisablePrefix, n).Some? }
  predicate EnableAllMatches(n: string) { MatchOneGroup(EnableAllPrefix, n).Some? }
  predicate DisableAllMatches(n: string) {
    MatchOneGroup(DisableAllPrefix, n).Some? || MatchOneGroup(TurnOffAllPrefix, n).Some?
  }

  /** No string matches two of the four patterns, so the order in which `parse` tries them never
      decides anything. */
  lemma PatternsAreExclusive(n: string)
    ensures ApplyMatches(n) ==> !DisableMatches(n) && !EnableAllMatches(n) && !DisableAllMatches(n)
    ensures DisableMatches(n) ==> !EnableAllMatches(n) && !DisableAllMatches(n)
    ensures EnableAllMatches(n) ==> !DisableAllMatches(n)
  {
    DistinctPrefixes(n, ApplyPrefix, DisablePrefix, 0);
    DistinctPrefixes(n, ApplyPrefix, EnableAllPrefix, 7);
    DistinctPrefixes(n, ApplyPrefix, DisableAllPrefix, 0);
    DistinctPrefixes(n, ApplyPrefix, TurnOffAllPrefix, 1);
    DistinctPrefixes(n, DisablePrefix, EnableAllPrefix, 0);
    DistinctPrefixes(n, DisablePrefix, DisableAllPrefix, 8);
    DistinctPrefixes(n, DisablePrefix, TurnOffAllPrefix, 0);
    DistinctPrefixes(n, EnableAllPrefix, DisableAllPrefix, 0);
    DistinctPrefixes(n, EnableAllPrefix, TurnOffAllPrefix, 1);
  }

  /** `parse` applied to an already normalised command. The patterns are tried in order (apply,
      disable, enable-all, disable-all); since at most one of them matches, the intent's kind is
      exactly the pattern that matches; no match gives no intent. Groups are trimmed, and a
      disable-on-device intent always names its policy. */
  function ParseNormalized(n: string): (r: Option<AssistantIntent>)
    ensures r.None? <==> !ApplyMatches(n) && !DisableMatches(n) && !EnableAllMatches(n) && !DisableAllMatches(n)
    ensures (r.Some? && r.value.ApplyToDevice?) <==> ApplyMatches(n)
    ensures (r.Some? && r.value.RemoveFromDevice?) <==> DisableMatches(n)
    ensures (r.Some? && r.value.ApplyToAll?) <==> EnableAllMatches(n)
    ensures (r.Some? && r.value.RemoveFromAll?) <==> DisableAllMatches(n)
    ensures r.Some? && r.value.ApplyToDevice? ==>
      var g := MatchTwoGroups(ApplyPrefix, n).value;
      r.value.policyName == Trim(g.0) && r.value.deviceName == Trim(g.1)
    ensures r.Some? && r.value.RemoveFromDevice? ==>
      var g := MatchTwoGroups(DisablePrefix, n).value;
      r.value.maybePolicyName == Some(Trim(g.0)) && r.value.deviceName == Trim(g.1)
    ensures r.Some? && r.value.ApplyToAll? ==>
      r.value.policyName == Trim(MatchOneGroup(EnableAllPrefix, n).value)
    ensures r.Some? && r.value.RemoveFromAll? ==>
      (MatchOneGroup(DisableAllPrefix, n).Some? &&
       r.value.policyName == Trim(MatchOneGroup(DisableAllPrefix, n).value)) ||
      (MatchOneGroup(TurnOffAllPrefix, n).Some? &&
       r.value.policyName == Trim(MatchOneGroup(TurnOffAllPrefix, n).value))
  {
    PatternsAreExclusive(n);
    match MatchTwoGroups(ApplyPrefix, n)
    case Some(g) => Some(AssistantIntent.ApplyToDevice(Trim(g.0), Trim(g.1)))
    case None =>
      match MatchTwoGroups(DisablePrefix, n)
      case Some(g) => Some(AssistantIntent.RemoveFromDevice(Some(Trim(g.0)), Trim(g.1)))
      case None =>
        match MatchOneGroup(EnableAllPrefix, n)
        case Some(g) => Some(AssistantIntent.ApplyToAll(Trim(g)))
        case None =>
          match MatchOneGroup(DisableAllPrefix, n)
          case Some(g) => Some(AssistantIntent.RemoveFromAll(Trim(g)))
          case None =>
            match MatchOneGroup(TurnOffAllPrefix, n)
            case Some(g) => Some(AssistantIntent.RemoveFromAll(Trim(g)))
            case None => None
  }

  /** `parse`: normalise, then match. */
  function Parse(fold: Fold, command: string): Option<AssistantIntent> {
    ParseNormalized(Normalize(fold, command))
  }

  // ---------------------------------------------------------------------------------------
  // Round trips: a command written in one of the four shapes parses back to its names

  /** A non-empty normalised name without `ё` or `й`: `normalize` and `trim` leave it alone. */
  predicate IsPlainName(t: string) {
    t != [] && IsNormalized(t) && NoDecomposable(t)
  }

  lemma JoinPlainNames(a: string, b: string)
    requires IsPlainName(a) && IsPlainName(b)
    ensures IsPlainName(a + " " + b)
  {
    var j := a + " " + b;
    forall i | 0 <= i < |j| ensures IsAllowed(j[i]) && !IsDecomposable(j[i]) {
      if i < |a| {
        assert j[i] == a[i];
      } else if |a| < i {
        assert j[i] == b[i - |a| - 1];
      }
    }
    forall i | 0 <= i < |j| - 1 ensures !(j[i] == ' ' && j[i + 1] == ' ') {
      if i + 1 < |a| {
        assert j[i] == a[i] && j[i + 1] == a[i + 1];
      } else if i + 1 == |a| {
        assert j[i] == a[|a| - 1];
      } else if i == |a| {
        assert j[i + 1] == b[0];
      } else {
        assert j[i] == b[i - |a| - 1] && j[i + 1] == b[i - |a|];
      }
    }
    assert j[|j| - 1] == b[|b| - 1];
  }

  lemma PlainNameTrimmed(t: string)
    requires IsPlainName(t)
    ensures Trim(t) == t && DotsMatch(t)
  {
    if IsWhitespace(t[0]) {
      AllowedWhitespaceIsSpace(t[0]);
    }
    if IsWhitespace(t[|t| - 1]) {
      AllowedWhitespaceIsSpace(t[|t| - 1]);
    }
    TrimOfTrimmed(t);
  }

  /** No separator begins inside ` на <d>` after its first character: the device name holds no
      ` на ` of its own, so the greedy first group ends where the policy name does. */
  predicate EndsAfterSeparator(d: string) {
    forall j :: 0 <= j < |Separator + d| ==> !SplitsAt(Separator + d, j)
  }

  lemma ShiftSplit(p: string, d: string, i: int)
    requires SplitsAt(p + Separator + d, i) && i > |p|
    ensures SplitsAt(Separator + d, i - |p|)
  {
    var rest := p + Separator + d;
    assert rest[|p|..] == Separator + d;
    assert rest[i..i + |Separator|] == (Separator + d)[i - |p|..i - |p| + |Separator|];
  }

  lemma MatchTwoGroupsOfJoin(prefix: string, p: string, d: string)
    requires |p| >= 1 && |d| >= 1 && DotsMatch(p) && DotsMatch(d) && EndsAfterSeparator(d)
    ensures MatchTwoGroups(prefix, prefix + p + Separator + d) == Some((p, d))
  {
    var s := prefix + p + Separator + d;
    assert TwoGroupMatch(s, prefix, p, d);
    var r := MatchTwoGroups(prefix, s);
    var p', d' := r.value.0, r.value.1;
    var rest := p + Separator + d;
    assert rest == p' + Separator + d';
    if |p'| > |p| {
      assert rest[|p'|..|p'| + |Separator|] == Separator;
      ShiftSplit(p, d, |p'|);
    }
    assert p' == rest[..|p|] == p;
  }

  /** The words of the command prefixes, without their trailing space. */
  const ApplyWords := "включи политику"
  const DisableWords := "отключи политику"
  const EnableAllWords := "включи всем политику"
  const DisableAllWords := "отключи всем политику"
  const TurnOffAllWords := "выключи всем политику"

  lemma PlainVerbs()
    ensures IsPlainName("включи") && IsPlainName("отключи")
  {
  }

  lemma PlainOtherVerb()
    ensures IsPlainName("выключи")
  {
  }

  lemma PlainCommandWords()
    ensures IsPlainName("всем") && IsPlainName("политику")
  {
  }

  lemma JoinThreePlainNames(a: string, b: string, c: string)
    requires IsPlainName(a) && IsPlainName(b) && IsPlainName(c)
    ensures IsPlainName(a + " " + b + " " + c)
  {
    JoinPlainNames(a, b);
    JoinPlainNames(a + " " + b, c);
  }

  lemma SplitDeviceCommandWords()
    ensures ApplyWords == "включи" + " " + "политику"
    ensures DisableWords == "отключи" + " " + "политику"
  {
  }

  lemma SplitEnableAllWords()
    ensures EnableAllWords == "включи" + " " + "всем" + " " + "политику"
  {
  }

  lemma SplitDisableAllWords()
    ensures DisableAllWords == "отключи" + " " + "всем" + " " + "политику"
    ensures TurnOffAllWords == "выключи" + " " + "всем" + " " + "политику"
  {
  }

  lemma CommandPrefixesEndInSpace()
    ensures ApplyPrefix == ApplyWords + " " && DisablePrefix == DisableWords + " "
    ensures EnableAllPrefix == EnableAllWords + " " && DisableAllPrefix == DisableAllWords + " "
    ensures TurnOffAllPrefix == TurnOffAllWords + " "
  {
  }

  /** The words of every prefix are plain, and each prefix is its words and a space. */
  lemma CommandWordsArePlain()
    ensures IsPlainName(ApplyWords) && IsPlainName(DisableWords) && IsPlainName(EnableAllWords)
    ensures IsPlainName(DisableAllWords) && IsPlainName(TurnOffAllWords)
    ensures ApplyPrefix == ApplyWords + " " && DisablePrefix == DisableWords + " "
    ensures EnableAllPrefix == EnableAllWords + " " && DisableAllPrefix == DisableAllWords + " "
    ensures TurnOffAllPrefix == TurnOffAllWords + " "
  {
    PlainVerbs();
    PlainOtherVerb();
    PlainCommandWords();
    SplitDeviceCommandWords();
    SplitEnableAllWords();
    SplitDisableAllWords();
    CommandPrefixesEndInSpace();
    JoinPlainNames("включи", "политику");
    JoinPlainNames("отключи", "политику");
    JoinThreePlainNames("включи", "всем", "политику");
    JoinThreePlainNames("отключи", "всем", "политику");
    JoinThreePlainNames("выключи", "всем", "политику");
  }

  lemma TwoGroupCommandParses(fold: Fold, words: string, p: string, d: string)
    requires FoldIsStable(fold) && IsPlainName(words) && IsPlainName(p) && IsPlainName(d)
    requires EndsAfterSeparator(d)
    ensures Normalize(fold, words + " " + p + Separator + d) == words + " " + p + Separator + d
    ensures MatchTwoGroups(words + " ", words + " " + p + Separator + d) == Some((p, d))
    ensures Trim(p) == p && Trim(d) == d
  {
    JoinPlainNames(words, p);
    JoinPlainNames(words + " " + p, "на");
    JoinPlainNames(words + " " + p + " " + "на", d);
    assert words + " " + p + Separator + d == words + " " + p + " " + "на" + " " + d;
    NormalizeFixes(fold, words + " " + p + Separator + d);
    PlainNameTrimmed(p);
    PlainNameTrimmed(d);
    assert words + " " + p + Separator + d == (words + " ") + p + Separator + d;
    MatchTwoGroupsOfJoin(words + " ", p, d);
  }

  lemma OneGroupCommandParses(fold: Fold, words: string, g: string)
    requires FoldIsStable(fold) && IsPlainName(words) && IsPlainName(g)
    ensures Normalize(fold, words + " " + g) == words + " " + g
    ensures MatchOneGroup(words + " ", words + " " + g) == Some(g)
    ensures Trim(g) == g
  {
    JoinPlainNames(words, g);
    NormalizeFixes(fold, words + " " + g);
    PlainNameTrimmed(g);
    assert OneGroupMatch(words + " " + g, words + " ", g);
  }

  /** "включи политику <p> на <d>" parses to applying `p` to `d`. */
  lemma ParseApplyRoundTrip(fold: Fold, p: string, d: string)
    requires FoldIsStable(fold) && IsPlainName(p) && IsPlainName(d) && EndsAfterSeparator(d)
    ensures Parse(fold, ApplyPrefix + p + Separator + d) == Some(AssistantIntent.ApplyToDevice(p, d))
  {
    CommandWordsArePlain();
    TwoGroupCommandParses(fold, ApplyWords, p, d);
  }

  /** "отключи политику <p> на <d>" parses to removing `p` from `d`. */
  lemma ParseDisableRoundTrip(fold: Fold, p: string, d: string)
    requires FoldIsStable(fold) && IsPlainName(p) && IsPlainName(d) && EndsAfterSeparator(d)
    ensures Parse(fold, DisablePrefix + p + Separator + d) == Some(AssistantIntent.RemoveFromDevice(Some(p), d))
  {
    CommandWordsArePlain();
    TwoGroupCommandParses(fold, DisableWords, p, d);
  }

  /** "включи всем политику <p>" parses to applying `p` to every client. */
  lemma ParseEnableAllRoundTrip(fold: Fold, p: string)
    requires FoldIsStable(fold) && IsPlainName(p)
    ensures Parse(fold, EnableAllPrefix + p) == Some(AssistantIntent.ApplyToAll(p))
  {
    CommandWordsArePlain();
    OneGroupCommandParses(fold, EnableAllWords, p);
  }

  /** A normalised command that matches the first disable-all wording, or only the second,
      parses to removing the trimmed group from every client. */
  lemma NormalizedRemoveAllParses(n: string, g: string)
    requires MatchOneGroup(DisableAllPrefix, n) == Some(g) ||
      (MatchOneGroup(DisableAllPrefix, n).None? && MatchOneGroup(TurnOffAllPrefix, n) == Some(g))
    requires Trim(g) == g
    ensures ParseNormalized(n) == Some(AssistantIntent.RemoveFromAll(g))
  {
  }

  /** A command in the second disable-all wording does not match the first. */
  lemma TurnOffIsNotDisableAll(p: string)
    ensures MatchOneGroup(DisableAllPrefix, TurnOffAllPrefix + p).None?
  {
    StartsWithAppend(TurnOffAllPrefix, p, TurnOffAllPrefix);
    DistinctPrefixes(TurnOffAllPrefix + p, DisableAllPrefix, TurnOffAllPrefix, 0);
  }

  /** "отключи всем политику <p>" parses to removing `p` from every client. */
  lemma ParseDisableAllRoundTrip(fold: Fold, p: string)
    requires FoldIsStable(fold) && IsPlainName(p)
    ensures Parse(fold, DisableAllPrefix + p) == Some(AssistantIntent.RemoveFromAll(p))
  {
    CommandWordsArePlain();
    OneGroupCommandParses(fold, DisableAllWords, p);
    NormalizedRemoveAllParses(DisableAllPrefix + p, p);
  }

  /** "выключи всем политику <p>", the other wording, parses the same way. */
  lemma ParseTurnOffAllRoundTrip(fold: Fold, p: string)
    requires FoldIsStable(fold) && IsPlainName(p)
    ensures Parse(fold, TurnOffAllPrefix + p) == Some(AssistantIntent.RemoveFromAll(p))
  {
    CommandWordsArePlain();
    OneGroupCommandParses(fold, TurnOffAllWords, p);
    TurnOffIsNotDisableAll(p);
    NormalizedRemoveAllParses(TurnOffAllPrefix + p, p);
  }

  // ---------------------------------------------------------------------------------------
  // Resolution and execution

  /** A client answers to `rawName` by normalised name, normalised alias (a missing alias counts
      as the empty string), or MAC equal ignoring case to the trimmed raw text. */
  predicate DeviceMatches(fold: Fold, c: Client, rawName: string) {
    var n := Normalize(fold, rawName);
    Normalize(fold, c.name) == n || Normalize(fold, c.alias.GetOr("")) == n ||
    EqualsIgnoreCase(c.mac, Trim(rawName))
  }

  /** A policy answers to `rawName` by normalised name or by id equal ignoring case to the
      trimmed raw text. */
  predicate PolicyMatches(fold: Fold, p: Policy, rawName: string) {
    Normalize(fold, p.name) == Normalize(fold, rawName) || EqualsIgnoreCase(p.id, Trim(rawName))
  }

  /** `resolveDevice`: the first client, in list order, that answers to the name. */
  function ResolveDevice(fold: Fold, state: UiState, rawName: string): (r: Option<Client>)
    ensures r.None? <==> forall i :: 0 <= i < |state.clients| ==> !DeviceMatches(fold, state.clients[i], rawName)
    ensures r.Some? ==> exists i :: (0 <= i < |state.clients| && state.clients[i] == r.value &&
      DeviceMatches(fold, r.value, rawName) &&
      forall j :: 0 <= j < i ==> !DeviceMatches(fold, state.clients[j], rawName))
  {
    match FirstIndex(state.clients, (c: Client) => DeviceMatches(fold, c, rawName))
    case None => None
    case Some(i) => Some(state.clients[i])
  }

  /** `resolvePolicy`: the first policy, in list order, that answers to the name. */
  function ResolvePolicy(fold: Fold, state: UiState, rawName: string): (r: Option<Policy>)
    ensures r.None? <==> forall i :: 0 <= i < |state.policies| ==> !PolicyMatches(fold, state.policies[i], rawName)
    ensures r.Some? ==> exists i :: (0 <= i < |state.policies| && state.policies[i] == r.value &&
      PolicyMatches(fold, r.value, rawName) &&
      forall j :: 0 <= j < i ==> !PolicyMatches(fold, state.policies[j], rawName))
  {
    match FirstIndex(state.policies, (p: Policy) => PolicyMatches(fold, p, rawName))
    case None => None
    case Some(i) => Some(state.policies[i])
  }

  function DeviceNotFound(name: string): string {
    "Устройство \"" + name + "\" не найдено"
  }

  function PolicyNotFound(name: string): string {
    "Политика \"" + name + "\" не найдена"
  }

  predicate HasDevice(fold: Fold, state: UiState, rawName: string) {
    exists i :: 0 <= i < |state.clients| && DeviceMatches(fold, state.clients[i], rawName)
  }

  predicate HasPolicy(fold: Fold, state: UiState, rawName: string) {
    exists i :: 0 <= i < |state.policies| && PolicyMatches(fold, state.policies[i], rawName)
  }

  /** `execute`. Apply-to-device looks the device up first: an unknown device is reported
      whatever the policy, a known device with an unknown policy reports the policy. Remove-from-
      device fails only for an unknown device; an unresolved policy name is dropped. The two
      bulk intents fail exactly when the policy is unknown and never carry a client. */
  function Execute(fold: Fold, intent: AssistantIntent, state: UiState): (r: AssistantExecution)
    ensures r.Command? && r.client.Some? ==> r.client.value in state.clients
    ensures r.Command? && r.policy.Some? ==> r.policy.value in state.policies
    ensures r.Command? && r.actionType != AssistantActionType.RemoveFromDevice ==> r.policy.Some?
    ensures r.Command? && r.actionType in {AssistantActionType.ApplyToDevice, AssistantActionType.RemoveFromDevice} ==>
      r.client.Some?
    ensures intent.ApplyToDevice? ==>
      (!HasDevice(fold, state, intent.deviceName) ==> r == AssistantExecution.Error(DeviceNotFound(intent.deviceName))) &&
      (HasDevice(fold, state, intent.deviceName) && !HasPolicy(fold, state, intent.policyName) ==>
        r == AssistantExecution.Error(PolicyNotFound(intent.policyName))) &&
      (HasDevice(fold, state, intent.deviceName) && HasPolicy(fold, state, intent.policyName) ==>
        r == Command(AssistantActionType.ApplyToDevice,
                     ResolveDevice(fold, state, intent.deviceName),
                     ResolvePolicy(fold, state, intent.policyName)))
    ensures intent.RemoveFromDevice? ==>
      (!HasDevice(fold, state, intent.deviceName) ==> r == AssistantExecution.Error(DeviceNotFound(intent.deviceName))) &&
      (HasDevice(fold, state, intent.deviceName) ==>
        r.Command? && r.actionType == AssistantActionType.RemoveFromDevice &&
        r.client == ResolveDevice(fold, state, intent.deviceName) &&
        r.policy == (if intent.maybePolicyName.None? then None
                     else ResolvePolicy(fold, state, intent.maybePolicyName.value)))
    ensures intent.ApplyToAll? || intent.RemoveFromAll? ==>
      (r.Error? <==> !HasPolicy(fold, state, intent.policyName)) &&
      (r.Error? ==> r.reason == PolicyNotFound(intent.policyName)) &&
      (r.Command? ==>
        (r.client.None? && r.policy == ResolvePolicy(fold, state, intent.policyName) &&
         r.actionType == (if intent.ApplyToAll? then AssistantActionType.ApplyToAll
                          else AssistantActionType.RemoveFromAll)))
  {
    match intent
    case ApplyToDevice(policyName, deviceName) =>
      (match ResolveDevice(fold, state, deviceName)
       case None => AssistantExecution.Error(DeviceNotFound(deviceName))
       case Some(client) =>
         match ResolvePolicy(fold, state, policyName)
         case None => AssistantExecution.Error(PolicyNotFound(policyName))
         case Some(policy) => Command(AssistantActionType.ApplyToDevice, Some(client), Some(policy)))
    case RemoveFromDevice(maybePolicyName, deviceName) =>
      (match ResolveDevice(fold, state, deviceName)
       case None => AssistantExecution.Error(DeviceNotFound(deviceName))
       case Some(client) =>
         var policy := if maybePolicyName.None? then None
                       else ResolvePolicy(fold, state, maybePolicyName.value);
         Command(AssistantActionType.RemoveFromDevice, Some(client), policy))
    case ApplyToAll(policyName) =>
      (match ResolvePolicy(fold, state, policyName)
       case None => AssistantExecution.Error(PolicyNotFound(policyName))
       case Some(policy) => Command(AssistantActionType.ApplyToAll, None, Some(policy)))
    case RemoveFromAll(policyName) =>
      (match ResolvePolicy(fold, state, policyName)
       case None => AssistantExecution.Error(PolicyNotFound(policyName))
       case Some(policy) => Command(AssistantActionType.RemoveFromAll, None, Some(policy)))
  }

  /** `bannerForResult`: the banner is an error exactly when the outcome is not a success. */
  function BannerForResult(success: bool, message: string): (b: AssistantBanner)
    ensures b.message == message && b.isError == !success
  {
    AssistantBanner(message, !success)
  }

  /** A command written in the apply shape reaches its device and its policy: whenever some
      client's name normalises to `d` and some policy's name normalises to `p`, executing the
      parsed command applies the first policy answering to `p` to the first client answering
      to `d`. */
  lemma ApplyCommandReachesNamedClient(fold: Fold, state: UiState, p: string, d: string, i: nat, k: nat)
    requires FoldIsStable(fold) && IsPlainName(p) && IsPlainName(d) && EndsAfterSeparator(d)
    requires i < |state.clients| && Normalize(fold, state.clients[i].name) == d
    requires k < |state.policies| && Normalize(fold, state.policies[k].name) == p
    ensures Parse(fold, ApplyPrefix + p + Separator + d).Some?
    ensures Execute(fold, Parse(fold, ApplyPrefix + p + Separator + d).value, state) ==
      Command(AssistantActionType.ApplyToDevice, ResolveDevice(fold, state, d), ResolvePolicy(fold, state, p))
    ensures ResolveDevice(fold, state, d).Some? && ResolvePolicy(fold, state, p).Some?
  {
    ParseApplyRoundTrip(fold, p, d);
    NamedClientIsFound(fold, state, d, i);
    NamedPolicyIsFound(fold, state, p, k);
  }

  /** A client whose name normalises to a plain name answers to that name. */
  lemma NamedClientIsFound(fold: Fold, state: UiState, d: string, i: nat)
    requires FoldIsStable(fold) && IsPlainName(d)
    requires i < |state.clients| && Normalize(fold, state.clients[i].name) == d
    ensures HasDevice(fold, state, d) && ResolveDevice(fold, state, d).Some?
  {
    NormalizeFixes(fold, d);
    assert DeviceMatches(fold, state.clients[i], d);
  }

  /** A policy whose name normalises to a plain name answers to that name. */
  lemma NamedPolicyIsFound(fold: Fold, state: UiState, p: string, k: nat)
    requires FoldIsStable(fold) && IsPlainName(p)
    requires k < |state.policies| && Normalize(fold, state.policies[k].name) == p
    ensures HasPolicy(fold, state, p) && ResolvePolicy(fold, state, p).Some?
  {
    NormalizeFixes(fold, p);
    assert PolicyMatches(fold, state.policies[k], p);
  }

  /** The character fold used for the worked examples: Latin and Cyrillic lower-casing, with
      `ё` and `й` decomposed into their base letter and combining mark as NFD does. */
  function StandardFold(c: char): (r: seq<char>)
    ensures 1 <= |r| <= 2
  {
    var l := ToLowerChar(c);
    if l == 'ё' then ['е', 0x308 as char]
    else if l == 'й' then ['и', 0x306 as char]
    else [l]
  }

  lemma StandardFoldIsStable()
    ensures FoldIsStable(StandardFold)
  {
  }
}
