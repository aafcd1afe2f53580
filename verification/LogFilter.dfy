/**
The log category filter: a wildcard matcher, and a rule list in which the last matching rule wins.
A C string is modelled as the characters before its terminator.
*/
module LogFilter {

  // ----- Wildcards -----

  predicate PartMatches(p: char, part: string) {
    if p == '*' then true else if p == '?' then |part| == 1 else part == [p]
  }

  function Joined(parts: seq<string>): string {
    if parts == [] then "" else parts[0] + Joined(parts[1..])
  }

  /** parts cuts s into one piece per pattern character. */
  ghost predicate Splits(s: string, pattern: string, parts: seq<string>) {
    && |parts| == |pattern|
    && Joined(parts) == s
    && forall i :: 0 <= i < |parts| ==> PartMatches(pattern[i], parts[i])
  }

  predicate Match(s: string, pattern: string)
    decreases |s| + |pattern|
  {
    if pattern == "" then s == ""
    else if pattern[0] == '?' then s != "" && Match(s[1..], pattern[1..])
    else if pattern[0] == '*' then Match(s, pattern[1..]) || (s != "" && Match(s[1..], pattern))
    else s != "" && s[0] == pattern[0] && Match(s[1..], pattern[1..])
  }

  lemma {:induction false} JoinedCons(part: string, rest: seq<string>)
    ensures Joined([part] + rest) == part + Joined(rest)
  {
    assert ([part] + rest)[1..] == rest;
  }

  lemma {:induction false} MatchHasSplit(s: string, pattern: string) returns (parts: seq<string>)
    requires Match(s, pattern)
    ensures Splits(s, pattern, parts)
    decreases |s| + |pattern|
  {
    if pattern == "" {
      parts := [];
    } else if pattern[0] == '*' {
      if Match(s, pattern[1..]) {
        var rest := MatchHasSplit(s, pattern[1..]);
        parts := [""] + rest;
        JoinedCons("", rest);
      } else {
        var longer := MatchHasSplit(s[1..], pattern);
        parts := [[s[0]] + longer[0]] + longer[1..];
        JoinedCons([s[0]] + longer[0], longer[1..]);
        assert s == [s[0]] + s[1..];
      }
    } else {
      var rest := MatchHasSplit(s[1..], pattern[1..]);
      parts := [[s[0]]] + rest;
      JoinedCons([s[0]], rest);
    }
  }

  lemma {:induction false} SplitMatches(s: string, pattern: string, parts: seq<string>)
    requires Splits(s, pattern, parts)
    ensures Match(s, pattern)
    decreases |s| + |pattern|
  {
    if pattern != "" {
      var first, rest := parts[0], parts[1..];
      assert s == first + Joined(rest);
      assert s[|first|..] == Joined(rest);
      if pattern[0] == '*' && first != "" {
        var shorter := [first[1..]] + rest;
        JoinedCons(first[1..], rest);
        assert s[1..] == first[1..] + Joined(rest);
        SplitMatches(s[1..], pattern, shorter);
      } else {
        SplitMatches(s[|first|..], pattern[1..], rest);
        assert first == "" ==> s[|first|..] == s;
      }
    }
  }

  /** The matcher answers yes exactly when the string can be cut to fit the pattern. */
  lemma {:induction false} MatchIsSplitting(s: string, pattern: string)
    ensures Match(s, pattern) <==> exists parts :: Splits(s, pattern, parts)
  {
    if Match(s, pattern) {
      var parts := MatchHasSplit(s, pattern);
    }
    if exists parts :: Splits(s, pattern, parts) {
      var parts :| Splits(s, pattern, parts);
      SplitMatches(s, pattern, parts);
    }
  }

  /** Walks pattern and string together; a star tries the empty piece first, then one character more. */
  method WildCardMatch(str: string, pattern: string) returns (matched: bool)
    ensures matched <==> exists parts :: Splits(str, pattern, parts)
    ensures matched == Match(str, pattern)
    decreases |str| + |pattern|
  {
    MatchIsSplitting(str, pattern);
    var i, j := 0, 0;
    while j < |pattern|
      invariant 0 <= i <= |str| && 0 <= j <= |pattern|
      invariant Match(str, pattern) == Match(str[i..], pattern[j..])
    {
      if pattern[j] == '?' {
        if i == |str| { return false; }
        i, j := i + 1, j + 1;
      } else if pattern[j] == '*' {
        matched := WildCardMatch(str[i..], pattern[j + 1..]);
        if matched { return true; }
        if i < |str| {
          matched := WildCardMatch(str[i + 1..], pattern[j..]);
          if matched { return true; }
        }
        return false;
      } else {
        if i == |str| || str[i] != pattern[j] { return false; }
        i, j := i + 1, j + 1;
      }
    }
    matched := i == |str|;
  }

  // ----- Levels -----

  datatype Level = Global | Trace | Debug | Fatal | Error | Warning | Verbose | Info | Unknown

  /** Fatal is the most severe, 0. */
  function Priority(level: Level): nat {
    match level
    case Fatal => 0
    case Error => 1
    case Warning => 2
    case Info => 3
    case Debug => 4
    case Verbose => 5
    case Trace => 6
    case _ => 7
  }

  function LevelName(level: Level): string {
    match level
    case Global => "GLOBAL"
    case Debug => "DEBUG"
    case Info => "INFO"
    case Warning => "WARNING"
    case Error => "ERROR"
    case Fatal => "FATAL"
    case Verbose => "VERBOSE"
    case Trace => "TRACE"
    case Unknown => "UNKNOWN"
  }

  function LowerName(level: Level): string {
    match level
    case Global => "global"
    case Debug => "debug"
    case Info => "info"
    case Warning => "warning"
    case Error => "error"
    case Fatal => "fatal"
    case Verbose => "verbose"
    case Trace => "trace"
    case Unknown => "unknown"
  }

  predicate StartsWith(s: string, i: nat, name: string)
    requires i <= |s|
  {
    i + |name| <= |s| && forall k :: 0 <= k < |name| ==> s[i + k] == name[k]
  }

  predicate NamesLevel(s: string, i: nat, level: Level)
    requires i <= |s|
  {
    StartsWith(s, i, LevelName(level)) || StartsWith(s, i, LowerName(level))
  }

  /** The level whose name, in all upper or all lower case, stands at position i. */
  function LevelAt(s: string, i: nat): (level: Level)
    requires i <= |s|
    ensures level != Unknown ==> i + |LevelName(level)| <= |s|
  {
    if NamesLevel(s, i, Global) then Global
    else if NamesLevel(s, i, Debug) then Debug
    else if NamesLevel(s, i, Info) then Info
    else if NamesLevel(s, i, Warning) then Warning
    else if NamesLevel(s, i, Error) then Error
    else if NamesLevel(s, i, Fatal) then Fatal
    else if NamesLevel(s, i, Verbose) then Verbose
    else if NamesLevel(s, i, Trace) then Trace
    else Unknown
  }

  // ----- Rules and decisions -----

  datatype Rule = Rule(pattern: string, level: Level)

  /** The priority granted by the last rule that matches, or -1. */
  function Granted(rules: seq<Rule>, category: string): int {
    if rules == [] then -1
    else if Match(category, rules[|rules| - 1].pattern) then Priority(rules[|rules| - 1].level)
    else Granted(rules[..|rules| - 1], category)
  }

  lemma {:induction false} LastMatchWins(rules: seq<Rule>, category: string)
    ensures (Granted(rules, category) == -1 && forall i :: 0 <= i < |rules| ==> !Match(category, rules[i].pattern))
            || exists i :: 0 <= i < |rules| && Match(category, rules[i].pattern)
                           && (forall j :: i < j < |rules| ==> !Match(category, rules[j].pattern))
                           && Granted(rules, category) == Priority(rules[i].level)
  {
    if rules != [] {
      var n := |rules| - 1;
      var front := rules[..n];
      LastMatchWins(front, category);
      assert forall i :: 0 <= i < n ==> front[i] == rules[i];
      if !Match(category, rules[n].pattern) && Granted(front, category) != -1 {
        var i :| 0 <= i < |front| && Match(category, front[i].pattern)
                 && (forall j :: i < j < |front| ==> !Match(category, front[j].pattern))
                 && Granted(front, category) == Priority(front[i].level);
        assert Match(category, rules[i].pattern);
        assert forall j :: i < j < |rules| ==> !Match(category, rules[j].pattern);
      }
    }
  }

  predicate Decision(rules: seq<Rule>, level: Level, category: string) {
    Priority(level) <= Granted(rules, category)
  }

  // ----- Severity -----

  /** From the most severe level to the least; the two levels that are not listed come after all of these. */
  const SEVERITY := [Fatal, Error, Warning, Info, Debug, Verbose, Trace]

  predicate IsUnlisted(level: Level) {
    level == Global || level == Unknown
  }

  /** A rule of level j lets through exactly the levels that are at least as severe. */
  lemma {:induction false} SeverityOrder(pattern: string, category: string, i: nat, j: nat, rest: Level)
    requires Match(category, pattern) && i < 7 && j < 7 && IsUnlisted(rest)
    ensures Decision([Rule(pattern, SEVERITY[j])], SEVERITY[i], category) <==> i <= j
    ensures !Decision([Rule(pattern, SEVERITY[j])], rest, category)
    ensures forall level :: Decision([Rule(pattern, rest)], level, category)
  {
    assert forall level :: Granted([Rule(pattern, level)], category) == Priority(level);
  }

  /** Rule k is the last one that matches. */
  ghost predicate LastMatch(rules: seq<Rule>, category: string, k: nat) {
    && k < |rules| && (exists parts :: Splits(category, rules[k].pattern, parts))
    && forall l :: k < l < |rules| ==> !exists parts :: Splits(category, rules[l].pattern, parts)
  }

  lemma {:induction false} GrantedByLast(rules: seq<Rule>, category: string, k: nat)
    requires LastMatch(rules, category, k)
    ensures Granted(rules, category) == Priority(rules[k].level)
  {
    LastMatchWins(rules, category);
    forall l | 0 <= l < |rules|
      ensures Match(category, rules[l].pattern) <==> exists parts :: Splits(category, rules[l].pattern, parts)
    {
      MatchIsSplitting(category, rules[l].pattern);
    }
    hide Match, Splits, Granted, Priority;
  }

  lemma {:induction false} LastMatchExists(rules: seq<Rule>, category: string) returns (k: nat)
    requires Granted(rules, category) != -1
    ensures LastMatch(rules, category, k)
  {
    LastMatchWins(rules, category);
    forall l | 0 <= l < |rules|
      ensures Match(category, rules[l].pattern) <==> exists parts :: Splits(category, rules[l].pattern, parts)
    {
      MatchIsSplitting(category, rules[l].pattern);
    }
    hide Match, Splits, Granted, Priority;
    k :| 0 <= k < |rules| && Match(category, rules[k].pattern)
         && (forall j :: k < j < |rules| ==> !Match(category, rules[j].pattern))
         && Granted(rules, category) == Priority(rules[k].level);
  }

  /** The rule lets the level at position i through: its own is not more severe. */
  predicate LetsThrough(rule: Rule, i: nat)
    requires i < 7
  {
    IsUnlisted(rule.level) || rule.level in SEVERITY[i..]
  }

  ghost predicate GrantedBy(rules: seq<Rule>, category: string, i: nat, k: nat)
    requires i < 7
  {
    LastMatch(rules, category, k) && LetsThrough(rules[k], i)
  }

  /** A message is allowed exactly when the last rule that matches names a level at most as severe as its own. */
  lemma {:induction false} AllowedIff(rules: seq<Rule>, category: string, i: nat)
    requires i < 7
    ensures Decision(rules, SEVERITY[i], category) <==> exists k: nat :: GrantedBy(rules, category, i, k)
  {
    hide Splits, LetsThrough, Granted, Priority;
    if Decision(rules, SEVERITY[i], category) {
      var k := LastMatchExists(rules, category);
      GrantedByLast(rules, category, k);
      SeverityPosition(rules[k], i);
      assert GrantedBy(rules, category, i, k);
    }
    if exists k: nat :: GrantedBy(rules, category, i, k) {
      var k: nat :| GrantedBy(rules, category, i, k);
      GrantedByLast(rules, category, k);
      SeverityPosition(rules[k], i);
    }
  }

  lemma {:induction false} SeverityPosition(rule: Rule, i: nat)
    requires i < 7
    ensures Priority(SEVERITY[i]) <= Priority(rule.level) <==> LetsThrough(rule, i)
  {
    var level := rule.level;
    if !IsUnlisted(level) {
      assert SEVERITY[Priority(level)] == level;
      if Priority(SEVERITY[i]) <= Priority(level) {
        assert SEVERITY[i..][Priority(level) - i] == level;
      }
    }
  }

  /** What is allowed at one level is allowed at every level at least as severe. */
  lemma {:induction false} SevereIsAllowed(rules: seq<Rule>, i: nat, j: nat, category: string)
    requires i <= j < 7 && Decision(rules, SEVERITY[j], category)
    ensures Decision(rules, SEVERITY[i], category)
  {
    AllowedIff(rules, category, i);
    AllowedIff(rules, category, j);
    hide Decision, Splits;
    var k: nat :| GrantedBy(rules, category, j, k);
    assert LetsThrough(rules[k], i);
    assert GrantedBy(rules, category, i, k);
  }

  /** How the levels are spelled, and that the lower-case names are the same words. */
  lemma {:induction false} Spellings(level: Level, k: nat)
    requires k < |LevelName(level)|
    ensures [LevelName(Fatal), LevelName(Error), LevelName(Warning), LevelName(Info), LevelName(Debug),
             LevelName(Verbose), LevelName(Trace), LevelName(Global)]
            == ["FATAL", "ERROR", "WARNING", "INFO", "DEBUG", "VERBOSE", "TRACE", "GLOBAL"]
    ensures |LowerName(level)| == |LevelName(level)| && LowerName(level)[k] == LevelName(level)[k] + 32 as char
  {}
}
