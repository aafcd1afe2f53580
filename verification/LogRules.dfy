/** The parser of the rule string, and when strings may be joined by a comma. */
module LogRules {
  import opened LogFilter

  /** What the parser carries along: whether it reads a name, the name so far, the last level, the rules found. */
  datatype Scan = Scan(inName: bool, name: string, level: Level, rules: seq<Rule>)

  const START := Scan(true, "", Unknown, [])

  /** A name and a level wait to become a rule. */
  predicate Pending(st: Scan) {
    st.name != "" && st.level != Unknown
  }

  function Flush(st: Scan): seq<Rule> {
    if Pending(st) then st.rules + [Rule(st.name, st.level)] else st.rules
  }

  /** A comma ends an entry; an entry that is not complete stays behind. */
  function Comma(st: Scan): Scan {
    if Pending(st) then Scan(true, "", Unknown, Flush(st)) else st.(inName := true)
  }

  /** How many characters the step at position i takes. */
  function Width(s: string, i: nat, st: Scan): (n: nat)
    requires i < |s|
    ensures 0 < n && i + n <= |s|
  {
    if s[i] == ':' || s[i] == ',' || st.inName || LevelAt(s, i) == Unknown then 1 else |LevelName(LevelAt(s, i))|
  }

  function Step(s: string, i: nat, st: Scan): Scan
    requires i < |s|
  {
    if s[i] == ':' then st.(inName := false)
    else if s[i] == ',' then Comma(st)
    else if st.inName then st.(name := st.name + [s[i]])
    else st.(level := LevelAt(s, i))
  }

  function Parse(s: string, i: nat, st: Scan): Scan
    requires i <= |s|
    decreases |s| - i
  {
    if i == |s| then st else Parse(s, i + Width(s, i, st), Step(s, i, st))
  }

  /** The rules a rule string stands for. */
  function Rules(s: string): seq<Rule> {
    Flush(Parse(s, 0, START))
  }

  method ParseRules(categories: string, before: seq<Rule>) returns (rules: seq<Rule>)
    ensures rules == before + Rules(categories)
  {
    rules := before;
    var inName, name, level := true, "", Unknown;
    var i := 0;
    ghost var found := [];
    while i < |categories|
      invariant 0 <= i <= |categories|
      invariant rules == before + found
      invariant Parse(categories, 0, START) == Parse(categories, i, Scan(inName, name, level, found))
      decreases |categories| - i
    {
      var c := categories[i];
      if c == ':' {
        inName := false;
      } else if c == ',' {
        inName := true;
        if name != "" && level != Unknown {
          rules, found := rules + [Rule(name, level)], found + [Rule(name, level)];
          name, level := "", Unknown;
        }
      } else if inName {
        name := name + [c];
      } else {
        level := LevelAt(categories, i);
        if level != Unknown { i := i + |LevelName(level)| - 1; }
      }
      i := i + 1;
    }
    if name != "" && level != Unknown { rules := rules + [Rule(name, level)]; }
  }

  // ----- Rules found so far do not influence the scan -----

  function Prefixed(rules: seq<Rule>, st: Scan): Scan {
    st.(rules := rules + st.rules)
  }

  lemma {:induction false} ParsePrefixed(s: string, i: nat, st: Scan, rules: seq<Rule>)
    requires i <= |s|
    ensures Parse(s, i, Prefixed(rules, st)) == Prefixed(rules, Parse(s, i, st))
    decreases |s| - i
  {
    hide Step, Width, Prefixed;
    if i < |s| {
      ParsePrefixed(s, i + Width(s, i, st), Step(s, i, st), rules);
      StepPrefixed(s, i, st, rules);
    }
  }

  lemma {:induction false} StepPrefixed(s: string, i: nat, st: Scan, rules: seq<Rule>)
    requires i < |s|
    ensures Step(s, i, Prefixed(rules, st)) == Prefixed(rules, Step(s, i, st))
    ensures Width(s, i, Prefixed(rules, st)) == Width(s, i, st)
  {
    hide LevelAt, LevelName;
    assert rules + (st.rules + [Rule(st.name, st.level)]) == rules + st.rules + [Rule(st.name, st.level)];
  }

  // ----- The scan looks ahead, but never past a comma -----

  predicate NoComma(name: string) {
    forall k :: 0 <= k < |name| ==> name[k] != ','
  }

  lemma {:induction false} NamesHaveNoComma(level: Level)
    ensures NoComma(LevelName(level)) && NoComma(LowerName(level))
  {}

  lemma {:induction false} StartsWithLocal(s: string, t: string, i: nat, name: string)
    requires i < |s| && NoComma(name)
    ensures StartsWith(s + "," + t, i, name) == StartsWith(s, i, name)
  {
    var all := s + "," + t;
    assert forall k :: 0 <= k < |s| ==> all[k] == s[k];
    if i + |name| > |s| {
      assert all[i + (|s| - i)] == ',' && name[|s| - i] != ',';
    }
  }

  lemma {:induction false} LevelAtLocal(s: string, t: string, i: nat)
    requires i < |s|
    ensures LevelAt(s + "," + t, i) == LevelAt(s, i)
  {
    hide StartsWith, NoComma;
    forall level ensures NamesLevel(s + "," + t, i, level) == NamesLevel(s, i, level) {
      NamesHaveNoComma(level);
      StartsWithLocal(s, t, i, LevelName(level));
      StartsWithLocal(s, t, i, LowerName(level));
    }
    hide NamesLevel;
  }

  lemma {:induction false} StepFirst(s: string, t: string, i: nat, st: Scan)
    requires i < |s|
    ensures Step(s + "," + t, i, st) == Step(s, i, st)
    ensures Width(s + "," + t, i, st) == Width(s, i, st)
  {
    LevelAtLocal(s, t, i);
    assert (s + "," + t)[i] == s[i];
    hide LevelAt, LevelName, Comma;
  }

  /** Scanning the first string of a joined pair is scanning it alone. */
  lemma {:induction false} ParseFirst(s: string, t: string, i: nat, st: Scan)
    requires i <= |s|
    ensures Parse(s + "," + t, i, st) == Parse(s + "," + t, |s|, Parse(s, i, st))
    decreases |s| - i
  {
    hide Step, Width;
    if i < |s| {
      StepFirst(s, t, i, st);
      ParseFirst(s, t, i + Width(s, i, st), Step(s, i, st));
    }
  }

  lemma {:induction false} StartsWithShift(s: string, t: string, i: nat, name: string)
    requires i <= |t|
    ensures StartsWith(s + "," + t, |s| + 1 + i, name) == StartsWith(t, i, name)
  {
    var all, at := s + "," + t, |s| + 1 + i;
    assert forall k :: 0 <= k < |t| ==> t[k] == all[|s| + 1 + k];
  }

  lemma {:induction false} LevelAtShift(s: string, t: string, i: nat)
    requires i <= |t|
    ensures LevelAt(s + "," + t, |s| + 1 + i) == LevelAt(t, i)
  {
    hide StartsWith;
    forall level ensures NamesLevel(s + "," + t, |s| + 1 + i, level) == NamesLevel(t, i, level) {
      StartsWithShift(s, t, i, LevelName(level));
      StartsWithShift(s, t, i, LowerName(level));
    }
    hide NamesLevel;
  }

  lemma {:induction false} StepSecond(s: string, t: string, i: nat, st: Scan)
    requires i < |t|
    ensures Step(s + "," + t, |s| + 1 + i, st) == Step(t, i, st)
    ensures Width(s + "," + t, |s| + 1 + i, st) == Width(t, i, st)
  {
    LevelAtShift(s, t, i);
    assert (s + "," + t)[|s| + 1 + i] == t[i];
    hide LevelAt, LevelName, Comma;
  }

  /** Scanning the second string of a joined pair is scanning it alone. */
  lemma {:induction false} ParseSecond(s: string, t: string, i: nat, st: Scan)
    requires i <= |t|
    ensures Parse(s + "," + t, |s| + 1 + i, st) == Parse(t, i, st)
    decreases |t| - i
  {
    hide Step, Width;
    if i < |t| {
      StepSecond(s, t, i, st);
      ParseSecond(s, t, i + Width(t, i, st), Step(t, i, st));
    }
  }

  lemma {:induction false} ParseJoined(s: string, t: string)
    ensures Parse(s + "," + t, 0, START) == Parse(t, 0, Comma(Parse(s, 0, START)))
  {
    var all := s + "," + t;
    ParseFirst(s, t, 0, START);
    var st := Parse(s, 0, START);
    assert all[|s|] == ',';
    assert Parse(all, |s|, st) == Parse(all, |s| + 1, Comma(st));
    ParseSecond(s, t, 0, Comma(st));
  }

  // ----- When rule strings may be joined -----

  /** The string leaves neither a name without a level nor a level without a name. */
  predicate Clean(s: string) {
    var st := Parse(s, 0, START);
    (st.name == "") == (st.level == Unknown)
  }

  lemma {:induction false} CommaClean(s: string)
    requires Clean(s)
    ensures Comma(Parse(s, 0, START)) == Prefixed(Rules(s), START)
  {
    assert Rules(s) + [] == Rules(s);
  }

  lemma {:induction false} CleanJoin(s: string, t: string)
    requires Clean(s)
    ensures Rules(s + "," + t) == Rules(s) + Rules(t)
    ensures Clean(s + "," + t) == Clean(t)
  {
    ParseJoined(s, t);
    CommaClean(s);
    ParsePrefixed(t, 0, START, Rules(s));
    hide Parse;
    var st := Parse(t, 0, START);
    assert Rules(s) + (st.rules + [Rule(st.name, st.level)]) == Rules(s) + st.rules + [Rule(st.name, st.level)];
  }

  /** A level left without a name goes to the next name. */
  lemma {:induction false} LeftoverLevel(s: string)
    requires Parse(s, 0, START).name == "" && Parse(s, 0, START).level != Unknown
    ensures Rules(s + "," + "x") != Rules(s) + Rules("x")
  {
    var st := Parse(s, 0, START);
    ParseJoined(s, "x");
    ParseX(Comma(st));
    ParseX(START);
    hide Parse;
    assert "" + "x" == "x";
    assert |Rules(s + "," + "x")| == |st.rules| + 1;
  }

  /** A name left without a level is glued to the next name. */
  lemma {:induction false} LeftoverName(s: string)
    requires Parse(s, 0, START).name != "" && Parse(s, 0, START).level == Unknown
    ensures Rules(s + "," + "x:INFO") != Rules(s) + Rules("x:INFO")
  {
    var st := Parse(s, 0, START);
    ParseJoined(s, "x:INFO");
    ParseXInfo(Comma(st));
    ParseXInfo(START);
    hide Parse;
    var x := "x";
    assert "" + x == x;
    var both, n := Rules(s + "," + "x:INFO"), |st.rules|;
    assert both == st.rules + [Rule(st.name + x, Info)];
    assert Rules("x:INFO") == [Rule(x, Info)];
    assert both[n].pattern == st.name + x && (st.rules + Rules("x:INFO"))[n].pattern == x;
    assert |st.name + x| > |x|;
  }

  lemma {:induction false} ParseX(st: Scan)
    requires st.inName
    ensures Parse("x", 0, st) == st.(name := st.name + "x")
  {
    assert Parse("x", 1, st.(name := st.name + "x")) == st.(name := st.name + "x");
  }

  lemma {:induction false} ParseXInfo(st: Scan)
    requires st.inName
    ensures Parse("x:INFO", 0, st) == st.(inName := false, name := st.name + "x", level := Info)
  {
    var s := "x:INFO";
    var named := st.(name := st.name + "x");
    var colon := named.(inName := false);
    assert Parse(s, 0, st) == Parse(s, 1, named);
    assert Parse(s, 1, named) == Parse(s, 2, colon);
    assert LevelAt(s, 2) == Info;
    assert Parse(s, 2, colon) == Parse(s, 6, colon.(level := Info));
  }

  /** A rule string may be continued by a comma and anything exactly when it is clean. */
  lemma {:induction false} JoinsIffClean(s: string)
    ensures (forall t :: Rules(s + "," + t) == Rules(s) + Rules(t)) <==> Clean(s)
  {
    if Clean(s) {
      forall t ensures Rules(s + "," + t) == Rules(s) + Rules(t) {
        CleanJoin(s, t);
      }
    } else if Parse(s, 0, START).name == "" {
      LeftoverLevel(s);
    } else {
      LeftoverName(s);
    }
  }

  // ----- Printing and parsing back -----

  predicate WellFormed(r: Rule) {
    && r.pattern != "" && r.level != Unknown
    && forall i :: 0 <= i < |r.pattern| ==> r.pattern[i] != ':' && r.pattern[i] != ','
  }

  /** A rule with its level in upper or lower case. */
  datatype Printed = Printed(rule: Rule, lower: bool)

  function Spelling(level: Level, lower: bool): string {
    if lower then LowerName(level) else LevelName(level)
  }

  function PrintRule(p: Printed): string {
    p.rule.pattern + ":" + Spelling(p.rule.level, p.lower)
  }

  function Print(ps: seq<Printed>): string {
    if ps == [] then ""
    else if |ps| == 1 then PrintRule(ps[0])
    else PrintRule(ps[0]) + "," + Print(ps[1..])
  }

  function RulesOf(ps: seq<Printed>): seq<Rule> {
    seq(|ps|, i requires 0 <= i < |ps| => ps[i].rule)
  }

  lemma {:induction false} ParseName(s: string, i: nat, n: nat, st: Scan)
    requires i <= n <= |s| && st.inName && forall k :: i <= k < n ==> s[k] != ':' && s[k] != ','
    ensures Parse(s, i, st) == Parse(s, n, st.(name := st.name + s[i..n]))
    decreases n - i
  {
    if i == n {
      assert st.name + s[i..n] == st.name;
    } else {
      ParseName(s, i + 1, n, st.(name := st.name + [s[i]]));
      assert st.name + [s[i]] + s[i + 1..n] == st.name + s[i..n];
    }
  }

  function Initial(level: Level): char {
    match level
    case Global => 'G' case Debug => 'D' case Info => 'I' case Warning => 'W'
    case Error => 'E' case Fatal => 'F' case Verbose => 'V' case Trace => 'T' case Unknown => 'U'
  }

  lemma {:induction false} Initials(level: Level)
    ensures |LevelName(level)| > 3 && |LowerName(level)| == |LevelName(level)|
    ensures LevelName(level)[0] == Initial(level)
    ensures LowerName(level)[0] == Initial(level) + 32 as char
  {}

  lemma {:induction false} FirstLetter(s: string, i: nat, name: string)
    requires i < |s| && name != "" && StartsWith(s, i, name)
    ensures s[i] == name[0]
  {
    assert s[i + 0] == name[0];
  }

  /** Where a level's name stands, no other level's name does. */
  lemma {:induction false} DifferentNames(s: string, i: nat, level: Level, other: Level)
    requires i < |s| && (s[i] == Initial(level) || s[i] == Initial(level) + 32 as char) && other != level
    ensures !NamesLevel(s, i, other)
  {
    Initials(other);
    hide LevelName, LowerName, StartsWith;
    if StartsWith(s, i, LevelName(other)) { FirstLetter(s, i, LevelName(other)); }
    if StartsWith(s, i, LowerName(other)) { FirstLetter(s, i, LowerName(other)); }
  }

  /** Where a level's name stands in either case, exactly that level is recognised. */
  lemma {:induction false} LevelAtName(s: string, i: nat, level: Level, lower: bool)
    requires level != Unknown && i + |Spelling(level, lower)| <= |s| && StartsWith(s, i, Spelling(level, lower))
    ensures LevelAt(s, i) == level
  {
    hide LevelName, LowerName, StartsWith;
    Initials(level);
    FirstLetter(s, i, Spelling(level, lower));
    assert NamesLevel(s, i, level);
    hide NamesLevel;
    forall other | other != level ensures !NamesLevel(s, i, other) {
      DifferentNames(s, i, level, other);
    }
  }

  lemma {:induction false} NameStands(s: string, i: nat, level: Level, lower: bool)
    requires level != Unknown
    requires i + |Spelling(level, lower)| <= |s| && StartsWith(s, i, Spelling(level, lower))
    ensures i < |s| && s[i] != ':' && s[i] != ',' && LevelAt(s, i) == level
    ensures |LevelName(level)| == |Spelling(level, lower)|
  {
    hide LevelAt, LevelName, LowerName;
    Initials(level);
    assert s[i + 0] == Spelling(level, lower)[0];
    LevelAtName(s, i, level, lower);
  }

  lemma {:induction false} ParseLevel(s: string, i: nat, st: Scan)
    requires i < |s| && !st.inName && s[i] != ':' && s[i] != ',' && LevelAt(s, i) != Unknown
    ensures i + |LevelName(LevelAt(s, i))| <= |s|
    ensures Parse(s, i, st) == Parse(s, i + |LevelName(LevelAt(s, i))|, st.(level := LevelAt(s, i)))
  {
    hide LevelAt, LevelName;
  }

  lemma {:induction false} ParseColon(s: string, i: nat, st: Scan)
    requires i < |s| && s[i] == ':'
    ensures Parse(s, i, st) == Parse(s, i + 1, st.(inName := false))
  {
    hide LevelAt, LevelName;
  }

  /** Where the parts of a printed rule stand. */
  lemma {:induction false} RuleLayout(p: Printed, tail: string)
    ensures var s, n, name := PrintRule(p) + tail, |p.rule.pattern|, Spelling(p.rule.level, p.lower);
            && |PrintRule(p)| == n + 1 + |name| <= |s|
            && s[0..n] == p.rule.pattern && s[n] == ':' && StartsWith(s, n + 1, name)
            && forall k :: 0 <= k < n ==> s[k] == p.rule.pattern[k]
  {
    hide Spelling;
    var name := Spelling(p.rule.level, p.lower);
    assert PrintRule(p) + tail == p.rule.pattern + ":" + name + tail;
  }

  /** Scanning a printed rule, whatever follows it. */
  lemma {:induction false} ParseRule(p: Printed, tail: string)
    requires WellFormed(p.rule)
    ensures var s := PrintRule(p) + tail;
            Parse(s, 0, START) == Parse(s, |PrintRule(p)|, Scan(false, p.rule.pattern, p.rule.level, []))
  {
    hide Parse, Spelling, StartsWith, PrintRule, LevelAt, LevelName;
    var r, s, n := p.rule, PrintRule(p) + tail, |p.rule.pattern|;
    RuleLayout(p, tail);
    ParseName(s, 0, n, START);
    assert "" + s[0..n] == r.pattern;
    ParseColon(s, n, Scan(true, r.pattern, Unknown, []));
    NameStands(s, n + 1, r.level, p.lower);
    ParseLevel(s, n + 1, Scan(false, r.pattern, Unknown, []));
  }

  lemma {:induction false} ParseOne(p: Printed)
    requires WellFormed(p.rule)
    ensures Rules(PrintRule(p)) == [p.rule] && Clean(PrintRule(p))
  {
    ParseRule(p, "");
    assert PrintRule(p) + "" == PrintRule(p);
    hide PrintRule;
  }

  /** Printing a list of well-formed rules, levels in either case, and parsing the result gives the list back. */
  lemma {:induction false} PrintParse(ps: seq<Printed>)
    requires forall i :: 0 <= i < |ps| ==> WellFormed(ps[i].rule)
    ensures Rules(Print(ps)) == RulesOf(ps) && Clean(Print(ps))
    decreases |ps|
  {
    hide Rules, Clean, PrintRule, WellFormed;
    if ps == [] {
      EmptyText();
    } else {
      ParseOne(ps[0]);
      if |ps| > 1 {
        PrintParse(ps[1..]);
        CleanJoin(PrintRule(ps[0]), Print(ps[1..]));
      }
      assert RulesOf(ps) == [ps[0].rule] + RulesOf(ps[1..]);
    }
  }

  /** A character after the level that starts no level name makes the rule disappear. */
  lemma {:induction false} JunkDropsRule(p: Printed, c: char)
    requires WellFormed(p.rule) && c != ':' && c != ','
    ensures Rules(PrintRule(p) + [c]) == []
  {
    var s, n := PrintRule(p) + [c], |PrintRule(p)|;
    ParseRule(p, [c]);
    forall level ensures !NamesLevel(s, n, level) {
      Initials(level);
    }
    assert s[n] == c && LevelAt(s, n) == Unknown;
    hide NamesLevel, PrintRule, LevelAt;
    var st := Scan(false, p.rule.pattern, p.rule.level, []);
    assert Parse(s, n, st) == Parse(s, n + 1, st.(level := Unknown));
  }

  // ----- Many calls -----

  /** The text remembered after setting these strings one after the other. */
  function TextAfter(calls: seq<string>): string {
    if calls == [] then ""
    else
      var text, last := TextAfter(calls[..|calls| - 1]), calls[|calls| - 1];
      if text == "" then last else text + "," + last
  }

  function RulesAfter(calls: seq<string>): seq<Rule> {
    if calls == [] then [] else RulesAfter(calls[..|calls| - 1]) + Rules(calls[|calls| - 1])
  }

  /** However many clean strings were set, their remembered text parses to all their rules. */
  lemma {:induction false} TextRebuildsRules(calls: seq<string>)
    requires forall i :: 0 <= i < |calls| ==> Clean(calls[i])
    ensures Rules(TextAfter(calls)) == RulesAfter(calls) && Clean(TextAfter(calls))
  {
    if calls != [] {
      var front, last := calls[..|calls| - 1], calls[|calls| - 1];
      hide Rules, Clean;
      TextRebuildsRules(front);
      if TextAfter(front) == "" {
        EmptyText();
        assert [] + Rules(last) == Rules(last);
      } else {
        CleanJoin(TextAfter(front), last);
      }
    } else {
      EmptyText();
    }
  }

  lemma {:induction false} EmptyText()
    ensures Rules("") == [] && Clean("")
  {}
}
