/** Classifying the screen of an agent (packages/shared/src/agentScreenRules.ts): cut the screen at the prompt box,
    then let the matching rule of highest priority decide. */
module ScreenRules {
  import opened Options
  import opened AgentTitles
  import opened WhiteSpace

  // ---- Lines ----

  const RULE_MARK: char := '\U{2500}'
  const PROMPT_MARK: char := '\U{276F}'

  function SkipRuleMarks(s: string): string {
    if s != "" && s[0] == RULE_MARK then SkipRuleMarks(s[1..]) else s
  }

  predicate IsBlank(line: string) {
    SkipSpaces(line) == ""
  }

  /** Ten or more rule marks and nothing else but white space around them. */
  predicate IsRuleLine(line: string) {
    var marks := SkipSpaces(line);
    var after := SkipRuleMarks(marks);
    |marks| - |after| >= 10 && IsBlank(after)
  }

  predicate IsPromptLine(line: string) {
    var s := SkipSpaces(line);
    s != "" && s[0] == PROMPT_MARK
  }

  predicate AnyPromptLine(lines: seq<string>) {
    exists i | 0 <= i < |lines| :: IsPromptLine(lines[i])
  }

  // ---- The prompt box ----

  datatype ScreenInput = ScreenInput(above: seq<string>, promptBox: seq<string>, below: seq<string>)

  function NonBlank(rows: seq<string>): seq<string> {
    if rows == [] then []
    else if IsBlank(rows[|rows| - 1]) then NonBlank(rows[..|rows| - 1])
    else NonBlank(rows[..|rows| - 1]) + [rows[|rows| - 1]]
  }

  /** The last n elements; like slice(-n), everything when n is 0. */
  function LastOnes(rows: seq<string>, n: nat): seq<string> {
    if n == 0 || n >= |rows| then rows else rows[|rows| - n..]
  }

  /** No rule line at or after lo and before hi. */
  predicate NoRuleBetween(rows: seq<string>, lo: nat, hi: nat)
    requires hi <= |rows|
  {
    forall j | lo <= j < hi :: !IsRuleLine(rows[j])
  }

  /** The last rule line of rows[..hi], or -1. */
  function LastRule(rows: seq<string>, hi: nat): (i: int)
    requires hi <= |rows|
    ensures -1 <= i < hi
    ensures i >= 0 ==> IsRuleLine(rows[i])
    ensures NoRuleBetween(rows, i + 1, hi)
  {
    if hi == 0 then -1 else if IsRuleLine(rows[hi - 1]) then hi - 1 else LastRule(rows, hi - 1)
  }

  /** The three parts around the rule lines at top and bottom; top is -1 when there is no box. */
  function CutScreen(rows: seq<string>, maxAbove: nat, top: int, bottom: int): ScreenInput
    requires top >= 0 ==> top < bottom < |rows|
  {
    if top < 0 then ScreenInput(LastOnes(NonBlank(rows), maxAbove), [], [])
    else ScreenInput(LastOnes(NonBlank(rows[..top]), maxAbove), rows[top + 1..bottom], NonBlank(rows[bottom + 1..]))
  }

  function Split(rows: seq<string>, maxAbove: nat): ScreenInput {
    var bottom := LastRule(rows, |rows|);
    var top := if bottom < 0 then -1 else LastRule(rows, bottom);
    CutScreen(rows, maxAbove, top, bottom)
  }

  method SplitPromptBox(rows: seq<string>, maxAbove: nat) returns (r: ScreenInput)
    ensures r == Split(rows, maxAbove)
  {
    var bottom := -1;
    var top := -1;
    var i := |rows| - 1;
    while i >= 0
      invariant -1 <= i < |rows|
      invariant top == -1
      invariant bottom == -1 ==> LastRule(rows, |rows|) == LastRule(rows, i + 1)
      invariant bottom != -1 ==> i < bottom == LastRule(rows, |rows|) && LastRule(rows, bottom) == LastRule(rows, i + 1)
    {
      if IsRuleLine(rows[i]) {
        if bottom < 0 {
          bottom := i;
        } else {
          top := i;
          break;
        }
      }
      i := i - 1;
    }
    return CutScreen(rows, maxAbove, top, bottom);
  }

  predicate NoRuleLines(rows: seq<string>) {
    forall i | 0 <= i < |rows| :: !IsRuleLine(rows[i])
  }

  lemma {:induction false} NonBlankShape(rows: seq<string>)
    ensures forall i | 0 <= i < |NonBlank(rows)| :: !IsBlank(NonBlank(rows)[i]) && NonBlank(rows)[i] in rows
    ensures forall i | 0 <= i < |rows| && !IsBlank(rows[i]) :: rows[i] in NonBlank(rows)
  {
    if rows != [] {
      NonBlankShape(rows[..|rows| - 1]);
    }
  }

  // ---- Lines and rows, told by their text ----

  predicate AllSpaces(s: string) {
    forall i | 0 <= i < |s| :: IsSpace(s[i])
  }

  lemma {:induction false} SkipSpacesIs(s: string, n: nat)
    requires n <= |s| && AllSpaces(s[..n]) && (n < |s| ==> !IsSpace(s[n]))
    ensures SkipSpaces(s) == s[n..]
    decreases n
  {
    if n > 0 {
      assert s[..n][0] == s[0];
      forall i | 0 <= i < n - 1 ensures IsSpace(s[1..][i]) {
        assert s[1..][i] == s[..n][i + 1];
      }
      SkipSpacesIs(s[1..], n - 1);
      assert s[1..][n - 1..] == s[n..];
    }
  }

  lemma {:induction false} SkippedSpaces(s: string)
    ensures var n := |s| - |SkipSpaces(s)|;
            0 <= n <= |s| && SkipSpaces(s) == s[n..] && AllSpaces(s[..n]) && (n < |s| ==> !IsSpace(s[n]))
  {
    if s != "" && IsSpace(s[0]) {
      SkippedSpaces(s[1..]);
      var n := |s| - |SkipSpaces(s)|;
      forall i | 0 <= i < n ensures IsSpace(s[i]) {
        if i > 0 {
          assert s[i] == s[1..][..n - 1][i - 1];
        }
      }
    }
  }

  /** A blank line is nothing but white space. */
  lemma BlankTold(line: string)
    ensures IsBlank(line) <==> AllSpaces(line)
  {
    SkippedSpaces(line);
    assert line[..|line|] == line;
    if AllSpaces(line) {
      SkipSpacesIs(line, |line|);
    }
  }

  lemma {:induction false} SkipMarksIs(s: string, n: nat)
    requires n <= |s| && (forall i | 0 <= i < n :: s[i] == '\U{2500}') && (n < |s| ==> s[n] != '\U{2500}')
    ensures SkipRuleMarks(s) == s[n..]
    decreases n
  {
    if n > 0 {
      SkipMarksIs(s[1..], n - 1);
      assert s[1..][n - 1..] == s[n..];
    }
  }

  lemma {:induction false} SkippedMarks(s: string)
    ensures var n := |s| - |SkipRuleMarks(s)|;
            0 <= n <= |s| && SkipRuleMarks(s) == s[n..] && (forall i | 0 <= i < n :: s[i] == '\U{2500}')
  {
    if s != "" && s[0] == '\U{2500}' {
      SkippedMarks(s[1..]);
      var n := |s| - |SkipRuleMarks(s)|;
      forall i | 0 <= i < n ensures s[i] == '\U{2500}' {
        if i > 0 {
          assert s[i] == s[1..][i - 1];
        }
      }
    }
  }

  /** White space, n rule marks, white space. */
  predicate RuleText(line: string, before: nat, n: nat) {
    && before + n <= |line| && AllSpaces(line[..before]) && AllSpaces(line[before + n..])
    && forall i | before <= i < before + n :: line[i] == '\U{2500}'
  }

  lemma RuleLineIs(line: string, before: nat, n: nat)
    requires RuleText(line, before, n) && n >= 10
    ensures IsRuleLine(line)
  {
    SkipSpacesIs(line, before);
    var marks := line[before..];
    if n < |marks| {
      assert marks[n] == line[before + n..][0];
    }
    SkipMarksIs(marks, n);
    assert marks[n..] == line[before + n..];
    BlankTold(marks[n..]);
  }

  /** A rule line is ten rule marks or more with nothing but white space around them. */
  lemma RuleLineTold(line: string)
    ensures IsRuleLine(line) <==> exists before: nat, n: nat | n >= 10 :: RuleText(line, before, n)
  {
    if before: nat, n: nat :| n >= 10 && RuleText(line, before, n) {
      RuleLineIs(line, before, n);
    }
    if IsRuleLine(line) {
      SkippedSpaces(line);
      var before := |line| - |SkipSpaces(line)|;
      SkippedMarks(line[before..]);
      var n := |line[before..]| - |SkipRuleMarks(line[before..])|;
      BlankTold(SkipRuleMarks(line[before..]));
      assert line[before..][n..] == line[before + n..];
      assert forall i | before <= i < before + n :: line[i] == line[before..][i - before];
      assert RuleText(line, before, n);
    }
  }

  /** White space before the prompt mark. */
  predicate PromptText(line: string, before: nat) {
    before < |line| && AllSpaces(line[..before]) && line[before] == '\U{276F}'
  }

  lemma PromptLineTold(line: string)
    ensures IsPromptLine(line) <==> exists before: nat :: PromptText(line, before)
  {
    if before: nat :| PromptText(line, before) {
      SkipSpacesIs(line, before);
    }
    if IsPromptLine(line) {
      SkippedSpaces(line);
      assert PromptText(line, |line| - |SkipSpaces(line)|);
    }
  }

  /** The rows that are not blank are kept one by one, in their order. */
  lemma {:induction false} NonBlankAppend(a: seq<string>, b: seq<string>)
    ensures NonBlank(a + b) == NonBlank(a) + NonBlank(b)
  {
    if b == [] {
      assert a + b == a;
    } else {
      assert (a + b)[..|a + b| - 1] == a + b[..|b| - 1];
      NonBlankAppend(a, b[..|b| - 1]);
    }
  }

  lemma NonBlankOne(row: string)
    ensures NonBlank([]) == [] && NonBlank([row]) == if AllSpaces(row) then [] else [row]
  {
    BlankTold(row);
    assert [row][..0] == [];
  }

  /** The last n of some rows: all of them when there are no more, or when n is 0. */
  predicate LastOf(kept: seq<string>, rows: seq<string>, n: nat) {
    && |kept| <= |rows| && rows[|rows| - |kept|..] == kept
    && |kept| == if n == 0 || |rows| <= n then |rows| else n
  }

  lemma LastOnesTold(rows: seq<string>, n: nat)
    ensures LastOf(LastOnes(rows, n), rows, n)
  {
  }

  /** Two rule lines, at top and bottom, with no rule line between or after them. */
  predicate CutAt(rows: seq<string>, top: nat, bottom: nat) {
    && top < bottom < |rows| && IsRuleLine(rows[top]) && IsRuleLine(rows[bottom])
    && NoRuleBetween(rows, top + 1, bottom) && NoRuleBetween(rows, bottom + 1, |rows|)
  }

  lemma {:induction false} LastRuleIs(rows: seq<string>, i: nat, hi: nat)
    requires i < hi <= |rows| && IsRuleLine(rows[i]) && NoRuleBetween(rows, i + 1, hi)
    ensures LastRule(rows, hi) == i
    decreases hi
  {
    if i + 1 < hi {
      LastRuleIs(rows, i, hi - 1);
    }
  }

  lemma SliceNoRules(rows: seq<string>, lo: nat, hi: nat)
    requires lo <= hi <= |rows| && NoRuleBetween(rows, lo, hi)
    ensures NoRuleLines(rows[lo..hi])
  {
  }

  /** The split cuts at the last two rule lines: the box is what lies between them, `below` the lines that are not blank
      after them, `above` the last lines that are not blank before them. */
  lemma SplitAtLastRules(rows: seq<string>, maxAbove: nat, top: nat, bottom: nat)
    requires CutAt(rows, top, bottom) && maxAbove > 0
    ensures var r := Split(rows, maxAbove);
            && r.promptBox == rows[top + 1..bottom] && NoRuleLines(r.promptBox) && NoRuleLines(r.below)
            && r.below == NonBlank(rows[bottom + 1..])
            && |r.above| <= maxAbove && LastOf(r.above, NonBlank(rows[..top]), maxAbove)
            && (forall i | 0 <= i < |r.above| :: !IsBlank(r.above[i]))
  {
    LastRuleIs(rows, bottom, |rows|);
    LastRuleIs(rows, top, bottom);
    SliceNoRules(rows, top + 1, bottom);
    SliceNoRules(rows, bottom + 1, |rows|);
    NonBlankNoRules(rows[bottom + 1..]);
    LastOnesTold(NonBlank(rows[..top]), maxAbove);
    LastOnesNonBlank(rows[..top], maxAbove);
  }

  lemma NonBlankNoRules(rows: seq<string>)
    requires NoRuleLines(rows)
    ensures NoRuleLines(NonBlank(rows))
  {
    NonBlankShape(rows);
  }

  lemma LastOnesNonBlank(rows: seq<string>, n: nat)
    requires n > 0
    ensures var kept := LastOnes(NonBlank(rows), n);
            |kept| <= n && forall i | 0 <= i < |kept| :: !IsBlank(kept[i])
  {
    NonBlankShape(rows);
  }

  /** Without two rule lines there is no box, and the last lines that are not blank are all `above`. */
  lemma SplitWithoutBox(rows: seq<string>, maxAbove: nat)
    requires forall i, j | 0 <= i < j < |rows| :: !(IsRuleLine(rows[i]) && IsRuleLine(rows[j]))
    ensures var r := Split(rows, maxAbove);
            LastOf(r.above, NonBlank(rows), maxAbove) && r.promptBox == [] && r.below == []
  {
    LastOnesTold(NonBlank(rows), maxAbove);
  }

  /** Every screen has a box or has not: the two descriptions cover all of them. */
  lemma BoxOrNot(rows: seq<string>)
    ensures (exists top: nat, bottom: nat :: CutAt(rows, top, bottom))
         || (forall i, j | 0 <= i < j < |rows| :: !(IsRuleLine(rows[i]) && IsRuleLine(rows[j])))
  {
    var bottom := LastRule(rows, |rows|);
    if bottom >= 0 {
      var top := LastRule(rows, bottom);
      if top >= 0 {
        assert CutAt(rows, top, bottom);
      }
    }
  }

  // ---- Rules ----

  datatype Region = Above | PromptBox | Below | All

  datatype Says = Pane(state: PaneState) | Skip

  datatype Rule = Rule(id: string, says: Says, priority: int, region: Region, test: seq<string> -> bool)

  function LinesOf(region: Region, input: ScreenInput): seq<string> {
    match region
    case Above => input.above
    case PromptBox => input.promptBox
    case Below => input.below
    case All => input.above + input.promptBox + input.below
  }

  predicate Fires(r: Rule, input: ScreenInput) {
    LinesOf(r.region, input) != [] && r.test(LinesOf(r.region, input))
  }

  function Best(rules: seq<Rule>, input: ScreenInput): Option<Rule> {
    if rules == [] then None else
      var best := Best(rules[..|rules| - 1], input);
      var r := rules[|rules| - 1];
      if Fires(r, input) && (best.None? || r.priority > best.value.priority) then Some(r) else best
  }

  /** None stands for the `null` of a screen that must not be judged. */
  function VerdictOf(best: Option<Rule>): Option<PaneState> {
    if best.None? then Some(Unknown) else if best.value.says.Skip? then None else Some(best.value.says.state)
  }

  method Classify(rules: seq<Rule>, input: ScreenInput) returns (verdict: Option<PaneState>)
    ensures verdict == VerdictOf(Best(rules, input))
  {
    var best: Option<Rule> := None;
    for i := 0 to |rules|
      invariant best == Best(rules[..i], input)
    {
      assert rules[..i + 1][..i] == rules[..i];
      var r := rules[i];
      var lines := LinesOf(r.region, input);
      if lines == [] { continue; }
      if r.test(lines) && (best.None? || r.priority > best.value.priority) {
        best := Some(r);
      }
    }
    assert rules[..|rules|] == rules;
    verdict := VerdictOf(best);
  }

  /** The chosen rule matches, and no matching rule has a higher priority. */
  lemma {:induction false} BestShape(rules: seq<Rule>, input: ScreenInput)
    ensures var best := Best(rules, input);
            if best.None? then forall i | 0 <= i < |rules| :: !Fires(rules[i], input)
            else best.value in rules && Fires(best.value, input)
                 && forall i | 0 <= i < |rules| && Fires(rules[i], input) :: rules[i].priority <= best.value.priority
  {
    if rules != [] {
      BestShape(rules[..|rules| - 1], input);
    }
  }

  /** Rules of one priority say the same. */
  ghost predicate Consistent(rules: seq<Rule>) {
    forall i, j | 0 <= i < |rules| && 0 <= j < |rules| && rules[i].priority == rules[j].priority ::
      rules[i].says == rules[j].says
  }

  ghost predicate SameRules(a: seq<Rule>, b: seq<Rule>) {
    (forall r | r in a :: r in b) && (forall r | r in b :: r in a)
  }

  /** The order of a consistent table does not matter. */
  lemma OrderIrrelevant(a: seq<Rule>, b: seq<Rule>, input: ScreenInput)
    requires Consistent(a) && SameRules(a, b)
    ensures VerdictOf(Best(a, input)) == VerdictOf(Best(b, input))
  {
    BestShape(a, input);
    BestShape(b, input);
    var x, y := Best(a, input), Best(b, input);
    if x.Some? {
      assert x.value in b;
      var j :| 0 <= j < |b| && b[j] == x.value;
      assert y.Some? && x.value.priority <= y.value.priority;
    }
    if y.Some? {
      assert y.value in a;
      var i :| 0 <= i < |a| && a[i] == y.value;
      assert x.Some? && y.value.priority <= x.value.priority;
      var k :| 0 <= k < |a| && a[k] == x.value;
      assert a[i].says == a[k].says;
    }
  }

  // ---- The two tables ----

  /** The texts the rules look for, kept abstract. */
  datatype Patterns = Patterns(
    transcriptViewer: seq<string> -> bool, blockedForm: seq<string> -> bool, permissionPrompt: seq<string> -> bool,
    apiError: seq<string> -> bool, interruptLine: seq<string> -> bool, spinnerLine: seq<string> -> bool,
    backgroundWork: seq<string> -> bool, optionOrHint: seq<string> -> bool,
    codexConfirm: seq<string> -> bool, codexYesNo: seq<string> -> bool, codexWorking: seq<string> -> bool)

  function ClaudeRules(p: Patterns): seq<Rule> {
    [ Rule("transcript_viewer", Skip, 100, All, p.transcriptViewer),
      Rule("blocked_form", Pane(Blocked), 90, All, p.blockedForm),
      Rule("permission_prompt", Pane(Blocked), 85, All, p.permissionPrompt),
      Rule("api_error", Pane(Error), 60, Above, p.apiError),
      Rule("interrupt_line", Pane(Working), 70, All, p.interruptLine),
      Rule("spinner_line", Pane(Working), 70, Above, p.spinnerLine),
      Rule("background_work", Pane(Working), 65, Above, p.backgroundWork),
      Rule("prompt_box_idle", Pane(Idle), 50, PromptBox, lines => AnyPromptLine(lines) && !p.optionOrHint(lines)) ]
  }

  function CodexRules(p: Patterns): seq<Rule> {
    [ Rule("confirm", Pane(Blocked), 90, All, p.codexConfirm),
      Rule("yes_no", Pane(Blocked), 85, All, p.codexYesNo),
      Rule("working", Pane(Working), 70, Above, p.codexWorking) ]
  }

  function RulesOf(agent: AgentKind, p: Patterns): seq<Rule> {
    if agent == Claude then ClaudeRules(p) else CodexRules(p)
  }

  function ClassifyScreen(agent: AgentKind, p: Patterns, input: ScreenInput): Option<PaneState> {
    VerdictOf(Best(RulesOf(agent, p), input))
  }

  /** The order in which readings of a Claude screen take precedence. */
  function ClaudeVerdict(p: Patterns, input: ScreenInput): Option<PaneState> {
    var all := input.above + input.promptBox + input.below;
    if all == [] then Some(Unknown)
    else if p.transcriptViewer(all) then None
    else if p.blockedForm(all) || p.permissionPrompt(all) then Some(Blocked)
    else if p.interruptLine(all) || (input.above != [] && (p.spinnerLine(input.above) || p.backgroundWork(input.above)))
    then Some(Working)
    else if input.above != [] && p.apiError(input.above) then Some(Error)
    else if AnyPromptLine(input.promptBox) && !p.optionOrHint(input.promptBox) then Some(Idle)
    else Some(Unknown)
  }

  function CodexVerdict(p: Patterns, input: ScreenInput): Option<PaneState> {
    var all := input.above + input.promptBox + input.below;
    if all == [] then Some(Unknown)
    else if p.codexConfirm(all) || p.codexYesNo(all) then Some(Blocked)
    else if input.above != [] && p.codexWorking(input.above) then Some(Working)
    else Some(Unknown)
  }

  /** The rule that decides is one of the table that matches. */
  lemma Winner(rules: seq<Rule>, input: ScreenInput) returns (k: nat)
    requires Best(rules, input).Some?
    ensures k < |rules| && rules[k] == Best(rules, input).value && Fires(rules[k], input)
  {
    BestShape(rules, input);
    k :| 0 <= k < |rules| && rules[k] == Best(rules, input).value;
  }

  predicate FiresOn(lines: seq<string>, test: seq<string> -> bool) {
    lines != [] && test(lines)
  }

  lemma ClaudeFires(p: Patterns, input: ScreenInput)
    ensures var rules := ClaudeRules(p);
            var all := input.above + input.promptBox + input.below;
            && (Fires(rules[0], input) <==> FiresOn(all, p.transcriptViewer))
            && (Fires(rules[1], input) <==> FiresOn(all, p.blockedForm))
            && (Fires(rules[2], input) <==> FiresOn(all, p.permissionPrompt))
            && (Fires(rules[3], input) <==> FiresOn(input.above, p.apiError))
            && (Fires(rules[4], input) <==> FiresOn(all, p.interruptLine))
            && (Fires(rules[5], input) <==> FiresOn(input.above, p.spinnerLine))
            && (Fires(rules[6], input) <==> FiresOn(input.above, p.backgroundWork))
            && (Fires(rules[7], input) <==> AnyPromptLine(input.promptBox) && !p.optionOrHint(input.promptBox))
  {
  }

  /** A matching rule that no other matching rule outranks decides, whatever the table. */
  lemma TopDecides(rules: seq<Rule>, k: nat, input: ScreenInput)
    requires Consistent(rules) && k < |rules| && Fires(rules[k], input)
    requires forall i | 0 <= i < |rules| && Fires(rules[i], input) :: rules[i].priority <= rules[k].priority
    ensures VerdictOf(Best(rules, input)) == VerdictOf(Some(rules[k]))
  {
    BestShape(rules, input);
    var w := Winner(rules, input);
    assert rules[w].priority == rules[k].priority;
  }

  lemma NoneDecides(rules: seq<Rule>, input: ScreenInput)
    requires forall i | 0 <= i < |rules| :: !Fires(rules[i], input)
    ensures VerdictOf(Best(rules, input)) == Some(Unknown)
  {
    BestShape(rules, input);
    if Best(rules, input).Some? {
      var w := Winner(rules, input);
    }
  }

  lemma ClaudeDecides(p: Patterns, k: nat, input: ScreenInput)
    requires k < 8 && Fires(ClaudeRules(p)[k], input)
    requires forall i | 0 <= i < 8 && ClaudeRules(p)[i].priority > ClaudeRules(p)[k].priority ::
             !Fires(ClaudeRules(p)[i], input)
    ensures ClassifyScreen(Claude, p, input) == VerdictOf(Some(ClaudeRules(p)[k]))
  {
    TopDecides(ClaudeRules(p), k, input);
  }

  /** The rule that decides a Claude screen: the first that matches in the order of priorities. */
  function ClaudeDecider(p: Patterns, input: ScreenInput): nat {
    var rules := ClaudeRules(p);
    if Fires(rules[0], input) then 0 else if Fires(rules[1], input) then 1 else if Fires(rules[2], input) then 2
    else if Fires(rules[4], input) then 4 else if Fires(rules[5], input) then 5 else if Fires(rules[6], input) then 6
    else if Fires(rules[3], input) then 3 else if Fires(rules[7], input) then 7 else 8
  }

  lemma DeciderOutranks(p: Patterns, input: ScreenInput)
    ensures var k := ClaudeDecider(p, input);
            if k < 8 then Fires(ClaudeRules(p)[k], input)
                 && forall i | 0 <= i < 8 && ClaudeRules(p)[i].priority > ClaudeRules(p)[k].priority ::
                    !Fires(ClaudeRules(p)[i], input)
            else forall i | 0 <= i < 8 :: !Fires(ClaudeRules(p)[i], input)
  {
  }

  lemma DeciderVerdict(p: Patterns, input: ScreenInput)
    ensures var k := ClaudeDecider(p, input);
            ClaudeVerdict(p, input) == if k < 8 then VerdictOf(Some(ClaudeRules(p)[k])) else Some(Unknown)
  {
    ClaudeFires(p, input);
  }

  /** The priorities of the Claude table amount to: transcript, blocked, working, error, idle. */
  lemma ClaudePrecedence(p: Patterns, input: ScreenInput)
    ensures ClassifyScreen(Claude, p, input) == ClaudeVerdict(p, input)
  {
    DeciderOutranks(p, input);
    DeciderVerdict(p, input);
    var k := ClaudeDecider(p, input);
    if k < 8 {
      ClaudeDecides(p, k, input);
    } else {
      NoneDecides(ClaudeRules(p), input);
    }
  }

  /** The priorities of the Codex table amount to: blocked, working. */
  lemma CodexPrecedence(p: Patterns, input: ScreenInput)
    ensures ClassifyScreen(Codex, p, input) == CodexVerdict(p, input)
  {
    var rules := CodexRules(p);
    assert |rules| == 3;
    if Fires(rules[0], input) {
      TopDecides(rules, 0, input);
    } else if Fires(rules[1], input) {
      TopDecides(rules, 1, input);
    } else if Fires(rules[2], input) {
      TopDecides(rules, 2, input);
    } else {
      NoneDecides(rules, input);
    }
  }

  /** Both tables may be written in any order. */
  lemma TablesOrderFree(agent: AgentKind, p: Patterns, table: seq<Rule>, input: ScreenInput)
    requires SameRules(RulesOf(agent, p), table)
    ensures VerdictOf(Best(table, input)) == ClassifyScreen(agent, p, input)
  {
    OrderIrrelevant(RulesOf(agent, p), table, input);
  }

  lemma IdleMeansPromptInBox(p: Patterns, input: ScreenInput)
    requires ClassifyScreen(Claude, p, input) == Some(Idle)
    ensures AnyPromptLine(input.promptBox)
  {
    var rules := ClaudeRules(p);
    BestShape(rules, input);
    assert Best(rules, input).value == rules[7];
  }

  lemma BoxIsCut(rows: seq<string>, maxAbove: nat)
    requires Split(rows, maxAbove).promptBox != []
    ensures var bottom := LastRule(rows, |rows|);
            bottom >= 0 && LastRule(rows, bottom) >= 0 && CutAt(rows, LastRule(rows, bottom), bottom)
            && Split(rows, maxAbove).promptBox == rows[LastRule(rows, bottom) + 1..bottom]
  {
  }

  /** A prompt line between the last two rule lines. */
  predicate PromptBetween(rows: seq<string>, top: nat, prompt: nat, bottom: nat) {
    CutAt(rows, top, bottom) && top < prompt < bottom && IsPromptLine(rows[prompt])
  }

  lemma BoxLineInScreen(rows: seq<string>, maxAbove: nat)
    requires AnyPromptLine(Split(rows, maxAbove).promptBox)
    ensures exists top: nat, prompt: nat, bottom: nat :: PromptBetween(rows, top, prompt, bottom)
  {
    var box := Split(rows, maxAbove).promptBox;
    var i :| 0 <= i < |box| && IsPromptLine(box[i]);
    BoxIsCut(rows, maxAbove);
    var bottom := LastRule(rows, |rows|);
    var top := LastRule(rows, bottom);
    LineInCut(rows, top, bottom, box, i);
  }

  lemma LineInCut(rows: seq<string>, top: nat, bottom: nat, box: seq<string>, i: nat)
    requires CutAt(rows, top, bottom) && box == rows[top + 1..bottom] && i < |box| && IsPromptLine(box[i])
    ensures PromptBetween(rows, top, top + 1 + i, bottom)
  {
  }

  /** Claude is idle only with a prompt line between the last two rule lines of the screen. */
  lemma ClaudeIdleNeedsPrompt(p: Patterns, rows: seq<string>, maxAbove: nat)
    requires ClassifyScreen(Claude, p, Split(rows, maxAbove)) == Some(Idle)
    ensures exists top: nat, prompt: nat, bottom: nat :: PromptBetween(rows, top, prompt, bottom)
  {
    IdleMeansPromptInBox(p, Split(rows, maxAbove));
    BoxLineInScreen(rows, maxAbove);
  }

  /** Codex is never read as idle from its screen. */
  lemma CodexNeverIdle(p: Patterns, input: ScreenInput)
    ensures ClassifyScreen(Codex, p, input) != Some(Idle)
  {
    BestShape(CodexRules(p), input);
  }
}
