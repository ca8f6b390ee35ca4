/** Agent kinds, their states, and the classification of terminal titles (packages/shared/src/agentScreenRules.ts). */
module AgentTitles {

  datatype AgentKind = Claude | Codex

  datatype PaneState = Working | Idle | Blocked | Error | Unknown

  predicate Contains(s: string, word: string)
    decreases |s|
  {
    word <= s || (s != "" && Contains(s[1..], word))
  }

  const SPINNERS: string := "\U{25D0}\U{25D1}\U{25D2}\U{25D3}\U{273B}\U{2736}\U{273D}\U{2722}\U{2217}"

  /** A braille cell or another spinner glyph, then a blank. */
  predicate HasSpinner(title: string) {
    |title| >= 2 && ('\U{2800}' <= title[0] <= '\U{28FF}' || title[0] in SPINNERS) && title[1] == ' '
  }

  predicate HasClaudeIdleMark(title: string) {
    |title| >= 2 && title[0] == '\U{2733}' && title[1] == ' '
  }

  function ClassifyTitle(agent: AgentKind, title: string): PaneState {
    if Contains(title, "Action Required") then Blocked
    else if HasSpinner(title) then Working
    else if agent == Claude && HasClaudeIdleMark(title) then Idle
    else if agent == Codex && title != "" then Idle
    else Unknown
  }
}
