/**
 * The decisions of `tournament.js`: the status banner and launch button of
 * `updateTournamentStatus`, and the checks `generateBracket` makes on the
 * `/bracket_data` reply before handing it to the renderer.
 */
module TournamentView {
  import opened Wrappers
  import BracketRenderer

  /** `data.player_count` as JavaScript compares it: `undefined` compares false, `null` as 0. */
  datatype JsCount = Undefined | Null | Num(n: int)

  predicate AtLeastTwo(c: JsCount) {
    match c
    case Undefined => false
    case Null => false
    case Num(n) => n >= 2
  }

  predicate BelowTwo(c: JsCount) {
    match c
    case Undefined => false
    case Null => true
    case Num(n) => n < 2
  }

  /** The class added to the status container: `alert-success`, `alert-warning` or `alert-danger`. */
  datatype Banner = Running | Ready | Waiting

  function StatusBanner(started: bool, count: JsCount): Banner
  {
    if started then Running else if AtLeastTwo(count) then Ready else Waiting
  }

  function LaunchDisabled(started: bool, count: JsCount): bool
  {
    BelowTwo(count) || started
  }

  /**
   * The launch button is enabled exactly when the banner says "ready",
   * except when `player_count` is `undefined`: the banner then says
   * "waiting" while the button stays enabled.
   */
  lemma LaunchEnabledWhenReady(started: bool, count: JsCount)
    ensures count != Undefined ==> (!LaunchDisabled(started, count) <==> StatusBanner(started, count) == Ready)
    ensures count == Undefined && !started ==> !LaunchDisabled(started, count) && StatusBanner(started, count) == Waiting
  {
  }

  /** The `/bracket_data` reply as `generateBracket` inspects it. */
  datatype BracketPayload = BracketPayload(
    error: Option<string>, hasStages: bool, matches: BracketRenderer.MatchesField, hasParticipants: bool)

  /** What `generateBracket` does with a reply: alert its error, alert a bad structure, or render. */
  datatype Decision = ErrorAlert(message: string) | StructureAlert | Render(matches: BracketRenderer.MatchesField)

  function Validate(d: BracketPayload): (r: Decision)
    ensures d.error.Some? && d.error.value != "" ==> r == ErrorAlert(d.error.value)
    ensures r.ErrorAlert? <==> d.error.Some? && d.error.value != ""
    ensures r == StructureAlert <==>
              (d.error.None? || d.error.value == "") && !(d.hasStages && !d.matches.Absent? && d.hasParticipants)
    ensures r.Render? <==> (d.error.None? || d.error.value == "") && d.hasStages && !d.matches.Absent? && d.hasParticipants
    ensures r.Render? ==> r.matches == d.matches
  {
    if d.error.Some? && d.error.value != "" then ErrorAlert(d.error.value)
    else if !d.hasStages || d.matches.Absent? || !d.hasParticipants then StructureAlert
    else Render(d.matches)
  }

  /**
   * `generateBracket` after the fetch: the renderer runs only on a reply
   * that passed the checks; a `matches` value that is present but not an
   * array passes them and the renderer then shows its error line.
   */
  method ShowBracket(d: BracketPayload) returns (shown: Option<BracketRenderer.Rendering>)
    ensures shown.Some? <==> Validate(d).Render?
    ensures shown.Some? ==> (shown.value.Columns? <==> d.matches.Items?)
    ensures shown.Some? && d.matches.Items? ==>
      forall k :: k in BracketRenderer.RoundsOf(shown.value.columns) <==> k in BracketRenderer.RoundKeys(d.matches.items)
  {
    var decision := Validate(d);
    if decision.Render? {
      var out := BracketRenderer.RenderNativeBracket(decision.matches);
      shown := Some(out);
    } else {
      shown := None;
    }
  }
}
