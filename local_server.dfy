/**
 * The local client of `local_server.py`: the parse of an incoming
 * `MATCH_REQUEST` message and the answer rule, the choice of the listening
 * port, the empty-code guard of `create_match` / `join_match`, and the menu
 * choice. Console answers, the command line and the configured port are
 * parameters; the HTTP requests are returned as values.
 */
module LocalServer {
  import opened Wrappers
  import opened PyStr

  const RequestTag := "MATCH_REQUEST"

  /** The POST to `/confirm_match` sent when a request is accepted. */
  datatype Confirmation = Confirmation(player1: string, player2: string, code: Option<string>)

  /**
   * What `handle_match_request` does with one message: ignore it, raise
   * `IndexError` (no challenger field), or ask the user and then decline or
   * confirm.
   */
  datatype Handling =
    | Ignored
    | MissingChallenger
    | Declined(challenger: string, code: Option<string>)
    | Confirmed(post: Confirmation)

  /** `input(...).strip().lower() == "oui"`. */
  predicate Accepts(answer: string)
  {
    Lower(Strip(answer)) == "oui"
  }

  /** The decision on the `:`-separated fields of the stripped message. */
  function HandleFields(parts: seq<string>, answer: string, username: string): (h: Handling)
    requires |parts| >= 1
    ensures h.Ignored? <==> parts[0] != RequestTag
    ensures h.MissingChallenger? <==> parts[0] == RequestTag && |parts| == 1
    ensures (h.Declined? || h.Confirmed?) <==> parts[0] == RequestTag && |parts| >= 2
    ensures h.Confirmed? <==> parts[0] == RequestTag && |parts| >= 2 && Accepts(answer)
    ensures h.Declined? ==> h.challenger == parts[1] && h.code == (if |parts| > 2 then Some(parts[2]) else None)
    ensures h.Confirmed? ==>
              h.post == Confirmation(parts[1], username, if |parts| > 2 then Some(parts[2]) else None)
  {
    if parts[0] != RequestTag then Ignored
    else if |parts| < 2 then MissingChallenger
    else
      var challenger := parts[1];
      var code := if |parts| > 2 then Some(parts[2]) else None;
      if Accepts(answer) then Confirmed(Confirmation(challenger, username, code))
      else Declined(challenger, code)
  }

  /** `handle_match_request(message)` with the user's answer and `USERNAME`. */
  function HandleMatchRequest(message: string, answer: string, username: string): Handling
  {
    HandleFields(Split(Strip(message), ':'), answer, username)
  }

  /** The message format `handle_match_request` parses: `MATCH_REQUEST:<challenger>:<code>`. */
  function RequestMessage(challenger: string, code: string): string
  {
    Join([RequestTag, challenger, code], ':')
  }

  predicate NoColon(s: string)
  {
    forall i :: 0 <= i < |s| ==> s[i] != ':'
  }

  /** The three fields of a request message are cut apart again. */
  lemma RequestMessageFields(challenger: string, code: string)
    requires NoColon(challenger) && NoColon(code)
    ensures Split(RequestMessage(challenger, code), ':') == [RequestTag, challenger, code]
  {
    var parts := [RequestTag, challenger, code];
    assert NoColon(RequestTag);
    SplitJoin(parts, ':');
  }

  /**
   * An accepted request message names its challenger and code in the
   * confirmation, provided neither field holds a `:` and the code does not
   * end in white space (which `strip()` would cut).
   */
  lemma RequestRoundTrip(challenger: string, code: string, answer: string, username: string)
    requires NoColon(challenger) && NoColon(code)
    requires code == [] || !IsSpace(code[|code| - 1])
    requires Accepts(answer)
    ensures HandleMatchRequest(RequestMessage(challenger, code), answer, username)
            == Confirmed(Confirmation(challenger, username, Some(code)))
  {
    var m := RequestMessage(challenger, code);
    var pre := Join([RequestTag, challenger], ':');
    assert [RequestTag, challenger, code][..2] == [RequestTag, challenger];
    assert m == pre + [':'] + code;
    assert [RequestTag, challenger][..1] == [RequestTag];
    assert Join([RequestTag], ':') == RequestTag;
    assert pre == RequestTag + [':'] + challenger;
    assert m[0] == 'M';
    assert |m| > 0 && !IsSpace(m[|m| - 1]) by {
      if code == [] {
        assert m[|m| - 1] == ':';
      } else {
        assert m[|m| - 1] == code[|code| - 1];
      }
    }
    StripTrimmed(m);
    RequestMessageFields(challenger, code);
  }

  /** The answer is read case-insensitively: "oui" and "OUI" both accept, "non" does not. */
  lemma OuiSpellings()
    ensures Accepts("oui") && Accepts("OUI") && !Accepts("non")
  {
    AcceptsLower();
    AcceptsUpper();
    RefusesNon();
  }

  lemma AcceptsLower()
    ensures Accepts("oui")
  {
    LowerOf("oui", "oui");
  }

  lemma AcceptsUpper()
    ensures Accepts("OUI")
  {
    LowerOf("OUI", "oui");
  }

  lemma RefusesNon()
    ensures !Accepts("non")
  {
    LowerOf("non", "non");
  }

  /** A trimmed three-letter answer is accepted exactly when it lower-cases to "oui". */
  lemma LowerOf(answer: string, lowered: string)
    requires |answer| == 3 && |lowered| == 3 && !IsSpace(answer[0]) && !IsSpace(answer[2])
    requires forall i :: 0 <= i < 3 ==> LowerChar(answer[i]) == lowered[i]
    ensures Accepts(answer) <==> lowered == "oui"
  {
    StripTrimmed(answer);
    assert Lower(answer) == lowered;
  }

  /** White space around the answer, on either side, makes no difference. */
  lemma AnswerPadding(pre: string, answer: string, post: string)
    requires Blank(pre) && Blank(post)
    ensures Accepts(pre + answer + post) == Accepts(answer)
  {
    StripPadded(pre, answer, post);
  }

  /**
   * `args.port if args.port else DEFAULT_PORT`: the port comes from the
   * command line or the default, and is never 0 (a port the system would
   * choose) unless the default is.
   */
  function SelectPort(arg: Option<int>, defaultPort: int): (port: int)
    ensures arg == Some(port) || port == defaultPort
    ensures port != 0 || defaultPort == 0
    ensures arg.Some? && port != arg.value ==> arg.value == 0
  {
    match arg
    case Some(p) => if p != 0 then p else defaultPort
    case None => defaultPort
  }

  /** The request `create_match` or `join_match` makes after reading the code. */
  datatype MatchPost = MatchPost(endpoint: string, playerId: string, code: string)

  /**
   * The code as typed, stripped; `None` ("Code requis") when nothing is
   * left, in which case no request is made.
   */
  function TypedCode(typed: string): (code: Option<string>)
    ensures code.None? <==> forall i :: 0 <= i < |typed| ==> IsSpace(typed[i])
    ensures code.Some? ==> code.value == Strip(typed)
    ensures code.Some? ==> |code.value| > 0 && !IsSpace(code.value[0]) && !IsSpace(code.value[|code.value| - 1])
  {
    StripEmptyIffBlank(typed);
    var code := Strip(typed);
    if code == [] then None else Some(code)
  }

  const CreateEndpoint := "/create_match"
  const JoinEndpoint := "/join_match"

  /**
   * `create_match` (endpoint `/create_match`) and `join_match` (endpoint
   * `/join_match`) on the code typed: the POST made, or nothing for a blank code.
   */
  function MatchRequest(endpoint: string, username: string, typed: string): (post: Option<MatchPost>)
    ensures post.None? <==> forall i :: 0 <= i < |typed| ==> IsSpace(typed[i])
    ensures post.Some? ==> post.value.endpoint == endpoint && post.value.playerId == username
                           && post.value.code == Strip(typed) && post.value.code != []
  {
    match TypedCode(typed)
    case None => None
    case Some(code) => Some(MatchPost(endpoint, username, code))
  }

  /** The actions of `main_menu`. */
  datatype Action = CreateAction | JoinAction | ResultAction | Quit | Invalid

  /** The branch `main_menu` takes on the stripped choice. */
  function MenuAction(choice: string): (a: Action)
    ensures a == CreateAction <==> Strip(choice) == "1"
    ensures a == JoinAction <==> Strip(choice) == "2"
    ensures a == ResultAction <==> Strip(choice) == "3"
    ensures a == Quit <==> Strip(choice) == "4"
    ensures a == Invalid <==> Strip(choice) !in {"1", "2", "3", "4"}
  {
    var c := Strip(choice);
    if c == "1" then CreateAction
    else if c == "2" then JoinAction
    else if c == "3" then ResultAction
    else if c == "4" then Quit
    else Invalid
  }

  /**
   * `main_menu` on the answers typed at its "[1-4]" prompt: the actions
   * taken, stopping at the first "4"; `quit` tells whether it was reached.
   * The further lines an action reads (a match code, the winner's and the
   * loser's names) are its own inputs and not among `choices`.
   */
  method MainMenu(choices: seq<string>) returns (actions: seq<Action>, quit: bool)
    ensures |actions| <= |choices|
    ensures forall i :: 0 <= i < |actions| ==> actions[i] == MenuAction(choices[i])
    ensures forall i :: 0 <= i < |actions| - 1 ==> actions[i] != Quit
    ensures quit <==> |actions| > 0 && actions[|actions| - 1] == Quit
    ensures !quit ==> |actions| == |choices|
  {
    actions := [];
    quit := false;
    var i := 0;
    while i < |choices|
      invariant i <= |choices| && |actions| == i
      invariant forall j :: 0 <= j < i ==> actions[j] == MenuAction(choices[j]) && actions[j] != Quit
    {
      var a := MenuAction(choices[i]);
      actions := actions + [a];
      if a == Quit {
        quit := true;
        return;
      }
      i := i + 1;
    }
  }
}
