/**
 * The browser terminal's local login and line editor (static/terminal.js).
 *
 * Three variables make the state: whether the user is authenticated, whether the
 * prompt asks for the login (otherwise the password), and the line typed so far.
 * Key data, a socket (re)connection and text from the server each move the state
 * one step, write text to the terminal and may ask for a socket action.
 */
module Terminal {

  /** The login and the password both are this fixed word. */
  const Credential: string := "raspberry"

  const Enter: string := "\r"
  const Backspace: string := "\U{7F}"
  const NewLine: string := "\r\n"
  const Erase: string := "\U{8} \U{8}"
  const Prompt: string := "(raspberrypi3) "
  const Red: string := "\U{1B}[31m"
  const Green: string := "\U{1B}[32m"
  const PlainColour: string := "\U{1B}[0m"

  /** What `startAuth` writes: a new line and the red login prompt. */
  const LoginPrompt: string := NewLine + Red + "login: " + PlainColour

  /** What Enter writes at each outcome of the two checks. */
  const PasswordPrompt: string := NewLine + Green + "Password: " + PlainColour
  const LoginRejected: string := NewLine + Red + "Invalid login. Try again.\r\n" + PlainColour + LoginPrompt
  const Welcome: string := NewLine + "\r\n" + Green + "Authentication successful!\r\n" + PlainColour + Prompt
  const PasswordRejected: string := NewLine + Red + "Invalid password. Try again.\r\n" + PlainColour + LoginPrompt
  const Reconnected: string := "\r\nConnected to Renode terminal\r\n" + Prompt

  datatype TermState = TermState(authenticated: bool, expectingLogin: bool, input: string)

  /** The state at page load, after `startAuth`: at the login prompt with an empty line. */
  const Initial: TermState := TermState(false, true, "")

  /** A socket action asked for by a step. */
  datatype Effect = NoEffect | ConnectSocket | SendCommand(command: string)

  /** What happens to the terminal: key data, a socket connection, text from the server. */
  datatype Event = Data(data: string) | Connected | Output(text: string)

  /** The state after a step, the text written to the terminal, and the socket action. */
  datatype Reaction = Reaction(state: TermState, output: string, effect: Effect)

  /** The characters JavaScript's `String.prototype.trim` removes: white space and line terminators. */
  predicate IsWhiteSpace(c: char) {
    c in {'\t', '\n', '\U{B}', '\U{C}', '\r', ' ', '\U{A0}', '\U{1680}', '\U{2028}', '\U{2029}',
          '\U{202F}', '\U{205F}', '\U{3000}', '\U{FEFF}'} ||
    ('\U{2000}' <= c <= '\U{200A}')
  }

  function TrimStart(s: string): (r: string)
    ensures |r| <= |s| && r == s[|s| - |r|..]
    ensures forall i :: 0 <= i < |s| - |r| ==> IsWhiteSpace(s[i])
    ensures r == [] || !IsWhiteSpace(r[0])
  {
    if s != [] && IsWhiteSpace(s[0]) then TrimStart(s[1..]) else s
  }

  function TrimEnd(s: string): (r: string)
    ensures |r| <= |s| && r == s[..|r|]
    ensures forall i :: |r| <= i < |s| ==> IsWhiteSpace(s[i])
    ensures r == [] || !IsWhiteSpace(r[|r| - 1])
  {
    if s != [] && IsWhiteSpace(s[|s| - 1]) then TrimEnd(s[..|s| - 1]) else s
  }

  /** `s.trim()`: the longest slice of `s` that neither starts nor ends with white space. */
  function Trim(s: string): (r: string)
    ensures var k := |s| - |TrimStart(s)|;
            k + |r| <= |s| && r == s[k..k + |r|] &&
            (forall i :: 0 <= i < k ==> IsWhiteSpace(s[i])) &&
            (forall i :: k + |r| <= i < |s| ==> IsWhiteSpace(s[i]))
    ensures r == [] || (!IsWhiteSpace(r[0]) && !IsWhiteSpace(r[|r| - 1]))
  {
    TrimEnd(TrimStart(s))
  }

  /** A string that neither starts nor ends with white space is its own trim. */
  lemma NoOuterWhiteSpace(s: string)
    requires s != [] && !IsWhiteSpace(s[0]) && !IsWhiteSpace(s[|s| - 1])
    ensures Trim(s) == s
  {
  }

  /** One character from space to tilde. */
  predicate IsPrintable(data: string) {
    |data| == 1 && 32 <= data[0] as int <= 126
  }

  /** What `startAuth` does to the state: back to the login prompt with an empty line. */
  function StartAuthState(s: TermState): TermState {
    s.(expectingLogin := true, input := "")
  }

  function DropLast(s: string): string {
    if |s| > 0 then s[..|s| - 1] else s
  }

  /** The backspace key: erases the last character, if there is one, in both modes. */
  function BackspaceStep(s: TermState): Reaction {
    if |s.input| > 0 then Reaction(s.(input := DropLast(s.input)), Erase, NoEffect)
    else Reaction(s, "", NoEffect)
  }

  /**
   * The `onData` handler as the source writes it. A correct password sets the
   * authenticated flag but leaves the password in the line buffer.
   */
  function KeyStep(s: TermState, data: string): Reaction {
    if !s.authenticated then
      if data == Enter then
        if s.expectingLogin then
          if Trim(s.input) == Credential then
            Reaction(s.(expectingLogin := false, input := ""), PasswordPrompt, NoEffect)
          else
            Reaction(StartAuthState(s), LoginRejected, NoEffect)
        else if Trim(s.input) == Credential then
          Reaction(s.(authenticated := true), Welcome, ConnectSocket)
        else
          Reaction(StartAuthState(s), PasswordRejected, NoEffect)
      else if data == Backspace then
        BackspaceStep(s)
      else if IsPrintable(data) then
        Reaction(s.(input := s.input + data), if s.expectingLogin then data else "*", NoEffect)
      else
        Reaction(s, "", NoEffect)
    else if data == Enter then
      if Trim(s.input) != "" then Reaction(s.(input := ""), NewLine, SendCommand(Trim(s.input)))
      else Reaction(s.(input := ""), NewLine + Prompt, NoEffect)
    else if data == Backspace then
      BackspaceStep(s)
    else
      Reaction(s.(input := s.input + data), data, NoEffect)
  }

  /**
   * The `onData` handler with the line buffer cleared when authentication succeeds, so
   * that the first command starts from an empty line after the prompt.
   */
  function KeyStepCorrected(s: TermState, data: string): (r: Reaction)
    ensures r.state.authenticated && !s.authenticated ==> r.state.input == ""
  {
    var r := KeyStep(s, data);
    if r.state.authenticated && !s.authenticated then r.(state := r.state.(input := "")) else r
  }

  /** The socket's `connect` handler: once authenticated, announce the connection and clear the line. */
  function ConnectStep(s: TermState): Reaction {
    if s.authenticated then Reaction(s.(input := ""), Reconnected, NoEffect)
    else Reaction(s, "", NoEffect)
  }

  /** The `terminal_output` handler: once authenticated, show the server's text and clear the line. */
  function OutputStep(s: TermState, text: string): Reaction {
    if s.authenticated then Reaction(s.(input := ""), text, NoEffect)
    else Reaction(s, "", NoEffect)
  }

  function React(s: TermState, e: Event): Reaction {
    match e
    case Data(d) => KeyStep(s, d)
    case Connected => ConnectStep(s)
    case Output(t) => OutputStep(s, t)
  }

  /** The state after a sequence of events. */
  function Run(s: TermState, events: seq<Event>): TermState
    decreases |events|
  {
    if events == [] then s else React(Run(s, events[..|events| - 1]), events[|events| - 1]).state
  }

  /** The state from page load just before the `i`th event. */
  function StateBefore(events: seq<Event>, i: nat): TermState
    requires i <= |events|
  {
    Run(Initial, events[..i])
  }

  /** Enter at the login prompt with the right login. */
  predicate LoginAccepted(s: TermState, e: Event) {
    !s.authenticated && s.expectingLogin && e == Data(Enter) && Trim(s.input) == Credential
  }

  /** Enter at the password prompt with the right password. */
  predicate PasswordAccepted(s: TermState, e: Event) {
    !s.authenticated && !s.expectingLogin && e == Data(Enter) && Trim(s.input) == Credential
  }

  /** Once authenticated, no event takes it back: line 71 is the only assignment to the flag. */
  lemma AuthenticationIsPermanent(s: TermState, e: Event)
    requires s.authenticated
    ensures React(s, e).state.authenticated
  {
  }

  lemma {:induction false} AuthenticationIsPermanentOverRun(s: TermState, events: seq<Event>)
    requires s.authenticated
    ensures Run(s, events).authenticated
    decreases |events|
  {
    if events != [] {
      AuthenticationIsPermanentOverRun(s, events[..|events| - 1]);
    }
  }

  /** Before authentication, a step authenticates exactly on Enter with the right password at the password prompt. */
  lemma AuthenticatesOnlyOnPassword(s: TermState, e: Event)
    requires !s.authenticated
    ensures React(s, e).state.authenticated <==> PasswordAccepted(s, e)
  {
  }

  /** From the login prompt, a step reaches the password prompt exactly on Enter with the right login. */
  lemma PasswordPromptOnlyAfterLogin(s: TermState, e: Event)
    requires !s.authenticated && s.expectingLogin
    ensures !React(s, e).state.authenticated && !React(s, e).state.expectingLogin <==> LoginAccepted(s, e)
  {
  }

  /**
   * Enter before authentication: the right login leads to the password prompt on an
   * empty line, and the right password signs in, keeping the line as it was; any other
   * line goes back to the login prompt with an empty line. Only signing in asks for the socket.
   */
  lemma EnterBeforeAuthentication(s: TermState)
    requires !s.authenticated
    ensures var r := KeyStep(s, Enter);
            if Trim(s.input) != Credential then
              r == Reaction(TermState(false, true, ""), if s.expectingLogin then LoginRejected else PasswordRejected, NoEffect)
            else if s.expectingLogin then
              r == Reaction(TermState(false, false, ""), PasswordPrompt, NoEffect)
            else
              r == Reaction(TermState(true, false, s.input), Welcome, ConnectSocket)
  {
  }

  /**
   * The correction changes one thing: where the handler signs in, it also empties the
   * line. Output, socket action and both flags always agree with the handler as written.
   */
  lemma CorrectionOnlyClearsLine(s: TermState, data: string)
    ensures var w, c := KeyStep(s, data), KeyStepCorrected(s, data);
            c.output == w.output && c.effect == w.effect &&
            c.state.authenticated == w.state.authenticated &&
            c.state.expectingLogin == w.state.expectingLogin &&
            (if PasswordAccepted(s, Data(data)) then c.state.input == "" else c == w)
  {
  }

  /** A state before the `i`th event of a prefix is the same state in the whole sequence. */
  lemma StateBeforeInPrefix(events: seq<Event>, i: nat)
    requires i < |events|
    ensures StateBefore(events[..|events| - 1], i) == StateBefore(events, i)
  {
    assert events[..|events| - 1][..i] == events[..i];
  }

  /** A login accepted at some event before `n`. */
  ghost predicate LoginBefore(events: seq<Event>, n: nat)
    requires n <= |events|
  {
    exists i :: 0 <= i < n && LoginAccepted(StateBefore(events, i), events[i])
  }

  /** A login accepted within a prefix is accepted within the whole sequence. */
  lemma LoginBeforeExtends(events: seq<Event>)
    requires |events| > 0 && LoginBefore(events[..|events| - 1], |events| - 1)
    ensures LoginBefore(events, |events|)
  {
    var prefix := events[..|events| - 1];
    var i :| 0 <= i < |prefix| && LoginAccepted(StateBefore(prefix, i), prefix[i]);
    StateBeforeInPrefix(events, i);
    assert prefix[i] == events[i];
    assert LoginAccepted(StateBefore(events, i), events[i]);
  }

  /** The state after a sequence is the state after its last event. */
  lemma RunLast(events: seq<Event>)
    requires |events| > 0
    ensures Run(Initial, events) == React(StateBefore(events, |events| - 1), events[|events| - 1]).state
  {
    assert events[..|events| - 1] == events[..|events| - 1][..|events| - 1];
  }

  /** Whoever is at the password prompt has entered the right login earlier. */
  lemma {:induction false} PasswordPromptFollowsLogin(events: seq<Event>)
    requires !Run(Initial, events).authenticated && !Run(Initial, events).expectingLogin
    ensures LoginBefore(events, |events|)
    decreases |events|
  {
    var n := |events|;
    var prefix := events[..n - 1];
    var before := StateBefore(events, n - 1);
    RunLast(events);
    assert before == Run(Initial, prefix);
    if before.authenticated {
      AuthenticationIsPermanent(before, events[n - 1]);
    } else if !before.expectingLogin {
      PasswordPromptFollowsLogin(prefix);
      LoginBeforeExtends(events);
    } else {
      PasswordPromptOnlyAfterLogin(before, events[n - 1]);
      assert LoginAccepted(StateBefore(events, n - 1), events[n - 1]);
    }
  }

  /** A login accepted at `i` and a password accepted at a later `j`, both before `n`. */
  ghost predicate SignedInBefore(events: seq<Event>, n: nat)
    requires n <= |events|
  {
    exists i, j :: 0 <= i < j < n &&
      LoginAccepted(StateBefore(events, i), events[i]) &&
      PasswordAccepted(StateBefore(events, j), events[j])
  }

  /** Signing in within a prefix is signing in within the whole sequence. */
  lemma SignedInExtends(events: seq<Event>)
    requires |events| > 0 && SignedInBefore(events[..|events| - 1], |events| - 1)
    ensures SignedInBefore(events, |events|)
  {
    var prefix := events[..|events| - 1];
    var i, j :| 0 <= i < j < |prefix| &&
                LoginAccepted(StateBefore(prefix, i), prefix[i]) &&
                PasswordAccepted(StateBefore(prefix, j), prefix[j]);
    StateBeforeInPrefix(events, i);
    StateBeforeInPrefix(events, j);
    assert prefix[i] == events[i] && prefix[j] == events[j];
    assert LoginAccepted(StateBefore(events, i), events[i]);
    assert PasswordAccepted(StateBefore(events, j), events[j]);
  }

  /**
   * Authentication takes a right login followed, at a later event, by a right password:
   * the two checks of the source's Enter handler, in that order.
   */
  lemma {:induction false} AuthenticationNeedsLoginThenPassword(events: seq<Event>)
    requires Run(Initial, events).authenticated
    ensures SignedInBefore(events, |events|)
    decreases |events|
  {
    var n := |events|;
    var prefix := events[..n - 1];
    var before := StateBefore(events, n - 1);
    RunLast(events);
    assert before == Run(Initial, prefix);
    if before.authenticated {
      AuthenticationNeedsLoginThenPassword(prefix);
      SignedInExtends(events);
    } else {
      AuthenticatesOnlyOnPassword(before, events[n - 1]);
      PasswordPromptFollowsLogin(prefix);
      var i :| 0 <= i < |prefix| && LoginAccepted(StateBefore(prefix, i), prefix[i]);
      StateBeforeInPrefix(events, i);
      assert prefix[i] == events[i];
      assert LoginAccepted(StateBefore(events, i), events[i]);
      assert PasswordAccepted(StateBefore(events, n - 1), events[n - 1]);
    }
  }

  /** At the login prompt a printable key is added to the line and echoed as typed. */
  lemma LoginIsEchoed(s: TermState, key: string)
    requires !s.authenticated && s.expectingLogin && IsPrintable(key)
    ensures KeyStep(s, key) == Reaction(s.(input := s.input + key), key, NoEffect)
  {
  }

  /** At the password prompt a printable key is added to the line, and every key shows as the same '*'. */
  lemma PasswordIsMasked(s: TermState, key: string, other: string)
    requires !s.authenticated && !s.expectingLogin && IsPrintable(key) && IsPrintable(other)
    ensures KeyStep(s, key).state.input == s.input + key
    ensures KeyStep(s, key).output == KeyStep(s, other).output == "*"
  {
  }

  /** Before authentication, data that is not Enter, backspace or one printable character changes nothing and writes nothing. */
  lemma OtherDataIgnoredBeforeAuthentication(s: TermState, data: string)
    requires !s.authenticated && data != Enter && data != Backspace && !IsPrintable(data)
    ensures KeyStep(s, data) == Reaction(s, "", NoEffect)
  {
  }

  /** Backspace drops exactly the last character and erases it on screen; on an empty line it does nothing. */
  lemma BackspaceErasesOneCharacter(s: TermState)
    ensures |s.input| > 0 ==>
              KeyStep(s, Backspace) == Reaction(s.(input := s.input[..|s.input| - 1]), Erase, NoEffect)
    ensures |s.input| == 0 ==> KeyStep(s, Backspace) == Reaction(s, "", NoEffect)
  {
  }

  /**
   * Once authenticated, Enter clears the line and sends its trimmed text as a command
   * when that text is not blank; on a blank line it only shows the prompt again.
   */
  lemma EnterSendsTrimmedLine(s: TermState)
    requires s.authenticated
    ensures KeyStep(s, Enter).state == s.(input := "")
    ensures Trim(s.input) != "" ==> KeyStep(s, Enter).effect == SendCommand(Trim(s.input))
    ensures Trim(s.input) == "" ==> KeyStep(s, Enter).effect == NoEffect && KeyStep(s, Enter).output == NewLine + Prompt
  {
  }

  /** Once authenticated, any other data, several characters included, is appended and echoed. */
  lemma AuthenticatedDataIsAppended(s: TermState, data: string)
    requires s.authenticated && data != Enter && data != Backspace
    ensures KeyStep(s, data) == Reaction(s.(input := s.input + data), data, NoEffect)
  {
  }

  /** No command reaches the server before authentication. */
  lemma CommandsOnlyWhenAuthenticated(s: TermState, e: Event)
    requires React(s, e).effect.SendCommand?
    ensures s.authenticated
  {
  }

  /** A connection and server output clear the line once authenticated, and change nothing before. */
  lemma SocketEventsClearLineOnlyWhenAuthenticated(s: TermState, text: string)
    ensures s.authenticated ==> ConnectStep(s).state == OutputStep(s, text).state == s.(input := "")
    ensures !s.authenticated ==> ConnectStep(s) == OutputStep(s, text) == Reaction(s, "", NoEffect)
  {
  }

  /**
   * As written, the password stays in the line buffer after authentication, so when no
   * `connect` or `terminal_output` event clears it (the socket connects on page load,
   * before authentication), the first command is sent with the password in front.
   */
  lemma PasswordLeaksIntoFirstCommandAsWritten()
    ensures var atPassword := TermState(false, false, Credential);
            var signedIn := KeyStep(atPassword, Enter).state;
            var typed := KeyStep(signedIn, "ls").state;
            signedIn.authenticated &&
            KeyStep(typed, Enter).effect == SendCommand("raspberryls")
  {
    NoOuterWhiteSpace(Credential);
    var signedIn := TermState(true, false, Credential);
    assert KeyStep(TermState(false, false, Credential), Enter).state == signedIn;
    var typed := TermState(true, false, Credential + "ls");
    assert KeyStep(signedIn, "ls").state == typed;
    assert Credential + "ls" == "raspberryls";
    NoOuterWhiteSpace("raspberryls");
  }

  /** With the line cleared on authentication, the first command is exactly what was typed after it. */
  lemma FirstCommandIsWhatWasTyped(s: TermState, data: string)
    requires PasswordAccepted(s, Data(Enter))
    requires data != Enter && data != Backspace && Trim(data) != ""
    ensures var signedIn := KeyStepCorrected(s, Enter).state;
            var typed := KeyStepCorrected(signedIn, data).state;
            signedIn.authenticated && signedIn.input == "" &&
            KeyStepCorrected(typed, Enter).effect == SendCommand(Trim(data))
  {
    var signedIn := TermState(true, false, "");
    assert KeyStep(s, Enter) == Reaction(s.(authenticated := true), Welcome, ConnectSocket);
    assert KeyStepCorrected(s, Enter).state == signedIn;
    assert "" + data == data;
    assert KeyStepCorrected(signedIn, data).state == signedIn.(input := data);
  }

  /** The page's three module variables and the handlers that update them. */
  class Session {
    var authenticated: bool
    var expectingLogin: bool
    var currentInput: string

    function State(): TermState
      reads this
    {
      TermState(authenticated, expectingLogin, currentInput)
    }

    /** The declarations: not authenticated, an empty line, the login expected. */
    constructor ()
      ensures State() == Initial
    {
      authenticated := false;
      currentInput := "";
      expectingLogin := true;
    }

    /** `startAuth`: shows the login prompt and starts a new login. */
    method StartAuth() returns (output: string)
      modifies this
      ensures State() == StartAuthState(old(State()))
      ensures output == LoginPrompt
    {
      output := NewLine + Red + "login: " + PlainColour;
      expectingLogin := true;
      currentInput := "";
    }

    /** The `onData` handler. */
    method OnData(data: string) returns (output: string, effect: Effect)
      modifies this
      ensures Reaction(State(), output, effect) == KeyStep(old(State()), data)
    {
      output, effect := "", NoEffect;
      if !authenticated {
        if data == Enter {
          output := NewLine;
          if expectingLogin {
            if Trim(currentInput) == Credential {
              output := output + Green + "Password: " + PlainColour;
              expectingLogin := false;
              currentInput := "";
            } else {
              output := output + Red + "Invalid login. Try again.\r\n" + PlainColour;
              var prompt := StartAuth();
              output := output + prompt;
            }
          } else {
            if Trim(currentInput) == Credential {
              authenticated := true;
              output := output + "\r\n" + Green + "Authentication successful!\r\n" + PlainColour;
              effect := ConnectSocket;
              output := output + Prompt;
            } else {
              output := output + Red + "Invalid password. Try again.\r\n" + PlainColour;
              var prompt := StartAuth();
              output := output + prompt;
            }
          }
        } else if data == Backspace {
          if |currentInput| > 0 {
            currentInput := currentInput[..|currentInput| - 1];
            output := Erase;
          }
        } else if |data| == 1 && 32 <= data[0] as int <= 126 {
          currentInput := currentInput + data;
          if expectingLogin {
            output := data;
          } else {
            output := "*";
          }
        }
      } else {
        if data == Enter {
          output := NewLine;
          var line := Trim(currentInput);
          if line != "" {
            effect := SendCommand(line);
          } else {
            output := output + Prompt;
          }
          currentInput := "";
        } else if data == Backspace {
          if |currentInput| > 0 {
            currentInput := currentInput[..|currentInput| - 1];
            output := Erase;
          }
        } else {
          currentInput := currentInput + data;
          output := data;
        }
      }
    }

    /** The socket's `connect` handler. */
    method OnConnect() returns (output: string)
      modifies this
      ensures Reaction(State(), output, NoEffect) == ConnectStep(old(State()))
    {
      output := "";
      if authenticated {
        output := "\r\nConnected to Renode terminal\r\n" + Prompt;
        currentInput := "";
      }
    }

    /** The `terminal_output` handler. */
    method OnTerminalOutput(text: string) returns (output: string)
      modifies this
      ensures Reaction(State(), output, NoEffect) == OutputStep(old(State()), text)
    {
      output := "";
      if authenticated {
        output := text;
        currentInput := "";
      }
    }
  }

  /** Page load: the declarations, then `startAuth`. */
  method Open() returns (session: Session, output: string)
    ensures fresh(session) && session.State() == Initial
    ensures output == LoginPrompt
  {
    session := new Session();
    output := session.StartAuth();
  }
}
