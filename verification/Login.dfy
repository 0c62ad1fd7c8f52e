/**
 The login of pkg/messagix/bloks/selenium.go and pkg/messagix/messengerlite.go, driven by scripts from the server.
 What a script does is an arbitrary list of calls to the bridge; which pages, buttons and answers a step finds is given
 with it. The functions say what each operation does; the class does it on mutable state.
 */
module Login {
  import opened Common
  import opened LoginStates

  datatype Cause = ByRpc(rpc: Rpc) | ByScreen(screen: Screen) | ByLoginResponse(data: string) | ByStep

  /**
   What a login is judged by: each assignment to the state, each time a step sets out to fill in credentials, and each
   time both of them are filled in, after which the login button is tapped.
   */
  datatype Event =
    | Moved(from: BrowserState, to: BrowserState, cause: Cause, during: BrowserState)
    | Filling
    | Submitted(username: string, password: string)

  /** `during` is the state in which the current step began. */
  datatype Session = Session(
    state: BrowserState,
    lastError: string,
    loginData: Option<string>,
    afadInterval: int,
    afadDisplayed: bool,
    during: BrowserState,
    log: seq<Event>
  )

  const NEW_SESSION := Session(StateInitial, "", None, 0, false, StateInitial, [])

  /**
   One call to the bridge. Setting up the interpreter of the page or action that an RPC or a screen brings can itself run
   scripts, and fail; an RPC is answered or not. A variable's value that is not a string is None.
   */
  datatype Call =
    | CallRPC(rpc: Rpc, answered: bool, setup: seq<Call>, setupFails: bool)
    | CallNewScreen(screen: Screen, setup: seq<Call>, setupFails: bool)
    | CallLoginResponse(data: string)
    | CallVariableChange(variable: Variable, value: Option<string>)
    | CallTimer(known: bool, interval: int)
    | CallURL

  function Move(b: Session, to: BrowserState, cause: Cause): Session {
    b.(state := to, log := b.log + [Moved(b.state, to, cause, b.during)])
  }

  /** The target is looked up again after the setup, so a state changed by the setup can lead to StateUnknown. */
  function Enter(b: Session, to: BrowserState, cause: Cause): Session {
    var n := Move(b, to, cause);
    if to.StateSendSMSAction? then Move(n, StateSMSPageAfterSend, cause)
    else if to.StateSendWhatsAppAction? then Move(n, StateWhatsAppPageAfterSend, cause)
    else n
  }

  function Perform(b: Session, c: Call): Session
    decreases c
  {
    match c
    case CallRPC(rpc, answered, setup, setupFails) =>
      if RpcTarget(rpc, b.state).StateUnknown? || !answered then b
      else
        var n := PerformAll(b, setup);
        if setupFails then n else Enter(n, RpcTarget(rpc, n.state), ByRpc(rpc))
    case CallNewScreen(screen, setup, setupFails) =>
      if ScreenTarget(screen, b.state).StateUnknown? then b
      else
        var n := PerformAll(b, setup);
        if setupFails then n else Move(n, ScreenTarget(screen, n.state), ByScreen(screen))
    case CallLoginResponse(data) =>
      if AcceptsLoginResponse(b.state) then Move(b.(loginData := Some(data)), StateSuccess, ByLoginResponse(data)) else b
    case CallVariableChange(variable, value) =>
      if TakesError(variable, b.state) && value.Some? then b.(lastError := value.value) else b
    case CallTimer(known, interval) => if known then b.(afadInterval := interval) else b
    case CallURL => b
  }

  /** A script that fails is one that ends early; an error that is swallowed lets it go on. */
  function PerformAll(b: Session, cs: seq<Call>): Session
    decreases cs
  {
    if cs == [] then b else PerformAll(Perform(b, cs[0]), cs[1..])
  }

  // ----- one login step -----

  datatype Failure = NoFailure | InvalidCredentials | NotConnected | PleaseReenter(rest: string) | OtherFailure

  /**
   What one step meets: the scripts run while credentials are filled in, its main script and how that ends, the
   callback's script, a button, and the offered methods.
   */
  datatype World = World(
    fills: seq<Call>,
    fillsFail: bool,
    calls: seq<Call>,
    failure: Failure,
    callback: seq<Call>,
    callbackFails: bool,
    hasButton: bool,
    methods: set<string>
  )

  /** Next goes on with another step; Ask and Wait return to the user. */
  datatype StepResult = Next | Ask(fields: seq<Field>, error: string) | Wait | Error

  datatype Stepped = Stepped(session: Session, input: Inputs, result: StepResult)

  /** The pattern for usernames that are not phone numbers: a letter or '@' somewhere, on a single line. */
  predicate IsPhoneNumber(username: string) {
    '\n' in username || !exists c :: c in username && (c == '@' || 'a' <= c <= 'z' || 'A' <= c <= 'Z')
  }

  function NextOrError(b: Session, u: Inputs, w: World): Stepped {
    Stepped(b, u, if w.failure.NoFailure? then Next else Error)
  }

  function Log(b: Session, e: Event): Session {
    b.(log := b.log + [e])
  }

  /** Filling in an input runs the page's scripts too. */
  function OnCredentials(b: Session, u: Inputs, w: World): Stepped {
    var username, password := Input(u, Username), Input(u, Password);
    if IsPhoneNumber(username) then Stepped(b, u, Error)
    else
      var n := PerformAll(Log(b, Filling), w.fills);
      if w.fillsFail then Stepped(n, u, Error)
      else NextOrError(PerformAll(Log(n, Submitted(username, password)), w.calls), u, w)
  }

  /** A page of `Asked` fields: it asks, and shows and clears the last error, until all of them are there. */
  function OnPage(b: Session, u: Inputs, w: World): Stepped {
    if Missing(b.state, u) then Stepped(b.(lastError := ""), u, Ask(Asked(b.state), b.lastError))
    else if b.state.StateEmailPasswordPage? then OnCredentials(b, u, w)
    else NextOrError(PerformAll(b, w.calls), u, w)
  }

  /** An action that checks a code: a last error sends the user back to the page, without the code. */
  function OnCheckedCode(b: Session, u: Inputs, w: World): Stepped
    requires CheckedCode(b.state).Some?
  {
    var n := PerformAll(b, w.calls);
    if !w.failure.NoFailure? then Stepped(n, u, Error)
    else if n.lastError != "" then
      Stepped(Move(n, StepTarget(b.state), ByStep), Deleted(u, CheckedCode(b.state).value), Next)
    else Stepped(n, u, Next)
  }

  /** After an action of the authentication platform, an email code that was entered and rejected is asked for again. */
  function OnAPAction(b: Session, u: Inputs, w: World): Stepped {
    var n := PerformAll(b, w.calls);
    if !w.failure.NoFailure? then Stepped(n, u, Error)
    else if n.state.StateEnteredEmailCodeAPAction? && n.lastError != "" then
      Stepped(Move(n, StateEmailCodePage, ByStep), Deleted(u, EmailCode), Next)
    else Stepped(n, u, Next)
  }

  function CredentialsError(f: Failure): string {
    if f.InvalidCredentials? then "Invalid username or password" else "That email address is not connected to a Messenger account"
  }

  /** The two actions that learn of a rejection from the error itself. */
  function OnEnteredEmailPassword(b: Session, u: Inputs, w: World): Stepped {
    var n := PerformAll(b, w.calls);
    if w.failure.InvalidCredentials? || w.failure.NotConnected? then
      Stepped(Move(n.(lastError := CredentialsError(w.failure)), StateEmailPasswordPage, ByStep),
              Deleted(Deleted(u, Username), Password), Next)
    else NextOrError(n, u, w)
  }

  function OnEnteredEmailCode(b: Session, u: Inputs, w: World): Stepped {
    var n := PerformAll(b, w.calls);
    if w.failure.PleaseReenter? then
      Stepped(Move(n.(lastError := "Please re-enter" + w.failure.rest), StateEmailCodePage, ByStep), Deleted(u, EmailCode), Next)
    else NextOrError(n, u, w)
  }

  function OnEnteredCaptcha(b: Session, u: Inputs, w: World): Stepped {
    var n := PerformAll(b, w.calls);
    if !w.failure.NoFailure? then Stepped(n, u, Error)
    else
      var m := PerformAll(n, w.callback);
      if w.callbackFails then Stepped(m, u, Error)
      else if m.state.StateEnteredCaptchaAction? then Stepped(Move(m, StateCaptchaPage, ByStep), Deleted(u, CaptchaCode), Next)
      else Stepped(m, u, Next)
  }

  function OnAFAD(b: Session, u: Inputs, w: World): Stepped {
    var n := PerformAll(b, w.calls);
    if !w.failure.NoFailure? then Stepped(n, u, Error)
    else
      var m := PerformAll(n, w.callback);
      if w.callbackFails then Stepped(m, u, Error)
      else if !m.state.StateAFADAction? then Stepped(m, u, Next)
      else if m.afadInterval <= 0 then Stepped(m, u, Error)
      else Stepped(Move(m, StateAFADWait, ByStep).(afadDisplayed := true), u, if m.afadDisplayed then Next else Wait)
  }

  /** Only a script to run; the captcha page asks after the script that finds its audio, and fills in the answer with it. */
  function OnScript(b: Session, u: Inputs, w: World): Stepped {
    var s := NextOrError(PerformAll(b, w.calls), u, w);
    if b.state.StateCaptchaPage? && Input(u, CaptchaCode) == "" && s.result.Next? then s.(result := Ask([CaptchaCode], "")) else s
  }

  /** The first request, and the state that a captcha can be tried out in. */
  function OnStart(b: Session, u: Inputs, w: World): Stepped {
    if b.state.StateTestCaptcha? then
      if Input(u, CaptchaCode) == "" then Stepped(b, u, Ask([CaptchaCode], "")) else Stepped(Move(b, StateInitial, ByStep), u, Next)
    else
      var n := PerformAll(b, w.calls);
      if !w.failure.NoFailure? then Stepped(n, u, Error) else Stepped(Move(n, StateRedirectToLoginAction, ByStep), u, Next)
  }

  function OnChooseMFA(b: Session, u: Inputs, w: World): Stepped {
    var chosen := Input(u, MfaType);
    if w.methods == {} then Stepped(b, u, Error)
    else if chosen == "" && |w.methods| > 1 then Stepped(b, u, Ask([MfaType], ""))
    else if chosen != "" && chosen !in w.methods then Stepped(b, u, Error)
    else NextOrError(PerformAll(b, w.calls), u, w)
  }

  /** The states whose step only runs a script. */
  predicate OnlyRuns(s: BrowserState) {
    s.StateRedirectToLoginAction? || s.StateRedirectToMFALandingAction? || s.StateChosenMFAAction? || s.StateAFADCompleteAction? ||
    s.StateMFALandingPage? ||
    s.StatePossibleMandatoryAFADPage? || s.StateAFADPage? || s.StateSMSPage? || s.StateWhatsAppPage?
  }

  /** The actions with a way of their own of going on. */
  predicate IsOwnAction(s: BrowserState) {
    s.StateEnteredEmailPasswordAction? || s.StateEnteredEmailCodeAction? || s.StateEnteredCaptchaAction? || s.StateAFADAction?
  }

  function OnAction(b: Session, u: Inputs, w: World): Stepped {
    if b.state.StateEnteredEmailPasswordAction? then OnEnteredEmailPassword(b, u, w)
    else if b.state.StateEnteredEmailCodeAction? then OnEnteredEmailCode(b, u, w)
    else if b.state.StateEnteredCaptchaAction? then OnEnteredCaptcha(b, u, w)
    else OnAFAD(b, u, w)
  }

  function OnOther(b: Session, u: Inputs, w: World): Stepped {
    if b.state.StateChooseMFAPage? then OnChooseMFA(b, u, w)
    else if b.state.StateAFADWait? then Stepped(Move(b, StateAFADPage, ByStep), u, Next)
    else if b.state.StatePossibleMandatoryAFADPage? && !w.hasButton then Stepped(Move(b, StateAFADPage, ByStep), u, Next)
    else if b.state.StateCaptchaPage? || OnlyRuns(b.state) then OnScript(b, u, w)
    else Stepped(b, u, Error)
  }

  /** The switch over the state. */
  function Handle(b: Session, u: Inputs, w: World): Stepped {
    if b.state.StateTestCaptcha? || b.state.StateInitial? then OnStart(b, u, w)
    else if Asked(b.state) != [] then OnPage(b, u, w)
    else if CheckedCode(b.state).Some? then OnCheckedCode(b, u, w)
    else if IsAPAction(b.state) then OnAPAction(b, u, w)
    else if IsOwnAction(b.state) then OnAction(b, u, w)
    else OnOther(b, u, w)
  }

  /** A step that neither moves nor asks is an error. */
  function LoginStep(b: Session, u: Inputs, w: World): Stepped {
    var s := Handle(b.(during := b.state), u, w);
    if s.result.Next? && s.session.state == b.state then s.(result := Error) else s
  }

  // ----- the driver -----

  /** How a call of DoLoginSteps ends; CutOff when what the steps meet has not been given any further. */
  datatype Ending = Succeeded(data: Option<string>) | AskedUser(step: StepResult) | Failed | CutOff

  datatype Driven = Driven(session: Session, input: Inputs, ending: Ending)

  function LoginSteps(b: Session, u: Inputs, ws: seq<World>): Driven
    decreases |ws|
  {
    if b.state.StateSuccess? then Driven(b, u, Succeeded(b.loginData))
    else if ws == [] then Driven(b, u, CutOff)
    else
      var s := LoginStep(b, u, ws[0]);
      match s.result
      case Error => Driven(s.session, s.input, Failed)
      case Next => LoginSteps(s.session, s.input, ws[1..])
      case Ask(_, _) => Driven(s.session, s.input, AskedUser(s.result))
      case Wait => Driven(s.session, s.input, AskedUser(s.result))
  }

  // ----- the same on mutable state -----

  class UserInput {
    var values: Inputs

    constructor (values: Inputs)
      ensures this.values == values
    {
      this.values := values;
    }

    method Delete(f: Field)
      modifies this
      ensures values == Deleted(old(values), f)
    {
      values := Deleted(values, f);
    }
  }

  class Browser {
    var State: BrowserState
    var LastError: string
    var LoginData: Option<string>
    var AFADInterval: int
    var AFADDisplayed: bool
    ghost var During: BrowserState
    ghost var Events: seq<Event>

    ghost function View(): Session
      reads this
    {
      Session(State, LastError, LoginData, AFADInterval, AFADDisplayed, During, Events)
    }

    constructor ()
      ensures View() == NEW_SESSION
    {
      State, LastError, LoginData, AFADInterval, AFADDisplayed := StateInitial, "", None, 0, false;
      During, Events := StateInitial, [];
    }

    method SetState(to: BrowserState, ghost cause: Cause)
      modifies this
      ensures View() == Move(old(View()), to, cause)
    {
      Events := Events + [Moved(State, to, cause, During)];
      State := to;
    }

    method DoRPC(rpc: Rpc, answered: bool, setup: seq<Call>, setupFails: bool)
      modifies this
      ensures View() == Perform(old(View()), CallRPC(rpc, answered, setup, setupFails))
      decreases setup, 1
    {
      if RpcTarget(rpc, State) == StateUnknown || !answered {
        return;
      }
      SetupInterpreter(setup);
      if setupFails {
        return;
      }
      SetState(RpcTarget(rpc, State), ByRpc(rpc));
      if State == StateSendSMSAction {
        SetState(StateSMSPageAfterSend, ByRpc(rpc));
      } else if State == StateSendWhatsAppAction {
        SetState(StateWhatsAppPageAfterSend, ByRpc(rpc));
      }
    }

    method DisplayNewScreen(screen: Screen, setup: seq<Call>, setupFails: bool)
      modifies this
      ensures View() == Perform(old(View()), CallNewScreen(screen, setup, setupFails))
      decreases setup, 1
    {
      if ScreenTarget(screen, State) == StateUnknown {
        return;
      }
      SetupInterpreter(setup);
      if setupFails {
        return;
      }
      SetState(ScreenTarget(screen, State), ByScreen(screen));
    }

    method HandleLoginResponse(data: string)
      modifies this
      ensures View() == Perform(old(View()), CallLoginResponse(data))
    {
      if AcceptsLoginResponse(State) {
        LoginData := Some(data);
        SetState(StateSuccess, ByLoginResponse(data));
      }
    }

    method HandleVariableChange(variable: Variable, value: Option<string>)
      modifies this
      ensures View() == Perform(old(View()), CallVariableChange(variable, value))
    {
      if TakesError(variable, State) && value.Some? {
        LastError := value.value;
      }
    }

    method Invoke(c: Call)
      modifies this
      ensures View() == Perform(old(View()), c)
      decreases c, 0
    {
      match c {
        case CallRPC(rpc, answered, setup, setupFails) => DoRPC(rpc, answered, setup, setupFails);
        case CallNewScreen(screen, setup, setupFails) => DisplayNewScreen(screen, setup, setupFails);
        case CallLoginResponse(data) => HandleLoginResponse(data);
        case CallVariableChange(variable, value) => HandleVariableChange(variable, value);
        case CallTimer(known, interval) =>
          if known {
            AFADInterval := interval;
          }
        case CallURL =>
      }
    }

    /** The calls that running a script makes, one after another. */
    method SetupInterpreter(script: seq<Call>)
      modifies this
      ensures View() == PerformAll(old(View()), script)
      decreases script, 0
    {
      for k := 0 to |script|
        invariant PerformAll(old(View()), script) == PerformAll(View(), script[k..])
      {
        assert script[k..][1..] == script[k + 1..];
        Invoke(script[k]);
      }
    }

    /** Evaluating a page's or an action's script, or calling a callback, which may fail. */
    method Evaluate(script: seq<Call>)
      modifies this
      ensures View() == PerformAll(old(View()), script)
    {
      SetupInterpreter(script);
    }

    method HandleCredentials(u: UserInput, w: World) returns (result: StepResult)
      modifies this
      ensures Stepped(View(), u.values, result) == OnCredentials(old(View()), u.values, w)
    {
      if IsPhoneNumber(Input(u.values, Username)) {
        return Error;
      }
      Events := Events + [Filling];
      Evaluate(w.fills);
      if w.fillsFail {
        return Error;
      }
      Events := Events + [Submitted(Input(u.values, Username), Input(u.values, Password))];
      Evaluate(w.calls);
      result := if w.failure.NoFailure? then Next else Error;
    }

    method HandlePage(u: UserInput, w: World) returns (result: StepResult)
      requires Asked(State) != []
      modifies this
      ensures Stepped(View(), u.values, result) == OnPage(old(View()), u.values, w)
    {
      if Missing(State, u.values) {
        result := Ask(Asked(State), LastError);
        LastError := "";
        return;
      }
      if State == StateEmailPasswordPage {
        result := HandleCredentials(u, w);
        return;
      }
      Evaluate(w.calls);
      result := if w.failure.NoFailure? then Next else Error;
    }

    method HandleCheckedCode(u: UserInput, w: World) returns (result: StepResult)
      requires CheckedCode(State).Some?
      modifies this, u
      ensures Stepped(View(), u.values, result) == OnCheckedCode(old(View()), old(u.values), w)
    {
      var action := State;
      Evaluate(w.calls);
      if !w.failure.NoFailure? {
        return Error;
      }
      if LastError != "" {
        u.Delete(CheckedCode(action).value);
        SetState(StepTarget(action), ByStep);
      }
      result := Next;
    }

    method HandleAPAction(u: UserInput, w: World) returns (result: StepResult)
      modifies this, u
      ensures Stepped(View(), u.values, result) == OnAPAction(old(View()), old(u.values), w)
    {
      Evaluate(w.calls);
      if !w.failure.NoFailure? {
        return Error;
      }
      if State == StateEnteredEmailCodeAPAction {
        if LastError != "" {
          u.Delete(EmailCode);
          SetState(StateEmailCodePage, ByStep);
        }
      }
      result := Next;
    }

    method HandleEnteredEmailPassword(u: UserInput, w: World) returns (result: StepResult)
      modifies this, u
      ensures Stepped(View(), u.values, result) == OnEnteredEmailPassword(old(View()), old(u.values), w)
    {
      Evaluate(w.calls);
      if w.failure.InvalidCredentials? || w.failure.NotConnected? {
        u.Delete(Username);
        u.Delete(Password);
        LastError := CredentialsError(w.failure);
        SetState(StateEmailPasswordPage, ByStep);
      } else if !w.failure.NoFailure? {
        return Error;
      }
      result := Next;
    }

    method HandleEnteredEmailCode(u: UserInput, w: World) returns (result: StepResult)
      modifies this, u
      ensures Stepped(View(), u.values, result) == OnEnteredEmailCode(old(View()), old(u.values), w)
    {
      Evaluate(w.calls);
      if w.failure.PleaseReenter? {
        u.Delete(EmailCode);
        LastError := "Please re-enter" + w.failure.rest;
        SetState(StateEmailCodePage, ByStep);
      } else if !w.failure.NoFailure? {
        return Error;
      }
      result := Next;
    }

    method HandleEnteredCaptcha(u: UserInput, w: World) returns (result: StepResult)
      modifies this, u
      ensures Stepped(View(), u.values, result) == OnEnteredCaptcha(old(View()), old(u.values), w)
    {
      Evaluate(w.calls);
      if !w.failure.NoFailure? {
        return Error;
      }
      Evaluate(w.callback);
      if w.callbackFails {
        return Error;
      }
      if State == StateEnteredCaptchaAction {
        SetState(StateCaptchaPage, ByStep);
        u.Delete(CaptchaCode);
      }
      result := Next;
    }

    method HandleAFAD(u: UserInput, w: World) returns (result: StepResult)
      modifies this
      ensures Stepped(View(), u.values, result) == OnAFAD(old(View()), u.values, w)
    {
      Evaluate(w.calls);
      if !w.failure.NoFailure? {
        return Error;
      }
      Evaluate(w.callback);
      if w.callbackFails {
        return Error;
      }
      result := Next;
      if State != StateAFADAction {
        return;
      }
      if AFADInterval <= 0 {
        return Error;
      }
      SetState(StateAFADWait, ByStep);
      if !AFADDisplayed {
        result := Wait;
        AFADDisplayed := true;
      }
    }

    method HandleChooseMFA(u: UserInput, w: World) returns (result: StepResult)
      modifies this
      ensures Stepped(View(), u.values, result) == OnChooseMFA(old(View()), u.values, w)
    {
      if w.methods == {} {
        return Error;
      }
      var chosen := Input(u.values, MfaType);
      if chosen == "" && |w.methods| > 1 {
        return Ask([MfaType], "");
      }
      if chosen != "" && chosen !in w.methods {
        return Error;
      }
      Evaluate(w.calls);
      result := if w.failure.NoFailure? then Next else Error;
    }

    method HandleStart(u: UserInput, w: World) returns (result: StepResult)
      modifies this
      ensures Stepped(View(), u.values, result) == OnStart(old(View()), u.values, w)
    {
      if State == StateTestCaptcha {
        if Input(u.values, CaptchaCode) == "" {
          return Ask([CaptchaCode], "");
        }
        SetState(StateInitial, ByStep);
      } else {
        Evaluate(w.calls);
        if !w.failure.NoFailure? {
          return Error;
        }
        SetState(StateRedirectToLoginAction, ByStep);
      }
      result := Next;
    }

    /** A script, and on the captcha page the question behind it. */
    method HandleScript(u: UserInput, w: World) returns (result: StepResult)
      modifies this
      ensures Stepped(View(), u.values, result) == OnScript(old(View()), u.values, w)
    {
      var asks := State == StateCaptchaPage && Input(u.values, CaptchaCode) == "";
      Evaluate(w.calls);
      if !w.failure.NoFailure? {
        return Error;
      }
      result := if asks then Ask([CaptchaCode], "") else Next;
    }

    method HandleAction(u: UserInput, w: World) returns (result: StepResult)
      modifies this, u
      ensures Stepped(View(), u.values, result) == OnAction(old(View()), old(u.values), w)
    {
      if State == StateEnteredEmailPasswordAction {
        result := HandleEnteredEmailPassword(u, w);
      } else if State == StateEnteredEmailCodeAction {
        result := HandleEnteredEmailCode(u, w);
      } else if State == StateEnteredCaptchaAction {
        result := HandleEnteredCaptcha(u, w);
      } else {
        result := HandleAFAD(u, w);
      }
    }

    method HandleOther(u: UserInput, w: World) returns (result: StepResult)
      modifies this
      ensures Stepped(View(), u.values, result) == OnOther(old(View()), u.values, w)
    {
      if State == StateChooseMFAPage {
        result := HandleChooseMFA(u, w);
      } else if State == StateAFADWait || (State == StatePossibleMandatoryAFADPage && !w.hasButton) {
        SetState(StateAFADPage, ByStep);
        result := Next;
      } else if State == StateCaptchaPage || OnlyRuns(State) {
        result := HandleScript(u, w);
      } else {
        result := Error;
      }
    }

    method HandleState(u: UserInput, w: World) returns (result: StepResult)
      modifies this, u
      ensures Stepped(View(), u.values, result) == Handle(old(View()), old(u.values), w)
    {
      if State == StateTestCaptcha || State == StateInitial {
        result := HandleStart(u, w);
      } else if Asked(State) != [] {
        result := HandlePage(u, w);
      } else if CheckedCode(State).Some? {
        result := HandleCheckedCode(u, w);
      } else if IsAPAction(State) {
        result := HandleAPAction(u, w);
      } else if IsOwnAction(State) {
        result := HandleAction(u, w);
      } else {
        result := HandleOther(u, w);
      }
    }

    method DoLoginStep(u: UserInput, w: World) returns (result: StepResult)
      modifies this, u
      ensures Stepped(View(), u.values, result) == LoginStep(old(View()), old(u.values), w)
    {
      var prevState := State;
      During := State;
      result := HandleState(u, w);
      if State == prevState && result == Next {
        result := Error;
      }
    }

    /** The driver's loop, as far as what its steps meet is given. */
    method DoLoginSteps(u: UserInput, ws: seq<World>) returns (ending: Ending)
      modifies this, u
      ensures Driven(View(), u.values, ending) == LoginSteps(old(View()), old(u.values), ws)
    {
      var k := 0;
      while State != StateSuccess && k < |ws|
        invariant k <= |ws|
        invariant LoginSteps(old(View()), old(u.values), ws) == LoginSteps(View(), u.values, ws[k..])
      {
        var result := DoLoginStep(u, ws[k]);
        assert ws[k..][1..] == ws[k + 1..];
        if result == Error {
          return Failed;
        }
        if result != Next {
          return AskedUser(result);
        }
        k := k + 1;
      }
      ending := if State == StateSuccess then Succeeded(LoginData) else CutOff;
    }
  }

  /** One call of the driver: what the user has entered, and what its steps meet. */
  datatype Visit = Visit(input: Inputs, worlds: seq<World>)

  /** Any number of calls on one browser, whatever each of them returned. */
  function Visits(b: Session, vs: seq<Visit>): Session
    decreases |vs|
  {
    if vs == [] then b else Visits(LoginSteps(b, vs[0].input, vs[0].worlds).session, vs[1..])
  }
}
