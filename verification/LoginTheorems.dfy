/** What every login keeps, whatever the scripts, the server and the user do. */
module LoginTheorems {
  import opened Common
  import opened LoginStates
  import opened Login

  // ----- the log is a path through the tables -----

  function Current(log: seq<Event>): BrowserState {
    if log == [] then StateInitial
    else if log[|log| - 1].Moved? then log[|log| - 1].to
    else Current(log[..|log| - 1])
  }

  function LastResponse(log: seq<Event>): Option<string> {
    if log == [] then None
    else if log[|log| - 1].Moved? && log[|log| - 1].cause.ByLoginResponse? then Some(log[|log| - 1].cause.data)
    else LastResponse(log[..|log| - 1])
  }

  predicate Legal(e: Event) {
    match e
    case Filling => true
    case Submitted(username, password) => username != "" && password != ""
    case Moved(from, to, cause, during) =>
      match cause
      case ByRpc(rpc) =>
        || to == RpcTarget(rpc, from)
        || (from.StateSendSMSAction? && to.StateSMSPageAfterSend?)
        || (from.StateSendWhatsAppAction? && to.StateWhatsAppPageAfterSend?)
      case ByScreen(screen) => to == ScreenTarget(screen, from)
      case ByLoginResponse(_) => AcceptsLoginResponse(from) && to.StateSuccess?
      case ByStep => StepMove(during, from, to)
  }

  /** Each move is legal and starts where the one before ended. */
  ghost predicate Consistent(log: seq<Event>) {
    log != [] ==>
      var front, last := log[..|log| - 1], log[|log| - 1];
      Consistent(front) && Legal(last) && (last.Moved? ==> last.from == Current(front))
  }

  ghost predicate Tracked(b: Session) {
    Consistent(b.log) && b.state == Current(b.log) && b.loginData == LastResponse(b.log)
  }

  lemma {:induction false} MoveIsTracked(b: Session, to: BrowserState, cause: Cause)
    requires Tracked(b) && Legal(Moved(b.state, to, cause, b.during)) && !cause.ByLoginResponse?
    ensures Tracked(Move(b, to, cause))
  {
    assert Move(b, to, cause).log[..|b.log|] == b.log;
  }

  lemma {:induction false} ResponseIsTracked(b: Session, data: string)
    requires Tracked(b) && AcceptsLoginResponse(b.state)
    ensures Tracked(Move(b.(loginData := Some(data)), StateSuccess, ByLoginResponse(data)))
  {
    assert (b.log + [Moved(b.state, StateSuccess, ByLoginResponse(data), b.during)])[..|b.log|] == b.log;
  }

  lemma {:induction false} PerformIsTracked(b: Session, c: Call)
    requires Tracked(b)
    ensures Tracked(Perform(b, c)) && Perform(b, c).during == b.during
    decreases c
  {
    match c {
      case CallRPC(rpc, answered, setup, setupFails) =>
        PerformAllIsTracked(b, setup);
        var n := PerformAll(b, setup);
        var to := RpcTarget(rpc, n.state);
        MoveIsTracked(n, to, ByRpc(rpc));
        if to.StateSendSMSAction? {
          MoveIsTracked(Move(n, to, ByRpc(rpc)), StateSMSPageAfterSend, ByRpc(rpc));
        } else if to.StateSendWhatsAppAction? {
          MoveIsTracked(Move(n, to, ByRpc(rpc)), StateWhatsAppPageAfterSend, ByRpc(rpc));
        }
      case CallNewScreen(screen, setup, setupFails) =>
        PerformAllIsTracked(b, setup);
        var n := PerformAll(b, setup);
        MoveIsTracked(n, ScreenTarget(screen, n.state), ByScreen(screen));
      case CallLoginResponse(data) =>
        if AcceptsLoginResponse(b.state) {
          ResponseIsTracked(b, data);
        }
      case CallVariableChange(_, _) =>
      case CallTimer(_, _) =>
      case CallURL =>
    }
  }

  lemma {:induction false} PerformAllIsTracked(b: Session, cs: seq<Call>)
    requires Tracked(b)
    ensures Tracked(PerformAll(b, cs)) && PerformAll(b, cs).during == b.during
    decreases cs
  {
    if cs != [] {
      PerformIsTracked(b, cs[0]);
      PerformAllIsTracked(Perform(b, cs[0]), cs[1..]);
    }
  }

  lemma {:induction false} LogIsTracked(b: Session, e: Event)
    requires Tracked(b) && Legal(e) && !e.Moved?
    ensures Tracked(Log(b, e))
  {
    assert (b.log + [e])[..|b.log|] == b.log;
  }

  lemma {:induction false} CredentialsAreTracked(b: Session, u: Inputs, w: World)
    requires Tracked(b) && Input(u, Username) != "" && Input(u, Password) != ""
    ensures Tracked(OnCredentials(b, u, w).session)
  {
    var submitted := Submitted(Input(u, Username), Input(u, Password));
    LogIsTracked(b, Filling);
    PerformAllIsTracked(Log(b, Filling), w.fills);
    var n := PerformAll(Log(b, Filling), w.fills);
    LogIsTracked(n, submitted);
    PerformAllIsTracked(Log(n, submitted), w.calls);
  }

  lemma {:induction false} PageIsTracked(b: Session, u: Inputs, w: World)
    requires Tracked(b) && Asked(b.state) != []
    ensures Tracked(OnPage(b, u, w).session)
  {
    if !Missing(b.state, u) {
      PerformAllIsTracked(b, w.calls);
      if b.state.StateEmailPasswordPage? {
        assert Username in Asked(b.state) && Password in Asked(b.state);
        CredentialsAreTracked(b, u, w);
      }
    }
  }

  // ----- the shape of a step -----

  /** Where a last error can stay while scripts run: the states that check a code, and the two that scripts cannot leave. */
  predicate KeepsError(s: BrowserState) {
    CheckedCode(s).Some? || s.StateEnteredEmailCodeAPAction? || s.StateSuccess? || s.StateUnknown?
  }

  /** The move a step ends with: its error is the one that was there, or the page it goes to will ask again. */
  datatype LastMove = Stays | Moves(error: string, displayed: bool)

  function Finish(b: Session, x: Session, last: LastMove): Session {
    match last
    case Stays => x
    case Moves(error, displayed) => Move(x.(lastError := error, afadDisplayed := displayed), StepTarget(b.state), ByStep)
  }

  predicate AsksAgain(page: BrowserState, u: Inputs) {
    Asked(page) != [] && Missing(page, u)
  }

  /** A script run while nothing has been displayed yet moves nothing. */
  lemma {:induction false} InitialStays(b: Session, cs: seq<Call>)
    requires b.state.StateInitial?
    ensures PerformAll(b, cs).state.StateInitial?
    decreases cs
  {
    if cs != [] {
      InitialStays(Perform(b, cs[0]), cs[1..]);
    }
  }

  /** A step off the asking pages leaves the browser as its scripts did, or makes its one move from there. */
  ghost predicate HasShape(b: Session, u: Inputs, w: World, x: Session, last: LastMove) {
    IsShaped(b, w, Handle(b, u, w), x, last)
  }

  ghost predicate IsShaped(b: Session, w: World, s: Stepped, x: Session, last: LastMove) {
    && (x == b || x == PerformAll(b, w.calls) || x == PerformAll(PerformAll(b, w.calls), w.callback))
    && s.session == Finish(b, x, last)
    && (last.Moves? ==>
      && StepMove(b.state, x.state, StepTarget(b.state))
      && ((s.result.Next? && AsksAgain(StepTarget(b.state), s.input)) || (last.error == x.lastError && !KeepsError(x.state))))
  }

  lemma {:induction false} ShapeOfCheckedCode(b: Session, u: Inputs, w: World) returns (last: LastMove)
    requires CheckedCode(b.state).Some?
    ensures HasShape(b, u, w, PerformAll(b, w.calls), last)
  {
    var n, s := PerformAll(b, w.calls), Handle(b, u, w);
    last := if s.session == n then Stays else Moves(n.lastError, n.afadDisplayed);
    assert CheckedCode(b.state).value in Asked(StepTarget(b.state));
  }

  lemma {:induction false} ShapeOfAPAction(b: Session, u: Inputs, w: World) returns (last: LastMove)
    requires IsAPAction(b.state)
    ensures HasShape(b, u, w, PerformAll(b, w.calls), last)
  {
    var n, s := PerformAll(b, w.calls), Handle(b, u, w);
    last := if s.session == n then Stays else Moves(n.lastError, n.afadDisplayed);
    assert EmailCode in Asked(StateEmailCodePage);
  }

  lemma {:induction false} AsksForMissing(page: BrowserState, u: Inputs, f: Field)
    requires f in Asked(page) && Input(u, f) == ""
    ensures AsksAgain(page, u)
  {
  }

  lemma {:induction false} ShapeOfRejectedPassword(b: Session, u: Inputs, w: World) returns (last: LastMove)
    requires b.state.StateEnteredEmailPasswordAction?
    ensures IsShaped(b, w, OnEnteredEmailPassword(b, u, w), PerformAll(b, w.calls), last)
  {
    var n, s := PerformAll(b, w.calls), OnEnteredEmailPassword(b, u, w);
    last := Stays;
    if w.failure.InvalidCredentials? || w.failure.NotConnected? {
      AsksForMissing(StateEmailPasswordPage, s.input, Password);
      last := Moves(s.session.lastError, n.afadDisplayed);
    }
  }

  lemma {:induction false} ShapeOfRejectedCode(b: Session, u: Inputs, w: World) returns (last: LastMove)
    requires b.state.StateEnteredEmailCodeAction?
    ensures IsShaped(b, w, OnEnteredEmailCode(b, u, w), PerformAll(b, w.calls), last)
  {
    var n, s := PerformAll(b, w.calls), OnEnteredEmailCode(b, u, w);
    last := Stays;
    if w.failure.PleaseReenter? {
      AsksForMissing(StateEmailCodePage, s.input, EmailCode);
      last := Moves(s.session.lastError, n.afadDisplayed);
    }
  }

  lemma {:induction false} ShapeOfOthers(b: Session, u: Inputs, w: World) returns (x: Session, last: LastMove)
    requires Asked(b.state) == [] && CheckedCode(b.state).None? && !IsAPAction(b.state)
    requires !b.state.StateEnteredEmailPasswordAction? && !b.state.StateEnteredEmailCodeAction?
    ensures HasShape(b, u, w, x, last)
  {
    var n := PerformAll(b, w.calls);
    var m, s := PerformAll(n, w.callback), Handle(b, u, w);
    last := Stays;
    if b.state.StateEnteredCaptchaAction? || b.state.StateAFADAction? {
      x := if w.failure.NoFailure? then m else n;
      if s.session != x {
        last := Moves(m.lastError, b.state.StateAFADAction? || m.afadDisplayed);
      }
    } else if b.state.StateInitial? {
      InitialStays(b, w.calls);
      x := n;
      if w.failure.NoFailure? {
        last := Moves(n.lastError, n.afadDisplayed);
      }
    } else {
      x := if s.session == n then n else b;
      if s.session != n && s.session != b {
        last := Moves(b.lastError, b.afadDisplayed);
      }
    }
  }

  lemma {:induction false} ShapeOfStep(b: Session, u: Inputs, w: World) returns (x: Session, last: LastMove)
    requires Asked(b.state) == []
    ensures HasShape(b, u, w, x, last)
  {
    if CheckedCode(b.state).Some? {
      x := PerformAll(b, w.calls);
      last := ShapeOfCheckedCode(b, u, w);
    } else if IsAPAction(b.state) {
      x := PerformAll(b, w.calls);
      last := ShapeOfAPAction(b, u, w);
    } else if b.state.StateEnteredEmailPasswordAction? {
      x := PerformAll(b, w.calls);
      last := ShapeOfRejectedPassword(b, u, w);
    } else if b.state.StateEnteredEmailCodeAction? {
      x := PerformAll(b, w.calls);
      last := ShapeOfRejectedCode(b, u, w);
    } else {
      x, last := ShapeOfOthers(b, u, w);
    }
  }

  // ----- every step extends the path -----

  lemma {:induction false} HandleIsTracked(b: Session, u: Inputs, w: World)
    requires Tracked(b) && b.during == b.state
    ensures Tracked(Handle(b, u, w).session)
  {
    if Asked(b.state) != [] {
      PageIsTracked(b, u, w);
    } else {
      var x, last := ShapeOfStep(b, u, w);
      PerformAllIsTracked(b, w.calls);
      PerformAllIsTracked(PerformAll(b, w.calls), w.callback);
      if last.Moves? {
        MoveIsTracked(x.(lastError := last.error, afadDisplayed := last.displayed), StepTarget(b.state), ByStep);
      }
    }
  }

  lemma {:induction false} StepsAreTracked(b: Session, u: Inputs, ws: seq<World>)
    requires Tracked(b)
    ensures Tracked(LoginSteps(b, u, ws).session)
    decreases |ws|
  {
    if !b.state.StateSuccess? && ws != [] {
      HandleIsTracked(b.(during := b.state), u, ws[0]);
      var s := LoginStep(b, u, ws[0]);
      if s.result.Next? {
        StepsAreTracked(s.session, s.input, ws[1..]);
      }
    }
  }

  /** Every login's log is a path of legal moves from the initial state to where the browser is. */
  lemma {:induction false} VisitsAreTracked(b: Session, vs: seq<Visit>)
    requires Tracked(b)
    ensures Tracked(Visits(b, vs))
    decreases |vs|
  {
    if vs != [] {
      StepsAreTracked(b, vs[0].input, vs[0].worlds);
      VisitsAreTracked(LoginSteps(b, vs[0].input, vs[0].worlds).session, vs[1..]);
    }
  }

  // ----- success -----

  lemma {:induction false} MovesAreLegal(log: seq<Event>, k: nat)
    requires Consistent(log) && k < |log|
    ensures Legal(log[k]) && (log[k].Moved? ==> log[k].from == Current(log[..k]))
    decreases |log|
  {
    if k < |log| - 1 {
      MovesAreLegal(log[..|log| - 1], k);
      assert log[..|log| - 1][..k] == log[..k];
    }
  }

  ghost predicate AcceptedResponse(e: Event, data: Option<string>) {
    e.Moved? && e.cause.ByLoginResponse? && AcceptsLoginResponse(e.from) && data == Some(e.cause.data)
  }

  /** A successful state carries the data of the response that led to it. */
  lemma {:induction false} SuccessHasResponse(log: seq<Event>)
    requires Consistent(log) && Current(log).StateSuccess?
    ensures HasAccepted(log, LastResponse(log))
  {
    var front, last := log[..|log| - 1], log[|log| - 1];
    if !last.Moved? {
      SuccessHasResponse(front);
      var k :| 0 <= k < |front| && AcceptedResponse(front[k], LastResponse(front));
      assert log[k] == front[k];
    } else {
      assert AcceptedResponse(log[|log| - 1], LastResponse(log));
    }
  }

  /** Every move to success is made by a login response, in one of the nine states that accept one. */
  ghost predicate SuccessIsEarned(log: seq<Event>) {
    forall k :: 0 <= k < |log| && log[k].Moved? && log[k].to.StateSuccess?
      ==> log[k].cause.ByLoginResponse? && AcceptsLoginResponse(log[k].from)
  }

  lemma {:induction false} ConsistentIsEarned(log: seq<Event>)
    requires Consistent(log)
    ensures SuccessIsEarned(log)
  {
    forall k | 0 <= k < |log| && log[k].Moved? && log[k].to.StateSuccess?
      ensures log[k].cause.ByLoginResponse? && AcceptsLoginResponse(log[k].from)
    {
      MovesAreLegal(log, k);
    }
  }

  ghost predicate HasAccepted(log: seq<Event>, data: Option<string>) {
    exists k :: 0 <= k < |log| && AcceptedResponse(log[k], data)
  }

  /** Success is always earned, and a login that reports it returns the data of a response that was accepted. */
  lemma {:induction false} SuccessOnlyByLoginResponse(vs: seq<Visit>, input: Inputs, ws: seq<World>)
    ensures var all := LoginSteps(Visits(NEW_SESSION, vs), input, ws);
      SuccessIsEarned(all.session.log) && (all.ending.Succeeded? ==> HasAccepted(all.session.log, all.ending.data))
  {
    var b := Visits(NEW_SESSION, vs);
    VisitsAreTracked(NEW_SESSION, vs);
    StepsAreTracked(b, input, ws);
    var all := LoginSteps(b, input, ws);
    ConsistentIsEarned(all.session.log);
    if all.ending.Succeeded? {
      EndsInSuccess(b, input, ws);
      SuccessHasResponse(all.session.log);
    }
  }

  lemma {:induction false} EndsInSuccess(b: Session, u: Inputs, ws: seq<World>)
    requires LoginSteps(b, u, ws).ending.Succeeded?
    ensures var all := LoginSteps(b, u, ws); all.session.state.StateSuccess? && all.ending.data == all.session.loginData
    decreases |ws|
  {
    if !b.state.StateSuccess? {
      var s := LoginStep(b, u, ws[0]);
      EndsInSuccess(s.session, s.input, ws[1..]);
    }
  }

  // ----- credentials -----

  predicate Crossing(e: Event) {
    e.Moved? && e.from.StateEmailPasswordPage? && PastCredentials(e.to)
  }

  ghost predicate HasCrossed(log: seq<Event>) {
    exists k :: 0 <= k < |log| && Crossing(log[k])
  }

  /**
   A crossing comes directly after a move, that to the page, when it is made while still redirecting to the page, and
   otherwise directly after one of the other events of its own step.
   */
  ghost predicate Ordered(log: seq<Event>) {
    forall k :: 0 <= k < |log| && Crossing(log[k]) ==> k > 0 && (log[k].during.StateRedirectToLoginAction? <==> log[k - 1].Moved?)
  }

  predicate EndsInMove(log: seq<Event>) {
    log != [] && log[|log| - 1].Moved?
  }

  predicate EndsInOther(log: seq<Event>) {
    log != [] && !log[|log| - 1].Moved?
  }

  ghost predicate Guarded(b: Session) {
    && Ordered(b.log)
    && (PastCredentials(b.state) ==> HasCrossed(b.log))
    && (b.state.StateRedirectToLoginAction? ==> EndsInMove(b.log))
  }

  /** The states that no script can leave and in which nothing has been displayed yet. */
  predicate Motionless(s: BrowserState) {
    s.StateTestCaptcha? || s.StateInitial?
  }

  /** Where the scripts of a step can take the browser, from where the step began. */
  ghost predicate InZone(b: Session) {
    if Motionless(b.during) then b.state == b.during
    else if b.during.StateRedirectToLoginAction? then EndsInMove(b.log)
    else if b.during.StateEmailPasswordPage? then
      if b.state.StateEmailPasswordPage? then EndsInOther(b.log) else PastCredentials(b.state) || b.state.StateUnknown?
    else (PastCredentials(b.state) || b.state.StateUnknown?) && (PastCredentials(b.during) ==> HasCrossed(b.log))
  }

  ghost predicate ScriptGuarded(b: Session) {
    Ordered(b.log) && InZone(b) && (PastCredentials(b.state) ==> HasCrossed(b.log))
  }

  lemma {:induction false} LongerLog(log: seq<Event>, e: Event)
    ensures HasCrossed(log + [e]) <==> HasCrossed(log) || Crossing(e)
    ensures EndsInMove(log + [e]) == e.Moved? && EndsInOther(log + [e]) == !e.Moved?
    ensures Ordered(log) && (Crossing(e) ==> if e.during.StateRedirectToLoginAction? then EndsInMove(log) else EndsInOther(log))
      ==> Ordered(log + [e])
  {
    var longer := log + [e];
    assert forall k :: 0 <= k < |log| ==> longer[k] == log[k];
    assert longer[|log|] == e;
  }

  /** The moves a script can make. */
  predicate ScriptMove(from: BrowserState, to: BrowserState) {
    || to.StateUnknown?
    || (from.StateRedirectToLoginAction? && to.StateEmailPasswordPage?)
    || (from.StateEmailPasswordPage? && to.StateEnteredEmailPasswordAction?)
    || (PastCredentials(from) && PastCredentials(to))
  }

  lemma {:induction false} MoveIsGuarded(b: Session, to: BrowserState, cause: Cause)
    requires ScriptGuarded(b) && ScriptMove(b.state, to) && !Motionless(b.during)
    ensures ScriptGuarded(Move(b, to, cause))
  {
    LongerLog(b.log, Moved(b.state, to, cause, b.during));
  }

  lemma {:induction false} TablesAreScriptMoves(rpc: Rpc, screen: Screen, from: BrowserState)
    ensures ScriptMove(from, RpcTarget(rpc, from)) && ScriptMove(from, ScreenTarget(screen, from))
    ensures Motionless(from) ==> RpcTarget(rpc, from).StateUnknown? && ScreenTarget(screen, from).StateUnknown?
  {
  }

  lemma {:induction false} PerformIsGuarded(b: Session, c: Call)
    requires ScriptGuarded(b)
    ensures ScriptGuarded(Perform(b, c)) && Perform(b, c).during == b.during
    decreases c
  {
    match c {
      case CallRPC(rpc, answered, setup, setupFails) =>
        PerformAllIsGuarded(b, setup);
        var n := PerformAll(b, setup);
        var to := RpcTarget(rpc, n.state);
        TablesAreScriptMoves(rpc, LoginHomepage, b.state);
        TablesAreScriptMoves(rpc, LoginHomepage, n.state);
        if !Motionless(b.during) {
          MoveIsGuarded(n, to, ByRpc(rpc));
          if to.StateSendSMSAction? {
            MoveIsGuarded(Move(n, to, ByRpc(rpc)), StateSMSPageAfterSend, ByRpc(rpc));
          } else if to.StateSendWhatsAppAction? {
            MoveIsGuarded(Move(n, to, ByRpc(rpc)), StateWhatsAppPageAfterSend, ByRpc(rpc));
          }
        }
      case CallNewScreen(screen, setup, setupFails) =>
        PerformAllIsGuarded(b, setup);
        var n := PerformAll(b, setup);
        TablesAreScriptMoves(UnexpectedRpc, screen, b.state);
        TablesAreScriptMoves(UnexpectedRpc, screen, n.state);
        if !Motionless(b.during) {
          MoveIsGuarded(n, ScreenTarget(screen, n.state), ByScreen(screen));
        }
      case CallLoginResponse(data) =>
        if AcceptsLoginResponse(b.state) {
          MoveIsGuarded(b.(loginData := Some(data)), StateSuccess, ByLoginResponse(data));
        }
      case CallVariableChange(_, _) =>
      case CallTimer(_, _) =>
      case CallURL =>
    }
  }

  lemma {:induction false} PerformAllIsGuarded(b: Session, cs: seq<Call>)
    requires ScriptGuarded(b)
    ensures ScriptGuarded(PerformAll(b, cs)) && PerformAll(b, cs).during == b.during
    decreases cs
  {
    if cs != [] {
      PerformIsGuarded(b, cs[0]);
      PerformAllIsGuarded(Perform(b, cs[0]), cs[1..]);
    }
  }

  lemma {:induction false} StepMoveIsGuarded(b: Session, x: Session)
    requires ScriptGuarded(x) && x.during == b.state && !StepTarget(b.state).StateUnknown?
    ensures Guarded(Move(x, StepTarget(b.state), ByStep))
  {
    LongerLog(x.log, Moved(x.state, StepTarget(b.state), ByStep, x.during));
  }

  lemma {:induction false} CredentialsAreGuarded(b: Session, u: Inputs, w: World)
    requires Guarded(b) && b.during == b.state && b.state.StateEmailPasswordPage?
    ensures Guarded(OnCredentials(b, u, w).session)
  {
    var submitted := Submitted(Input(u, Username), Input(u, Password));
    LongerLog(b.log, Filling);
    PerformAllIsGuarded(Log(b, Filling), w.fills);
    var n := PerformAll(Log(b, Filling), w.fills);
    LongerLog(n.log, submitted);
    PerformAllIsGuarded(Log(n, submitted), w.calls);
  }

  lemma {:induction false} HandleIsGuarded(b: Session, u: Inputs, w: World)
    requires Guarded(b) && b.during == b.state
    ensures Guarded(Handle(b, u, w).session)
  {
    if b.state.StateEmailPasswordPage? {
      CredentialsAreGuarded(b, u, w);
    } else {
      assert ScriptGuarded(b);
      if Asked(b.state) == [] {
        OtherStepIsGuarded(b, u, w);
      } else {
        PerformAllIsGuarded(b, w.calls);
      }
    }
  }

  lemma {:induction false} OtherStepIsGuarded(b: Session, u: Inputs, w: World)
    requires Guarded(b) && ScriptGuarded(b) && b.during == b.state && Asked(b.state) == []
    ensures Guarded(Handle(b, u, w).session)
  {
    var x, last := ShapeOfStep(b, u, w);
    PerformAllIsGuarded(b, w.calls);
    PerformAllIsGuarded(PerformAll(b, w.calls), w.callback);
    if last.Moves? {
      StepMoveIsGuarded(b, x.(lastError := last.error, afadDisplayed := last.displayed));
    }
  }

  lemma {:induction false} StepsAreGuarded(b: Session, u: Inputs, ws: seq<World>)
    requires Guarded(b)
    ensures Guarded(LoginSteps(b, u, ws).session)
    decreases |ws|
  {
    if !b.state.StateSuccess? && ws != [] {
      HandleIsGuarded(b.(during := b.state), u, ws[0]);
      var s := LoginStep(b, u, ws[0]);
      if s.result.Next? {
        StepsAreGuarded(s.session, s.input, ws[1..]);
      }
    }
  }

  lemma {:induction false} VisitsAreGuarded(b: Session, vs: seq<Visit>)
    requires Guarded(b)
    ensures Guarded(Visits(b, vs))
    decreases |vs|
  {
    if vs != [] {
      StepsAreGuarded(b, vs[0].input, vs[0].worlds);
      VisitsAreGuarded(LoginSteps(b, vs[0].input, vs[0].worlds).session, vs[1..]);
    }
  }

  /** The login request is made in the step that is still redirecting to the page, or while its inputs are being filled in. */
  predicate IsHasty(log: seq<Event>, k: nat)
    requires k < |log|
  {
    Crossing(log[k]) && (log[k].during.StateRedirectToLoginAction? || (k > 0 && log[k - 1].Filling?))
  }

  ghost predicate LoginRequestedTooEarly(log: seq<Event>) {
    exists k :: 0 <= k < |log| && IsHasty(log, k)
  }

  /** The crossing comes directly after the submission of a username and a password, neither of them empty. */
  predicate FollowsSubmission(log: seq<Event>, k: nat)
    requires k < |log|
  {
    k > 0 && log[k - 1].Submitted? && log[k - 1].username != "" && log[k - 1].password != ""
  }

  /**
   Every way past the credentials page comes directly after a username and a password have been submitted, exactly when
   no script makes the login request while it is still redirecting to the page or while the inputs are being filled in.
   */
  lemma {:induction false} CredentialsComeFirstExactly(vs: seq<Visit>)
    ensures var log := Visits(NEW_SESSION, vs).log;
      (forall k :: 0 <= k < |log| && Crossing(log[k]) ==> FollowsSubmission(log, k)) <==> !LoginRequestedTooEarly(log)
  {
    VisitsAreGuarded(NEW_SESSION, vs);
    VisitsAreTracked(NEW_SESSION, vs);
    var log := Visits(NEW_SESSION, vs).log;
    forall k | 0 <= k < |log| && Crossing(log[k])
      ensures FollowsSubmission(log, k) <==> !IsHasty(log, k)
    {
      MovesAreLegal(log, k - 1);
    }
  }

  ghost predicate HasCredentials(log: seq<Event>) {
    exists k :: 0 <= k < |log| && log[k].Submitted? && log[k].username != "" && log[k].password != ""
  }

  /** Being past the credentials page then means that a username and a password, neither of them empty, were submitted. */
  lemma {:induction false} PastMeansSubmitted(vs: seq<Visit>)
    requires var b := Visits(NEW_SESSION, vs); PastCredentials(b.state) && !LoginRequestedTooEarly(b.log)
    ensures HasCredentials(Visits(NEW_SESSION, vs).log)
  {
    VisitsAreGuarded(NEW_SESSION, vs);
    CredentialsComeFirstExactly(vs);
    var log := Visits(NEW_SESSION, vs).log;
    var k :| 0 <= k < |log| && Crossing(log[k]);
    assert FollowsSubmission(log, k);
  }

  // ----- scripts that wait for the credentials -----

  /** The call does not make the login request, and neither does any script that it sets up. */
  predicate NoLoginRequest(c: Call)
    decreases c
  {
    match c
    case CallRPC(rpc, _, setup, _) => !rpc.LoginAsyncSendLoginRequest? && NoLoginRequests(setup)
    case CallNewScreen(_, setup, _) => NoLoginRequests(setup)
    case _ => true
  }

  predicate NoLoginRequests(cs: seq<Call>)
    decreases cs
  {
    cs == [] || (NoLoginRequest(cs[0]) && NoLoginRequests(cs[1..]))
  }

  /** No script makes the login request while the page's inputs are filled in, or in a step that begins by redirecting to it. */
  predicate Waits(b: Session, w: World) {
    && (b.state.StateEmailPasswordPage? ==> NoLoginRequests(w.fills))
    && (b.state.StateRedirectToLoginAction? ==> NoLoginRequests(w.calls))
  }

  predicate StepsWait(b: Session, u: Inputs, ws: seq<World>)
    decreases |ws|
  {
    ws == [] || (Waits(b, ws[0]) && (var s := LoginStep(b, u, ws[0]); s.result.Next? ==> StepsWait(s.session, s.input, ws[1..])))
  }

  predicate VisitsWait(b: Session, vs: seq<Visit>)
    decreases |vs|
  {
    vs == [] ||
    (StepsWait(b, vs[0].input, vs[0].worlds) && VisitsWait(LoginSteps(b, vs[0].input, vs[0].worlds).session, vs[1..]))
  }

  predicate EndsInFilling(log: seq<Event>) {
    log != [] && log[|log| - 1].Filling?
  }

  /** Between steps: an input that was filled in last was filled in on the credentials page. */
  ghost predicate Patient(b: Session) {
    !LoginRequestedTooEarly(b.log) && (EndsInFilling(b.log) ==> b.state.StateEmailPasswordPage?)
  }

  /** While scripts run that may make the login request. */
  ghost predicate ScriptPatient(b: Session) {
    !LoginRequestedTooEarly(b.log) && !b.during.StateRedirectToLoginAction? && !EndsInFilling(b.log)
  }

  lemma {:induction false} OneMoreEvent(log: seq<Event>, e: Event)
    requires !LoginRequestedTooEarly(log)
    requires Crossing(e) ==> !e.during.StateRedirectToLoginAction? && !EndsInFilling(log)
    ensures !LoginRequestedTooEarly(log + [e]) && EndsInFilling(log + [e]) == e.Filling?
  {
    var longer := log + [e];
    forall k | 0 <= k < |longer| ensures !IsHasty(longer, k) {
      if k < |log| {
        assert longer[k] == log[k] && (k > 0 ==> longer[k - 1] == log[k - 1]);
        assert !IsHasty(log, k);
      }
    }
  }

  lemma {:induction false} MoveIsPatient(b: Session, to: BrowserState, cause: Cause)
    requires ScriptPatient(b)
    ensures ScriptPatient(Move(b, to, cause))
  {
    OneMoreEvent(b.log, Moved(b.state, to, cause, b.during));
  }

  lemma {:induction false} PerformIsPatient(b: Session, c: Call)
    requires ScriptPatient(b)
    ensures ScriptPatient(Perform(b, c)) && Perform(b, c).during == b.during
    decreases c
  {
    match c {
      case CallRPC(rpc, _, setup, _) =>
        PerformAllIsPatient(b, setup);
        var n := PerformAll(b, setup);
        var m := Move(n, RpcTarget(rpc, n.state), ByRpc(rpc));
        MoveIsPatient(n, m.state, ByRpc(rpc));
        MoveIsPatient(m, StateSMSPageAfterSend, ByRpc(rpc));
        MoveIsPatient(m, StateWhatsAppPageAfterSend, ByRpc(rpc));
      case CallNewScreen(screen, setup, _) =>
        PerformAllIsPatient(b, setup);
        var n := PerformAll(b, setup);
        MoveIsPatient(n, ScreenTarget(screen, n.state), ByScreen(screen));
      case CallLoginResponse(data) => MoveIsPatient(b.(loginData := Some(data)), StateSuccess, ByLoginResponse(data));
      case CallVariableChange(_, _) =>
      case CallTimer(_, _) =>
      case CallURL =>
    }
  }

  lemma {:induction false} PerformAllIsPatient(b: Session, cs: seq<Call>)
    requires ScriptPatient(b)
    ensures ScriptPatient(PerformAll(b, cs)) && PerformAll(b, cs).during == b.during
    decreases cs
  {
    if cs != [] {
      PerformIsPatient(b, cs[0]);
      PerformAllIsPatient(Perform(b, cs[0]), cs[1..]);
    }
  }

  /** What a script without the login request leaves: if it has moved at all, the log ends in a move. */
  ghost predicate WaitedFrom(b: Session, n: Session) {
    !LoginRequestedTooEarly(n.log) && (EndsInFilling(n.log) ==> EndsInFilling(b.log) && n.state == b.state)
  }

  lemma {:induction false} QuietMove(b: Session, to: BrowserState, cause: Cause)
    requires !LoginRequestedTooEarly(b.log) && (b.state.StateEmailPasswordPage? ==> !PastCredentials(to))
    ensures WaitedFrom(b, Move(b, to, cause)) && !EndsInFilling(Move(b, to, cause).log)
  {
    OneMoreEvent(b.log, Moved(b.state, to, cause, b.during));
  }

  lemma {:induction false} QuietCallWaits(b: Session, c: Call)
    requires !LoginRequestedTooEarly(b.log) && NoLoginRequest(c)
    ensures WaitedFrom(b, Perform(b, c))
    decreases c
  {
    match c {
      case CallRPC(rpc, _, setup, _) =>
        QuietScriptWaits(b, setup);
        var n := PerformAll(b, setup);
        var m := Move(n, RpcTarget(rpc, n.state), ByRpc(rpc));
        QuietMove(n, m.state, ByRpc(rpc));
        if m.state.StateSendSMSAction? {
          QuietMove(m, StateSMSPageAfterSend, ByRpc(rpc));
        } else if m.state.StateSendWhatsAppAction? {
          QuietMove(m, StateWhatsAppPageAfterSend, ByRpc(rpc));
        }
      case CallNewScreen(screen, setup, _) =>
        QuietScriptWaits(b, setup);
        var n := PerformAll(b, setup);
        QuietMove(n, ScreenTarget(screen, n.state), ByScreen(screen));
      case CallLoginResponse(data) =>
        if AcceptsLoginResponse(b.state) {
          QuietMove(b.(loginData := Some(data)), StateSuccess, ByLoginResponse(data));
        }
      case CallVariableChange(_, _) =>
      case CallTimer(_, _) =>
      case CallURL =>
    }
  }

  lemma {:induction false} QuietScriptWaits(b: Session, cs: seq<Call>)
    requires !LoginRequestedTooEarly(b.log) && NoLoginRequests(cs)
    ensures WaitedFrom(b, PerformAll(b, cs))
    decreases cs
  {
    if cs != [] {
      QuietCallWaits(b, cs[0]);
      QuietScriptWaits(Perform(b, cs[0]), cs[1..]);
    }
  }

  lemma {:induction false} CredentialsArePatient(b: Session, u: Inputs, w: World)
    requires Patient(b) && b.during == b.state && b.state.StateEmailPasswordPage? && NoLoginRequests(w.fills)
    ensures Patient(OnCredentials(b, u, w).session)
  {
    var submitted := Submitted(Input(u, Username), Input(u, Password));
    OneMoreEvent(b.log, Filling);
    QuietScriptWaits(Log(b, Filling), w.fills);
    var n := PerformAll(Log(b, Filling), w.fills);
    OneMoreEvent(n.log, submitted);
    if !w.fillsFail && !IsPhoneNumber(Input(u, Username)) {
      FillingKeepsStep(Log(b, Filling), w.fills);
      PerformAllIsPatient(Log(n, submitted), w.calls);
    }
  }

  lemma {:induction false} FillingKeepsStep(b: Session, cs: seq<Call>)
    ensures PerformAll(b, cs).during == b.during
    decreases cs
  {
    if cs != [] {
      CallKeepsStep(b, cs[0]);
      FillingKeepsStep(Perform(b, cs[0]), cs[1..]);
    }
  }

  lemma {:induction false} CallKeepsStep(b: Session, c: Call)
    ensures Perform(b, c).during == b.during
    decreases c
  {
    if c.CallRPC? || c.CallNewScreen? {
      FillingKeepsStep(b, c.setup);
    }
  }

  lemma {:induction false} HandleIsPatient(b: Session, u: Inputs, w: World)
    requires Patient(b) && b.during == b.state && Waits(b, w)
    ensures Patient(Handle(b, u, w).session)
  {
    if b.state.StateEmailPasswordPage? {
      CredentialsArePatient(b, u, w);
    } else if b.state.StateRedirectToLoginAction? {
      QuietScriptWaits(b, w.calls);
    } else {
      assert ScriptPatient(b);
      PerformAllIsPatient(b, w.calls);
      if Asked(b.state) == [] {
        var x, last := ShapeOfStep(b, u, w);
        PerformAllIsPatient(PerformAll(b, w.calls), w.callback);
        if last.Moves? {
          MoveIsPatient(x.(lastError := last.error, afadDisplayed := last.displayed), StepTarget(b.state), ByStep);
        }
      }
    }
  }

  lemma {:induction false} StepsArePatient(b: Session, u: Inputs, ws: seq<World>)
    requires Patient(b) && StepsWait(b, u, ws)
    ensures Patient(LoginSteps(b, u, ws).session)
    decreases |ws|
  {
    if !b.state.StateSuccess? && ws != [] {
      HandleIsPatient(b.(during := b.state), u, ws[0]);
      var s := LoginStep(b, u, ws[0]);
      if s.result.Next? {
        StepsArePatient(s.session, s.input, ws[1..]);
      }
    }
  }

  lemma {:induction false} VisitsArePatient(b: Session, vs: seq<Visit>)
    requires Patient(b) && VisitsWait(b, vs)
    ensures Patient(Visits(b, vs))
    decreases |vs|
  {
    if vs != [] {
      StepsArePatient(b, vs[0].input, vs[0].worlds);
      VisitsArePatient(LoginSteps(b, vs[0].input, vs[0].worlds).session, vs[1..]);
    }
  }

  /**
   When no script that fills in inputs, and no script of a step that redirects to the page, has the login request anywhere
   in it, no login gets past the page before a username and a password have been submitted.
   */
  lemma {:induction false} WaitingScriptsNeedCredentials(vs: seq<Visit>)
    requires VisitsWait(NEW_SESSION, vs)
    ensures var b := Visits(NEW_SESSION, vs);
      && (forall k :: 0 <= k < |b.log| && Crossing(b.log[k]) ==> FollowsSubmission(b.log, k))
      && (PastCredentials(b.state) ==> HasCredentials(b.log))
  {
    VisitsArePatient(NEW_SESSION, vs);
    CredentialsComeFirstExactly(vs);
    if PastCredentials(Visits(NEW_SESSION, vs).state) {
      PastMeansSubmitted(vs);
    }
  }

  const QUIET := World([], false, [], NoFailure, [], false, false, {})

  /** One script that displays the login page and at once makes the login request gets past it without credentials. */
  const HASTY := QUIET.(calls := [CallNewScreen(LoginHomepage, [], false), CallRPC(LoginAsyncSendLoginRequest, true, [], false)])

  lemma {:induction false} HastyScript(b: Session)
    requires b.state.StateRedirectToLoginAction? && b.during == b.state
    ensures var page := Move(b, StateEmailPasswordPage, ByScreen(LoginHomepage));
      PerformAll(b, HASTY.calls) == Move(page, StateEnteredEmailPasswordAction, ByRpc(LoginAsyncSendLoginRequest))
  {
    var page := Move(b, StateEmailPasswordPage, ByScreen(LoginHomepage));
    assert PerformAll(b, []) == b && PerformAll(page, []) == page;
    assert Perform(b, HASTY.calls[0]) == page;
    assert HASTY.calls[1..] == [HASTY.calls[1]] && HASTY.calls[1..][1..] == [];
  }

  lemma {:induction false} HastyScriptNeedsNoCredentials()
    ensures var b := Visits(NEW_SESSION, [Visit(map[], [QUIET, HASTY])]);
      b.state.StateEnteredEmailPasswordAction? && !HasCredentials(b.log) && |b.log| == 3 && IsHasty(b.log, 2)
  {
    var b1 := Move(NEW_SESSION, StateRedirectToLoginAction, ByStep);
    assert LoginStep(NEW_SESSION, map[], QUIET) == Stepped(b1, map[], Next);
    HastyStep(b1, map[]);
    var b2 := LoginStep(b1, map[], HASTY).session;
    OneStep(b1, map[], HASTY, [], b2);
    OneStep(NEW_SESSION, map[], QUIET, [HASTY], b1);
    assert [QUIET] + [HASTY] == [QUIET, HASTY];
  }

  lemma {:induction false} HastyStep(b: Session, u: Inputs)
    requires b.state.StateRedirectToLoginAction? && b.during == StateInitial
    ensures var s := LoginStep(b, u, HASTY);
      && s.result.Next? && s.input == u && s.session.state.StateEnteredEmailPasswordAction?
      && |s.session.log| == |b.log| + 2 && s.session.log[..|b.log|] == b.log
      && s.session.log[|b.log|].Moved? && IsHasty(s.session.log, |b.log| + 1)
  {
    HastyScript(b.(during := b.state));
  }

  lemma {:induction false} OneStep(b: Session, u: Inputs, w: World, rest: seq<World>, b': Session)
    requires !b.state.StateSuccess? && LoginStep(b, u, w) == Stepped(b', u, Next) && !b'.state.StateSuccess?
    ensures LoginSteps(b, u, [w] + rest) == LoginSteps(b', u, rest)
    ensures rest == [] ==> LoginSteps(b, u, [w] + rest) == Driven(b', u, CutOff) && [w] + rest == [w]
  {
    assert ([w] + rest)[1..] == rest;
  }

  /** A page that makes the login request as soon as its first input changes gets past it before the credentials are in. */
  const EAGER := QUIET.(fills := [CallRPC(LoginAsyncSendLoginRequest, true, [], false)], fillsFail := true)

  lemma {:induction false} EagerPageNeedsNoPassword(b: Session, u: Inputs)
    requires b.state.StateEmailPasswordPage? && !Missing(b.state, u) && !IsPhoneNumber(Input(u, Username))
    ensures var s := LoginStep(b, u, EAGER);
      && s.session.state.StateEnteredEmailPasswordAction? && s.session.log[..|b.log|] == b.log
      && |s.session.log| == |b.log| + 2 && IsHasty(s.session.log, |b.log| + 1)
  {
    var n := Log(b.(during := b.state), Filling);
    assert EAGER.fills[1..] == [] && PerformAll(n, []) == n;
    assert PerformAll(n, EAGER.fills) == Move(n, StateEnteredEmailPasswordAction, ByRpc(LoginAsyncSendLoginRequest));
  }

  // ----- rejected input -----

  ghost predicate ErrorIsKept(b: Session) {
    b.lastError != "" ==> KeepsError(b.state)
  }

  /** Between steps, a page with a last error is one that will ask. */
  ghost predicate ErrorIsKeptOrAsked(b: Session, u: Inputs) {
    b.lastError != "" ==> KeepsError(b.state) || AsksAgain(b.state, u)
  }

  lemma {:induction false} PerformKeepsError(b: Session, c: Call)
    requires ErrorIsKept(b)
    ensures ErrorIsKept(Perform(b, c))
    decreases c
  {
    match c {
      case CallRPC(rpc, answered, setup, setupFails) =>
        PerformAllKeepsError(b, setup);
      case CallNewScreen(screen, setup, setupFails) =>
        PerformAllKeepsError(b, setup);
      case CallLoginResponse(_) =>
      case CallVariableChange(_, _) =>
      case CallTimer(_, _) =>
      case CallURL =>
    }
  }

  lemma {:induction false} PerformAllKeepsError(b: Session, cs: seq<Call>)
    requires ErrorIsKept(b)
    ensures ErrorIsKept(PerformAll(b, cs))
    decreases cs
  {
    if cs != [] {
      PerformKeepsError(b, cs[0]);
      PerformAllKeepsError(Perform(b, cs[0]), cs[1..]);
    }
  }

  lemma {:induction false} HandleKeepsError(b: Session, u: Inputs, w: World)
    requires ErrorIsKeptOrAsked(b, u)
    ensures var s := Handle(b, u, w);
      ErrorIsKeptOrAsked(s.session, s.input) && (!s.result.Next? ==> ErrorIsKept(s.session))
  {
    if Asked(b.state) != [] {
      if !Missing(b.state, u) {
        PerformAllKeepsError(b, w.calls);
        PerformAllKeepsError(Log(b, Filling), w.fills);
        var n := PerformAll(Log(b, Filling), w.fills);
        PerformAllKeepsError(Log(n, Submitted(Input(u, Username), Input(u, Password))), w.calls);
      }
    } else {
      var x, last := ShapeOfStep(b, u, w);
      PerformAllKeepsError(b, w.calls);
      PerformAllKeepsError(PerformAll(b, w.calls), w.callback);
    }
  }

  lemma {:induction false} StepsKeepError(b: Session, u: Inputs, ws: seq<World>)
    requires ErrorIsKeptOrAsked(b, u)
    ensures var all := LoginSteps(b, u, ws);
      ErrorIsKeptOrAsked(all.session, all.input) && (all.ending.CutOff? || ErrorIsKept(all.session))
    decreases |ws|
  {
    if !b.state.StateSuccess? && ws != [] {
      HandleKeepsError(b.(during := b.state), u, ws[0]);
      var s := LoginStep(b, u, ws[0]);
      if s.result.Next? {
        StepsKeepError(s.session, s.input, ws[1..]);
      }
    }
  }

  /** Calls of the driver that came back to the user, whether with a question, a success or an error. */
  ghost predicate Returned(b: Session, vs: seq<Visit>)
    decreases |vs|
  {
    vs != [] ==>
      var all := LoginSteps(b, vs[0].input, vs[0].worlds);
      !all.ending.CutOff? && Returned(all.session, vs[1..])
  }

  lemma {:induction false} VisitsKeepError(b: Session, vs: seq<Visit>)
    requires ErrorIsKept(b) && Returned(b, vs)
    ensures ErrorIsKept(Visits(b, vs))
    decreases |vs|
  {
    if vs != [] {
      StepsKeepError(b, vs[0].input, vs[0].worlds);
      VisitsKeepError(LoginSteps(b, vs[0].input, vs[0].worlds).session, vs[1..]);
    }
  }

  /**
   Whenever a step begins on an asking page with a last error, the rejected input is gone: the step runs no script and
   submits nothing, but asks for the page's fields with that error and clears it.
   */
  lemma {:induction false} RejectedInputIsAskedForAgain(vs: seq<Visit>, input: Inputs, ws: seq<World>, w: World)
    requires Returned(NEW_SESSION, vs)
    requires var all := LoginSteps(Visits(NEW_SESSION, vs), input, ws);
      all.ending.CutOff? && Asked(all.session.state) != [] && all.session.lastError != ""
    ensures var all := LoginSteps(Visits(NEW_SESSION, vs), input, ws);
      LoginStep(all.session, all.input, w) ==
      Stepped(all.session.(during := all.session.state, lastError := ""), all.input, Ask(Asked(all.session.state), all.session.lastError))
  {
    var b := Visits(NEW_SESSION, vs);
    VisitsKeepError(NEW_SESSION, vs);
    StepsKeepError(b, input, ws);
    var all := LoginSteps(b, input, ws);
    PageAsks(all.session, all.input, w);
  }

  lemma {:induction false} PageAsks(b: Session, u: Inputs, w: World)
    requires ErrorIsKeptOrAsked(b, u) && b.lastError != "" && Asked(b.state) != []
    ensures LoginStep(b, u, w) == Stepped(b.(during := b.state, lastError := ""), u, Ask(Asked(b.state), b.lastError))
  {
  }

  /**
   Whatever action of the authentication platform a step begins in, and whatever its script does: a script that leaves an
   email code rejected sends the user back to the page with that error, without that code and with all other input, and
   no step that goes well ends in the code's own action with an error.
   */
  lemma {:induction false} RejectionIsSeenInEveryAPAction(b: Session, u: Inputs, w: World)
    requires IsAPAction(b.state)
    ensures var s := LoginStep(b, u, w);
      !s.result.Error? && s.session.state.StateEnteredEmailCodeAPAction? ==> s.session.lastError == ""
    ensures var n := PerformAll(b.(during := b.state), w.calls);
      w.failure.NoFailure? && n.state.StateEnteredEmailCodeAPAction? && n.lastError != "" ==>
        var s := LoginStep(b, u, w);
        && s.result.Next? && s.session == Move(n, StateEmailCodePage, ByStep)
        && Input(s.input, EmailCode) == "" && forall f :: f != EmailCode ==> Input(s.input, f) == Input(u, f)
  {
    var s := LoginStep(b, u, w);
    assert s == OnAPAction(b.(during := b.state), u, w) || s.result.Error?;
  }

  /** A script that displays the code page, sends a code and has it rejected, all in one step. */
  function CodeScript(error: string): World {
    QUIET.(calls := [CallRPC(ApCodeEntry, true, [], false), CallRPC(ApCodeEntryAsync, true, [], false),
                     CallVariableChange(AuthPlatformCodeError, Some(error))])
  }

  /** There are such scripts: this step began in the action that chose the method. */
  lemma {:induction false} CodeScriptIsRejected(b: Session, u: Inputs, error: string)
    requires b.state.StateChosenMFAAPAction? && error != ""
    ensures var s := LoginStep(b, u, CodeScript(error));
      && s.result.Next? && s.session.state.StateEmailCodePage? && s.session.lastError == error
      && Input(s.input, EmailCode) == ""
  {
    var calls := CodeScript(error).calls;
    var b0 := b.(during := b.state);
    var b1 := Move(b0, StateEmailCodePage, ByRpc(ApCodeEntry));
    var b2 := Move(b1, StateEnteredEmailCodeAPAction, ByRpc(ApCodeEntryAsync));
    assert PerformAll(b0, []) == b0 && PerformAll(b1, []) == b1;
    assert Perform(b0, calls[0]) == b1 && Perform(b1, calls[1]) == b2;
    assert calls[1..][1..] == [calls[2]] && calls[1..][1..][1..] == [];
    assert PerformAll(b2, calls[1..][1..]) == b2.(lastError := error);
    assert PerformAll(b1, calls[1..]) == b2.(lastError := error);
    assert PerformAll(b0, calls) == b2.(lastError := error);
  }
}
