/** The states of the scripted login browser of pkg/messagix/bloks/selenium.go, and the tables its bridge callbacks keep. */
module LoginStates {
  import opened Common

  datatype BrowserState =
    | StateUnknown
    | StateTestCaptcha
    | StateInitial
    | StateRedirectToLoginAction
    | StateEmailPasswordPage
    | StateEnteredEmailPasswordAction
    | StateEmailCodePage
    | StateEnteredEmailCodeAction
    | StateEnteredEmailCodeAPAction
    | StateRedirectToMFALandingAction
    | StateCaptchaPage
    | StateEnteredCaptchaAction
    | StateMFALandingAPAction
    | StateMFALandingPage
    | StatePossibleMandatoryAFADPage
    | StateChooseMFAAPAction
    | StateChooseMFAPage
    | StateChosenMFAAPAction
    | StateChosenMFAAction
    | StateAFADPage
    | StateAFADAction
    | StateAFADWait
    | StateAFADCompleteAction
    | StateTOTPPage
    | StateEnteredTOTPAction
    | StateOAuthPage
    | StateSMSPage
    | StateSMSPageAfterSend
    | StateSendSMSAction
    | StateEnteredSMSAction
    | StateBackupCodePage
    | StateEnteredBackupCodeAction
    | StateWhatsAppPage
    | StateWhatsAppPageAfterSend
    | StateSendWhatsAppAction
    | StateEnteredWhatsAppAction
    | StateSuccess

  /** The RPCs the bridge knows, named after the last parts of their names. */
  datatype Rpc =
    | LoginAsyncSendLoginRequest
    | TwoStepEntrypoint
    | TwoStepAsyncEntrypoint
    | TwoStepEnterTextCaptchaCode
    | TwoStepLoginAsyncTextCaptcha
    | ApEntrypointAsync
    | ApApproveFromAnotherDevice
    | ApApproveFromAnotherDeviceAsync
    | ApChallengePicker
    | ApChallengePickerAsync
    | TwoStepVerifyCodeAsync
    | TwoStepMethodPicker
    | TwoStepMethodPickerNavigationAsync
    | ApCodeEntry
    | ArSubmitCodeAsync
    | ApCodeEntryAsync
    | EnterTotpCode
    | TwoStepApproveFromAnotherDevice
    | AfadStateAsync
    | AfadCompleteAsync
    | ApLoginWithThirdParty
    | EnterSmsCode
    | SendCodeAsync
    | EnterBackupCode
    | EnterWhatsAppCode
    | DeletePregentAsync
    | UnexpectedRpc

  datatype Screen = LoginHomepage | ArCodeEntry | UnexpectedScreen

  datatype Variable = EnterCodeError | AuthPlatformCodeError | OtherVariable

  /** The entry of a transition table, StateUnknown when there is none. */
  function RpcTarget(name: Rpc, from: BrowserState): BrowserState {
    match name
    case LoginAsyncSendLoginRequest => if from.StateEmailPasswordPage? then StateEnteredEmailPasswordAction else StateUnknown
    case TwoStepEntrypoint =>
      if from.StateEnteredEmailPasswordAction? || from.StateEnteredEmailCodeAction? || from.StateEnteredCaptchaAction?
      then StateMFALandingPage else StateUnknown
    case TwoStepAsyncEntrypoint => if from.StateEnteredEmailPasswordAction? then StateRedirectToMFALandingAction else StateUnknown
    case TwoStepEnterTextCaptchaCode => if from.StateRedirectToMFALandingAction? then StateCaptchaPage else StateUnknown
    case TwoStepLoginAsyncTextCaptcha => if from.StateCaptchaPage? then StateEnteredCaptchaAction else StateUnknown
    case ApEntrypointAsync =>
      if from.StateEnteredEmailPasswordAction? || from.StateEnteredCaptchaAction? then StateMFALandingAPAction else StateUnknown
    case ApApproveFromAnotherDevice =>
      if from.StateMFALandingAPAction? then StatePossibleMandatoryAFADPage
      else if from.StateChosenMFAAPAction? then StateAFADPage
      else StateUnknown
    case ApApproveFromAnotherDeviceAsync =>
      if from.StatePossibleMandatoryAFADPage? || from.StateMFALandingPage? then StateChooseMFAAPAction else StateUnknown
    case ApChallengePicker => if from.StateChooseMFAAPAction? then StateChooseMFAPage else StateUnknown
    case ApChallengePickerAsync => if from.StateChooseMFAPage? then StateChosenMFAAPAction else StateUnknown
    case TwoStepVerifyCodeAsync =>
      if from.StateTOTPPage? then StateEnteredTOTPAction
      else if from.StateSMSPageAfterSend? then StateEnteredSMSAction
      else if from.StateWhatsAppPageAfterSend? then StateEnteredWhatsAppAction
      else if from.StateBackupCodePage? then StateEnteredBackupCodeAction
      else StateUnknown
    case TwoStepMethodPicker => if from.StateMFALandingPage? then StateChooseMFAPage else StateUnknown
    case TwoStepMethodPickerNavigationAsync => if from.StateChooseMFAPage? then StateChosenMFAAction else StateUnknown
    case ApCodeEntry => if from.StateChosenMFAAPAction? then StateEmailCodePage else StateUnknown
    case ArSubmitCodeAsync => if from.StateEmailCodePage? then StateEnteredEmailCodeAction else StateUnknown
    case ApCodeEntryAsync => if from.StateEmailCodePage? then StateEnteredEmailCodeAPAction else StateUnknown
    case EnterTotpCode => if from.StateChosenMFAAction? then StateTOTPPage else StateUnknown
    case TwoStepApproveFromAnotherDevice => if from.StateChosenMFAAction? then StateAFADPage else StateUnknown
    case AfadStateAsync => if from.StateAFADPage? then StateAFADAction else StateUnknown
    case AfadCompleteAsync => if from.StateAFADAction? then StateAFADCompleteAction else StateUnknown
    case ApLoginWithThirdParty => if from.StateChosenMFAAPAction? then StateOAuthPage else StateUnknown
    case EnterSmsCode => if from.StateChosenMFAAction? then StateSMSPage else StateUnknown
    case SendCodeAsync =>
      if from.StateSMSPage? then StateSendSMSAction
      else if from.StateWhatsAppPage? then StateSendWhatsAppAction
      else StateUnknown
    case EnterBackupCode => if from.StateChosenMFAAction? then StateBackupCodePage else StateUnknown
    case EnterWhatsAppCode => if from.StateChosenMFAAction? then StateWhatsAppPage else StateUnknown
    case DeletePregentAsync => StateUnknown
    case UnexpectedRpc => StateUnknown
  }

  function ScreenTarget(name: Screen, from: BrowserState): BrowserState {
    match name
    case LoginHomepage => if from.StateRedirectToLoginAction? then StateEmailPasswordPage else StateUnknown
    case ArCodeEntry => if from.StateEnteredEmailPasswordAction? then StateEmailCodePage else StateUnknown
    case UnexpectedScreen => StateUnknown
  }

  /** The states in which a login response is accepted. */
  predicate AcceptsLoginResponse(from: BrowserState) {
    from.StateEnteredEmailPasswordAction? || from.StateEnteredCaptchaAction? || from.StateEnteredTOTPAction? ||
    from.StateEnteredSMSAction? || from.StateEnteredWhatsAppAction? || from.StateEnteredBackupCodeAction? ||
    from.StateAFADCompleteAction? || from.StateEnteredEmailCodeAction? || from.StateEnteredEmailCodeAPAction?
  }

  /** Whether an error message put into a variable is taken up. */
  predicate TakesError(name: Variable, state: BrowserState) {
    match name
    case EnterCodeError =>
      state.StateEnteredTOTPAction? || state.StateEnteredSMSAction? || state.StateEnteredWhatsAppAction? || state.StateEnteredBackupCodeAction?
    case AuthPlatformCodeError => state.StateEnteredEmailCodeAPAction?
    case OtherVariable => false
  }

  /** Where the browser is once the credentials page has been left with a login request. */
  predicate PastCredentials(s: BrowserState) {
    !(s.StateUnknown? || s.StateTestCaptcha? || s.StateInitial? || s.StateRedirectToLoginAction? || s.StateEmailPasswordPage?)
  }

  // ----- user input -----

  datatype Field = Username | Password | CaptchaCode | EmailCode | BackupCode | TotpCode | SmsCode | WhatsAppCode | MfaType

  type Inputs = map<Field, string>

  /** A Go map answers a missing key with the empty string. */
  function Input(u: Inputs, f: Field): string {
    if f in u then u[f] else ""
  }

  function Deleted(u: Inputs, f: Field): (u': Inputs)
    ensures Input(u', f) == "" && forall g :: g != f ==> Input(u', g) == Input(u, g)
  {
    map g | g in u && g != f :: u[g]
  }

  /** The fields that the pages which show LastError ask for. */
  function Asked(page: BrowserState): seq<Field> {
    match page
    case StateEmailPasswordPage => [Username, Password]
    case StateEmailCodePage => [EmailCode]
    case StateBackupCodePage => [BackupCode]
    case StateTOTPPage => [TotpCode]
    case StateSMSPageAfterSend => [SmsCode]
    case StateWhatsAppPageAfterSend => [WhatsAppCode]
    case _ => []
  }

  predicate Missing(page: BrowserState, u: Inputs) {
    exists f :: f in Asked(page) && Input(u, f) == ""
  }

  /** The actions of the authentication platform share one case: it looks at the state its script has led to. */
  predicate IsAPAction(s: BrowserState) {
    s.StateMFALandingAPAction? || s.StateChooseMFAAPAction? || s.StateChosenMFAAPAction? || s.StateEnteredEmailCodeAPAction?
  }

  /** The actions that check a code by looking at LastError alone, with the field they reject. */
  function CheckedCode(action: BrowserState): Option<Field> {
    match action
    case StateEnteredTOTPAction => Some(TotpCode)
    case StateEnteredSMSAction => Some(SmsCode)
    case StateEnteredWhatsAppAction => Some(WhatsAppCode)
    case StateEnteredBackupCodeAction => Some(BackupCode)
    case _ => None
  }

  /** The only state that a login step itself, rather than a script it runs, can move to. */
  function StepTarget(during: BrowserState): BrowserState {
    match during
    case StateTestCaptcha => StateInitial
    case StateInitial => StateRedirectToLoginAction
    case StateEnteredCaptchaAction => StateCaptchaPage
    case StateMFALandingAPAction => StateEmailCodePage
    case StateChooseMFAAPAction => StateEmailCodePage
    case StateChosenMFAAPAction => StateEmailCodePage
    case StateEnteredEmailCodeAPAction => StateEmailCodePage
    case StateAFADAction => StateAFADWait
    case StateEnteredEmailPasswordAction => StateEmailPasswordPage
    case StateEnteredEmailCodeAction => StateEmailCodePage
    case StateEnteredTOTPAction => StateTOTPPage
    case StateEnteredSMSAction => StateSMSPageAfterSend
    case StateEnteredWhatsAppAction => StateWhatsAppPageAfterSend
    case StateEnteredBackupCodeAction => StateBackupCodePage
    case StatePossibleMandatoryAFADPage => StateAFADPage
    case StateAFADWait => StateAFADPage
    case _ => StateUnknown
  }

  /** The moves of a step that began in `during`, from where its scripts have led. */
  predicate StepMove(during: BrowserState, from: BrowserState, to: BrowserState) {
    && to == StepTarget(during) && !to.StateUnknown?
    && (IsAPAction(during) ==> from.StateEnteredEmailCodeAPAction?)
    && (MovesFromItself(during) ==> from == during)
  }

  /** The states whose step moves on only when its scripts have not. */
  predicate MovesFromItself(s: BrowserState) {
    s.StateTestCaptcha? || s.StateInitial? || s.StateEnteredCaptchaAction? || s.StateAFADAction? ||
    s.StatePossibleMandatoryAFADPage? || s.StateAFADWait?
  }
}
