/** The authentication router (backend/routers/auth.py): how `register` and
    `login` turn identity-provider failures into HTTP errors, the session
    check after signing in, the connection pre-check and the placeholder user. */
module AuthRouter {
  import opened Wrappers
  import opened Strings
  import opened Http

  /** The user `get_current_active_user` returns. */
  datatype ActiveUser = ActiveUser(id: string, email: string)

  /** `get_current_active_user`: always the same placeholder user. */
  function CurrentActiveUser(): (u: ActiveUser)
    ensures u.id == "dummy_user_id" && u.email == "user@example.com"
  {
    ActiveUser("dummy_user_id", "user@example.com")
  }

  /** The live `check_supabase_connection`: the later definition in the module
      replaces the DNS-resolving one, so the check is only whether a client
      was created. */
  function CheckSupabaseConnection(clientPresent: bool): (connected: bool)
    ensures connected <==> clientPresent
  {
    clientPresent
  }

  /** The three name-resolution failures both handlers recognise. */
  predicate NamesDnsFailure(msg: string)
  {
    Contains(msg, "getaddrinfo failed") || Contains(msg, "11001") || Contains(msg, "Name or service not known")
  }

  // ---------------------------------------------------------------------------
  // register
  // ---------------------------------------------------------------------------

  const NoConnectionDetail: string :=
    "Cannot connect to authentication service. Please check your network connection and try again."
  const NotConfiguredDetail: string :=
    "Registration service is not available. Please check Supabase configuration."
  const AlreadyExistsDetail: string := "An account with this email already exists. Please login instead."
  const UnreachableDetail: string :=
    "Cannot reach Supabase service. This might be a temporary network issue. Please try again in a moment."
  const RegisterTimeoutDetail: string := "Connection to registration service timed out. Please try again."
  const RegisterOuterDnsDetail: string :=
    "Cannot connect to registration service. Please check your internet connection."
  const NoResponseDetail: string := "Registration failed: No response from authentication service"
  const RegisteredMessage: string := "User registered successfully"

  predicate AlreadyRegistered(msg: string)
  {
    Contains(msg, "User already registered") || Contains(Lower(msg), "already exists")
  }

  /** The handler around `sign_up`: the error it raises, or `None` for the
      bare `raise` that hands the exception to the outer handler. */
  function RegisterInner(msg: string): Option<HttpError>
  {
    if AlreadyRegistered(msg) then Some(HttpError(400, AlreadyExistsDetail))
    else if NamesDnsFailure(msg) then Some(HttpError(503, UnreachableDetail))
    else if Contains(Lower(msg), "timeout") then Some(HttpError(503, RegisterTimeoutDetail))
    else None
  }

  /** The outer handler of `register` for an exception that is not an HTTP error. */
  function RegisterOuter(msg: string): (e: HttpError)
    ensures e.status == 503 <==> Contains(msg, "getaddrinfo failed") || Contains(msg, "11001")
    ensures e.status == 503 ==> e.detail == RegisterOuterDnsDetail
    ensures e.status != 503 ==> e == HttpError(400, "Registration failed: " + msg)
  {
    if Contains(msg, "getaddrinfo failed") || Contains(msg, "11001") then HttpError(503, RegisterOuterDnsDetail)
    else HttpError(400, "Registration failed: " + msg)
  }

  /** What a failing `sign_up` produces: 400 for an existing account, 503 for
      name resolution and time-outs, otherwise 400 with the message. The outer
      handler's own 503 never fires for it, since every message it tests for
      was already caught by the inner handler. */
  function RegisterSignUpError(msg: string): (e: HttpError)
    ensures e.status == 400 || e.status == 503
    ensures e.status == 503 <==> !AlreadyRegistered(msg) && (NamesDnsFailure(msg) || Contains(Lower(msg), "timeout"))
    ensures AlreadyRegistered(msg) ==> e.detail == AlreadyExistsDetail
    ensures !AlreadyRegistered(msg) && NamesDnsFailure(msg) ==> e == HttpError(503, UnreachableDetail)
    ensures !AlreadyRegistered(msg) && !NamesDnsFailure(msg) && Contains(Lower(msg), "timeout") ==>
      e == HttpError(503, RegisterTimeoutDetail)
    ensures !AlreadyRegistered(msg) && !NamesDnsFailure(msg) && !Contains(Lower(msg), "timeout") ==>
      e == HttpError(400, "Registration failed: " + msg)
  {
    match RegisterInner(msg)
    case Some(e) => e
    case None => RegisterOuter(msg)
  }

  /** The response of `sign_up`, carrying the new user if any. */
  datatype SignUpResponse = SignUpResponse(user: Option<string>)

  /** `sign_up` threw with a message, or returned a response or nothing. */
  datatype SignUpOutcome = SignUpThrew(message: string) | SignUpReturned(response: Option<SignUpResponse>)

  /** The body of a successful registration: the message and the user. */
  datatype Registered = Registered(message: string, user: Option<string>)

  /** `register`, given whether the client exists and what `sign_up` did. The
      second configuration check can never fail after the first has passed. */
  function Register(clientPresent: bool, signUp: SignUpOutcome): (r: Result<Registered, HttpError>)
    ensures !clientPresent ==> r == Failure(HttpError(503, NoConnectionDetail))
    ensures r.Success? <==> clientPresent && signUp.SignUpReturned? && signUp.response.Some?
    ensures r.Success? ==> r.value == Registered(RegisteredMessage, signUp.response.value.user)
    ensures clientPresent && signUp.SignUpThrew? ==> r == Failure(RegisterSignUpError(signUp.message))
    ensures clientPresent && signUp == SignUpReturned(None) ==> r == Failure(HttpError(400, NoResponseDetail))
  {
    if !CheckSupabaseConnection(clientPresent) then Failure(HttpError(503, NoConnectionDetail))
    else if !clientPresent then Failure(HttpError(503, NotConfiguredDetail))
    else match signUp
      case SignUpThrew(m) => Failure(RegisterSignUpError(m))
      case SignUpReturned(response) =>
        if response.Some? then Success(Registered(RegisteredMessage, response.value.user))
        else Failure(HttpError(400, NoResponseDetail))
  }

  /** Two of register's branches are dead. The second configuration check
      never fails once the first has passed, and the outer handler's
      name-resolution 503 never fires, because the inner handler has already
      turned every such failure into its own 503. So every 503 comes from the
      connection check or from the inner handler. */
  lemma RegisterDeadBranches(clientPresent: bool, signUp: SignUpOutcome)
    ensures var r := Register(clientPresent, signUp);
      r.Failure? && r.error.status == 503 ==> (
        || (!clientPresent && r.error.detail == NoConnectionDetail)
        || (clientPresent && signUp.SignUpThrew? && RegisterInner(signUp.message) == Some(r.error)))
  {
  }

  // ---------------------------------------------------------------------------
  // login
  // ---------------------------------------------------------------------------

  const NotConfiguredLoginDetail: string :=
    "Authentication service is not configured. Please check Supabase configuration in backend."
  const InvalidCredentialsDetail: string := "Invalid email or password"
  const LoginTimeoutDetail: string :=
    "Connection to authentication service timed out. Please check your firewall settings or try again."
  const TlsDetail: string := "SSL/TLS connection error. Please check your network settings or firewall."
  const RefusedDetail: string :=
    "Connection to Supabase was refused. Please check your firewall or network settings."
  const NoSessionDetail: string := "Login failed: Invalid credentials or no session created"
  const OuterTimeoutDetail: string := "Connection to authentication service timed out. Please try again."

  predicate BadCredentials(msg: string)
  {
    Contains(msg, "Invalid login credentials") || Contains(msg, "Invalid credentials")
  }

  predicate TimedOut(msg: string)
  {
    Contains(Lower(msg), "timeout") || Contains(Lower(msg), "timed out")
  }

  predicate TlsProblem(msg: string)
  {
    Contains(msg, "SSL") || Contains(Lower(msg), "certificate") || Contains(msg, "TLS")
  }

  predicate Refused(msg: string)
  {
    Contains(msg, "Connection refused") || Contains(Lower(msg), "refused")
  }

  /** The rules of the `sign_in_with_password` handler, in the order tried. */
  datatype LoginRule = CredentialsRule | DnsRule | TimeoutRule | TlsRule | RefusedRule | GenericRule

  /** The first rule whose test the message passes. */
  function LoginRuleFor(msg: string): (rule: LoginRule)
    ensures rule == CredentialsRule <==> BadCredentials(msg)
    ensures rule == DnsRule <==> !BadCredentials(msg) && NamesDnsFailure(msg)
    ensures rule == TimeoutRule <==> !BadCredentials(msg) && !NamesDnsFailure(msg) && TimedOut(msg)
    ensures rule == TlsRule <==> !BadCredentials(msg) && !NamesDnsFailure(msg) && !TimedOut(msg) && TlsProblem(msg)
    ensures rule == RefusedRule <==>
      !BadCredentials(msg) && !NamesDnsFailure(msg) && !TimedOut(msg) && !TlsProblem(msg) && Refused(msg)
    ensures rule == GenericRule <==>
      !BadCredentials(msg) && !NamesDnsFailure(msg) && !TimedOut(msg) && !TlsProblem(msg) && !Refused(msg)
  {
    if BadCredentials(msg) then CredentialsRule
    else if NamesDnsFailure(msg) then DnsRule
    else if TimedOut(msg) then TimeoutRule
    else if TlsProblem(msg) then TlsRule
    else if Refused(msg) then RefusedRule
    else GenericRule
  }

  /** The detail of the name-resolution rule: the exception's class name and
      the configured URL, `Not set` when there is none. */
  function DnsLoginDetail(errorType: string, supabaseUrl: Option<string>): string
  {
    "Cannot resolve Supabase hostname. Error: " + errorType
      + ". Please check if Supabase URL is correct: " + supabaseUrl.GetOr("Not set")
  }

  /** The error a failing `sign_in_with_password` produces; `errorType` is the
      exception's class name and `supabaseUrl` the configured URL, if set. */
  function LoginSignInError(msg: string, errorType: string, supabaseUrl: Option<string>): (e: HttpError)
    ensures e.status == 401 <==> BadCredentials(msg)
    ensures e.status == 500 <==> LoginRuleFor(msg) == GenericRule
    ensures e.status == 401 || e.status == 500 || e.status == 503
    ensures e.status == 401 ==> e.detail == InvalidCredentialsDetail
    ensures e.status == 500 ==> e.detail == "Authentication error (" + errorType + "): " + msg
    ensures LoginRuleFor(msg) == DnsRule ==> e == HttpError(503, DnsLoginDetail(errorType, supabaseUrl))
    ensures LoginRuleFor(msg) == TimeoutRule ==> e == HttpError(503, LoginTimeoutDetail)
    ensures LoginRuleFor(msg) == TlsRule ==> e == HttpError(503, TlsDetail)
    ensures LoginRuleFor(msg) == RefusedRule ==> e == HttpError(503, RefusedDetail)
  {
    match LoginRuleFor(msg)
    case CredentialsRule => HttpError(401, InvalidCredentialsDetail)
    case DnsRule => HttpError(503, DnsLoginDetail(errorType, supabaseUrl))
    case TimeoutRule => HttpError(503, LoginTimeoutDetail)
    case TlsRule => HttpError(503, TlsDetail)
    case RefusedRule => HttpError(503, RefusedDetail)
    case GenericRule => HttpError(500, "Authentication error (" + errorType + "): " + msg)
  }

  /** A message naming bad credentials gives 401 even when it also names a
      transport problem: the credential rule is tried first. */
  lemma CredentialsWinOverTransport(msg: string, errorType: string, supabaseUrl: Option<string>)
    requires Contains(msg, "Invalid credentials") && TimedOut(msg) && Refused(msg)
    ensures LoginSignInError(msg, errorType, supabaseUrl) == HttpError(401, InvalidCredentialsDetail)
  {
  }

  /** The outer handler of `login` for an exception that is not an HTTP error. */
  function LoginOuter(msg: string): (e: HttpError)
    ensures e.status == 503 <==> (
      || NamesDnsFailure(msg)
      || (!Contains(msg, "Invalid login credentials") && !Contains(msg, "Email not confirmed") && Contains(Lower(msg), "timeout")))
    ensures e.status == 401 <==>
      !NamesDnsFailure(msg) && (Contains(msg, "Invalid login credentials") || Contains(msg, "Email not confirmed"))
    ensures e.status == 401 || e.status == 500 || e.status == 503
    ensures NamesDnsFailure(msg) ==> e.detail == UnreachableDetail
    ensures e.status == 503 && !NamesDnsFailure(msg) ==> e.detail == OuterTimeoutDetail
    ensures e.status == 401 ==> e.detail == msg
    ensures e.status == 500 ==> e.detail == "Login failed: " + msg
  {
    if NamesDnsFailure(msg) then HttpError(503, UnreachableDetail)
    else if Contains(msg, "Invalid login credentials") || Contains(msg, "Email not confirmed") then HttpError(401, msg)
    else if Contains(Lower(msg), "timeout") then HttpError(503, OuterTimeoutDetail)
    else HttpError(500, "Login failed: " + msg)
  }

  datatype Session = Session(accessToken: string, refreshToken: string)
  datatype SignInResponse = SignInResponse(session: Option<Session>, user: Option<string>)

  /** What happened around `sign_in_with_password`: it threw (message and class
      name), it returned (a response or nothing), or some later step raised an
      ordinary exception that reached the outer handler. */
  datatype SignInOutcome =
    | SignInThrew(message: string, errorType: string)
    | SignInReturned(response: Option<SignInResponse>)
    | LaterFailure(failure: string)

  datatype Tokens = Tokens(accessToken: string, refreshToken: string, user: Option<string>)

  /** `login`. */
  function Login(clientPresent: bool, outcome: SignInOutcome, supabaseUrl: Option<string>): (r: Result<Tokens, HttpError>)
    ensures !clientPresent ==> r == Failure(HttpError(503, NotConfiguredLoginDetail))
    ensures r.Success? <==> (
      && clientPresent && outcome.SignInReturned? && outcome.response.Some?
      && outcome.response.value.session.Some?)
    ensures r.Success? ==> r.value == Tokens(outcome.response.value.session.value.accessToken,
      outcome.response.value.session.value.refreshToken, outcome.response.value.user)
    ensures clientPresent && outcome.SignInReturned? && r.Failure? ==> r.error == HttpError(401, NoSessionDetail)
    ensures clientPresent && outcome.SignInThrew? ==>
      r == Failure(LoginSignInError(outcome.message, outcome.errorType, supabaseUrl))
    ensures clientPresent && outcome.LaterFailure? ==> r == Failure(LoginOuter(outcome.failure))
  {
    if !clientPresent then Failure(HttpError(503, NotConfiguredLoginDetail))
    else match outcome
      case SignInThrew(m, t) => Failure(LoginSignInError(m, t, supabaseUrl))
      case LaterFailure(m) => Failure(LoginOuter(m))
      case SignInReturned(response) =>
        if response.None? || response.value.session.None? then Failure(HttpError(401, NoSessionDetail))
        else
          var s := response.value.session.value;
          Success(Tokens(s.accessToken, s.refreshToken, response.value.user))
  }

  /** Every failed login is a 401, a 503 or a 500. */
  lemma LoginStatuses(clientPresent: bool, outcome: SignInOutcome, supabaseUrl: Option<string>)
    ensures var r := Login(clientPresent, outcome, supabaseUrl);
      r.Failure? ==> r.error.status in {401, 500, 503}
  {
    if clientPresent && outcome.LaterFailure? {
      var e := LoginOuter(outcome.failure);
      assert e.status == 401 || e.status == 500 || e.status == 503;
    }
  }
}
