/** The admin authentication hook: listener events from the identity
    provider drive an `AuthState`, and only users whose token carries a
    truthy `admin` claim become authenticated. Provider calls are outcomes
    passed in. */
module AuthHook {
  import opened Wrappers
  import opened Text
  import opened FirebaseTypes
  import opened FirebaseErrors

  /** A value of the `admin` custom claim, as JSON. */
  datatype ClaimValue = Missing | BoolClaim(b: bool) | NumberClaim(n: int) | StringClaim(s: string) | ObjectClaim

  /** `Boolean(value)` for a JSON value. */
  predicate Truthy(v: ClaimValue) {
    match v
    case Missing => false
    case BoolClaim(b) => b
    case NumberClaim(n) => n != 0
    case StringClaim(s) => s != ""
    case ObjectClaim => true
  }

  /** A signed-in provider user; `adminClaim` is `None` when reading the
      token's claims throws. */
  datatype ProviderUser = ProviderUser(
    uid: string,
    email: Option<string>,
    displayName: Option<string>,
    adminClaim: Option<ClaimValue>)

  datatype AuthUser = AuthUser(uid: string, email: Option<string>, isAdmin: bool, displayName: Option<string>)

  datatype AuthState = AuthState(user: Option<AuthUser>, isLoading: bool, isAuthenticated: bool, error: Option<string>)

  const INITIAL_AUTH := AuthState(None, true, false, None)

  const NOT_ADMIN_MSG := "No tienes permisos de administrador"
  const VERIFY_FAILED_MSG := "Error al verificar autenticación"
  const SIGN_IN_FAILED_MSG := "Error al iniciar sesión"
  const SIGN_OUT_FAILED_MSG := "Error al cerrar sesión"

  /** `checkAdminStatus(user)`: a truthy claim, and false when the lookup throws. */
  function CheckAdminStatus(user: ProviderUser): (isAdmin: bool)
    ensures isAdmin <==> user.adminClaim.Some? && Truthy(user.adminClaim.value)
  {
    match user.adminClaim
    case None => false
    case Some(v) => Truthy(v)
  }

  /** `convertToAuthUser(user)`. */
  function ConvertToAuthUser(user: ProviderUser): (u: AuthUser)
    ensures u.uid == user.uid && u.email == user.email && u.displayName == user.displayName
    ensures u.isAdmin == CheckAdminStatus(user)
  {
    AuthUser(user.uid, user.email, CheckAdminStatus(user), user.displayName)
  }

  /** Only an admin user is ever held, and a user is held exactly when the
      state is authenticated. */
  predicate GateInvariant(s: AuthState) {
    && (s.isAuthenticated <==> s.user.Some?)
    && (s.user.Some? ==> s.user.value.isAdmin)
  }

  /** The listener's new state for an event: `firebaseUser` is the user or
      null, and `fails` says the handler threw (for instance while signing
      a non-admin out). */
  function ListenerState(firebaseUser: Option<ProviderUser>, fails: bool): (s: AuthState)
    ensures GateInvariant(s) && !s.isLoading
    ensures fails ==> s == AuthState(None, false, false, Some(VERIFY_FAILED_MSG))
    ensures !fails && firebaseUser.None? ==> s == AuthState(None, false, false, None)
    ensures !fails && firebaseUser.Some? && !CheckAdminStatus(firebaseUser.value) ==>
      s == AuthState(None, false, false, Some(NOT_ADMIN_MSG))
    ensures s.isAuthenticated <==> !fails && firebaseUser.Some? && CheckAdminStatus(firebaseUser.value)
    ensures s.isAuthenticated ==> s.user == Some(ConvertToAuthUser(firebaseUser.value)) && s.error.None?
  {
    if fails then AuthState(None, false, false, Some(VERIFY_FAILED_MSG))
    else match firebaseUser
      case None => AuthState(None, false, false, None)
      case Some(u) =>
        var authUser := ConvertToAuthUser(u);
        if !authUser.isAdmin then AuthState(None, false, false, Some(NOT_ADMIN_MSG))
        else AuthState(Some(authUser), false, true, None)
  }

  /** The error `signIn` throws for a provider user who is not an admin. */
  function NotAdminError(): FirebaseError {
    CreateFirebaseError("permission-denied", NullValue, [("message", NOT_ADMIN_MSG)])
  }

  predicate NoBrace(s: string) {
    forall i :: 0 <= i < |s| ==> s[i] != '{'
  }

  lemma NoBraceConcat(a: string, b: string)
    requires NoBrace(a) && NoBrace(b)
    ensures NoBrace(a + b)
  {
    forall i | 0 <= i < |a + b| ensures (a + b)[i] != '{' {
      if i < |a| {
        assert (a + b)[i] == a[i];
      } else {
        assert (a + b)[i] == b[i - |a|];
      }
    }
  }

  /** The permission text has no opening brace. The solver does not read the
      characters of a long literal at an unknown index, so the text is
      written as three short pieces and the proof goes piece by piece. */
  lemma PermissionTextHasNoBrace()
    ensures forall i :: 0 <= i < |PERMISSION_DENIED_MSG| ==> PERMISSION_DENIED_MSG[i] != '{'
  {
    var a, b, c := "No tienes ", "permisos para ", "realizar esta acción.";
    assert NoBrace(a) && NoBrace(b) && NoBrace(c);
    NoBraceConcat(a, b);
    NoBraceConcat(a + b, c);
  }

  /** A template without braces is left as it is by one parameter. */
  lemma FormattedWithoutBraces(template: string, key: string, value: string)
    requires forall i :: 0 <= i < |template| ==> template[i] != '{'
    ensures Formatted(template, [(key, value)]) == template
  {
    FirstCharAbsent(template, Placeholder(key));
    FormattedWithoutPlaceholders(template, [(key, value)]);
  }

  /** The template has no `{message}` placeholder, so the parameter is
      dropped and the error carries the generic permission text. */
  lemma NotAdminErrorText()
    ensures NotAdminError() == FirebaseError("permission-denied", PERMISSION_DENIED_MSG, Some(PERMISSION_DENIED_MSG))
  {
    assert TemplateFor("permission-denied") == PERMISSION_DENIED_MSG;
    PermissionTextHasNoBrace();
    FormattedWithoutBraces(PERMISSION_DENIED_MSG, "message", NOT_ADMIN_MSG);
  }

  /** The message the `signIn` catch clause stores for what it caught. */
  function SignInMessage(error: Thrown): (m: string)
    ensures error.Code() == Some("auth/user-not-found") ==> m == "Usuario no encontrado"
    ensures error.Code() == Some("auth/wrong-password") ==> m == "Contraseña incorrecta"
    ensures error.Code() == Some("auth/invalid-email") ==> m == "Email inválido"
    ensures error.Code() == Some("auth/too-many-requests") ==> m == "Demasiados intentos. Intenta más tarde"
    ensures error.Code() !in {Some("auth/user-not-found"), Some("auth/wrong-password"),
                              Some("auth/invalid-email"), Some("auth/too-many-requests")} ==>
      m == error.Message().GetOr(SIGN_IN_FAILED_MSG)
  {
    match error.Code()
    case Some("auth/user-not-found") => "Usuario no encontrado"
    case Some("auth/wrong-password") => "Contraseña incorrecta"
    case Some("auth/invalid-email") => "Email inválido"
    case Some("auth/too-many-requests") => "Demasiados intentos. Intenta más tarde"
    case _ => error.Message().GetOr(SIGN_IN_FAILED_MSG)
  }

  /** A non-admin sign-in reports the generic permission text. */
  lemma NonAdminSignInMessage()
    ensures SignInMessage(AppError(NotAdminError())) == PERMISSION_DENIED_MSG
  {
    NotAdminErrorText();
  }

  /** `useAuth`: the state cell and its transitions. */
  class AuthGate {
    var state: AuthState

    ghost predicate Valid()
      reads this
    {
      GateInvariant(state)
    }

    constructor ()
      ensures state == INITIAL_AUTH && Valid()
    {
      state := INITIAL_AUTH;
    }

    /** The `onAuthStateChanged` handler. */
    method OnAuthStateChanged(firebaseUser: Option<ProviderUser>, fails: bool)
      modifies this
      ensures state == ListenerState(firebaseUser, fails)
      ensures Valid()
    {
      state := ListenerState(firebaseUser, fails);
    }

    /** `signIn(email, password)` where the provider answers `outcome`, and
        the `signOut(auth)` of the non-admin branch fails with `signOutFault`
        when that is present. A successful admin sign-in leaves the state
        loading until the listener fires; every failure is stored and
        rethrown, a failed sign-out in place of the permission error. */
    method SignIn(outcome: Result<ProviderUser, Thrown>, signOutFault: Option<Thrown>) returns (r: Result<(), Thrown>)
      requires Valid()
      modifies this
      ensures Valid()
      ensures state.user == old(state.user) && state.isAuthenticated == old(state.isAuthenticated)
      ensures outcome.Ok? && CheckAdminStatus(outcome.value) ==>
        r == Ok(()) && state.isLoading && state.error.None?
      ensures outcome.Ok? && !CheckAdminStatus(outcome.value) && signOutFault.None? ==>
        r == Err(AppError(NotAdminError())) && !state.isLoading && state.error == Some(PERMISSION_DENIED_MSG)
      ensures outcome.Ok? && !CheckAdminStatus(outcome.value) && signOutFault.Some? ==>
        r == Err(signOutFault.value) && !state.isLoading && state.error == Some(SignInMessage(signOutFault.value))
      ensures outcome.Err? ==>
        r == Err(outcome.error) && !state.isLoading && state.error == Some(SignInMessage(outcome.error))
    {
      state := state.(isLoading := true, error := None);
      var caught: Thrown;
      match outcome {
        case Err(e) =>
          caught := e;
        case Ok(user) =>
          if CheckAdminStatus(user) {
            return Ok(());
          }
          if signOutFault.Some? {
            caught := signOutFault.value;
          } else {
            caught := AppError(NotAdminError());
            NonAdminSignInMessage();
          }
      }
      state := state.(isLoading := false, error := Some(SignInMessage(caught)));
      r := Err(caught);
    }

    /** `signOut()`: loading until the listener fires, or the failure text. */
    method SignOut(fault: Option<Thrown>) returns (r: Result<(), Thrown>)
      requires Valid()
      modifies this
      ensures Valid()
      ensures state.user == old(state.user) && state.isAuthenticated == old(state.isAuthenticated)
      ensures fault.None? ==> r == Ok(()) && state.isLoading && state.error.None?
      ensures fault.Some? ==> r == Err(fault.value) && !state.isLoading && state.error == Some(SIGN_OUT_FAILED_MSG)
    {
      state := state.(isLoading := true, error := None);
      if fault.Some? {
        state := state.(isLoading := false, error := Some(SIGN_OUT_FAILED_MSG));
        return Err(fault.value);
      }
      r := Ok(());
    }

    /** `clearError()`: only the error changes. */
    method ClearError()
      requires Valid()
      modifies this
      ensures state == old(state).(error := None)
      ensures Valid()
    {
      state := state.(error := None);
    }
  }

  /** What `withAuth(Component)` renders. */
  datatype GuardView = SpinnerView | UnauthorizedView | ComponentView

  function WithAuth(s: AuthState): (v: GuardView)
    ensures v == SpinnerView <==> s.isLoading
    ensures v == UnauthorizedView <==> !s.isLoading && !s.isAuthenticated
    ensures v == ComponentView <==> !s.isLoading && s.isAuthenticated
  {
    if s.isLoading then SpinnerView
    else if !s.isAuthenticated then UnauthorizedView
    else ComponentView
  }

  /** Whatever the listener reports, the wrapped component is shown only to
      a provider user with a truthy admin claim. */
  lemma ComponentOnlyForAdmins(firebaseUser: Option<ProviderUser>, fails: bool)
    ensures WithAuth(ListenerState(firebaseUser, fails)) == ComponentView ==>
      !fails && firebaseUser.Some? && firebaseUser.value.adminClaim.Some?
      && Truthy(firebaseUser.value.adminClaim.value)
  {
  }
}
