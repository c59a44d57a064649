/** The admin route guard: what `ProtectedRoute` renders for an auth state,
    and when `useRequireAdmin` throws. */
module ProtectedRoute {
  import opened Wrappers
  import opened AuthHook

  /** The branches of `ProtectedRoute`; the loading and fallback views say
      whether the caller supplied its own component. */
  datatype RouteView =
    | LoadingView(custom: bool)
    | FallbackView
    | LoginFormView
    | AccessDeniedView
    | ChildrenView

  function RenderRoute(s: AuthState, hasLoadingComponent: bool, hasFallback: bool): (v: RouteView)
    ensures s.isLoading <==> v.LoadingView?
    ensures s.isLoading ==> v == LoadingView(hasLoadingComponent)
    ensures !s.isLoading && !s.isAuthenticated ==> v == (if hasFallback then FallbackView else LoginFormView)
    ensures v == AccessDeniedView <==>
      !s.isLoading && s.isAuthenticated && s.user.Some? && !s.user.value.isAdmin
    ensures v == ChildrenView <==>
      !s.isLoading && s.isAuthenticated && !(s.user.Some? && !s.user.value.isAdmin)
  {
    if s.isLoading then LoadingView(hasLoadingComponent)
    else if !s.isAuthenticated then (if hasFallback then FallbackView else LoginFormView)
    else if s.user.Some? && !s.user.value.isAdmin then AccessDeniedView
    else ChildrenView
  }

  /** Under the auth hook's invariant the access-denied branch never
      renders, and the children render exactly for an authenticated admin. */
  lemma AccessDeniedUnreachable(s: AuthState, hasLoadingComponent: bool, hasFallback: bool)
    requires GateInvariant(s)
    ensures RenderRoute(s, hasLoadingComponent, hasFallback) != AccessDeniedView
    ensures RenderRoute(s, hasLoadingComponent, hasFallback) == ChildrenView <==>
      !s.isLoading && s.user.Some? && s.user.value.isAdmin
  {
  }

  const ADMIN_REQUIRED_MSG := "Admin authentication required"

  /** `useRequireAdmin()`: the auth state, or the error it throws. */
  function RequireAdmin(s: AuthState): (r: Result<AuthState, string>)
    ensures r.Err? <==> !s.isLoading && (!s.isAuthenticated || !(s.user.Some? && s.user.value.isAdmin))
    ensures r.Err? ==> r.error == ADMIN_REQUIRED_MSG
    ensures r.Ok? ==> r.value == s
  {
    if !s.isLoading && (!s.isAuthenticated || !(s.user.Some? && s.user.value.isAdmin)) then Err(ADMIN_REQUIRED_MSG)
    else Ok(s)
  }

  /** Once loading is over, the guard and the route agree: the guard passes
      exactly when the route shows its children. */
  lemma GuardAgreesWithRoute(s: AuthState, hasLoadingComponent: bool, hasFallback: bool)
    requires GateInvariant(s) && !s.isLoading
    ensures RequireAdmin(s).Ok? <==> RenderRoute(s, hasLoadingComponent, hasFallback) == ChildrenView
  {
  }
}
