/**
 * The route guard (context/AuthGuard): its effect decides, once the session
 * is initialized, whether to lift the loader or to send the visitor to the
 * login page; the render shows the loader until then.
 */
module AuthGuard {
  import opened Wrappers
  import opened Domain

  /** The paths anyone may see. */
  function PublicPaths(routes: Routes): seq<string> {
    [routes.login, routes.register, routes.home]
  }

  /** What one run of the effect leaves behind: the loading flag and a navigation, if any. */
  datatype GuardStep = GuardStep(loading: bool, navigate: Option<string>)

  /** A token that `if (token)` accepts. */
  predicate HasToken(token: Option<string>) {
    token.Some? && token.value != ""
  }

  /** The effect with `ensureAuth`, run with the current path, initialization and token. */
  function EnsureAuth(routes: Routes, pathname: string, initialized: bool, token: Option<string>, loading: bool): (r: GuardStep)
    ensures !initialized ==> r == GuardStep(loading, None)
    ensures initialized && pathname in PublicPaths(routes) ==> r == GuardStep(false, None)
    ensures initialized && pathname !in PublicPaths(routes) && HasToken(token) ==> r == GuardStep(false, None)
    ensures initialized && pathname !in PublicPaths(routes) && !HasToken(token) ==>
      r == GuardStep(loading, Some(routes.login))
    ensures r.loading ==> loading
    ensures r.navigate.Some? ==> r.navigate.value == routes.login && r.loading == loading
  {
    if !initialized then GuardStep(loading, None)
    else if pathname in PublicPaths(routes) then GuardStep(false, None)
    else if HasToken(token) then GuardStep(false, None)
    else GuardStep(loading, Some(routes.login))
  }

  datatype View = Loader | Children

  /** The render: children only once initialized and no longer loading. */
  function Render(initialized: bool, loading: bool): (v: View)
    ensures v == Children <==> initialized && !loading
  {
    if !initialized || loading then Loader else Children
  }

  /** The inputs the effect reacts to. */
  datatype GuardInput = GuardInput(pathname: string, initialized: bool, token: Option<string>)

  /** The loading flag after each run of the effect, over a sequence of input changes. */
  function LoadingTrace(routes: Routes, inputs: seq<GuardInput>, loading: bool): (t: seq<bool>)
    ensures |t| == |inputs|
    decreases |inputs|
  {
    if inputs == [] then []
    else
      var step := EnsureAuth(routes, inputs[0].pathname, inputs[0].initialized, inputs[0].token, loading);
      [step.loading] + LoadingTrace(routes, inputs[1..], step.loading)
  }

  /** The loading flag only ever falls: once the children are shown, the loader never comes back. */
  lemma {:induction false} LoadingNeverReturns(routes: Routes, inputs: seq<GuardInput>, loading: bool)
    ensures forall i :: 0 <= i < |inputs| && LoadingTrace(routes, inputs, loading)[i] ==> loading
    ensures forall i, j :: 0 <= i < j < |inputs| && LoadingTrace(routes, inputs, loading)[j] ==>
      LoadingTrace(routes, inputs, loading)[i]
    decreases |inputs|
  {
    if inputs != [] {
      var step := EnsureAuth(routes, inputs[0].pathname, inputs[0].initialized, inputs[0].token, loading);
      var t := LoadingTrace(routes, inputs, loading);
      var rest := LoadingTrace(routes, inputs[1..], step.loading);
      assert t == [step.loading] + rest;
      LoadingNeverReturns(routes, inputs[1..], step.loading);
      forall i, j | 0 <= i < j < |inputs| && t[j]
        ensures t[i]
      {
        assert t[j] == rest[j - 1];
        if i > 0 {
          assert t[i] == rest[i - 1];
        }
      }
    }
  }

  /** A visitor without a token on a protected path keeps seeing the loader and is sent to the login page. */
  lemma ProtectedPathWithoutToken(routes: Routes, pathname: string, token: Option<string>)
    requires pathname !in PublicPaths(routes) && !HasToken(token)
    ensures var step := EnsureAuth(routes, pathname, true, token, true);
      Render(true, step.loading) == Loader && step.navigate == Some(routes.login)
  {
  }
}
