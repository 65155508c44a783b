/** The sign-in step machine of the Welcome flow's "sign in to an Enterprise
    server" page.

    The page is a small state machine: the current `Step` is one of three
    variants, every event handler builds a whole new `Step` (or leaves it as it
    is), and the only outbound calls are "register this user" and "advance the
    Welcome flow to another stage". Each handler is modelled as a pure function
    from the current step and its arguments to a `Reaction`: the new step and the
    outbound calls it made, in order, or the fatal error the code raises.

    The identity the collaborators hand over is opaque to the page, so it is a
    type parameter `U` everywhere.
 */
module SignInEnterprise {

  /** The authentication methods a server may report. The page only ever asks
      about `BasicAuth`; `OAuth` stands for every other method. */
  datatype AuthMethod = BasicAuth | OAuth

  /** The stages of the surrounding Welcome flow this page can advance to. */
  datatype WelcomeStep = Start | ConfigureGit

  /** The page's state: exactly one of the three steps, with its payload. */
  datatype Step =
    | ServerEntry
    | UsernamePassword(endpoint: string, authMethods: set<AuthMethod>)
    | TwoFactorAuthentication(endpoint: string, login: string, password: string)

  /** An outbound call made by a handler. */
  datatype Effect<U> =
    | AddUser(user: U)             // register the identity with the user store
    | Advance(stage: WelcomeStep)  // move the Welcome flow on

  /** What handling one callback does.
      - `Handled`: the handler ran to completion.
      - `Rejected`: registering the user failed; the handler's promise rejects
        after the calls in `effects`, and the step is what it was.
      - `Fatal`: the handler raised the fatal "cannot happen" error. */
  datatype Reaction<U> =
    | Handled(step: Step, effects: seq<Effect<U>>)
    | Rejected(step: Step, effects: seq<Effect<U>>)
    | Fatal(message: string)

  /** The message of the fatal error raised by `OnNeeds2FA`. */
  const Needs2FAOutOfStep: string := "How did you get here O_o"

  /** A freshly constructed page starts at the server-entry step. */
  function Initial(): Step
  {
    ServerEntry
  }

  /** The collaborator views the page can show. `SignIn` receives whether the
      server supports basic authentication, not the whole set of methods. */
  datatype View =
    | EnterpriseServerEntry
    | SignIn(endpoint: string, supportsBasicAuth: bool)
    | TwoFactorView(endpoint: string, login: string, password: string)

  /** The page callbacks a view can invoke. */
  datatype Callback = ContinueProp | CancelButton | DidSignInProp | Needs2FAProp

  /** Which view the page shows for a step, and with which props. The match is
      exhaustive, so no step falls through to the "unknown step" branch. */
  function Render(step: Step): (v: View)
    ensures v.EnterpriseServerEntry? <==> step.ServerEntry?
    ensures v.SignIn? <==> step.UsernamePassword?
    ensures v.TwoFactorView? <==> step.TwoFactorAuthentication?
    ensures !v.EnterpriseServerEntry? ==> v.endpoint == step.endpoint
    ensures v.SignIn? ==> (v.supportsBasicAuth <==> BasicAuth in step.authMethods)
    ensures v.TwoFactorView? ==> v.login == step.login && v.password == step.password
  {
    match step
    case ServerEntry => EnterpriseServerEntry
    case UsernamePassword(endpoint, authMethods) =>
      SignIn(endpoint, BasicAuth in authMethods)
    case TwoFactorAuthentication(endpoint, login, password) =>
      TwoFactorView(endpoint, login, password)
  }

  /** The callbacks each view is wired to: the server-entry view continues, the
      sign-in view gets the Cancel button and both sign-in outcomes, the
      two-factor view only reports a completed sign-in. */
  function Callbacks(v: View): (cs: set<Callback>)
    ensures CancelButton in cs <==> v.SignIn?
    ensures Needs2FAProp in cs <==> v.SignIn?
    ensures ContinueProp in cs <==> v.EnterpriseServerEntry?
    ensures DidSignInProp in cs <==> !v.EnterpriseServerEntry?
  {
    match v
    case EnterpriseServerEntry => {ContinueProp}
    case SignIn(_, _) => {CancelButton, DidSignInProp, Needs2FAProp}
    case TwoFactorView(_, _, _) => {DidSignInProp}
  }

  /** A fresh page shows the server-entry view, whose only callback is the one
      that reports a server. */
  lemma FreshPageAtServerEntry()
    ensures Initial().ServerEntry?
    ensures Render(Initial()) == EnterpriseServerEntry
    ensures Callbacks(Render(Initial())) == {ContinueProp}
  {
  }

  /** Two steps look the same on screen exactly when they are equal, or both
      are username/password steps for the same endpoint that agree on basic
      authentication: the other methods a server reports never reach a view. */
  lemma RenderForgetsOnlyOtherMethods(a: Step, b: Step)
    ensures Render(a) == Render(b) <==>
      a == b ||
      (a.UsernamePassword? && b.UsernamePassword? && a.endpoint == b.endpoint &&
       (BasicAuth in a.authMethods <==> BasicAuth in b.authMethods))
  {
  }

  /** The server-entry view reported an endpoint and its methods. There is no
      guard on the current step: whatever it was, it is replaced. */
  function OnServerEntry<U>(step: Step, endpoint: string, authMethods: set<AuthMethod>): (r: Reaction<U>)
    ensures r.Handled? && r.effects == []
    ensures r.step.UsernamePassword?
    ensures r.step.endpoint == endpoint && r.step.authMethods == authMethods
  {
    Handled(UsernamePassword(endpoint, authMethods), [])
  }

  /** The Cancel button: send the Welcome flow back to its start. The step is
      not touched; there is no cancelled state. */
  function OnCancel<U>(step: Step): (r: Reaction<U>)
    ensures r.Handled? && r.step == step
    ensures |r.effects| == 1 && r.effects[0].Advance? && r.effects[0].stage == Start
  {
    Handled(step, [Advance(Start)])
  }

  /** A collaborator signed `user` in. The user is registered first; only when
      `addUserSucceeds` does the Welcome flow advance to Git configuration.
      Either way the step is not touched. */
  function OnDidSignIn<U>(step: Step, user: U, addUserSucceeds: bool): (r: Reaction<U>)
    ensures !r.Fatal? && r.step == step
    ensures r.Handled? <==> addUserSucceeds
    ensures |r.effects| >= 1 && r.effects[0] == AddUser(user)
    ensures addUserSucceeds ==> r.effects == [AddUser(user), Advance(ConfigureGit)]
    ensures !addUserSucceeds ==> r.effects == [AddUser(user)]
  {
    if addUserSucceeds then Handled(step, [AddUser(user), Advance(ConfigureGit)])
    else Rejected(step, [AddUser(user)])
  }

  /** The sign-in view needs a second factor for `login`/`password`. Only from
      the username/password step is this legal: the credentials are kept
      verbatim and the endpoint carried over. Anywhere else it is fatal. */
  function OnNeeds2FA<U>(step: Step, login: string, password: string): (r: Reaction<U>)
    ensures r.Fatal? <==> !step.UsernamePassword?
    ensures r.Fatal? ==> r.message == Needs2FAOutOfStep
    ensures step.UsernamePassword? ==> r == Handled(TwoFactorAuthentication(step.endpoint, login, password), [])
  {
    match step
    case UsernamePassword(endpoint, _) =>
      Handled(TwoFactorAuthentication(endpoint, login, password), [])
    case _ => Fatal(Needs2FAOutOfStep)
  }
}
