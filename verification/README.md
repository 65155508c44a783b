# Enterprise sign-in step machine

A Dafny model of the step machine behind the Welcome flow's "Sign in to your
GitHub Enterprise server" page (`SignInEnterprise` in
`app/src/ui/welcome/sign-in-enterprise.tsx`).

The page is always at one of three steps:

- `ServerEntry`, where it starts.
- `UsernamePassword(endpoint, authMethods)`, once a server has been entered.
- `TwoFactorAuthentication(endpoint, login, password)`, once the sign-in form
  asks for a second factor.

Four callbacks drive it:

- `onServerEntry` moves to the username/password step from any step.
- `cancel` asks the Welcome flow to go back to `Start`.
- `onDidSignIn` registers the user with the user store and then asks the
  Welcome flow to move on to `ConfigureGit`.
- `onNeeds2FA` moves to the two-factor step. It raises a fatal error unless the
  page is at the username/password step.

`renderStep` picks the collaborator view, its props and the callbacks it is
wired to.

Files:

- `sign_in_enterprise.dfy`, module `SignInEnterprise`: the `Step` union, the
  handlers as pure functions to a `Reaction`, and the render projection.
  A `Reaction` is either a new step with the outbound calls made in order
  (`AddUser(user)`, `Advance(stage)`), or a rejection after a failed
  registration, or `Fatal`.
- `session.dfy`, module `Session`: events, dispatch, `Run` and the `Drive`
  loop. `Run` handles a sequence of events one after another and stops at a
  fatal error. `Drive` is the page's lifetime: construct, then handle each
  callback to completion.
- `guarantees.dfy`, module `Guarantees`: properties of whole runs.
- `scenarios.dfy`, module `Scenarios`: concrete end-to-end runs.

The signed-in identity is opaque to the page, so it is a type parameter `U`.
The outcome of the user store's `addUser` call comes from outside the page. It
is carried by the sign-in event as `addUserSucceeds`.

What the code does, and the model with it:

- The code has no Completed or Cancelled state. `cancel` and `onDidSignIn` only
  call `advance` and leave the step as it is.
- After a cancel the page keeps handling events (see
  `Scenarios.CancelThenLateSignIn`). Nothing rejects them.
- `onServerEntry` has no guard. It replaces any step, including the two-factor
  step.

## Model

| member | source | states |
|---|---|---|
| SignInEnterprise.FreshPageAtServerEntry | app/src/ui/welcome/sign-in-enterprise.tsx:32-36 | A newly constructed page is at the server-entry step, shows the server-entry view, and that view can only report a server. |
| SignInEnterprise.Render | app/src/ui/welcome/sign-in-enterprise.tsx:49-71 | Each of the three steps maps to exactly one view, so the unknown-step branch is unreachable. Endpoint, login and password reach the view unchanged. `supportsBasicAuth` holds exactly when `BasicAuth` is among the server's methods. |
| SignInEnterprise.Callbacks | app/src/ui/welcome/sign-in-enterprise.tsx:52-67 | Only the sign-in view offers Cancel and the second-factor callback. Only the server-entry view reports a server. Both credential views report a completed sign-in. |
| SignInEnterprise.RenderForgetsOnlyOtherMethods | app/src/ui/welcome/sign-in-enterprise.tsx:53-56 | Two steps render alike if and only if they are equal, or are username/password steps for the same endpoint that agree on basic-auth support. |
| SignInEnterprise.OnServerEntry | app/src/ui/welcome/sign-in-enterprise.tsx:73-77 | From any prior step the result is the username/password step with exactly the reported endpoint and methods. It makes no outbound call. |
| SignInEnterprise.OnCancel | app/src/ui/welcome/sign-in-enterprise.tsx:79-81 | Exactly one call, advancing the Welcome flow to `Start`. No registration. The step is unchanged. |
| SignInEnterprise.OnDidSignIn | app/src/ui/welcome/sign-in-enterprise.tsx:83-87 | Registers the very user it was given, first. It advances to `ConfigureGit` if and only if registration succeeded; otherwise it rejects with no advance. The step is unchanged either way. |
| SignInEnterprise.OnNeeds2FA | app/src/ui/welcome/sign-in-enterprise.tsx:89-98 | Fatal, with the source's message, if and only if the page is not at the username/password step. Otherwise the result is the two-factor step with the endpoint carried over and the credentials stored verbatim, and no outbound call. |
| Session.RunAppend | app/src/ui/welcome/sign-in-enterprise.tsx:26-28 | The page's only state is its step. Handling `a` then `b` is handling `a ++ b`, and a crash ends the run. |
| Session.Drive | app/src/ui/welcome/sign-in-enterprise.tsx:32-98 | Handling the callbacks one at a time from construction, with atomic step replacement, gives exactly the run `Run(Initial(), events)`. |
| Guarantees.HandlerEffects | app/src/ui/welcome/sign-in-enterprise.tsx:73-98 | Any one event that is handled registers exactly the user it reports, if it reports one. It requests `Start` for a cancel, `ConfigureGit` for an accepted user, and nothing otherwise. Its calls never begin with the request to configure Git. |
| Guarantees.RunRegistersEverySignedInUser | app/src/ui/welcome/sign-in-enterprise.tsx:79-87 | In every run that does not crash, the users registered are exactly the signed-in users, in order, once each. The stages requested are exactly one `Start` per cancel and one `ConfigureGit` per accepted user. |
| Guarantees.RunRegistersBeforeConfiguring | app/src/ui/welcome/sign-in-enterprise.tsx:83-87 | In every run, every request to advance to `ConfigureGit` comes immediately after a registration call. |
| Guarantees.StepDataComesFromEvents | app/src/ui/welcome/sign-in-enterprise.tsx:73-94 | A fresh page that did not crash is at the step its events explain. With no server reported yet it is at server entry. Otherwise it is at the username/password step with the last reported server's endpoint and methods. Or, after that server, one second-factor request moved it to the two-factor step, with that endpoint and the request's credentials verbatim. Cancels and sign-ins never change the step. |
| Guarantees.ExplanationIsUnique | app/src/ui/welcome/sign-in-enterprise.tsx:22-24 | A sequence of events explains at most one step. |
| Guarantees.ExplainedExactlyByFinalStep | app/src/ui/welcome/sign-in-enterprise.tsx:73-98 | For a fresh page that did not crash, a step is explained by the events if and only if it is the page's final step. |
| Guarantees.WiredRunNeverCrashes | app/src/ui/welcome/sign-in-enterprise.tsx:49-98 | If every callback comes from the view currently on screen, the fatal error never fires. |
| Scenarios.SignInWithoutSecondFactor | app/src/ui/welcome/sign-in-enterprise.tsx:73-87 | Server entry and then sign-in give one registration of that user, then one advance to `ConfigureGit`. The page stays at the username/password step. |
| Scenarios.SignInWithSecondFactor | app/src/ui/welcome/sign-in-enterprise.tsx:73-94 | The credentials given to the second-factor request appear verbatim in the two-factor step. The following sign-in registers once and advances once. |
| Scenarios.CancelThenLateSignIn | app/src/ui/welcome/sign-in-enterprise.tsx:73-87 | Cancel makes one `Start` request and no registration. A later sign-in is still handled. |
| Scenarios.RejectedRegistration | app/src/ui/welcome/sign-in-enterprise.tsx:83-87 | A rejected registration makes the registration call and nothing else. |
| Scenarios.SecondFactorBeforeServerEntry | app/src/ui/welcome/sign-in-enterprise.tsx:89-98 | A second-factor request at the server-entry step raises the fatal error with the source's message; the model ends the run there. |

## Left out

- JSX markup, headings and the `Button` element: presentation only. The model keeps which view is chosen, its props and the callbacks it is wired to.
- The internals of `EnterpriseServerEntry`, `SignIn` and `TwoFactorAuthentication`: they probe the server and authenticate over the network in files that are not part of this model. Here they are only sources of events.
- `Dispatcher.addUser`: an asynchronous store outside this model. It is an outbound call whose success or failure is an input.
- React `setState` batching and `await` scheduling: events are handled strictly one at a time, and each replaces the step atomically.
- `AuthenticationMethods` and `WelcomeStep` are declared in files that are not part of this model. Only the members the page uses are modelled (`BasicAuth`, `Start`, `ConfigureGit`). `OAuth` stands for any other method a server reports.
- What happens after the fatal error: the page itself only throws, leaving the step as it was, and nothing in it stops later callbacks. The model ends the run at the fatal error (`Crashed`) and does not handle later events; that is a modelling choice, not something the code does.
