/** End-to-end runs of a freshly constructed page with concrete values. */
module Scenarios {
  import opened SignInEnterprise
  import opened Session

  const Server: string := "https://ghe.example.com"

  /** One more event on top of a run whose first event was handled. */
  lemma RunCons<U>(step: Step, events: seq<Event<U>>)
    requires |events| > 0 && !Handle(step, events[0]).Fatal?
    ensures Run(step, events) == Prepend(Handle(step, events[0]).effects, Run(Handle(step, events[0]).step, events[1..]))
  {
  }

  /** Sign-in without a second factor: one registration, then Git
      configuration; the page stays on the username/password step. */
  lemma SignInWithoutSecondFactor()
    ensures Run(Initial(), [ServerEntered(Server, {BasicAuth}), DidSignIn("userA", true)])
      == Live(UsernamePassword(Server, {BasicAuth}), [AddUser("userA"), Advance(ConfigureGit)])
  {
    var es := [ServerEntered(Server, {BasicAuth}), DidSignIn("userA", true)];
    var s1 := UsernamePassword(Server, {BasicAuth});
    RunCons(Initial(), es);
    assert es[1..] == [DidSignIn("userA", true)];
    RunOne(s1, es[1]);
  }

  /** Sign-in through a second factor: the credentials reach the two-factor
      step verbatim, then one registration and one advance. */
  lemma SignInWithSecondFactor()
    ensures Run<string>(Initial(), [ServerEntered(Server, {BasicAuth}), Needs2FA("alice", "pw123")])
      == Live(TwoFactorAuthentication(Server, "alice", "pw123"), [])
    ensures Run(Initial(), [ServerEntered(Server, {BasicAuth}), Needs2FA("alice", "pw123"), DidSignIn("userB", true)])
      == Live(TwoFactorAuthentication(Server, "alice", "pw123"), [AddUser("userB"), Advance(ConfigureGit)])
  {
    var s1 := UsernamePassword(Server, {BasicAuth});
    var s2 := TwoFactorAuthentication(Server, "alice", "pw123");
    var short: seq<Event<string>> := [ServerEntered(Server, {BasicAuth}), Needs2FA("alice", "pw123")];
    RunCons(Initial(), short);
    assert short[1..] == [Needs2FA("alice", "pw123")];
    RunOne(s1, short[1]);
    var long := [ServerEntered(Server, {BasicAuth}), Needs2FA("alice", "pw123"), DidSignIn("userB", true)];
    RunCons(Initial(), long);
    RunCons(s1, long[1..]);
    assert long[1..][1..] == [DidSignIn("userB", true)];
    RunOne(s2, long[2]);
  }

  /** Cancel: one request to go back to the start and no registration. The
      page keeps its step and still handles what arrives afterwards. */
  lemma CancelThenLateSignIn()
    ensures Run<string>(Initial(), [ServerEntered(Server, {}), CancelClicked])
      == Live(UsernamePassword(Server, {}), [Advance(Start)])
    ensures Run(Initial(), [ServerEntered(Server, {}), CancelClicked, DidSignIn("userC", true)])
      == Live(UsernamePassword(Server, {}), [Advance(Start), AddUser("userC"), Advance(ConfigureGit)])
  {
    var s1 := UsernamePassword(Server, {});
    var short: seq<Event<string>> := [ServerEntered(Server, {}), CancelClicked];
    RunCons(Initial(), short);
    assert short[1..] == [CancelClicked];
    RunOne(s1, short[1]);
    var long := [ServerEntered(Server, {}), CancelClicked, DidSignIn("userC", true)];
    RunCons(Initial(), long);
    RunCons(s1, long[1..]);
    assert long[1..][1..] == [DidSignIn("userC", true)];
    RunOne(s1, long[2]);
  }

  /** A rejected registration: the user store is called, nothing else. */
  lemma RejectedRegistration()
    ensures Run(Initial(), [ServerEntered(Server, {OAuth}), DidSignIn("userD", false)])
      == Live(UsernamePassword(Server, {OAuth}), [AddUser("userD")])
  {
    var es := [ServerEntered(Server, {OAuth}), DidSignIn("userD", false)];
    RunCons(Initial(), es);
    assert es[1..] == [DidSignIn("userD", false)];
    RunOne(UsernamePassword(Server, {OAuth}), es[1]);
  }

  /** A second-factor request before any server was entered is fatal, and
      nothing after it is handled. */
  lemma SecondFactorBeforeServerEntry()
    ensures Run<string>(Initial(), [Needs2FA("alice", "pw123"), ServerEntered(Server, {BasicAuth})])
      == Crashed([], Needs2FAOutOfStep)
  {
  }
}
