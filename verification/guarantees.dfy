/** What a whole run of the page guarantees, stated against the events that
    drove it: which users were registered, which Welcome stages were
    requested and in what order, where the credentials of the two-factor step
    come from, and why the fatal error cannot happen when every callback comes
    from the view on screen.
 */
module Guarantees {
  import opened SignInEnterprise
  import opened Session

  /** The users passed to the user store, in call order. */
  function AddedUsers<U>(trace: seq<Effect<U>>): seq<U>
    decreases |trace|
  {
    if |trace| == 0 then []
    else (if trace[0].AddUser? then [trace[0].user] else []) + AddedUsers(trace[1..])
  }

  /** The Welcome stages requested, in call order. */
  function Advances<U>(trace: seq<Effect<U>>): seq<WelcomeStep>
    decreases |trace|
  {
    if |trace| == 0 then []
    else (if trace[0].Advance? then [trace[0].stage] else []) + Advances(trace[1..])
  }

  /** The user an event reports as signed in, if any. */
  function EventUser<U>(e: Event<U>): seq<U>
  {
    if e.DidSignIn? then [e.user] else []
  }

  /** The stage an event is expected to request, if any: the start of the
      Welcome flow for a Cancel click, Git configuration for a sign-in whose
      user the store accepted. */
  function EventStage<U>(e: Event<U>): seq<WelcomeStep>
  {
    if e.CancelClicked? then [Start]
    else if e.DidSignIn? && e.addUserSucceeds then [ConfigureGit]
    else []
  }

  /** The users the collaborators reported as signed in, in arrival order. */
  function SignedInUsers<U>(events: seq<Event<U>>): seq<U>
    decreases |events|
  {
    if |events| == 0 then [] else EventUser(events[0]) + SignedInUsers(events[1..])
  }

  /** The stages the page is expected to request, in arrival order. */
  function RequestedStages<U>(events: seq<Event<U>>): seq<WelcomeStep>
    decreases |events|
  {
    if |events| == 0 then [] else EventStage(events[0]) + RequestedStages(events[1..])
  }

  lemma {:induction false} AddedUsersAppend<U>(a: seq<Effect<U>>, b: seq<Effect<U>>)
    ensures AddedUsers(a + b) == AddedUsers(a) + AddedUsers(b)
    decreases |a|
  {
    if |a| == 0 {
      assert a + b == b;
    } else {
      assert (a + b)[0] == a[0];
      assert (a + b)[1..] == a[1..] + b;
      AddedUsersAppend(a[1..], b);
    }
  }

  lemma {:induction false} AdvancesAppend<U>(a: seq<Effect<U>>, b: seq<Effect<U>>)
    ensures Advances(a + b) == Advances(a) + Advances(b)
    decreases |a|
  {
    if |a| == 0 {
      assert a + b == b;
    } else {
      assert (a + b)[0] == a[0];
      assert (a + b)[1..] == a[1..] + b;
      AdvancesAppend(a[1..], b);
    }
  }

  /** One handled event registers its user, if it carries one, and requests
      the stage it is expected to. */
  lemma HandlerEffects<U>(step: Step, e: Event<U>)
    requires !Handle(step, e).Fatal?
    ensures AddedUsers(Handle(step, e).effects) == EventUser(e)
    ensures Advances(Handle(step, e).effects) == EventStage(e)
    ensures RegisteredBeforeConfigure(Handle(step, e).effects)
    ensures Handle(step, e).effects == [] || Handle(step, e).effects[0] != Advance(ConfigureGit)
  {
    var fx := Handle(step, e).effects;
    match e
    case ServerEntered(_, _) =>
    case Needs2FA(_, _) =>
    case CancelClicked =>
      assert fx[1..] == [];
    case DidSignIn(u, ok) =>
      if ok {
        var register: seq<Effect<U>>, configure: seq<Effect<U>> := [AddUser(u)], [Advance(ConfigureGit)];
        assert fx == register + configure;
        assert register[1..] == [] && configure[1..] == [];
        AddedUsersAppend(register, configure);
        AdvancesAppend(register, configure);
      } else {
        assert fx[1..] == [];
      }
  }

  /** Every live run registers exactly the users the collaborators reported,
      once each and in order, and requests exactly one stage per Cancel click
      and per accepted user; a user the store rejected never moves the Welcome
      flow on. */
  lemma {:induction false} RunRegistersEverySignedInUser<U>(step: Step, events: seq<Event<U>>)
    requires Run(step, events).Live?
    ensures AddedUsers(Run(step, events).trace) == SignedInUsers(events)
    ensures Advances(Run(step, events).trace) == RequestedStages(events)
    decreases |events|
  {
    if |events| > 0 {
      var r := Handle(step, events[0]);
      var rest := Run(r.step, events[1..]);
      RunRegistersEverySignedInUser(r.step, events[1..]);
      assert Run(step, events).trace == r.effects + rest.trace;
      AddedUsersAppend(r.effects, rest.trace);
      AdvancesAppend(r.effects, rest.trace);
      HandlerEffects(step, events[0]);
    }
  }

  /** In a trace, every request to move on to Git configuration comes right
      after the call that registered the user. */
  ghost predicate RegisteredBeforeConfigure<U>(trace: seq<Effect<U>>)
  {
    forall i :: 0 <= i < |trace| && trace[i] == Advance(ConfigureGit) ==> 0 < i && trace[i - 1].AddUser?
  }

  /** Two such traces stay such when joined, unless the second begins with the
      request to configure Git. */
  lemma RegisteredBeforeConfigureAppend<U>(a: seq<Effect<U>>, b: seq<Effect<U>>)
    requires RegisteredBeforeConfigure(a) && RegisteredBeforeConfigure(b)
    requires b == [] || b[0] != Advance(ConfigureGit)
    ensures RegisteredBeforeConfigure(a + b)
  {
    var t := a + b;
    forall i | 0 <= i < |t| && t[i] == Advance(ConfigureGit)
      ensures 0 < i && t[i - 1].AddUser?
    {
      if i >= |a| {
        assert t[i] == b[i - |a|];
      }
    }
  }

  /** Every run, live or crashed, registers the user before it advances to
      Git configuration. */
  lemma {:induction false} RunRegistersBeforeConfiguring<U>(step: Step, events: seq<Event<U>>)
    ensures RegisteredBeforeConfigure(Run(step, events).trace)
    ensures Run(step, events).trace == [] || Run(step, events).trace[0] != Advance(ConfigureGit)
    decreases |events|
  {
    if |events| > 0 {
      var r := Handle(step, events[0]);
      if !r.Fatal? {
        var rest := Run(r.step, events[1..]);
        RunRegistersBeforeConfiguring(r.step, events[1..]);
        HandlerEffects(step, events[0]);
        assert Run(step, events).trace == r.effects + rest.trace;
        RegisteredBeforeConfigureAppend(r.effects, rest.trace);
      }
    }
  }

  /** The events in `[lo, hi)` leave the step alone: each is a Cancel click or
      a completed sign-in. */
  ghost predicate KeepStep<U>(events: seq<Event<U>>, lo: int, hi: int)
  {
    0 <= lo <= hi <= |events| &&
    forall k :: lo <= k < hi ==> events[k].CancelClicked? || events[k].DidSignIn?
  }

  /** The step a fresh page must be at after `events`, described by the events
      alone: no server reported yet; or the last server reported, with nothing
      but step-keeping events since; or the last server reported, then one
      second-factor request whose credentials the step holds, with nothing but
      step-keeping events around it. */
  ghost predicate ExplainedBy<U>(events: seq<Event<U>>, step: Step)
  {
    match step
    case ServerEntry => KeepStep(events, 0, |events|)
    case UsernamePassword(endpoint, authMethods) =>
      exists i :: EnteredLast(events, i, endpoint, authMethods)
    case TwoFactorAuthentication(endpoint, login, password) =>
      exists i, j :: SecondFactorLast(events, i, j, endpoint, login, password)
  }

  /** Position `i` reports the server, and nothing after it changes the step. */
  ghost predicate EnteredLast<U>(events: seq<Event<U>>, i: int, endpoint: string, authMethods: set<AuthMethod>)
  {
    0 <= i < |events| && events[i] == ServerEntered(endpoint, authMethods)
    && KeepStep(events, i + 1, |events|)
  }

  /** Position `i` reports the server, position `j` asks for the second
      factor, and nothing else from `i` on changes the step. */
  ghost predicate SecondFactorLast<U>(events: seq<Event<U>>, i: int, j: int, endpoint: string, login: string, password: string)
  {
    0 <= i < j < |events| && events[i].ServerEntered? && events[i].endpoint == endpoint
    && KeepStep(events, i + 1, j) && events[j] == Needs2FA(login, password)
    && KeepStep(events, j + 1, |events|)
  }

  /** A page that started fresh and did not crash is at the step its events
      explain: the endpoint and methods of the username/password step are those
      of the last server reported, and the two-factor step holds that
      endpoint and, verbatim, the credentials of the second-factor request. */
  lemma {:induction false} StepDataComesFromEvents<U>(events: seq<Event<U>>)
    requires Run(Initial(), events).Live?
    ensures ExplainedBy(events, Run(Initial(), events).step)
    decreases |events|
  {
    if |events| > 0 {
      var n := |events| - 1;
      var prefix := events[..n];
      assert events == prefix + [events[n]];
      RunAppend(Initial(), prefix, [events[n]]);
      var before := Run(Initial(), prefix);
      if before.Live? {
        var r := Handle(before.step, events[n]);
        RunOne(before.step, events[n]);
        if !r.Fatal? {
          StepDataComesFromEvents(prefix);
          var final := Run(Initial(), events);
          assert final.step == r.step;
          match events[n]
          case ServerEntered(e, m) =>
            assert EnteredLast(events, n, e, m);
          case CancelClicked =>
            assert final.step == before.step;
            ExtendExplanation(prefix, events, final.step);
          case DidSignIn(_, _) =>
            assert final.step == before.step;
            ExtendExplanation(prefix, events, final.step);
          case Needs2FA(l, p) =>
            assert before.step.UsernamePassword?;
            var i :| EnteredLast(prefix, i, before.step.endpoint, before.step.authMethods);
            assert events[i] == prefix[i];
            assert KeepStep(events, i + 1, n) by {
              forall k | i + 1 <= k < n ensures events[k] == prefix[k] { }
            }
            assert SecondFactorLast(events, i, n, before.step.endpoint, l, p);
        }
      }
    }
  }

  /** A step-keeping event appended to explained events leaves the same step
      explained. */
  lemma ExtendExplanation<U>(prefix: seq<Event<U>>, events: seq<Event<U>>, step: Step)
    requires |events| == |prefix| + 1 && prefix == events[..|prefix|]
    requires events[|prefix|].CancelClicked? || events[|prefix|].DidSignIn?
    requires ExplainedBy(prefix, step)
    ensures ExplainedBy(events, step)
  {
    var n := |prefix|;
    forall lo, hi | KeepStep(prefix, lo, hi) ensures KeepStep(events, lo, hi) {
      forall k | lo <= k < hi ensures events[k] == prefix[k] { }
    }
    forall lo | KeepStep(prefix, lo, n) ensures KeepStep(events, lo, n + 1) {
      forall k | lo <= k < n ensures events[k] == prefix[k] { }
    }
    match step
    case ServerEntry =>
    case UsernamePassword(e, m) =>
      var i :| EnteredLast(prefix, i, e, m);
      assert events[i] == prefix[i];
      assert EnteredLast(events, i, e, m);
    case TwoFactorAuthentication(e, l, p) =>
      var i, j :| SecondFactorLast(prefix, i, j, e, l, p);
      assert events[i] == prefix[i] && events[j] == prefix[j];
      assert SecondFactorLast(events, i, j, e, l, p);
  }

  /** The events explain at most one step, so `ExplainedBy` is a complete
      description of where a fresh page that did not crash ends up. */
  lemma ExplanationIsUnique<U>(events: seq<Event<U>>, a: Step, b: Step)
    requires ExplainedBy(events, a) && ExplainedBy(events, b)
    ensures a == b
  {
  }

  /** For a fresh page that did not crash, a step is explained by the events
      if and only if it is the step the page is at. */
  lemma ExplainedExactlyByFinalStep<U>(events: seq<Event<U>>, step: Step)
    requires Run(Initial(), events).Live?
    ensures ExplainedBy(events, step) <==> step == Run(Initial(), events).step
  {
    StepDataComesFromEvents(events);
    if ExplainedBy(events, step) {
      ExplanationIsUnique(events, step, Run(Initial(), events).step);
    }
  }

  /** An event the view on screen can actually deliver. */
  predicate Wired<U>(step: Step, e: Event<U>)
  {
    CallbackOf(e) in Callbacks(Render(step))
  }

  /** Every event of the sequence arrives through a callback of the view that
      is on screen when it arrives. */
  ghost predicate WiredRun<U>(step: Step, events: seq<Event<U>>)
    decreases |events|
  {
    |events| == 0 ||
    (Wired(step, events[0]) &&
     match Handle(step, events[0])
     case Fatal(_) => true
     case Handled(next, _) => WiredRun(next, events[1..])
     case Rejected(next, _) => WiredRun(next, events[1..]))
  }

  /** When every callback comes from the view on screen, the fatal error of
      the second-factor handler never fires: only the sign-in view is wired
      to it, and it is shown exactly at the username/password step. */
  lemma {:induction false} WiredRunNeverCrashes<U>(step: Step, events: seq<Event<U>>)
    requires WiredRun(step, events)
    ensures Run(step, events).Live?
    decreases |events|
  {
    if |events| > 0 {
      var r := Handle(step, events[0]);
      assert !r.Fatal?;
      WiredRunNeverCrashes(r.step, events[1..]);
    }
  }
}
