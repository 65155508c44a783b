/** A page's lifetime: it is constructed at `Initial()` and then receives the
    collaborators' callbacks one at a time, each handled to completion and
    replacing the step atomically before the next one arrives.

    `Run` folds the handlers over a sequence of events and collects the
    outbound calls; a fatal error ends the run. The lemmas relate the run's
    outbound calls and final step to the events that caused them.
 */
module Session {
  import opened SignInEnterprise

  /** A callback invocation, with the arguments the collaborator passes. A
      completed sign-in also carries whether the user store accepted the user,
      the one outcome of an outbound call the page depends on. */
  datatype Event<U> =
    | ServerEntered(endpoint: string, authMethods: set<AuthMethod>)
    | CancelClicked
    | DidSignIn(user: U, addUserSucceeds: bool)
    | Needs2FA(login: string, password: string)

  /** The page callback through which an event arrives. */
  function CallbackOf<U>(e: Event<U>): Callback
  {
    match e
    case ServerEntered(_, _) => ContinueProp
    case CancelClicked => CancelButton
    case DidSignIn(_, _) => DidSignInProp
    case Needs2FA(_, _) => Needs2FAProp
  }

  /** Routes an event to its handler. */
  function Handle<U>(step: Step, e: Event<U>): Reaction<U>
  {
    match e
    case ServerEntered(endpoint, authMethods) => OnServerEntry(step, endpoint, authMethods)
    case CancelClicked => OnCancel(step)
    case DidSignIn(user, ok) => OnDidSignIn(step, user, ok)
    case Needs2FA(login, password) => OnNeeds2FA(step, login, password)
  }

  /** The state of a run: still live at some step, or ended by the fatal error.
      `trace` is every outbound call made so far, in order. */
  datatype RunState<U> =
    | Live(step: Step, trace: seq<Effect<U>>)
    | Crashed(trace: seq<Effect<U>>, message: string)

  function Prepend<U>(effects: seq<Effect<U>>, s: RunState<U>): RunState<U>
  {
    match s
    case Live(step, trace) => Live(step, effects + trace)
    case Crashed(trace, message) => Crashed(effects + trace, message)
  }

  /** Handles `events` in order starting from `step`. */
  function Run<U>(step: Step, events: seq<Event<U>>): RunState<U>
    decreases |events|
  {
    if |events| == 0 then Live(step, [])
    else
      match Handle(step, events[0])
      case Fatal(message) => Crashed([], message)
      case Handled(next, effects) => Prepend(effects, Run(next, events[1..]))
      case Rejected(next, effects) => Prepend(effects, Run(next, events[1..]))
  }

  /** Continues a run with more events; a crashed run stays crashed. */
  function Continue<U>(s: RunState<U>, events: seq<Event<U>>): RunState<U>
  {
    match s
    case Crashed(_, _) => s
    case Live(step, trace) => Prepend(trace, Run(step, events))
  }

  lemma PrependAssociates<U>(a: seq<Effect<U>>, b: seq<Effect<U>>, s: RunState<U>)
    ensures Prepend(a, Prepend(b, s)) == Prepend(a + b, s)
  {
    assert a + (b + s.trace) == (a + b) + s.trace;
  }

  lemma ContinuePrepend<U>(effects: seq<Effect<U>>, s: RunState<U>, events: seq<Event<U>>)
    ensures Continue(Prepend(effects, s), events) == Prepend(effects, Continue(s, events))
  {
    if s.Live? {
      PrependAssociates(effects, s.trace, Run(s.step, events));
    }
  }

  /** Handling `a ++ b` is handling `a` and then handling `b` from where `a`
      left off: the page keeps no state besides its step. */
  lemma {:induction false} RunAppend<U>(step: Step, a: seq<Event<U>>, b: seq<Event<U>>)
    ensures Run(step, a + b) == Continue(Run(step, a), b)
    decreases |a|
  {
    if |a| == 0 {
      assert a + b == b;
      assert Prepend([], Run(step, b)) == Run(step, b);
    } else {
      assert (a + b)[0] == a[0];
      assert (a + b)[1..] == a[1..] + b;
      match Handle(step, a[0])
      case Fatal(_) =>
      case Handled(next, effects) =>
        RunAppend(next, a[1..], b);
        ContinuePrepend(effects, Run(next, a[1..]), b);
      case Rejected(next, effects) =>
        RunAppend(next, a[1..], b);
        ContinuePrepend(effects, Run(next, a[1..]), b);
    }
  }

  /** A run of one event that does not crash ends at the handler's step. */
  lemma RunOne<U>(step: Step, e: Event<U>)
    ensures Handle(step, e).Handled? ==> Run(step, [e]) == Live(Handle(step, e).step, Handle(step, e).effects)
    ensures Handle(step, e).Rejected? ==> Run(step, [e]) == Live(Handle(step, e).step, Handle(step, e).effects)
    ensures Handle(step, e).Fatal? ==> Run(step, [e]) == Crashed([], Handle(step, e).message)
  {
    assert [e][1..] == [];
    var r := Handle(step, e);
    if !r.Fatal? {
      assert r.effects + [] == r.effects;
    }
  }

  /** The page's lifetime as the event loop runs it: construct, then handle
      each callback to completion before the next; a fatal error ends it. */
  method Drive<U>(events: seq<Event<U>>) returns (s: RunState<U>)
    ensures s == Run(Initial(), events)
  {
    var step := Initial();
    var trace: seq<Effect<U>> := [];
    var i := 0;
    while i < |events|
      invariant 0 <= i <= |events|
      invariant Run(Initial(), events[..i]) == Live(step, trace)
    {
      var reaction := Handle(step, events[i]);
      RunAppend(Initial(), events[..i], [events[i]]);
      assert events[..i] + [events[i]] == events[..i + 1];
      match reaction {
        case Fatal(message) =>
          RunAppend(Initial(), events[..i + 1], events[i + 1..]);
          assert events[..i + 1] + events[i + 1..] == events;
          return Crashed(trace, message);
        case Handled(next, effects) =>
          RunOne(step, events[i]);
          step, trace := next, trace + effects;
        case Rejected(next, effects) =>
          RunOne(step, events[i]);
          step, trace := next, trace + effects;
      }
      i := i + 1;
    }
    assert events[..i] == events;
    s := Live(step, trace);
  }
}
