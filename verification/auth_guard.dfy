/**
 * The authentication guard hook: the signed-in user, whether the guard is
 * still loading and whether the user counts as authenticated.  The state
 * is set by the initial session check and then by every auth event, until
 * the hook unmounts.  Only users whose email is confirmed are kept; a
 * session with an unconfirmed user is signed out.  The auth service is
 * left out: the session it returns and the events it sends are inputs,
 * and a sign-out request is counted.
 */
module AuthGuard {
  import opened Wrappers

  /** A session's user; `confirmedAt` is `email_confirmed_at`. */
  datatype User = User(id: string, confirmedAt: Option<string>)

  /** `email_confirmed_at` is truthy: present and not the empty string. */
  predicate Confirmed(u: User) { u.confirmedAt.Some? && u.confirmedAt.value != [] }

  /** The events the guard tells apart; every other event name is `OtherEvent`. */
  datatype AuthEvent = SignedIn | SignedOut | OtherEvent(name: string)

  /** How the initial `getSession` ended: with a session's user (None for no session or no user), or by throwing. */
  datatype Check = Got(user: Option<User>) | CheckThrew

  datatype Guard = Guard(user: Option<User>, loading: bool, isAuthenticated: bool)

  /** The guard's invariant: authenticated exactly when a user is stored, and a stored user is confirmed. */
  predicate Good(g: Guard)
  {
    (g.isAuthenticated <==> g.user.Some?) && (g.user.Some? ==> Confirmed(g.user.value))
  }

  /** Nobody signed in, nothing loading. */
  const SignedOutGuard: Guard := Guard(None, false, false)

  /**
   * The state the initial check leaves, and whether it asks for a sign-out:
   * a confirmed user is stored; anything else, an error included, leaves
   * nobody signed in, and an unconfirmed user is signed out.
   */
  function Checked(c: Check): (r: (Guard, bool))
    ensures Good(r.0) && !r.0.loading
    ensures r.0.isAuthenticated <==> c.Got? && c.user.Some? && Confirmed(c.user.value)
    ensures r.0.isAuthenticated ==> r.0.user == c.user
    ensures r.1 <==> c.Got? && c.user.Some? && !Confirmed(c.user.value)
    ensures c.CheckThrew? ==> r == (SignedOutGuard, false)
  {
    match c
    case Got(user) =>
      if user.Some? && Confirmed(user.value) then (Guard(user, false, true), false)
      else (SignedOutGuard, user.Some?)
    case CheckThrew => (SignedOutGuard, false)
  }

  /**
   * The state after one auth event with the session's user, and whether it
   * asks for a sign-out.  A sign-in with a user stores it when confirmed and
   * otherwise clears the state and signs out; a sign-out clears the state;
   * any other event (a sign-in without a user included) only ends loading.
   */
  function Reacted(g: Guard, e: AuthEvent, user: Option<User>): (r: (Guard, bool))
    ensures !r.0.loading
    ensures Good(g) ==> Good(r.0)
    ensures e.SignedIn? && user.Some? && Confirmed(user.value) ==> r == (Guard(user, false, true), false)
    ensures e.SignedIn? && user.Some? && !Confirmed(user.value) ==> r == (SignedOutGuard, true)
    ensures e.SignedOut? ==> r == (SignedOutGuard, false)
    ensures e.OtherEvent? || (e.SignedIn? && user.None?) ==>
      r.0.user == g.user && r.0.isAuthenticated == g.isAuthenticated && !r.1
  {
    if e.SignedIn? && user.Some? then
      if Confirmed(user.value) then (Guard(user, false, true), false) else (SignedOutGuard, true)
    else if e.SignedOut? then (SignedOutGuard, false)
    else (g.(loading := false), false)
  }

  /** Once the guard has settled, a second event of the same kind changes nothing more. */
  lemma ReactedIdempotent(g: Guard, e: AuthEvent, user: Option<User>)
    ensures Reacted(Reacted(g, e, user).0, e, user).0 == Reacted(g, e, user).0
  {
  }

  /** The sign-out an unconfirmed sign-in asks for comes back as a sign-out event and leaves the same state. */
  lemma UnconfirmedStaysOut(g: Guard, u: User, later: Option<User>)
    requires !Confirmed(u)
    ensures Reacted(Reacted(g, SignedIn, Some(u)).0, SignedOut, later).0 == Reacted(g, SignedIn, Some(u)).0
  {
  }

  /** The state after a sequence of events. */
  function Run(g: Guard, events: seq<(AuthEvent, Option<User>)>): Guard
    decreases |events|
  {
    if events == [] then g
    else
      var last := events[|events| - 1];
      Reacted(Run(g, events[..|events| - 1]), last.0, last.1).0
  }

  /** Whatever the check found, an authenticated guard holds a confirmed user, from the check on through any events. */
  lemma {:induction false} GoodThroughEvents(c: Check, events: seq<(AuthEvent, Option<User>)>)
    ensures Good(Run(Checked(c).0, events))
    decreases |events|
  {
    if events != [] {
      GoodThroughEvents(c, events[..|events| - 1]);
    }
  }

  class Hook {
    var user: Option<User>
    var loading: bool
    var isAuthenticated: bool
    /** The effect's `mounted` flag. */
    var mounted: bool
    /** How many sign-outs the guard has asked for. */
    var signOuts: nat

    function State(): Guard
      reads this
    {
      Guard(user, loading, isAuthenticated)
    }

    /** The hook's initial state, with the effect just run. */
    constructor()
      ensures State() == Guard(None, true, false) && Good(State())
      ensures mounted && signOuts == 0
    {
      user, loading, isAuthenticated := None, true, false;
      mounted, signOuts := true, 0;
    }

    /** `checkAuth` resolving with `c`; nothing happens once unmounted. */
    method CheckAuth(c: Check)
      modifies this
      ensures mounted == old(mounted)
      ensures old(mounted) ==>
        State() == Checked(c).0 && signOuts == old(signOuts) + (if Checked(c).1 then 1 else 0)
      ensures !old(mounted) ==> State() == old(State()) && signOuts == old(signOuts)
      ensures Good(old(State())) ==> Good(State())
    {
      if !mounted {
        return;
      }
      match c {
        case Got(session) =>
          if session.Some? && Confirmed(session.value) {
            user := session;
            isAuthenticated := true;
          } else {
            user := None;
            isAuthenticated := false;
            if session.Some? {
              signOuts := signOuts + 1;
            }
          }
          loading := false;
        case CheckThrew =>
          user := None;
          isAuthenticated := false;
          loading := false;
      }
    }

    /** The `onAuthStateChange` callback; nothing happens once unmounted. */
    method OnAuthEvent(e: AuthEvent, session: Option<User>)
      modifies this
      ensures mounted == old(mounted)
      ensures old(mounted) ==>
        State() == Reacted(old(State()), e, session).0 &&
        signOuts == old(signOuts) + (if Reacted(old(State()), e, session).1 then 1 else 0)
      ensures !old(mounted) ==> State() == old(State()) && signOuts == old(signOuts)
      ensures Good(old(State())) ==> Good(State())
    {
      if !mounted {
        return;
      }
      if e.SignedIn? && session.Some? {
        if Confirmed(session.value) {
          user := session;
          isAuthenticated := true;
        } else {
          user := None;
          isAuthenticated := false;
          signOuts := signOuts + 1;
        }
      } else if e.SignedOut? {
        user := None;
        isAuthenticated := false;
      }
      loading := false;
    }

    /** The effect's cleanup: `mounted = false` and the subscription ends. */
    method Unmount()
      modifies this
      ensures !mounted && State() == old(State()) && signOuts == old(signOuts)
    {
      mounted := false;
    }
  }
}
