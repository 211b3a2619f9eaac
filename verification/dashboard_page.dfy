/**
 * The customer dashboard: badge and room-type fallbacks, the short booking
 * id, and the redirect / spinner decisions.
 */
module DashboardPage {
  import opened Wrappers
  import opened Text

  datatype Variant = Default | Secondary | Destructive | Outline

  datatype BadgeConfig = BadgeConfig(variant: Variant, caption: string)

  predicate KnownStatus(status: string) {
    status in {"pending", "confirmed", "paid", "cancelled"}
  }

  const PendingBadge := BadgeConfig(Secondary, "Menunggu Konfirmasi")

  /** `getStatusBadge`: unknown statuses get the "pending" configuration. */
  function StatusBadge(status: string): (b: BadgeConfig)
    ensures b == PendingBadge <==> status == "pending" || !KnownStatus(status)
    ensures b.variant == Destructive <==> status == "cancelled"
    ensures b.variant != Outline
  {
    if status == "confirmed" then BadgeConfig(Default, "Terkonfirmasi")
    else if status == "paid" then BadgeConfig(Default, "Lunas")
    else if status == "cancelled" then BadgeConfig(Destructive, "Dibatalkan")
    else PendingBadge
  }

  /** `getRoomTypeLabel`: a label for quad, triple and double; any other type returns itself. */
  function RoomTypeLabel(roomType: string): (l: string)
    ensures l == roomType <==> roomType !in {"quad", "triple", "double"}
  {
    if roomType == "quad" then "Quad (4 orang)"
    else if roomType == "triple" then "Triple (3 orang)"
    else if roomType == "double" then "Double (2 orang)"
    else roomType
  }

  /** `id.slice(0, 8).toUpperCase()`. */
  function BookingId(id: string): (b: string)
    ensures |b| == if |id| < 8 then |id| else 8
    ensures forall i :: 0 <= i < |b| ==> b[i] == UpperChar(id[i])
  {
    Upper(if |id| < 8 then id else id[..8])
  }

  /** Two ids that share their first eight characters display the same booking id. */
  lemma BookingIdPrefix(a: string, b: string)
    requires |a| >= 8 && |b| >= 8 && a[..8] == b[..8]
    ensures BookingId(a) == BookingId(b)
  {
  }

  /** The redirect effect: to /auth once authentication has settled with no user. */
  function RedirectsToAuth(authLoading: bool, user: Option<string>): (r: bool)
    ensures r <==> !authLoading && user.None?
  {
    !authLoading && user.None?
  }

  datatype View = Spinner | Bookings

  /**
   * What the page keeps between renders: the auth context's loading flag
   * and user, the page's own `loading`, which starts true, and whether a
   * bookings fetch has been started.
   */
  datatype PageState = PageState(authLoading: bool, user: Option<string>, loading: bool, fetchStarted: bool)

  /** The first render: authentication pending, no user, bookings loading, no fetch. */
  const Initial := PageState(true, None, true, false)

  /**
   * What can happen to the page: the auth context settles on a user (or
   * none), or the bookings fetch finishes, successfully or not.
   */
  datatype PageEvent = AuthSettled(user: Option<string>) | FetchDone

  /**
   * One event. The effect on `user` starts a fetch whenever a user is set;
   * the end of a started fetch clears `loading` whatever its outcome, even if
   * the user has signed out meanwhile, and nothing ever sets `loading` again.
   */
  function Step(s: PageState, e: PageEvent): (t: PageState)
    ensures t.loading ==> s.loading
    ensures t.fetchStarted <==> s.fetchStarted || (e.AuthSettled? && e.user.Some?)
    ensures e.AuthSettled? ==> !t.authLoading && t.user == e.user && t.loading == s.loading
    ensures e.FetchDone? ==> t.authLoading == s.authLoading && t.user == s.user
    ensures e.FetchDone? ==> (t.loading <==> s.loading && !s.fetchStarted)
  {
    match e
    case AuthSettled(u) => s.(authLoading := false, user := u, fetchStarted := s.fetchStarted || u.Some?)
    case FetchDone => if s.fetchStarted then s.(loading := false) else s
  }

  /** The events in order. */
  function Run(s: PageState, evs: seq<PageEvent>): (t: PageState)
    ensures t.loading ==> s.loading
    ensures !t.loading ==> !s.loading || exists i :: 0 <= i < |evs| && evs[i].FetchDone?
    decreases |evs|
  {
    if |evs| == 0 then s
    else
      var t := Run(Step(s, evs[0]), evs[1..]);
      assert forall i :: 0 <= i < |evs| - 1 ==> evs[1..][i] == evs[i + 1];
      t
  }

  /** `if (authLoading || loading)`: the spinner, otherwise the bookings (stale or not). */
  function PageView(s: PageState): (v: View)
    ensures v == Bookings <==> !s.authLoading && !s.loading
  {
    if s.authLoading || s.loading then Spinner else Bookings
  }

  /** The redirect effect on a page state. */
  predicate Redirects(s: PageState) {
    RedirectsToAuth(s.authLoading, s.user)
  }

  /** Without ever signing in no fetch starts and nothing clears `loading`, so the page spins. */
  lemma {:induction false} NoSignInKeepsLoading(s: PageState, evs: seq<PageEvent>)
    requires s.loading && !s.fetchStarted
    requires forall i :: 0 <= i < |evs| ==> evs[i] == FetchDone || evs[i] == AuthSettled(None)
    ensures Run(s, evs).loading && !Run(s, evs).fetchStarted
    ensures PageView(Run(s, evs)) == Spinner
    decreases |evs|
  {
    if |evs| > 0 {
      assert forall i :: 0 <= i < |evs| - 1 ==> evs[1..][i] == evs[i + 1];
      NoSignInKeepsLoading(Step(s, evs[0]), evs[1..]);
    }
  }

  /** The bookings show only after a fetch has finished. */
  lemma BookingsNeedFetch(evs: seq<PageEvent>)
    ensures PageView(Run(Initial, evs)) == Bookings ==> exists i :: 0 <= i < |evs| && evs[i].FetchDone?
  {
  }

  /** A page that never signs anyone in spins for ever, and redirects once authentication settles. */
  lemma NeverSignedInSpins(evs: seq<PageEvent>)
    requires forall i :: 0 <= i < |evs| ==> evs[i] == FetchDone || evs[i] == AuthSettled(None)
    ensures PageView(Run(Initial, evs)) == Spinner
    ensures Redirects(Run(Initial, evs)) <==> AuthSettled(None) in evs
  {
    NoSignInKeepsLoading(Initial, evs);
    SettledOnlyByAuth(Initial, evs);
  }

  /** Authentication is settled after the events exactly when it was before or one of them settled it. */
  lemma {:induction false} SettledOnlyByAuth(s: PageState, evs: seq<PageEvent>)
    requires s.user.None?
    requires forall i :: 0 <= i < |evs| ==> evs[i] == FetchDone || evs[i] == AuthSettled(None)
    ensures Run(s, evs).user.None?
    ensures !Run(s, evs).authLoading <==> !s.authLoading || AuthSettled(None) in evs
    decreases |evs|
  {
    if |evs| > 0 {
      assert forall i :: 0 <= i < |evs| - 1 ==> evs[1..][i] == evs[i + 1];
      assert evs == [evs[0]] + evs[1..];
      SettledOnlyByAuth(Step(s, evs[0]), evs[1..]);
    }
  }

  /**
   * Signing out after the bookings loaded: `loading` stays false, so the page
   * keeps rendering the (stale) bookings while the redirect to /auth fires.
   */
  lemma SignOutAfterFetchShowsStaleBookings(s: PageState)
    requires !s.loading
    ensures PageView(Step(s, AuthSettled(None))) == Bookings
    ensures Redirects(Step(s, AuthSettled(None)))
  {
  }

  /** That state is reachable: sign in, let the fetch finish, sign out. */
  lemma SignOutAfterFetchReachable(id: string)
    ensures var s := Run(Initial, [AuthSettled(Some(id)), FetchDone, AuthSettled(None)]);
      PageView(s) == Bookings && Redirects(s)
  {
    var s1 := Step(Initial, AuthSettled(Some(id)));
    var s2 := Step(s1, FetchDone);
    assert !s2.loading;
    assert [AuthSettled(Some(id)), FetchDone, AuthSettled(None)][1..] == [FetchDone, AuthSettled(None)];
    assert [FetchDone, AuthSettled(None)][1..] == [AuthSettled(None)];
  }

  /** A fetch started before signing out and finishing after it also leaves the stale bookings on screen. */
  lemma FetchLandingAfterSignOut(id: string)
    ensures var s := Run(Initial, [AuthSettled(Some(id)), AuthSettled(None), FetchDone]);
      PageView(s) == Bookings && Redirects(s)
  {
    assert [AuthSettled(Some(id)), AuthSettled(None), FetchDone][1..] == [AuthSettled(None), FetchDone];
    assert [AuthSettled(None), FetchDone][1..] == [FetchDone];
  }
}
