/**
 * The sign-in page's check of a stored session when it opens: a remembered session or one
 * less than twenty-four hours old goes straight to the dashboard, any other stored entry is
 * removed.
 */
module Login {
  import opened Optional

  /** Twenty-four hours in milliseconds. */
  const SessionLifetime: int := 24 * 60 * 60 * 1000

  /**
   * What the `churchMediaAuth` entry holds, as the check reads it: an empty text, text that is
   * not JSON, the JSON `null`, or an object with its `rememberMe` flag (as truthiness) and its
   * `loginTime` in milliseconds (`None` when it is not a valid date).
   */
  datatype AuthEntry =
    | EmptyText
    | Unparseable
    | NullValue
    | Parsed(rememberMe: bool, loginTime: Option<int>)

  datatype Outcome = StayOnLogin | GoToDashboard | RemoveEntry

  /** Milliseconds since the login, `None` when the login time is not a date (NaN). */
  function Age(now: int, loginTime: Option<int>): (r: Option<int>)
    ensures r.Some? <==> loginTime.Some?
    ensures r.Some? ==> loginTime.value + r.value == now
  {
    match loginTime
    case Some(t) => Some(now - t)
    case None => None
  }

  /** `hoursSinceLogin < 24`; a NaN age compares false. */
  predicate Fresh(now: int, loginTime: Option<int>) {
    var age := Age(now, loginTime);
    age.Some? && age.value < SessionLifetime
  }

  /**
   * The decision of the mount effect. Nothing is stored, or an empty text: stay. A parsed
   * object that is remembered or fresh: the dashboard. Anything else, including a parse
   * failure and the `null` whose `loginTime` throws: the entry is removed.
   */
  function Decide(stored: Option<AuthEntry>, now: int): (o: Outcome)
    ensures o == StayOnLogin <==> stored.None? || stored.value == EmptyText
    ensures o == GoToDashboard <==>
      stored.Some? && stored.value.Parsed? && (stored.value.rememberMe || Fresh(now, stored.value.loginTime))
    ensures stored.Some? && stored.value in {Unparseable, NullValue} ==> o == RemoveEntry
  {
    match stored
    case None => StayOnLogin
    case Some(EmptyText) => StayOnLogin
    case Some(Unparseable) => RemoveEntry
    case Some(NullValue) => RemoveEntry
    case Some(Parsed(remember, loginTime)) =>
      if remember || Fresh(now, loginTime) then GoToDashboard else RemoveEntry
  }

  /** A remembered session goes to the dashboard whatever its age, even with no valid time. */
  lemma RememberedAlwaysNavigates(loginTime: Option<int>, now: int)
    ensures Decide(Some(Parsed(true, loginTime)), now) == GoToDashboard
  {
  }

  /** Without "remember me", the session lasts strictly less than twenty-four hours. */
  lemma TwentyFourHourBoundary(t: int, now: int)
    ensures Decide(Some(Parsed(false, Some(t))), now) == GoToDashboard <==> now - t < 86400000
    ensures Decide(Some(Parsed(false, Some(t))), t + 86400000) == RemoveEntry
    ensures Decide(Some(Parsed(false, Some(t))), t + 86399999) == GoToDashboard
    ensures Decide(Some(Parsed(false, None)), now) == RemoveEntry
  {
  }

  /** Once a session has expired it stays expired: any later check removes it too. */
  lemma ExpiryIsMonotone(stored: Option<AuthEntry>, now: int, later: int)
    requires now <= later
    requires Decide(stored, now) == RemoveEntry
    ensures Decide(stored, later) == RemoveEntry
  {
  }

  /** A session that goes to the dashboard now also did at every earlier moment since the login. */
  lemma FreshSessionsWereFresh(t: int, now: int, earlier: int)
    requires earlier <= now
    requires Decide(Some(Parsed(false, Some(t))), now) == GoToDashboard
    ensures Decide(Some(Parsed(false, Some(t))), earlier) == GoToDashboard
  {
  }

  /** The page's view of local storage: the one entry the check reads and may remove. */
  class LoginPage {
    var stored: Option<AuthEntry>

    constructor (entry: Option<AuthEntry>)
      ensures stored == entry
    {
      stored := entry;
    }

    /**
     * The mount effect at time `now`: returns the route navigated to, if any, and removes the
     * entry exactly when the decision is to remove it.
     */
    method CheckStoredSession(now: int) returns (navigateTo: Option<string>)
      modifies this
      ensures navigateTo == (if Decide(old(stored), now) == GoToDashboard then Some("/dashboard") else None)
      ensures stored == (if Decide(old(stored), now) == RemoveEntry then None else old(stored))
    {
      navigateTo := None;
      if stored.Some? && stored.value != EmptyText {
        var entry := stored.value;
        if entry.Parsed? {
          if entry.rememberMe || Fresh(now, entry.loginTime) {
            navigateTo := Some("/dashboard");
            return;
          } else {
            stored := None;
          }
        } else {
          stored := None;
        }
      }
    }
  }

  /** Opening the page twice: after a removal the second check stays on the sign-in page. */
  method CheckTwice(page: LoginPage, now: int, later: int) returns (second: Option<string>)
    modifies page
    ensures Decide(old(page.stored), now) == RemoveEntry ==> second.None? && page.stored.None?
    ensures Decide(old(page.stored), now) == StayOnLogin ==> second.None? && page.stored == old(page.stored)
  {
    var first := page.CheckStoredSession(now);
    second := page.CheckStoredSession(later);
  }
}
