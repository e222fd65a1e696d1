/** `RedirectController`: the two click-through links of the bonus offers.
    A click by a known user records it in the user's row and sends the
    browser on to the site; an unknown id is sent to the home page. */
module RedirectController {
  import opened Common
  import opened Store

  /** The two sites a link leads to. */
  datatype Site = NeuroHolst | NeuroTexter

  /** Where the browser is sent: away to a site, or `redirect('/')`. */
  datatype Redirect = Away(url: string) | Home

  function Address(site: Site): string
  {
    match site
    case NeuroHolst => "https://neuro-holst.ru/"
    case NeuroTexter => "https://neuro-texter.ru/"
  }

  /** Whether the user's row records a click through to `site`. */
  predicate Clicked(u: User, site: Site)
  {
    match site
    case NeuroHolst => u.clickedOnLink
    case NeuroTexter => u.clickedOnNeurotexterLink
  }

  /** The row with the click through to `site` recorded: `clicked_on_link`
      or `clicked_on_neurotexter_link` set to true. */
  function Mark(u: User, site: Site): (v: User)
    ensures Clicked(v, site)
    ensures forall other :: other != site ==> Clicked(v, other) == Clicked(u, other)
    ensures v.isSubscribed == u.isSubscribed && v.status == u.status
  {
    match site
    case NeuroHolst => u.(clickedOnLink := true)
    case NeuroTexter => u.(clickedOnNeurotexterLink := true)
  }

  /** The `telegram_id` the route parameter `userId` is matched against:
      the id it is the decimal spelling of, if any. */
  function RouteId(userId: string): (id: Option<Int64>)
    ensures id.Some? ==> IntToString(id.value) == userId
  {
    CanonicalInt(userId)
  }

  /** `handleRedirect` (`NeuroHolst`) and `handleNeurotexterRedirect`
      (`NeuroTexter`) for the id the route parameter names. */
  function ClickSpec(t: Tables, userId: Option<Int64>, site: Site): Step<Redirect>
  {
    match userId
    case Some(id) =>
      if id in t.users then Step(t.(users := t.users[id := Mark(t.users[id], site)]), Ok(Away(Address(site))))
      else Step(t, Ok(Home))
    case None => Step(t, Ok(Home))
  }

  /** A known user's click is recorded and the browser goes to the site;
      every other row and table is left as it was. */
  lemma KnownUserClicks(t: Tables, id: Int64, site: Site)
    requires id in t.users
    ensures RouteId(IntToString(id)) == Some(id)
    ensures var s := ClickSpec(t, Some(id), site);
      s.result == Ok(Away(Address(site))) &&
      s.after.users.Keys == t.users.Keys &&
      Clicked(s.after.users[id], site) &&
      (forall u :: u in t.users && u != id ==> s.after.users[u] == t.users[u]) &&
      s.after == t.(users := s.after.users)
  {
    CanonicalIntOfIntToString(id);
  }

  /** An id that names no user goes to the home page and changes nothing. */
  lemma UnknownUserGoesHome(t: Tables, userId: Option<Int64>, site: Site)
    requires userId.None? || userId.value !in t.users
    ensures ClickSpec(t, userId, site) == Step(t, Ok(Home))
  {
  }

  /** A click only ever sets its own flag: the other link's flag, the
      subscription flag and the status of every user stay as they were. */
  lemma OwnFlagOnly(t: Tables, userId: Option<Int64>, site: Site, other: Site)
    requires other != site
    ensures var after := ClickSpec(t, userId, site).after;
      after.users.Keys == t.users.Keys &&
      forall u :: u in t.users ==>
        Clicked(after.users[u], other) == Clicked(t.users[u], other) &&
        after.users[u].isSubscribed == t.users[u].isSubscribed &&
        after.users[u].status == t.users[u].status &&
        (Clicked(t.users[u], site) ==> Clicked(after.users[u], site))
  {
    match userId
    case None =>
    case Some(id) =>
      if id in t.users {
        assert ClickSpec(t, userId, site).after.users == t.users[id := Mark(t.users[id], site)];
      }
  }

  /** Clicking the same link again changes nothing more, and sends the
      browser to the same place. */
  lemma ClickIdempotent(t: Tables, userId: Option<Int64>, site: Site)
    ensures var s := ClickSpec(t, userId, site);
      ClickSpec(s.after, userId, site) == s
  {
    match userId
    case None =>
    case Some(id) =>
      if id in t.users {
        var u := Mark(t.users[id], site);
        assert Mark(u, site) == u by {
          match site
          case NeuroHolst =>
          case NeuroTexter =>
        }
        assert t.users[id := u][id := u] == t.users[id := u];
      }
  }

  /** The two links are independent: clicking both, in either order,
      leaves the same tables. */
  lemma ClicksCommute(t: Tables, userId: Option<Int64>)
    ensures ClickSpec(ClickSpec(t, userId, NeuroHolst).after, userId, NeuroTexter).after ==
            ClickSpec(ClickSpec(t, userId, NeuroTexter).after, userId, NeuroHolst).after
  {
    match userId
    case None =>
    case Some(id) =>
      if id in t.users {
        var u := t.users[id];
        var both := u.(clickedOnLink := true, clickedOnNeurotexterLink := true);
        var holst := ClickSpec(t, userId, NeuroHolst).after;
        assert holst.users == t.users[id := Mark(u, NeuroHolst)];
        assert holst.users[id := Mark(Mark(u, NeuroHolst), NeuroTexter)] == t.users[id := both];
        var texter := ClickSpec(t, userId, NeuroTexter).after;
        assert texter.users == t.users[id := Mark(u, NeuroTexter)];
        assert texter.users[id := Mark(Mark(u, NeuroTexter), NeuroHolst)] == t.users[id := both];
      }
  }

  /** A click keeps the tables consistent: it only rewrites an existing
      user's row. */
  lemma ClickConsistent(t: Tables, userId: Option<Int64>, site: Site)
    requires Consistent(t)
    ensures Consistent(ClickSpec(t, userId, site).after)
  {
    OwnFlagOnly(t, userId, site, if site == NeuroHolst then NeuroTexter else NeuroHolst);
  }

  /** The shared body of the two handlers: find the user, set the flag, save. */
  method Click(db: World, userId: string, site: Site) returns (r: Redirect)
    requires db.Valid()
    modifies db`users
    ensures db.Valid()
    ensures db.Snap() == ClickSpec(old(db.Snap()), RouteId(userId), site).after
    ensures Ok(r) == ClickSpec(old(db.Snap()), RouteId(userId), site).result
  {
    ClickConsistent(db.Snap(), RouteId(userId), site);
    var found := RouteId(userId);
    if found.Some? && found.value in db.users {
      var id := found.value;
      db.users := db.users[id := Mark(db.users[id], site)];
      return Away(Address(site));
    }
    return Home;
  }

  /** `handleRedirect`: the click through to NeuroHolst. */
  method HandleRedirect(db: World, userId: string) returns (r: Redirect)
    requires db.Valid()
    modifies db`users
    ensures db.Valid()
    ensures db.Snap() == ClickSpec(old(db.Snap()), RouteId(userId), NeuroHolst).after
    ensures Ok(r) == ClickSpec(old(db.Snap()), RouteId(userId), NeuroHolst).result
  {
    r := Click(db, userId, NeuroHolst);
  }

  /** `handleNeurotexterRedirect`: the click through to NeuroTexter. */
  method HandleNeurotexterRedirect(db: World, userId: string) returns (r: Redirect)
    requires db.Valid()
    modifies db`users
    ensures db.Valid()
    ensures db.Snap() == ClickSpec(old(db.Snap()), RouteId(userId), NeuroTexter).after
    ensures Ok(r) == ClickSpec(old(db.Snap()), RouteId(userId), NeuroTexter).result
  {
    r := Click(db, userId, NeuroTexter);
  }
}
