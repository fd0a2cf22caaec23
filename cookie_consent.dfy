/** The cookie banner: hidden at first, shown on mount when no choice is
    stored under "cookieConsent", and hidden for good once the visitor
    accepts or declines. The browser's `localStorage` entry is a field. */
module CookieConsent {
  import opened Wrappers

  const Accepted := "accepted"
  const Declined := "declined"

  /** Whether the mount effect shows the banner for the stored value. */
  function ShownOnMount(stored: Option<string>, visible: bool): (r: bool)
    ensures stored.None? ==> r
    ensures stored.Some? ==> r == visible
  {
    if stored.None? then true else visible
  }

  class Banner {
    var isVisible: bool
    var stored: Option<string>

    /** A fresh banner over what the browser has stored. */
    constructor(stored: Option<string>)
      ensures !isVisible && this.stored == stored
    {
      isVisible := false;
      this.stored := stored;
    }

    method Mount()
      modifies this
      ensures isVisible == ShownOnMount(old(stored), old(isVisible)) && stored == old(stored)
    {
      if stored.None? {
        isVisible := true;
      }
    }

    method AcceptCookies()
      modifies this
      ensures stored == Some(Accepted) && !isVisible
    {
      stored := Some(Accepted);
      isVisible := false;
    }

    method DeclineCookies()
      modifies this
      ensures stored == Some(Declined) && !isVisible
    {
      stored := Some(Declined);
      isVisible := false;
    }

    /** Nothing is drawn while hidden. */
    predicate Renders()
      reads this
    {
      isVisible
    }
  }

  /** A choice is remembered: the banner shown on a first visit, accepted
      or declined, does not come back on the next visit. */
  method ChoiceRemembered(accept: bool) returns (first: bool, next: bool)
    ensures first && !next
  {
    var b := new Banner(None);
    b.Mount();
    first := b.Renders();
    if accept {
      b.AcceptCookies();
    } else {
      b.DeclineCookies();
    }
    var again := new Banner(b.stored);
    again.Mount();
    next := again.Renders();
  }
}
