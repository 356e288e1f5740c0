/** The navigation state of the player interface: the current tab, restricted
    to a fixed whitelist, and an optional notifications overlay above it. The
    tab is also written to the `tab` query parameter of the page URL; the
    browser history is modelled as the list of tab values pushed to it, and
    reading the URL is given as its outcome. */
module V2Nav {
  import opened JsValues

  const DefaultTab := "home"
  const Allowed: set<string> := {"home", "rankings", "predictions", "live", "chat"}

  /** `ALLOWED.has(t) ? t : DEFAULT_TAB` */
  function Safe(t: string): (s: string)
    ensures s in Allowed
    ensures s == t <==> t in Allowed
    ensures s != t ==> s == DefaultTab
  {
    if t in Allowed then t else DefaultTab
  }

  /** An allowed tab is its own safe form, so a second pass changes nothing. */
  lemma SafeIdempotent(t: string)
    ensures Safe(Safe(t)) == Safe(t)
  {
  }

  /** What reading `window.location.href` gives: a parse failure of `new URL`,
      or the value of the `tab` search parameter (None when it is absent). */
  datatype UrlRead = Unparsable | Parsed(tabParam: Option<string>)

  /** `readTabFromUrl`: the parameter, or the default when it is absent, empty,
      unknown, or the URL does not parse. */
  function ReadTabFromUrl(u: UrlRead): (tab: string)
    ensures tab in Allowed
    ensures u.Parsed? && u.tabParam.Some? && u.tabParam.value in Allowed ==> tab == u.tabParam.value
    ensures !(u.Parsed? && u.tabParam.Some? && u.tabParam.value in Allowed) ==> tab == DefaultTab
  {
    match u
    case Unparsable => DefaultTab
    case Parsed(p) =>
      var t := if p.Some? && p.value != "" then p.value else DefaultTab;
      Safe(t)
  }

  /** Whatever the URL holds, the tab read from it and then pushed back by
      `go` is read again unchanged. */
  lemma ReadBackOfPushed(u: UrlRead)
    ensures ReadTabFromUrl(Parsed(Some(Safe(ReadTabFromUrl(u))))) == ReadTabFromUrl(u)
  {
  }

  datatype Overlay = NoOverlay | NotificationsOverlay

  /** The visible state: the tab and the overlay. */
  datatype NavState = NavState(tab: string, overlay: Overlay)

  predicate ValidState(s: NavState)
  {
    s.tab in Allowed
  }

  /** `go(next)`: the overlay is closed and the tab moves to `next` when it is
      allowed, to the default otherwise. */
  function Going(s: NavState, next: string): (t: NavState)
    ensures ValidState(t) && t.overlay == NoOverlay
    ensures t.tab == next <==> next in Allowed
    ensures next !in Allowed ==> t.tab == DefaultTab
  {
    NavState(Safe(next), NoOverlay)
  }

  /** `openNotifications`: only the overlay changes. */
  function Opening(s: NavState): (t: NavState)
    ensures t.tab == s.tab && t.overlay == NotificationsOverlay
    ensures ValidState(s) ==> ValidState(t)
  {
    s.(overlay := NotificationsOverlay)
  }

  /** `closeOverlay`: only the overlay changes. */
  function Closing(s: NavState): (t: NavState)
    ensures t.tab == s.tab && t.overlay == NoOverlay
    ensures ValidState(s) ==> ValidState(t)
  {
    s.(overlay := NoOverlay)
  }

  /** The `popstate` listener: the tab is read again from the URL, the overlay
      is left as it is. */
  function Popping(s: NavState, u: UrlRead): (t: NavState)
    ensures ValidState(t) && t.overlay == s.overlay
    ensures t.tab == ReadTabFromUrl(u)
  {
    s.(tab := ReadTabFromUrl(u))
  }

  /** Going to the same tab twice ends where going once does. */
  lemma GoingIdempotent(s: NavState, next: string)
    ensures Going(Going(s, next), next) == Going(s, next)
  {
  }

  /** Opening then closing the overlay restores a state that had none. */
  lemma OpenThenClose(s: NavState)
    requires s.overlay == NoOverlay
    ensures Closing(Opening(s)) == s
  {
  }

  /** The hook's state. Every method keeps the tab inside the whitelist. */
  class Nav {
    var tab: string
    var overlay: Overlay
    /** The tab values pushed to the browser history, oldest first. */
    var history: seq<string>

    function State(): (s: NavState)
      reads this
      ensures s.tab == tab && s.overlay == overlay
    {
      NavState(tab, overlay)
    }

    ghost predicate Valid()
      reads this
    {
      ValidState(State())
    }

    /** `useState(() => readTabFromUrl())` and `useState(null)`. */
    constructor (u: UrlRead)
      ensures Valid()
      ensures tab == ReadTabFromUrl(u) && overlay == NoOverlay && history == []
    {
      tab := ReadTabFromUrl(u);
      overlay := NoOverlay;
      history := [];
    }

    /** `go(nextTab)`: sets the state and pushes the safe tab to the history. */
    method Go(nextTab: string)
      modifies this
      ensures Valid()
      ensures State() == Going(old(State()), nextTab)
      ensures history == old(history) + [Safe(nextTab)]
    {
      var safe := Safe(nextTab);
      overlay := NoOverlay;
      tab := safe;
      history := history + [safe];
    }

    method OpenNotifications()
      modifies this
      ensures old(Valid()) ==> Valid()
      ensures State() == Opening(old(State())) && history == old(history)
    {
      overlay := NotificationsOverlay;
    }

    method CloseOverlay()
      modifies this
      ensures old(Valid()) ==> Valid()
      ensures State() == Closing(old(State())) && history == old(history)
    {
      overlay := NoOverlay;
    }

    /** The `popstate` listener, given what the URL now reads. */
    method OnPopState(u: UrlRead)
      modifies this
      ensures Valid()
      ensures State() == Popping(old(State()), u) && history == old(history)
    {
      tab := ReadTabFromUrl(u);
    }
  }
}
