/** The settings file in memory: internal/config/config.go, Store. */
module Store {
  import opened Wrappers
  import opened Settings

  /** What is remembered for one destination. */
  datatype Host = Host(
    view: string,
    showPreexisting: bool,
    sort: string,
    reverse: bool,
    inactiveLast: Option<bool>,
    ports: map<int, Port>)
  {
    predicate IsZero() {
      view == "" && !showPreexisting && sort == "" && !reverse && inactiveLast.None? && ports == map[]
    }
  }

  const NO_HOST := Host("", false, "", false, None, map[])

  /** How a host's table is presented. */
  datatype ViewPrefs = ViewPrefs(showPreexisting: bool, inactiveLast: bool, sort: string, reverse: bool)

  const DEFAULT_SORT := "port"

  /** The presentation a stored host stands for. */
  function PrefsOf(h: Host): ViewPrefs {
    ViewPrefs(h.showPreexisting || h.view == "everything",
              if h.inactiveLast.Some? then h.inactiveLast.value else true,
              if h.sort != "" then h.sort else DEFAULT_SORT,
              h.reverse)
  }

  /** A stored host with this presentation: what is the default is not stored. */
  function WithPrefs(h: Host, p: ViewPrefs): Host {
    h.(view := "",
       showPreexisting := p.showPreexisting,
       sort := if p.sort == DEFAULT_SORT then "" else p.sort,
       reverse := p.reverse,
       inactiveLast := if p.inactiveLast then None else Some(false))
  }

  lemma StoredPrefs(h: Host, p: ViewPrefs)
    ensures PrefsOf(WithPrefs(h, p)) == p.(sort := if p.sort == "" then DEFAULT_SORT else p.sort)
  {
    assert |DEFAULT_SORT| == 4;
  }

  lemma Unset()
    ensures NO_HOST.IsZero() && forall h: Host | h.IsZero() :: h == NO_HOST
  {
  }

  class Store {
    var hosts: map<string, Host>
    var dirty: bool

    constructor (hosts: map<string, Host>)
      ensures this.hosts == hosts && !dirty
    {
      this.hosts, dirty := hosts, false;
    }

    function HostOf(host: string): Host
      reads this
    {
      if host in hosts then hosts[host] else NO_HOST
    }

    /** The remembered settings for a host's remote port. */
    function PortOf(host: string, port: int): Port
      reads this
    {
      Lookup(HostOf(host).ports, port)
    }

    function Prefs(host: string): ViewPrefs
      reads this
    {
      PrefsOf(HostOf(host))
    }

    /** Records settings for a host's remote port. Reading it back gives what was stored, or all zero
        when there was nothing to store; no other port, host or presentation changes, and any change
        marks the store dirty. */
    method SetPort(host: string, port: int, p: Port)
      modifies this
      ensures forall h, q :: PortOf(h, q) ==
                (if h == host && q == port then (if p.IsZero() then NO_PORT else p) else old(PortOf(h, q)))
      ensures HostOf(host).ports == Stored(old(HostOf(host)).ports, port, p)
      ensures forall h :: Prefs(h) == old(Prefs(h))
      ensures hosts != old(hosts) ==> dirty
      ensures old(dirty) ==> dirty
    {
      var h := HostOf(host);
      if p.IsZero() {
        if port !in h.ports {
          return;
        }
        h := h.(ports := h.ports - {port});
      } else {
        if port in h.ports && h.ports[port] == p {
          return;
        }
        h := h.(ports := h.ports[port := p]);
      }
      if h.IsZero() {
        hosts := hosts - {host};
      } else {
        hosts := hosts[host := h];
      }
      dirty := true;
    }

    /** Records a host's presentation. It reads back as given, an unnamed order as the default one; no
        port setting of any host and no other host's presentation changes. */
    method SetViewPrefs(host: string, p: ViewPrefs)
      modifies this
      ensures HostOf(host) == WithPrefs(old(HostOf(host)), p)
      ensures forall h :: Prefs(h) ==
                (if h == host then p.(sort := if p.sort == "" then DEFAULT_SORT else p.sort) else old(Prefs(h)))
      ensures forall h, q :: PortOf(h, q) == old(PortOf(h, q))
      ensures hosts != old(hosts) ==> dirty
      ensures old(dirty) ==> dirty
    {
      hide PrefsOf;
      var h := HostOf(host);
      StoredPrefs(h, p);
      Unset();
      var next := h.(view := "",
                     showPreexisting := p.showPreexisting,
                     sort := if p.sort != "" && p.sort != DEFAULT_SORT then p.sort else "",
                     reverse := p.reverse,
                     inactiveLast := if p.inactiveLast then None else Some(false));
      if next == h {
        return;
      }
      if next.IsZero() {
        hosts := hosts - {host};
      } else {
        hosts := hosts[host := next];
      }
      dirty := true;
    }
  }

  /** A stored presentation reads back exactly as given if and only if its order is named, however the host was
      presented before, the older view setting included; storing again what was read changes nothing more; and
      only a host with the default presentation and no port settings is dropped. */
  lemma PrefsRoundTrip(h: Host, p: ViewPrefs)
    ensures PrefsOf(WithPrefs(h, p)) == p <==> p.sort != ""
    ensures WithPrefs(WithPrefs(h, p), PrefsOf(WithPrefs(h, p))) == WithPrefs(h, p)
    ensures PrefsOf(NO_HOST) == ViewPrefs(false, true, "port", false)
    ensures PrefsOf(h).showPreexisting <==> h.showPreexisting || h.view == "everything"
    ensures WithPrefs(h, p).IsZero() <==> h.ports == map[] && PrefsOf(WithPrefs(h, p)) == PrefsOf(NO_HOST)
  {
    assert |DEFAULT_SORT| == 4;
  }
}
