/** The remembered per-port decisions: internal/config/config.go. */
module Settings {
  import opened Schemes

  datatype Mode = Auto | On | Off {
    function Text(): string {
      match this
      case Auto => "auto"
      case On => "on"
      case Off => "off"
    }

    /** The next mode in the cycle auto, on, off. */
    function Next(): Mode {
      match this
      case Auto => On
      case On => Off
      case Off => Auto
    }
  }

  function ParseMode(s: string): Mode {
    if s == "on" then On else if s == "off" then Off else Auto
  }

  /** What is stored for one remote port. */
  datatype Port = Port(name: string, scheme: string, mode: string, local: int) {
    predicate IsZero() {
      name == "" && scheme == "" && (mode == "" || mode == "auto") && local == 0
    }
  }

  const NO_PORT := Port("", "", "", 0)

  /** What a stored entry means to the tunnel manager. */
  datatype Decision = Decision(name: string, scheme: Scheme, mode: Mode, local: int)

  function Decode(p: Port): Decision {
    Decision(p.name, ParseScheme(p.scheme), ParseMode(p.mode), p.local)
  }

  function Encode(d: Decision): Port {
    Port(d.name, d.scheme.Text(), d.mode.Text(), d.local)
  }

  /** The entry for a port; an absent one reads as all zero. */
  function Lookup(ports: map<int, Port>, port: int): Port {
    if port in ports then ports[port] else NO_PORT
  }

  /** The ports of one host after storing p: an entry that says nothing is dropped. */
  function Stored(ports: map<int, Port>, port: int, p: Port): map<int, Port> {
    if p.IsZero() then ports - {port} else ports[port := p]
  }

  /** The words in the file. */
  lemma StoredWords(d: Decision)
    ensures var p := Encode(d);
            && p.name == d.name && p.local == d.local
            && p.mode == (if d.mode == On then "on" else if d.mode == Off then "off" else "auto")
            && p.scheme == (if d.scheme == Http then "http" else if d.scheme == Https then "https" else "")
  {
  }

  /** Storing a decision and reading it back gives the same decision, dropped entries
      included, and no other port is touched. */
  lemma StoreRoundTrip(ports: map<int, Port>, port: int, d: Decision)
    ensures Decode(Lookup(Stored(ports, port, Encode(d)), port)) == d
    ensures forall q | q != port :: Lookup(Stored(ports, port, Encode(d)), q) == Lookup(ports, q)
    ensures port in Stored(ports, port, Encode(d)) <==> d != Decision("", Unknown, Auto, 0)
  {
    SchemeRoundTrip(d.scheme);
    assert |d.scheme.Text()| == 0 <==> d.scheme.Unknown?;
  }
}
