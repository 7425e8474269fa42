/** What a forwarded port speaks: internal/tunnel/scheme.go. */
module Schemes {
  newtype Byte = x: int | 0 <= x < 256

  datatype Scheme = Unknown | Http | Https {
    /** The stored spelling. */
    function Text(): string {
      match this
      case Unknown => ""
      case Http => "http"
      case Https => "https"
    }

    /** The next scheme in the cycle unknown, http, https. */
    function Next(): Scheme {
      match this
      case Unknown => Http
      case Http => Https
      case Https => Unknown
    }
  }

  function ParseScheme(s: string): Scheme {
    if s == "http" then Http else if s == "https" then Https else Unknown
  }

  const HTTP_PREFIX: seq<Byte> := [72, 84, 84, 80, 47]  // "HTTP/"

  /** Classifies a service from the first bytes of a reply. A TLS record opens with
      its content type: 0x16 is a handshake, 0x15 an alert (section 5.1 of RFC 8446). */
  function SniffScheme(b: seq<Byte>): Scheme {
    if |b| == 0 then Unknown
    else if b[0] == 0x16 || b[0] == 0x15 then Https
    else if HTTP_PREFIX <= b then Http
    else Unknown
  }

  /** The first k bytes of a reply tell as much as the whole reply, except when they end inside the
      word that an HTTP status line begins with (section 4 of RFC 9112). */
  lemma FirstBytesSuffice(b: seq<Byte>, k: nat)
    requires 0 < k <= |b|
    ensures SniffScheme(b[..k]) == SniffScheme(b) <==> !(k < 5 && HTTP_PREFIX <= b)
  {
    if k >= 5 {
      assert b[..k][..5] == b[..5];
    } else if HTTP_PREFIX <= b {
      assert b[0] == 72;
    }
  }

  /** A reply that begins with the bytes of a TLS handshake or alert is https, one that begins with HTTP/ in ASCII is
      http, and nothing else tells. */
  lemma SniffMeans(b: seq<Byte>)
    ensures SniffScheme(b) == Https <==> |b| > 0 && (b[0] == 22 || b[0] == 21)
    ensures SniffScheme(b) == Http <==>
            |b| >= 5 && b[0] == 'H' as Byte && b[1] == 'T' as Byte && b[2] == 'T' as Byte && b[3] == 'P' as Byte
            && b[4] == '/' as Byte
  {
    if |b| >= 5 && b[..5] == HTTP_PREFIX {
      assert b[0] == b[..5][0] && b[1] == b[..5][1] && b[2] == b[..5][2] && b[3] == b[..5][3] && b[4] == b[..5][4];
    }
  }

  /** The cycle goes from unknown to http, from there to https, and back. */
  lemma SchemeCycle(s: Scheme)
    ensures s == Unknown ==> s.Next() == Http
    ensures s == Http ==> s.Next() == Https
    ensures s == Https ==> s.Next() == Unknown
  {
  }

  lemma SchemeRoundTrip(s: Scheme)
    ensures ParseScheme(s.Text()) == s
  {
    assert |s.Text()| == match s case Unknown => 0 case Http => 4 case Https => 5;
  }
}
