/** One live tunnel: internal/tunnel/forward.go. */
module Forwarder {
  import opened Schemes
  import opened Machine
  import opened TunnelModel

  function Flatten(chunks: seq<seq<Byte>>): seq<Byte> {
    if chunks == [] then [] else chunks[0] + Flatten(chunks[1..])
  }

  /** The service's end of a connection: the reply, in the pieces in which the network delivers it. */
  class Source {
    var pending: seq<seq<Byte>>

    /** Everything still to come. */
    ghost function Rest(): seq<Byte>
      reads this
    {
      Flatten(pending)
    }

    /** What the next read of at most `max` bytes will yield. */
    ghost function Next(max: nat): seq<Byte>
      reads this
    {
      if pending == [] then [] else if |pending[0]| <= max then pending[0] else pending[0][..max]
    }

    /** How many reads may still be needed. */
    ghost function Left(): nat
      reads this
    {
      |pending| + |Rest()|
    }

    constructor (pending: seq<seq<Byte>>)
      ensures this.pending == pending
    {
      this.pending := pending;
    }

    /** Takes at most `max` bytes off the next piece; `end` comes with or after the last byte. */
    method Read(max: nat) returns (data: seq<Byte>, end: bool)
      requires max > 0
      modifies this
      ensures data == old(Next(max)) && |data| <= max && data + Rest() == old(Rest())
      ensures end ==> Rest() == []
      ensures end || Left() < old(Left())
    {
      if pending == [] {
        return [], true;
      }
      var piece := pending[0];
      if |piece| <= max {
        data, pending := piece, pending[1..];
      } else {
        assert piece[..max] + piece[max..] == piece;
        data, pending := piece[..max], [piece[max..]] + pending[1..];
        assert Rest() == piece[max..] + Flatten(old(pending)[1..]);
      }
      if pending == [] {
        end := *;
      } else {
        end := false;
      }
    }
  }

  /** The client's end of a connection; it may take less than it is given, and then says so. */
  class Sink {
    var written: seq<Byte>
    /** Some write has failed. */
    var broken: bool

    constructor ()
      ensures written == [] && !broken
    {
      written, broken := [], false;
    }

    method Write(data: seq<Byte>) returns (n: nat, failed: bool)
      modifies this
      ensures n <= |data| && written == old(written) + data[..n]
      ensures n < |data| ==> failed
      ensures broken == (old(broken) || failed)
    {
      n :| n <= |data|;
      failed := *;
      if n < |data| {
        failed := true;
      }
      written := written + data[..n];
      broken := broken || failed;
    }
  }

  class Forwarder {
    const table: PortTable
    /** The remote port, for reports about the service. */
    const port: int
    const local: int
    const remapped: bool
    const dialer: nat
    const dialAddr: string
    /** The listener has been closed. */
    var stopped: bool
    /** Some connection has taken it upon itself to classify the service. */
    var sniffed: bool
    /** What has been reported about the service. */
    var reports: seq<Scheme>

    constructor (table: PortTable, port: int, local: int, d: nat, dialAddr: string, remapped: bool)
      ensures this.table == table && this.port == port && View() == Tunnel(local, remapped, d, dialAddr)
      ensures !stopped && Sniffs()
    {
      this.table, this.port := table, port;
      this.local, this.remapped, this.dialer, this.dialAddr := local, remapped, d, dialAddr;
      stopped, sniffed, reports := false, false, [];
    }

    function View(): Tunnel { Tunnel(local, remapped, dialer, dialAddr) }

    /** At most one report, and none before the service was looked at. */
    predicate Sniffs()
      reads this
    {
      |reports| <= (if sniffed then 1 else 0)
    }

    /** Releases the local port, the first time. */
    method Stop()
      modifies `stopped, table`held
      ensures stopped
      ensures table.held == if old(stopped) then old(table.held) else old(table.held) - {local}
    {
      if !stopped {
        stopped := true;
        table.Release(local);
      }
    }

    /** Stops accepting; what it waits for is not part of this model. After Stop it leaves the ports alone,
        whoever holds this one by then. */
    method Close()
      modifies `stopped, table`held
      ensures stopped
      ensures old(stopped) ==> table.held == old(table.held)
      ensures !old(stopped) ==> table.held == old(table.held) - {local}
    {
      Stop();
    }

    lemma NextPiece(all: seq<Byte>, n: nat, data: seq<Byte>, rest: seq<Byte>)
      requires n <= |all| && all[n..] == data + rest
      ensures |all| == n + |data| + |rest| && all[n + |data|..] == rest
      ensures forall k | 0 <= k <= |data| :: all[..n] + data[..k] == all[..n + k]
    {
      assert all == all[..n] + (data + rest);
    }

    /** Relays everything from src to dst, up to the end of the reply or the first failed write:
        what is written is what was read, in order, up to where the writing failed. */
    method Copy(dst: Sink, src: Source) returns (n: nat)
      modifies dst, src
      ensures n <= |old(src.Rest())| && dst.written == old(dst.written) + old(src.Rest())[..n]
      ensures !dst.broken ==> n == |old(src.Rest())| && src.Rest() == []
    {
      hide Flatten;
      n := 0;
      ghost var all := src.Rest();
      var end := false;
      while !end
        invariant n <= |all| && dst.written == old(dst.written) + all[..n] && all[n..] == src.Rest()
        invariant end ==> src.Rest() == []
        decreases !end, src.Left()
      {
        var data;
        data, end := src.Read(32768);
        NextPiece(all, n, data, src.Rest());
        if data != [] {
          var written, failed := dst.Write(data);
          n := n + written;
          if failed {
            return;
          }
        }
      }
    }

    /** The first read of a connection that classifies the service: the bytes are passed on and,
        when they tell, reported. */
    method Classify(dst: Sink, src: Source) returns (total: nat, end: bool)
      requires reports == []
      modifies `reports, dst, src
      ensures total <= |old(src.Next(8))| && dst.written == old(dst.written) + old(src.Next(8))[..total]
      ensures old(src.Next(8)) + src.Rest() == old(src.Rest())
      ensures !end || !dst.broken ==> total == |old(src.Next(8))|
      ensures end && !dst.broken ==> src.Rest() == []
      ensures reports == ReportOf(old(src.Next(8)))
    {
      // a single read: a reply shorter than the buffer must not hold up the tunnel
      var head;
      head, end := src.Read(8);
      total := 0;
      if |head| > 0 {
        var scheme := SniffScheme(head);
        if !scheme.Unknown? {
          reports := reports + [scheme];
        }
        var written, failed := dst.Write(head);
        total := written;
        if failed {
          end := true;
        }
      }
    }

    /** What is reported when the service opens with these bytes. */
    static function ReportOf(head: seq<Byte>): seq<Scheme> {
      if SniffScheme(head).Unknown? then [] else [SniffScheme(head)]
    }

    /** Relays the service's reply and, on the first connection of the forwarder, classifies the service
        from its opening bytes on the way past. Nothing is withheld, injected or reordered, whatever
        the chunking; the count is the number of bytes written; at most one report is ever made. */
    method CopyReply(dst: Sink, src: Source) returns (total: nat)
      requires Sniffs()
      modifies `sniffed, `reports, dst, src
      ensures Sniffs() && sniffed
      ensures total <= |old(src.Rest())| && dst.written == old(dst.written) + old(src.Rest())[..total]
      ensures !dst.broken ==> total == |old(src.Rest())| && src.Rest() == []
      ensures reports == if old(sniffed) then old(reports) else ReportOf(old(src.Next(8)))
    {
      hide Flatten, SniffScheme;
      if sniffed {
        total := Copy(dst, src);
        return;
      }
      sniffed := true;
      ghost var was, head := dst.written, src.Next(8);
      var end;
      total, end := Classify(dst, src);
      ghost var rest := src.Rest();
      if end {
        Prefixes(was, head, rest, total, 0);
        return;
      }
      var n := Copy(dst, src);
      Prefixes(was, head, rest, total, n);
      total := total + n;
    }
  }

  lemma Prefixes(was: seq<Byte>, head: seq<Byte>, rest: seq<Byte>, k: nat, n: nat)
    requires k <= |head| && n <= |rest|
    ensures (head + rest)[..k] == head[..k]
    ensures was + head[..|head|] + rest[..n] == was + (head + rest)[..|head| + n]
  {
    assert head[..|head|] == head;
    assert (head + rest)[..|head| + n] == head + rest[..n];
  }
}
