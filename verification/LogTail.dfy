/** The two bounded logs of a self-deploy: the primary's tail and the sidekick's ring. */
module LogTail {
  function Newest(lines: seq<string>, n: nat): seq<string> {
    if |lines| <= n then lines else lines[|lines| - n..]
  }

  const TAIL_CAPACITY: nat := 200

  /** `appendLogLine` */
  function AppendLogLine(tail: seq<string>, line: string): seq<string> {
    var longer := tail + [line];
    if |longer| > TAIL_CAPACITY then longer[|longer| - TAIL_CAPACITY..] else longer
  }

  function AppendAll(tail: seq<string>, lines: seq<string>): seq<string>
    decreases |lines|
  {
    if lines == [] then tail else AppendAll(AppendLogLine(tail, lines[0]), lines[1..])
  }

  /** Line by line, the tail stays what the whole log would end with. */
  lemma {:induction false} TailIsNewest(tail: seq<string>, lines: seq<string>)
    requires |tail| <= TAIL_CAPACITY
    ensures AppendAll(tail, lines) == Newest(tail + lines, TAIL_CAPACITY)
    decreases |lines|
  {
    if lines == [] {
      assert tail + lines == tail;
    } else {
      var next := AppendLogLine(tail, lines[0]);
      TailIsNewest(next, lines[1..]);
      assert tail + lines == (tail + [lines[0]]) + lines[1..];
      assert Newest(next + lines[1..], TAIL_CAPACITY) == Newest(tail + lines, TAIL_CAPACITY);
    }
  }

  /** A log that starts empty holds its last 200 lines. */
  lemma TailHoldsLast(lines: seq<string>)
    ensures AppendAll([], lines) == if |lines| <= 200 then lines else lines[|lines| - 200..]
  {
    TailIsNewest([], lines);
    assert [] + lines == lines;
  }

  const RING_CAPACITY: nat := 500

  /** A ring, read from its oldest line on. */
  function Unrolled(ring: seq<string>, next: nat, filled: bool): seq<string>
    requires next <= |ring|
  {
    if filled then ring[next..] + ring[..next] else ring[..next]
  }

  predicate Keeps(ring: seq<string>, next: nat, filled: bool, all: seq<string>) {
    && |ring| == RING_CAPACITY && next < RING_CAPACITY
    && (filled <==> |all| >= RING_CAPACITY)
    && Unrolled(ring, next, filled) == Newest(all, RING_CAPACITY)
  }

  lemma KeepsOneMore(ring: seq<string>, next: nat, filled: bool, all: seq<string>, entry: string)
    requires Keeps(ring, next, filled, all)
    ensures var next' := (next + 1) % RING_CAPACITY;
      Keeps(ring[next := entry], next', filled || next' == 0, all + [entry])
  {
    var ring' := ring[next := entry];
    var now := Newest(all, RING_CAPACITY);
    assert ring'[..next + 1] == ring[..next] + [entry];
    assert ring'[next + 1..] == ring[next + 1..];
    if filled {
      assert now[1..] == ring[next + 1..] + ring[..next];
      assert Newest(all + [entry], RING_CAPACITY) == now[1..] + [entry];
      if next + 1 == RING_CAPACITY {
        assert ring'[0..] + ring'[..0] == ring'[..next + 1];
      }
    } else {
      assert |all| == next;
      if next + 1 == RING_CAPACITY {
        assert ring'[0..] + ring'[..0] == ring'[..next + 1];
      }
    }
  }

  /** The ring buffer of the sidekick's `stateWriter`. `all` is every line it was given. */
  class LogRing {
    const ring: array<string>
    var next: nat
    var filled: bool
    ghost var all: seq<string>

    ghost predicate Valid()
      reads this, ring
    {
      Keeps(ring[..], next, filled, all)
    }

    constructor ()
      ensures Valid() && fresh(ring) && all == []
    {
      ring := new string[RING_CAPACITY](_ => "");
      next, filled, all := 0, false, [];
    }

    /** `appendLogLocked` */
    method Append(entry: string)
      requires Valid()
      modifies this, ring
      ensures Valid() && all == old(all) + [entry]
    {
      KeepsOneMore(ring[..], next, filled, all, entry);
      ghost var ring' := ring[..][next := entry];
      ring[next] := entry;
      assert ring[..] == ring';
      all := all + [entry];
      next := (next + 1) % RING_CAPACITY;
      if next == 0 {
        filled := true;
      }
    }

    /** `snapshotRingLocked`: the newest lines, oldest first. */
    method Snapshot() returns (lines: seq<string>)
      requires Valid()
      ensures lines == Newest(all, RING_CAPACITY)
      ensures lines == if |all| <= 500 then all else all[|all| - 500..]
    {
      assert ring[..][next..] == ring[next..] && ring[..][..next] == ring[..next];
      if !filled {
        return ring[..next];
      }
      return ring[next..] + ring[..next];
    }
  }
}
