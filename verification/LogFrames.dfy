/** Reading the multiplexed log stream of a container that has no terminal. */
module LogFrames {
  import opened Bytes

  /** A frame of the attach stream: four header bytes that say where it comes from, its payload. */
  datatype Frame = Frame(head: seq<byte>, payload: seq<byte>) {
    predicate Valid() { |head| == 4 && |payload| < 0x1_0000_0000 }
  }

  const MAX_FRAME := 0x10_0000

  function BigEndian(n: nat): (b: seq<byte>)
    requires n < 0x1_0000_0000
    ensures |b| == 4 && SizeOf(b) == n
  {
    [(n / 0x100_0000) as byte, (n / 0x1_0000 % 0x100) as byte, (n / 0x100 % 0x100) as byte, (n % 0x100) as byte]
  }

  function SizeOf(b: seq<byte>): (n: nat)
    requires |b| == 4
    ensures n < 0x1_0000_0000
  {
    b[0] as nat * 0x100_0000 + b[1] as nat * 0x1_0000 + b[2] as nat * 0x100 + b[3] as nat
  }

  lemma SizeIsUnique(b: seq<byte>)
    requires |b| == 4
    ensures BigEndian(SizeOf(b)) == b
  {
    var n := SizeOf(b);
    assert n / 0x100_0000 == b[0] as nat;
    assert n / 0x1_0000 == b[0] as nat * 0x100 + b[1] as nat;
    assert n / 0x100 == b[0] as nat * 0x1_0000 + b[1] as nat * 0x100 + b[2] as nat;
  }

  /** The stream format of the ContainerAttach operation, Docker Engine API. */
  function Encode(f: Frame): (b: seq<byte>)
    requires f.Valid()
    ensures |b| == 8 + |f.payload|
  {
    f.head + BigEndian(|f.payload|) + f.payload
  }

  predicate AllValid(fs: seq<Frame>) { forall f :: f in fs ==> f.Valid() }

  function EncodeAll(fs: seq<Frame>): seq<byte>
    requires AllValid(fs)
  {
    if fs == [] then [] else Encode(fs[0]) + EncodeAll(fs[1..])
  }

  /** What a reader should see: the payloads in order, without the oversized ones. */
  function Payloads(fs: seq<Frame>): seq<byte> {
    if fs == [] then []
    else (if |fs[0].payload| <= MAX_FRAME then fs[0].payload else []) + Payloads(fs[1..])
  }

  /** The beginning of a frame whose end is missing. */
  predicate Incomplete(s: seq<byte>) {
    |s| < 8 || |s| < 8 + SizeOf(s[4..8])
  }

  lemma EncodeCons(f: Frame, fs: seq<Frame>)
    requires f.Valid() && AllValid(fs)
    ensures AllValid([f] + fs) && EncodeAll([f] + fs) == Encode(f) + EncodeAll(fs)
  {
    assert ([f] + fs)[1..] == fs;
  }

  /** The frame at the start of a stream. */
  function First(s: seq<byte>): (f: Frame)
    requires !Incomplete(s)
    ensures f.Valid() && |Encode(f)| <= |s|
    ensures s[..|Encode(f)|] == Encode(f)
  {
    SizeIsUnique(s[4..8]);
    var f := Frame(s[..4], s[8..8 + SizeOf(s[4..8])]);
    assert s[..4] + s[4..8] + f.payload == s[..8 + |f.payload|];
    f
  }

  lemma Prepend(s: seq<byte>, f: Frame, fs: seq<Frame>, rest: seq<byte>)
    requires f.Valid() && AllValid(fs) && |Encode(f)| <= |s| && s[..|Encode(f)|] == Encode(f)
    requires s[|Encode(f)|..] == EncodeAll(fs) + rest
    ensures AllValid([f] + fs) && s == EncodeAll([f] + fs) + rest
  {
    EncodeCons(f, fs);
    assert s == s[..|Encode(f)|] + s[|Encode(f)|..];
  }

  /** The frames of a stream, as far as they are complete, and what is left. */
  function Split(s: seq<byte>): (seq<Frame>, seq<byte>) {
    if Incomplete(s) then ([], s)
    else
      var f := First(s);
      var more := Split(s[|Encode(f)|..]);
      ([f] + more.0, more.1)
  }

  /** Splitting loses nothing, and stops only where a frame is incomplete. */
  lemma {:induction false} SplitJoins(s: seq<byte>)
    ensures var (fs, rest) := Split(s);
      AllValid(fs) && Incomplete(rest) && s == EncodeAll(fs) + rest
  {
    if Incomplete(s) {
      assert s == EncodeAll([]) + s;
    } else {
      var f, t := First(s), s[|Encode(First(s))|..];
      SplitJoins(t);
      Prepend(s, f, Split(t).0, Split(t).1);
    }
  }

  /** The first frame can be read off any prefix that holds its header. */
  lemma HeaderShows(s: seq<byte>, f: Frame)
    requires f.Valid() && |s| >= 8 && s[..8] == Encode(f)[..8]
    ensures SizeOf(s[4..8]) == |f.payload| && s[..4] == f.head
    ensures |s| >= |Encode(f)| && s[..|Encode(f)|] == Encode(f) ==> s[8..|Encode(f)|] == f.payload
  {
    assert s[4..8] == s[..8][4..8] == BigEndian(|f.payload|);
    assert s[..4] == s[..8][..4];
    if |s| >= |Encode(f)| && s[..|Encode(f)|] == Encode(f) {
      assert s[8..|Encode(f)|] == Encode(f)[8..];
    }
  }

  lemma SplitStep(f: Frame, t: seq<byte>)
    requires f.Valid()
    ensures Split(Encode(f) + t) == ([f] + Split(t).0, Split(t).1)
  {
    var s, n := Encode(f) + t, |Encode(f)|;
    HeaderShows(s, f);
    assert s[n..] == t;
  }

  lemma CutHeader(f: Frame, s: seq<byte>)
    requires f.Valid() && |s| < |Encode(f)| && s == Encode(f)[..|s|]
    ensures Incomplete(s)
  {
    if |s| >= 8 { HeaderShows(s, f); }
  }

  lemma Associative(a: seq<byte>, b: seq<byte>, c: seq<byte>)
    ensures (a + b) + c == a + (b + c)
  {
  }

  lemma ConsTail(fs: seq<Frame>)
    requires fs != []
    ensures [fs[0]] + fs[1..] == fs
  {
  }

  /** There is only one way to cut a stream into frames. */
  lemma {:induction false} SplitIsUnique(fs: seq<Frame>, rest: seq<byte>)
    requires AllValid(fs) && Incomplete(rest)
    ensures Split(EncodeAll(fs) + rest) == (fs, rest)
  {
    if fs == [] {
      assert EncodeAll(fs) + rest == rest;
    } else {
      var a, b := Encode(fs[0]), EncodeAll(fs[1..]);
      SplitIsUnique(fs[1..], rest);
      SplitStep(fs[0], b + rest);
      assert EncodeAll(fs) == a + b;
      Associative(a, b, rest);
      ConsTail(fs);
    }
  }

  /** A stream that is read once, from the start. */
  class Reader {
    var unread: seq<byte>

    constructor (stream: seq<byte>)
      ensures unread == stream
    {
      unread := stream;
    }

    /** `io.ReadFull`: all of the bytes asked for, or an error at the end of the stream. */
    method ReadFull(n: nat) returns (ok: bool, bytes: seq<byte>)
      modifies this
      ensures ok <==> n <= |old(unread)|
      ensures ok ==> bytes == old(unread)[..n] && unread == old(unread)[n..]
      ensures !ok ==> unread == []
    {
      if n <= |unread| {
        ok, bytes, unread := true, unread[..n], unread[n..];
      } else {
        ok, bytes, unread := false, [], [];
      }
    }

    /** `io.CopyN` to nowhere. */
    method Skip(n: nat)
      modifies this
      ensures unread == Skipped(old(unread), n)
    {
      unread := if n <= |unread| then unread[n..] else [];
    }
  }

  function Skipped(s: seq<byte>, n: nat): seq<byte> {
    if n <= |s| then s[n..] else []
  }

  /** What a stream has to yield: the eligible payloads of its complete frames. */
  function Rest(s: seq<byte>): seq<byte> { Payloads(Split(s).0) }

  lemma RestUnfolds(s: seq<byte>)
    ensures Incomplete(s) ==> Rest(s) == []
    ensures !Incomplete(s) ==> var size := SizeOf(s[4..8]);
      Rest(s) == (if size <= MAX_FRAME then s[8..8 + size] else []) + Rest(s[8 + size..])
  {
    if !Incomplete(s) {
      var f, more := First(s), Split(s[|Encode(First(s))|..]);
      assert ([f] + more.0)[1..] == more.0;
    }
  }

  /** What the size in a header decides, with `t` what follows the header. */
  lemma AfterHeader(s: seq<byte>, size: nat, t: seq<byte>)
    requires |s| >= 8 && size == SizeOf(s[4..8]) && t == s[8..]
    ensures size == 0 ==> Rest(t) == Rest(s)
    ensures size > MAX_FRAME ==> Rest(Skipped(t, size)) == Rest(s)
    ensures size <= MAX_FRAME ==> Rest(s) == if size <= |t| then t[..size] + Rest(t[size..]) else []
  {
    RestUnfolds(s);
    RestUnfolds([]);
    if size <= |t| {
      assert t[..size] == s[8..8 + size] && t[size..] == s[8 + size..];
    }
  }

  /** `due` is what a log still yields from the unread stream `s`. */
  predicate Due(s: seq<byte>, due: seq<byte>) { due == Rest(s) }

  lemma NextDue(s: seq<byte>, due: seq<byte>, size: nat, t: seq<byte>)
    requires Due(s, due) && |s| >= 8 && size == SizeOf(s[4..8]) && t == s[8..]
    ensures size == 0 ==> Due(t, due)
    ensures size > MAX_FRAME ==> Due(Skipped(t, size), due)
    ensures size <= MAX_FRAME && size <= |t| ==> t[..size] <= due && Due(t[size..], due[size..])
    ensures size <= MAX_FRAME && size > |t| ==> due == []
  {
    AfterHeader(s, size, t);
  }

  lemma NothingDue(s: seq<byte>, due: seq<byte>)
    requires Due(s, due) && |s| < 8
    ensures due == []
  {
  }

  /** The loop of `fetchSidekickLogs`: exactly the eligible payloads of the complete frames,
      for every stream whatsoever. */
  method FetchLogs(stream: seq<byte>) returns (buf: seq<byte>)
    ensures buf == Rest(stream)
  {
    var rc := new Reader(stream);
    buf := [];
    ghost var all, due := Rest(stream), Rest(stream);
    while true
      invariant Due(rc.unread, due) && buf + due == all
      decreases |rc.unread|
    {
      ghost var s := rc.unread;
      var ok, header := rc.ReadFull(8);
      if !ok {
        NothingDue(s, due);
        break;
      }
      var size := SizeOf(header[4..8]);
      assert header[4..8] == s[4..8];
      NextDue(s, due, size, rc.unread);
      if size == 0 {
        continue;
      }
      if size > MAX_FRAME {
        rc.Skip(size);
        continue;
      }
      var whole, chunk := rc.ReadFull(size);
      if !whole {
        break;
      }
      buf, due := buf + chunk, due[size..];
    }
  }

  /** Decoding inverts framing. */
  lemma DecodingInvertsFraming(fs: seq<Frame>)
    requires AllValid(fs)
    ensures Split(EncodeAll(fs)) == (fs, []) && Rest(EncodeAll(fs)) == Payloads(fs)
  {
    SplitIsUnique(fs, []);
    assert EncodeAll(fs) + [] == EncodeAll(fs);
  }

  /** A frame on the wire: four bytes that say where it comes from, the size of its payload with the
      most significant byte first, the payload; and a payload is read if it has at most 2^20 bytes. */
  lemma OneFrame(f: Frame)
    requires f.Valid()
    ensures var b, size := Encode(f), |f.payload|;
      && |b| == 8 + size && b[..4] == f.head && b[8..] == f.payload
      && b[4] as int == size / 16777216 && b[5] as int == size / 65536 % 256
      && b[6] as int == size / 256 % 256 && b[7] as int == size % 256
      && Rest(b) == if size <= 1048576 then f.payload else []
  {
    DecodingInvertsFraming([f]);
    assert Encode(f) + [] == Encode(f);
    assert f.payload + [] == f.payload;
    assert [f][1..] == [];
  }

  /** The number of frames that fit into the first `n` bytes. */
  function Complete(fs: seq<Frame>, n: nat): (k: nat)
    requires AllValid(fs)
    ensures k <= |fs|
  {
    if fs == [] || n < |Encode(fs[0])| then 0 else 1 + Complete(fs[1..], n - |Encode(fs[0])|)
  }

  /** They fit, and one more does not. */
  lemma {:induction false} CompleteFits(fs: seq<Frame>, n: nat)
    requires AllValid(fs)
    ensures var k := Complete(fs, n);
      && |EncodeAll(fs[..k])| <= n
      && (k < |fs| ==> n < |EncodeAll(fs[..k + 1])|)
  {
    var k := Complete(fs, n);
    if fs == [] {
    } else if n < |Encode(fs[0])| {
      assert fs[..1][1..] == [];
    } else {
      CompleteFits(fs[1..], n - |Encode(fs[0])|);
      assert fs[..k][1..] == fs[1..][..k - 1];
      if k < |fs| { assert fs[..k + 1][1..] == fs[1..][..k]; }
    }
  }

  lemma CutBehind(a: seq<byte>, b: seq<byte>, m: nat)
    requires m <= |b|
    ensures (a + b)[..|a| + m] == a + b[..m]
  {
  }

  /** On a stream cut anywhere, decoding yields the frames that are complete. */
  lemma {:induction false} TruncationKeepsCompleteFrames(fs: seq<Frame>, n: nat)
    requires AllValid(fs) && n <= |EncodeAll(fs)|
    ensures Split(EncodeAll(fs)[..n]).0 == fs[..Complete(fs, n)]
    ensures Rest(EncodeAll(fs)[..n]) == Payloads(fs[..Complete(fs, n)])
  {
    var s := EncodeAll(fs)[..n];
    if fs == [] {
      assert Split(s).0 == [];
    } else if n < |Encode(fs[0])| {
      CutHeader(fs[0], s);
    } else {
      var m := n - |Encode(fs[0])|;
      var k := Complete(fs[1..], m);
      TruncationKeepsCompleteFrames(fs[1..], m);
      CutStep(fs, n, m, k);
      assert Complete(fs, n) == k + 1;
    }
  }

  lemma CutStep(fs: seq<Frame>, n: nat, m: nat, k: nat)
    requires AllValid(fs) && fs != [] && m <= |EncodeAll(fs[1..])| && k <= |fs[1..]|
    requires n == |Encode(fs[0])| + m
    requires Split(EncodeAll(fs[1..])[..m]).0 == fs[1..][..k]
    ensures n <= |EncodeAll(fs)| && Split(EncodeAll(fs)[..n]).0 == fs[..k + 1]
  {
    var a, b := Encode(fs[0]), EncodeAll(fs[1..]);
    assert EncodeAll(fs) == a + b;
    CutBehind(a, b, m);
    assert EncodeAll(fs)[..n] == a + b[..m];
    SplitStep(fs[0], b[..m]);
    TakeCons(fs, k);
  }

  lemma TakeCons(fs: seq<Frame>, k: nat)
    requires k < |fs|
    ensures [fs[0]] + fs[1..][..k] == fs[..k + 1]
  {
  }
}
