/** The buffered line reader of the PMI clients (modules/pmi/pmi1/simple/simple_pmiutil.c,
    modules/pmi/pmi2/client/pmi2_util.c) and the switch from lines to frames in PMI2_Init. */
module LineReader {
  import opened FileDescriptor
  import opened Text
  import opened Options
  import Pmi2Codec
  import Pmi2Client

  const MAX_READLINE: nat := 1024

  // ---- What one call should return ----

  /** The first n bytes of s are what an unbuffered reader with room for `max` bytes returns: up to
      and including the first newline, or all the room, or all there is. */
  predicate IsLine(s: string, max: nat, n: nat) {
    && n <= |s| && n <= max && (forall i | 0 <= i < n - 1 :: s[i] != '\n')
    && (n == max || n == |s| || (n > 0 && s[n - 1] == '\n'))
  }

  function LineEnd(s: string, k: nat, max: nat): (e: nat)
    requires k <= |s|
    ensures k <= e <= |s|
    decreases |s| - k
  {
    if max == 0 || k == |s| then k
    else if s[k] == '\n' then k + 1
    else LineEnd(s, k + 1, max - 1)
  }

  lemma {:induction false} LineEndIs(s: string, k: nat, max: nat)
    requires k <= |s|
    ensures var e := LineEnd(s, k, max);
            && e <= k + max && (forall i | k <= i < e - 1 :: s[i] != '\n')
            && (e == k + max || e == |s| || (e > k && s[e - 1] == '\n'))
    decreases |s| - k
  {
    if max > 0 && k < |s| && s[k] != '\n' {
      LineEndIs(s, k + 1, max - 1);
    }
  }

  /** The description fixes the result. */
  lemma LineExact(s: string, max: nat, n: nat)
    ensures IsLine(s, max, n) <==> n == LineEnd(s, 0, max)
  {
    LineEndIs(s, 0, max);
  }

  // ---- Sequences of calls ----

  function Join(lines: seq<string>): string {
    if lines == [] then "" else lines[0] + Join(lines[1..])
  }

  /** The lines that `count` calls return, and what is left. */
  function Lines(s: string, max: nat, count: nat): seq<string> {
    if count == 0 then []
    else var e := LineEnd(s, 0, max); [s[..e]] + Lines(s[e..], max, count - 1)
  }

  function Left(s: string, max: nat, count: nat): string {
    if count == 0 then s else Left(s[LineEnd(s, 0, max)..], max, count - 1)
  }

  /** Nothing is lost, repeated or reordered. */
  lemma {:induction false} LinesLoseNothing(s: string, max: nat, count: nat)
    ensures Join(Lines(s, max, count)) + Left(s, max, count) == s
  {
    if count > 0 {
      var e := LineEnd(s, 0, max);
      LinesLoseNothing(s[e..], max, count - 1);
      FrontBack(s, e, Lines(s[e..], max, count - 1), Left(s[e..], max, count - 1));
    }
  }

  lemma FrontBack(s: string, e: nat, lines: seq<string>, left: string)
    requires e <= |s| && Join(lines) + left == s[e..]
    ensures Join([s[..e]] + lines) + left == s
  {
    assert ([s[..e]] + lines)[1..] == lines;
    JoinAssoc(s[..e], Join(lines), left);
    assert s[..e] + s[e..] == s;
  }

  predicate OneLine(l: string, max: nat) {
    0 < |l| <= max && l[|l| - 1] == '\n' && forall i | 0 <= i < |l| - 1 :: l[i] != '\n'
  }

  lemma FirstLine(l: string, rest: string, max: nat)
    requires OneLine(l, max)
    ensures LineEnd(l + rest, 0, max) == |l|
  {
    LineExact(l + rest, max, |l|);
  }

  /** Whole lines sent back to back come out one per call. */
  lemma {:induction false} LinesRoundTrip(lines: seq<string>, rest: string, max: nat)
    requires forall i | 0 <= i < |lines| :: OneLine(lines[i], max)
    ensures Lines(Join(lines) + rest, max, |lines|) == lines
    ensures Left(Join(lines) + rest, max, |lines|) == rest
  {
    if lines == [] {
      assert Join(lines) + rest == rest;
    } else {
      var tail := Join(lines[1..]) + rest;
      JoinAssoc(lines[0], Join(lines[1..]), rest);
      FirstLine(lines[0], tail, max);
      LinesRoundTrip(lines[1..], rest, max);
      FrontAndTail(lines[0], tail);
      assert [lines[0]] + lines[1..] == lines;
    }
  }

  lemma FrontAndTail(l: string, tail: string)
    ensures (l + tail)[..|l|] == l && (l + tail)[|l|..] == tail
  {
  }

  // ---- The buffered reader ----

  class Reader {
    const readbuf: array<char>
    var nextChar: nat
    var lastChar: nat
    var lastfd: Fd?
    /** What stands in readbuf between the two positions. */
    ghost var buffered: string

    ghost predicate Valid()
      reads this, readbuf
    {
      && readbuf.Length == MAX_READLINE && nextChar <= lastChar < MAX_READLINE
      && |buffered| == lastChar - nextChar
      && forall i | nextChar <= i < lastChar :: readbuf[i] == buffered[i - nextChar]
    }

    /** The bytes a caller has still to see: the buffered ones, then those not yet read. */
    ghost function Pending(fd: Fd): string
      reads this, fd
    {
      buffered + fd.incoming
    }

    predicate Usable(fd: Fd)
      reads this
    {
      nextChar == lastChar || lastfd == fd
    }

    constructor ()
      ensures Valid() && fresh(readbuf) && nextChar == lastChar
    {
      readbuf := new char[MAX_READLINE];
      nextChar, lastChar, lastfd, buffered := 0, 0, null, "";
    }

    /** Fill the empty buffer with one read. */
    method Refill(fd: Fd) returns (n: int)
      requires Valid() && nextChar == lastChar
      modifies this, readbuf, fd
      ensures Valid() && fd.outgoing == old(fd.outgoing) && lastfd == fd
      ensures Pending(fd) == old(Pending(fd))
      ensures n < 0 ==> !fd.reliable
      ensures n == 0 ==> old(Pending(fd)) == ""
      ensures n <= 0 ==> nextChar == lastChar
      ensures n > 0 ==> nextChar < lastChar
    {
      lastfd := fd;
      var r := fd.Read(MAX_READLINE - 1);
      while r.Interrupted?
        invariant fd.outgoing == old(fd.outgoing)
        invariant !r.Got? ==> fd.incoming == old(fd.incoming)
        invariant r.Got? ==> old(fd.incoming) == r.data + fd.incoming && |r.data| < MAX_READLINE
        invariant r.Got? && r.data == "" ==> fd.incoming == ""
        invariant r.Failed? ==> !fd.reliable
        modifies fd
        decreases if r.Interrupted? then fd.signals + 1 else 0
      {
        r := fd.Read(MAX_READLINE - 1);
      }
      if r.Failed? {
        return -1;
      }
      n := |r.data|;
      if n > 0 {
        forall i | 0 <= i < |r.data| {
          readbuf[i] := r.data[i];
        }
        nextChar, lastChar, buffered := 0, n, r.data;
        readbuf[n] := '\0';
      }
    }

    /** The next byte, through the buffer: none at end of input or if the read fails. */
    method NextByte(fd: Fd) returns (got: int, ch: char)
      requires Valid() && Usable(fd)
      modifies this, readbuf, fd
      ensures Valid() && Usable(fd) && fd.outgoing == old(fd.outgoing)
      ensures got < 0 ==> !fd.reliable && Pending(fd) == old(Pending(fd))
      ensures got == 0 ==> old(Pending(fd)) == Pending(fd) == ""
      ensures got > 0 ==> old(Pending(fd)) == [ch] + Pending(fd)
    {
      got, ch := 1, '\0';
      if nextChar == lastChar {
        got := Refill(fd);
      }
      if got > 0 {
        ch := readbuf[nextChar];
        assert buffered + fd.incoming == [ch] + (buffered[1..] + fd.incoming);
        nextChar, buffered := nextChar + 1, buffered[1..];
      }
    }

    /** The text `done` stands at the front of buf. */
    ghost predicate Holds(buf: array<char>, done: string)
      reads buf
    {
      |done| <= buf.Length && forall i | 0 <= i < |done| :: buf[i] == done[i]
    }

    /** One turn of the read loop. */
    method CopyByte(fd: Fd, buf: array<char>, k: nat, ghost done: string) returns (got: int, ch: char)
      requires Valid() && Usable(fd) && buf != readbuf && k == |done| < buf.Length && Holds(buf, done)
      modifies this, readbuf, buf, fd
      ensures Valid() && Usable(fd) && fd.outgoing == old(fd.outgoing)
      ensures got < 0 ==> !fd.reliable
      ensures got == 0 ==> Pending(fd) == ""
      ensures got <= 0 ==> Holds(buf, done) && Pending(fd) == old(Pending(fd))
      ensures got > 0 ==> Holds(buf, done + [ch]) && [ch] + Pending(fd) == old(Pending(fd))
    {
      got, ch := NextByte(fd);
      if got > 0 {
        buf[k] := ch;
      }
    }

    /** The read loop. */
    method CopyLine(fd: Fd, buf: array<char>, maxlen: int) returns (curlen: nat, failed: bool, ghost done: string)
      requires Valid() && Usable(fd) && buf != readbuf && 0 < buf.Length && maxlen <= buf.Length
      modifies this, readbuf, buf, fd
      ensures Valid() && Usable(fd) && fd.outgoing == old(fd.outgoing) && (failed ==> !fd.reliable)
      ensures curlen == |done| + 1 && (curlen == 1 || curlen <= maxlen) && Holds(buf, done)
      ensures done + Pending(fd) == old(Pending(fd))
      ensures forall i | 0 <= i < |done| - 1 :: done[i] != '\n'
      ensures failed || curlen >= maxlen || Pending(fd) == "" || (curlen > 1 && done[curlen - 2] == '\n')
    {
      ghost var p := Pending(fd);
      curlen, failed, done := 1, false, "";
      var line := false;
      while curlen < maxlen && !line
        invariant Valid() && Usable(fd) && fd.outgoing == old(fd.outgoing) && !failed
        invariant curlen == |done| + 1 && (curlen == 1 || curlen <= maxlen) && Holds(buf, done)
        invariant done + Pending(fd) == p
        invariant line ==> curlen > 1 && done[curlen - 2] == '\n'
        invariant forall i | 0 <= i < (if line then |done| - 1 else |done|) :: done[i] != '\n'
        decreases maxlen - curlen
      {
        var got, ch := CopyByte(fd, buf, curlen - 1, done);
        if got <= 0 {
          failed := got < 0;
          break;
        }
        JoinAssoc(done, [ch], Pending(fd));
        curlen, done, line := curlen + 1, done + [ch], ch == '\n';
      }
    }

    /** PMIU_readline. It returns -1 only if it was given another descriptor while bytes are
        buffered, or if a read failed before any byte arrived. */
    method ReadLine(fd: Fd, buf: array<char>, maxlen: int) returns (n: int)
      requires Valid() && buf != readbuf && 0 < buf.Length && maxlen <= buf.Length
      modifies this, readbuf, buf, fd
      ensures Valid() && fd.outgoing == old(fd.outgoing)
      ensures !old(Usable(fd)) ==> n == -1 && unchanged(this) && unchanged(readbuf) && unchanged(buf) && unchanged(fd)
      ensures old(Usable(fd)) ==> Usable(fd)
      ensures old(Usable(fd)) && n < 0 ==> n == -1 && !fd.reliable && Pending(fd) == old(Pending(fd))
      ensures old(Usable(fd)) && n >= 0 ==>
                var p := old(Pending(fd));
                && n <= |p| && n < buf.Length && buf[..n] == p[..n] && buf[n] == '\0' && Pending(fd) == p[n..]
                && (n == 0 || n < maxlen) && (forall i | 0 <= i < n - 1 :: p[i] != '\n')
      ensures old(Usable(fd)) && fd.reliable ==>
                n >= 0 && IsLine(old(Pending(fd)), if maxlen > 0 then maxlen - 1 else 0, n)
    {
      if nextChar != lastChar && fd != lastfd {
        return -1;
      }
      var curlen, failed;
      ghost var done;
      curlen, failed, done := CopyLine(fd, buf, maxlen);
      buf[curlen - 1] := '\0';
      FrontAndTail(done, Pending(fd));
      assert buf[..curlen - 1] == done;
      n := if failed && curlen == 1 then -1 else curlen - 1;
    }
  }

  /** The hand-over in PMI2_Init: the reply to the first command is one line, read through the
      buffer; from then on frames are read from the descriptor directly. The server sends the next
      reply (`more`) only when asked, so nothing of it can be stuck in the line buffer. */
  method LineThenFrame(reader: Reader, fd: Fd, buf: array<char>, more: string)
    returns (n: int, r: Option<Pmi2Codec.Command>)
    requires reader.Valid() && reader.Usable(fd) && buf != reader.readbuf && buf.Length == MAX_READLINE
    requires OneLine(reader.Pending(fd), MAX_READLINE - 1) && fd.reliable
    modifies reader, reader.readbuf, buf, fd
    ensures n == |old(reader.Pending(fd))| && n < buf.Length && buf[..n] == old(reader.Pending(fd))
    ensures reader.nextChar == reader.lastChar
    ensures r.Some? == Pmi2Codec.ReadStream(more).Some?
    ensures r.Some? ==> Pmi2Codec.ReadStream(more) == Some((r.value, fd.incoming))
  {
    ghost var line := reader.Pending(fd);
    n := reader.ReadLine(fd, buf, MAX_READLINE);
    LineExact(line, MAX_READLINE - 1, n);
    LineExact(line, MAX_READLINE - 1, |line|);
    assert |reader.Pending(fd)| == 0;
    fd.Arrive(more);
    assert fd.incoming == more;
    r := Pmi2Client.ReadCommand(fd);
  }
}
