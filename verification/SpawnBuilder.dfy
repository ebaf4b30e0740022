/** PMI_Spawn_multiple up to the reply, as it runs: two line buffers, bounded appends and PMIU_writeline
    (modules/pmi/pmi1/simple/simple_pmi.c), proved against the functions of Spawn. */
module SpawnBuilder {
  import opened Text
  import opened BoundedText
  import opened FileDescriptor
  import opened Pmi2Codec
  import opened Spawn

  // ---- A builder that has given up stays that way ----

  lemma {:induction false} ArgsStuck(out: string, args: seq<string>, i: nat)
    requires i <= |args|
    ensures PutArgs(GaveUp(out), args, i) == GaveUp(out)
    decreases |args| - i
  {
    if i < |args| {
      ArgsStuck(out, args, i + 1);
    }
  }

  lemma {:induction false} PairsStuck(out: string, name: string, kvs: seq<KeyVal>, i: nat)
    requires i <= |kvs|
    ensures PutPairs(GaveUp(out), name, kvs, i) == GaveUp(out)
    decreases |kvs| - i
  {
    if i < |kvs| {
      PairsStuck(out, name, kvs, i + 1);
    }
  }

  lemma TailStuck(out: string, j: Job, preput: seq<KeyVal>)
    ensures FillTail(GaveUp(out), j, preput) == GaveUp(out)
  {
    PairsStuck(out, "preput", preput, 0);
    PairsStuck(out, "info", j.info, 0);
  }

  lemma {:induction false} AllStuck(out: string, jobs: seq<Job>, preput: seq<KeyVal>, i: nat)
    requires i <= |jobs|
    ensures PutAll(GaveUp(out), jobs, preput, i) == GaveUp(out)
    decreases |jobs| - i
  {
    if i < |jobs| {
      ArgsStuck(out, jobs[i].args, 0);
      TailStuck(out, jobs[i], preput);
      AllStuck(out, jobs, preput, i + 1);
    }
  }

  /** Appending sends nothing. */
  lemma {:induction false} PairsSendNothing(s: Wire, name: string, kvs: seq<KeyVal>, i: nat)
    requires i <= |kvs|
    ensures PutPairs(s, name, kvs, i).out == s.out
    decreases |kvs| - i
  {
    if i < |kvs| {
      PairsSendNothing(PutPair(s, name, i, kvs[i]), name, kvs, i + 1);
    }
  }

  lemma TailSendsNothing(s: Wire, j: Job, preput: seq<KeyVal>)
    ensures FillTail(s, j, preput).out == s.out
  {
    PairsSendNothing(FillCounts(s, j, preput), "preput", preput, 0);
    PairsSendNothing(FillMiddle(s, j, preput), "info", j.info, 0);
  }

  // ---- C strings ----

  predicate Clean(s: string) { '\0' !in s }

  predicate CleanPairs(kvs: seq<KeyVal>) {
    forall i | 0 <= i < |kvs| :: Clean(kvs[i].key) && Clean(kvs[i].value)
  }

  /** The caller's strings are C strings. */
  predicate CleanJob(j: Job) {
    Clean(j.cmd) && (forall i | 0 <= i < |j.args| :: Clean(j.args[i])) && CleanPairs(j.info)
  }

  lemma CleanLines(name: string, n: nat, text: string)
    requires Clean(name) && Clean(text)
    ensures Clean(NumLine(name, n)) && Clean(PairLine(name, n, text)) && Clean(ArgLine(n, text))
  {
  }

  lemma CleanFront(j: Job, count: nat, i: nat)
    requires Clean(j.cmd)
    ensures Clean(HeadLines(j)) && Clean(CountLines(count, i))
  {
    assert Clean(DecimalInt(j.nprocs));
  }

  // ---- The line buffers ----

  predicate Ready(buf: array<char>, tmp: array<char>, s: Wire)
    reads buf
  {
    buf != tmp && buf.Length == tmp.Length == MAXLINE && s.Building? && IsCStr(buf, 0, s.buf)
  }

  /** If no write fails or falls short, the descriptor has what the builder has sent. */
  predicate Agrees(fd: Fd, base: string, s: Wire)
    reads fd
  {
    fd.reliable && fd.whole ==> fd.outgoing == base + s.out
  }

  /** snprintf into a line buffer. */
  method Snprintf(buf: array<char>, text: string)
    requires buf.Length == MAXLINE && Clean(text)
    modifies buf
    ensures IsCStr(buf, 0, Cut(text, MAXLINE - 1))
  {
    var t := Cut(text, MAXLINE - 1);
    forall i | 0 <= i < |t| {
      buf[i] := t[i];
    }
    buf[|t|] := '\0';
  }

  /** Format one line and append it. */
  method PutLine(buf: array<char>, tmp: array<char>, text: string, ghost s: Wire) returns (ok: bool)
    requires Ready(buf, tmp, s) && Clean(text)
    modifies buf, tmp
    ensures ok == Put(s, text).Building?
    ensures ok ==> Ready(buf, tmp, Put(s, text))
  {
    Snprintf(tmp, text);
    var rc := Strnapp(buf, tmp, MAXLINE, s.buf, Cut(text, MAXLINE - 1));
    ok := rc == 0;
  }

  method StrLen(buf: array<char>, ghost d: string) returns (n: nat)
    requires IsCStr(buf, 0, d)
    ensures n == |d|
  {
    n := 0;
    while buf[n] != '\0'
      invariant 0 <= n <= |d|
      decreases |d| - n
    {
      n := n + 1;
    }
  }

  /** PMIU_writeline on a buffer that holds something. A text without a newline at its end is not sent,
      and that is no error. Otherwise one write is made, of which `sent` bytes are taken; a short write
      is no error either, a failed one is. */
  method Writeline(fd: Fd, buf: array<char>, ghost d: string) returns (rc: int, ghost sent: nat)
    requires IsCStr(buf, 0, d) && 0 < |d| < MAXLINE
    modifies fd
    ensures fd.incoming == old(fd.incoming) && sent <= |d| && fd.outgoing == old(fd.outgoing) + d[..sent]
    ensures !EndsInNewline(d) ==> rc == 0 && sent == 0
    ensures EndsInNewline(d) ==> (rc == 0 && sent > 0) || (rc == -1 && sent == 0 && !fd.reliable)
    ensures EndsInNewline(d) && rc == 0 && fd.whole ==> sent == |d|
  {
    var size := StrLen(buf, d);
    assert buf[..size] == d;
    sent := 0;
    if buf[size - 1] != '\n' {
      return 0, 0;
    }
    var r := fd.Write(buf[..size]);
    while r.WriteInterrupted?
      invariant fd.incoming == old(fd.incoming)
      invariant r.Wrote? ==> 0 < r.count <= |d| && fd.outgoing == old(fd.outgoing) + d[..r.count]
      invariant r.Wrote? && fd.whole ==> r.count == |d|
      invariant !r.Wrote? ==> fd.outgoing == old(fd.outgoing)
      invariant r.WriteFailed? ==> !fd.reliable
      decreases if r.WriteInterrupted? then fd.signals + 1 else 0
    {
      r := fd.Write(buf[..size]);
    }
    rc := if r.WriteFailed? then -1 else 0;
    sent := if r.WriteFailed? then 0 else r.count;
  }

  /** Send the buffer and empty it. */
  method FlushLine(fd: Fd, buf: array<char>, tmp: array<char>, ghost base: string, ghost s: Wire)
    requires Ready(buf, tmp, s) && s.buf != "" && Agrees(fd, base, s)
    modifies fd, buf
    ensures Ready(buf, tmp, Flush(s)) && Agrees(fd, base, Flush(s))
  {
    JoinAssoc(base, s.out, if EndsInNewline(s.buf) then s.buf else "");
    var rc;
    ghost var sent;
    rc, sent := Writeline(fd, buf, s.buf);
    assert s.buf[..|s.buf|] == s.buf;
    buf[0] := '\0';
  }

  // ---- The loops ----

  method AppendArgs(fd: Fd, buf: array<char>, tmp: array<char>, args: seq<string>, ghost base: string, ghost s: Wire)
    returns (ok: bool)
    requires Ready(buf, tmp, s) && Agrees(fd, base, s) && forall i | 0 <= i < |args| :: Clean(args[i])
    modifies fd, buf, tmp
    ensures var r := PutArgs(s, args, 0);
            ok == r.Building? && Agrees(fd, base, r) && (ok ==> Ready(buf, tmp, r))
  {
    ghost var t := s;
    for i := 0 to |args|
      invariant Ready(buf, tmp, t) && Agrees(fd, base, t) && PutArgs(s, args, 0) == PutArgs(t, args, i)
    {
      CleanLines("", i, args[i]);
      ok := PutLine(buf, tmp, ArgLine(i, args[i]), t);
      t := Put(t, ArgLine(i, args[i]));
      if !ok {
        ArgsStuck(t.out, args, i + 1);
        return false;
      }
      FlushLine(fd, buf, tmp, base, t);
      t := Flush(t);
    }
    ok := true;
  }

  method AppendPairs(buf: array<char>, tmp: array<char>, name: string, kvs: seq<KeyVal>, ghost s: Wire) returns (ok: bool)
    requires Ready(buf, tmp, s) && Clean(name) && CleanPairs(kvs)
    modifies buf, tmp
    ensures var r := PutPairs(s, name, kvs, 0); ok == r.Building? && (ok ==> Ready(buf, tmp, r))
  {
    ghost var t := s;
    for i := 0 to |kvs|
      invariant Ready(buf, tmp, t) && PutPairs(s, name, kvs, 0) == PutPairs(t, name, kvs, i)
    {
      ok := AppendPair(buf, tmp, name, i, kvs[i], t);
      t := PutPair(t, name, i, kvs[i]);
      if !ok {
        PairsStuck(t.out, name, kvs, i + 1);
        return false;
      }
    }
    ok := true;
  }

  method AppendPair(buf: array<char>, tmp: array<char>, name: string, i: nat, kv: KeyVal, ghost s: Wire) returns (ok: bool)
    requires Ready(buf, tmp, s) && Clean(name) && Clean(kv.key) && Clean(kv.value)
    modifies buf, tmp
    ensures var r := PutPair(s, name, i, kv); ok == r.Building? && (ok ==> Ready(buf, tmp, r))
  {
    CleanLines(name + "_key_", i, kv.key);
    CleanLines(name + "_val_", i, kv.value);
    ok := PutLine(buf, tmp, PairLine(name + "_key_", i, kv.key), s);
    if ok {
      ok := PutLine(buf, tmp, PairLine(name + "_val_", i, kv.value), Put(s, PairLine(name + "_key_", i, kv.key)));
    }
  }

  method AppendTwo(buf: array<char>, tmp: array<char>, a: string, b: string, ghost s: Wire) returns (ok: bool)
    requires Ready(buf, tmp, s) && Clean(a) && Clean(b)
    modifies buf, tmp
    ensures ok == Put(Put(s, a), b).Building? && (ok ==> Ready(buf, tmp, Put(Put(s, a), b)))
  {
    ok := PutLine(buf, tmp, a, s);
    if ok {
      ok := PutLine(buf, tmp, b, Put(s, a));
    }
  }

  /** Everything behind the arguments, up to the flush. */
  method AppendTail(buf: array<char>, tmp: array<char>, j: Job, preput: seq<KeyVal>, ghost s: Wire) returns (ok: bool)
    requires Ready(buf, tmp, s) && CleanJob(j) && CleanPairs(preput)
    modifies buf, tmp
    ensures var r := FillTail(s, j, preput); ok == r.Building? && (ok ==> Ready(buf, tmp, r))
  {
    CleanLines("argcnt", |j.args|, "");
    CleanLines("preput_num", |preput|, "");
    CleanLines("info_num", |j.info|, "");
    ok := AppendTwo(buf, tmp, NumLine("argcnt", |j.args|), NumLine("preput_num", |preput|), s);
    ghost var a := FillCounts(s, j, preput);
    if ok {
      ok := AppendPairs(buf, tmp, "preput", preput, a);
    } else {
      PairsStuck(a.out, "preput", preput, 0);
    }
    ghost var b := PutPairs(a, "preput", preput, 0);
    if ok {
      ok := PutLine(buf, tmp, NumLine("info_num", |j.info|), b);
    }
    ghost var c := Put(b, NumLine("info_num", |j.info|));
    if ok {
      ok := AppendPairs(buf, tmp, "info", j.info, c);
    } else {
      PairsStuck(c.out, "info", j.info, 0);
    }
    if ok {
      ok := PutLine(buf, tmp, "endcmd\n", PutPairs(c, "info", j.info, 0));
    }
  }

  /** One turn of the outer loop. The first line overwrites the buffer, which is as good as
      appending to an empty one. */
  method AppendJob(fd: Fd, buf: array<char>, tmp: array<char>, j: Job, count: nat, i: nat, preput: seq<KeyVal>,
                   ghost base: string, ghost s: Wire) returns (ok: bool)
    requires Ready(buf, tmp, s) && s.buf == "" && Agrees(fd, base, s) && CleanJob(j) && CleanPairs(preput)
    modifies fd, buf, tmp
    ensures var r := PutJob(s, j, count, i, preput);
            ok == r.Building? && Agrees(fd, base, r) && (ok ==> Ready(buf, tmp, r) && r.buf == "")
  {
    CleanFront(j, count, i);
    ok := AppendTwo(buf, tmp, HeadLines(j), CountLines(count, i), s);
    ghost var a := PutFront(s, j, count, i);
    if !ok {
      ArgsStuck(a.out, j.args, 0);
      TailStuck(a.out, j, preput);
      return false;
    }
    ok := AppendArgs(fd, buf, tmp, j.args, base, a);
    ghost var b := PutArgs(a, j.args, 0);
    if !ok {
      TailStuck(b.out, j, preput);
      return false;
    }
    ok := AppendTail(buf, tmp, j, preput, b);
    ghost var c := FillTail(b, j, preput);
    TailSendsNothing(b, j, preput);
    if ok {
      FlushLine(fd, buf, tmp, base, c);
    }
  }

  /** The sending half of PMI_Spawn_multiple. */
  method SendSpawns(fd: Fd, jobs: seq<Job>, preput: seq<KeyVal>) returns (ok: bool)
    requires CleanPairs(preput) && forall i | 0 <= i < |jobs| :: CleanJob(jobs[i])
    modifies fd
    ensures var r := PutAll(Building("", ""), jobs, preput, 0);
            ok == r.Building? && Agrees(fd, old(fd.outgoing), r)
  {
    var buf, tmp := new char[MAXLINE](_ => '\0'), new char[MAXLINE](_ => '\0');
    ghost var base, t := fd.outgoing, Building("", "");
    assert base + "" == base;
    for i := 0 to |jobs|
      invariant Ready(buf, tmp, t) && t.buf == "" && Agrees(fd, base, t)
      invariant PutAll(Building("", ""), jobs, preput, 0) == PutAll(t, jobs, preput, i)
    {
      ok := AppendJob(fd, buf, tmp, jobs[i], |jobs|, i, preput, base, t);
      t := PutJob(t, jobs[i], |jobs|, i, preput);
      if !ok {
        AllStuck(t.out, jobs, preput, i + 1);
        return false;
      }
    }
    ok := true;
  }
}
