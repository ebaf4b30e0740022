/** The text that PMI_Spawn_multiple sends (modules/pmi/pmi1/simple/simple_pmi.c): built in a line
    buffer by bounded appends, flushed after every argument. When is it the plain text? */
module Spawn {
  import opened Text
  import opened BoundedText
  import opened Pmi2Codec

  const MAXLINE: nat := 1024

  datatype Job = Job(nprocs: int, cmd: string, args: seq<string>, info: seq<KeyVal>)

  // ---- The lines ----

  function HeadLines(j: Job): string {
    "mcmd=spawn\nnprocs=" + DecimalInt(j.nprocs) + "\nexecname=" + j.cmd + "\n"
  }

  function CountLines(count: nat, i: nat): string {
    "totspawns=" + Decimal(count) + "\nspawnssofar=" + Decimal(i + 1) + "\n"
  }

  function ArgLine(i: nat, arg: string): string { "arg" + Decimal(i + 1) + "=" + arg + "\n" }

  function NumLine(name: string, n: nat): string { name + "=" + Decimal(n) + "\n" }

  function PairLine(name: string, i: nat, text: string): string { name + Decimal(i) + "=" + text + "\n" }

  function ArgsText(args: seq<string>, i: nat): string
    requires i <= |args|
    decreases |args| - i
  {
    if i == |args| then "" else ArgLine(i, args[i]) + ArgsText(args, i + 1)
  }

  function PairsText(name: string, kvs: seq<KeyVal>, i: nat): string
    requires i <= |kvs|
    decreases |kvs| - i
  {
    if i == |kvs| then ""
    else PairLine(name + "_key_", i, kvs[i].key) + (PairLine(name + "_val_", i, kvs[i].value) + PairsText(name, kvs, i + 1))
  }

  function CountsText(j: Job, preput: seq<KeyVal>): string {
    NumLine("argcnt", |j.args|) + NumLine("preput_num", |preput|)
  }

  function MiddleText(j: Job, preput: seq<KeyVal>): string {
    CountsText(j, preput) + PairsText("preput", preput, 0) + NumLine("info_num", |j.info|)
  }

  /** What follows the arguments. */
  function TailText(j: Job, preput: seq<KeyVal>): string {
    MiddleText(j, preput) + PairsText("info", j.info, 0) + "endcmd\n"
  }

  function FrontText(j: Job, count: nat, i: nat): string { HeadLines(j) + CountLines(count, i) }

  function JobText(j: Job, count: nat, i: nat, preput: seq<KeyVal>): string {
    FrontText(j, count, i) + (ArgsText(j.args, 0) + TailText(j, preput))
  }

  /** The plain concatenation of all lines. */
  function AllText(jobs: seq<Job>, preput: seq<KeyVal>, i: nat): string
    requires i <= |jobs|
    decreases |jobs| - i
  {
    if i == |jobs| then "" else JobText(jobs[i], |jobs|, i, preput) + AllText(jobs, preput, i + 1)
  }

  // ---- What the builder does ----

  /** The buffer and what has been sent; or an append failed and the call has returned. */
  datatype Wire = GaveUp(out: string) | Building(buf: string, out: string)

  /** Format into the scratch buffer, which cuts the text to 1023 bytes, and append that. */
  function Put(s: Wire, text: string): Wire {
    if s.GaveUp? then s
    else if StrnappFits(s.buf, Cut(text, MAXLINE - 1), MAXLINE) then Building(s.buf + Cut(text, MAXLINE - 1), s.out)
    else GaveUp(s.out)
  }

  predicate EndsInNewline(s: string) { s != "" && s[|s| - 1] == '\n' }

  /** PMIU_writeline sends nothing, and reports no error, if the buffer does not end in a newline. */
  function Flush(s: Wire): Wire {
    if s.GaveUp? then s else Building("", s.out + if EndsInNewline(s.buf) then s.buf else "")
  }

  function PutArgs(s: Wire, args: seq<string>, i: nat): Wire
    requires i <= |args|
    decreases |args| - i
  {
    if i == |args| then s else PutArgs(Flush(Put(s, ArgLine(i, args[i]))), args, i + 1)
  }

  function PutPairs(s: Wire, name: string, kvs: seq<KeyVal>, i: nat): Wire
    requires i <= |kvs|
    decreases |kvs| - i
  {
    if i == |kvs| then s
    else PutPairs(PutPair(s, name, i, kvs[i]), name, kvs, i + 1)
  }

  function PutPair(s: Wire, name: string, i: nat, kv: KeyVal): Wire {
    Put(Put(s, PairLine(name + "_key_", i, kv.key)), PairLine(name + "_val_", i, kv.value))
  }

  /** The state before the final flush. */
  function FillTail(s: Wire, j: Job, preput: seq<KeyVal>): Wire {
    Put(PutPairs(FillMiddle(s, j, preput), "info", j.info, 0), "endcmd\n")
  }

  function FillMiddle(s: Wire, j: Job, preput: seq<KeyVal>): Wire {
    Put(PutPairs(FillCounts(s, j, preput), "preput", preput, 0), NumLine("info_num", |j.info|))
  }

  function FillCounts(s: Wire, j: Job, preput: seq<KeyVal>): Wire {
    Put(Put(s, NumLine("argcnt", |j.args|)), NumLine("preput_num", |preput|))
  }

  function PutTail(s: Wire, j: Job, preput: seq<KeyVal>): Wire {
    Flush(FillTail(s, j, preput))
  }

  function PutFront(s: Wire, j: Job, count: nat, i: nat): Wire {
    Put(Put(s, HeadLines(j)), CountLines(count, i))
  }

  function PutJob(s: Wire, j: Job, count: nat, i: nat, preput: seq<KeyVal>): Wire {
    PutTail(PutArgs(PutFront(s, j, count, i), j.args, 0), j, preput)
  }

  function PutAll(s: Wire, jobs: seq<Job>, preput: seq<KeyVal>, i: nat): Wire
    requires i <= |jobs|
    decreases |jobs| - i
  {
    if i == |jobs| then s else PutAll(PutJob(s, jobs[i], |jobs|, i, preput), jobs, preput, i + 1)
  }

  // ---- When nothing is lost ----

  predicate WholeLines(text: string) { text == "" || EndsInNewline(text) }

  /** So far exactly `text` has been sent or is in the buffer. */
  predicate Exact(s: Wire, text: string) {
    s.Building? && s.out + s.buf == text
  }

  /** Never more than asked for. */
  predicate Bounded(s: Wire, text: string) {
    && WholeLines(text)
    && if s.GaveUp? then |s.out| <= |text| else |s.out| + |s.buf| <= |text| && |s.buf| < MAXLINE
  }

  /** From s to r the lines t were appended: exactly if all was exact before and they fit. */
  predicate Appends(s: Wire, text: string, t: string, r: Wire) {
    && Bounded(r, text + t)
    && (Exact(r, text + t) <==> Exact(s, text) && |s.buf| + |t| < MAXLINE)
    && (Exact(r, text + t) ==> r.buf == s.buf + t)
  }

  lemma PutAppends(s: Wire, text: string, t: string)
    requires Bounded(s, text) && EndsInNewline(t)
    ensures Appends(s, text, t, Put(s, t))
  {
    if s.Building? {
      var c := Cut(t, MAXLINE - 1);
      JoinAssoc(s.out, s.buf, c);
      if Exact(Put(s, t), text + t) {
        assert |s.out + s.buf| == |text| && |c| == |t|;
        assert (s.out + s.buf + c)[..|text|] == s.out + s.buf;
        assert (text + t)[..|text|] == text;
      }
    }
  }

  lemma AppendsChain(s: Wire, text: string, a: string, m: Wire, b: string, r: Wire)
    requires Appends(s, text, a, m) && Appends(m, text + a, b, r)
    ensures Appends(s, text, a + b, r)
  {
    JoinAssoc(text, a, b);
    if s.Building? {
      JoinAssoc(s.buf, a, b);
    }
  }

  lemma AppendsNothing(s: Wire, text: string)
    requires Bounded(s, text)
    ensures Appends(s, text, "", s)
  {
    assert text + "" == text;
    if s.Building? {
      assert s.buf + "" == s.buf;
    }
  }

  lemma FlushExact(s: Wire, text: string)
    requires Bounded(s, text)
    ensures Bounded(Flush(s), text)
    ensures Exact(Flush(s), text) <==> Exact(s, text)
    ensures s.Building? ==> Flush(s).Building? && Flush(s).buf == ""
  {
    if s.Building? {
      assert s.out + "" == s.out;
      assert (s.out + s.buf) + "" == s.out + s.buf;
      assert s.buf != "" ==> (s.out + s.buf)[|s.out + s.buf| - 1] == s.buf[|s.buf| - 1];
    }
  }

  lemma LinesEnd(name: string, n: nat, text: string)
    ensures EndsInNewline(NumLine(name, n)) && EndsInNewline(PairLine(name, n, text)) && EndsInNewline(ArgLine(n, text))
  {
  }

  /** Each flush starts an empty buffer, so every argument but the first has it to itself. */
  predicate ArgsFit(used: nat, args: seq<string>, i: nat)
    requires i <= |args|
    decreases |args| - i
  {
    i < |args| ==> used + |ArgLine(i, args[i])| < MAXLINE && ArgsFit(0, args, i + 1)
  }

  lemma {:induction false} ArgsExact(s: Wire, text: string, args: seq<string>, i: nat)
    requires Bounded(s, text) && i <= |args|
    ensures var r, all := PutArgs(s, args, i), text + ArgsText(args, i);
            && Bounded(r, all) && (Exact(r, all) <==> Exact(s, text) && ArgsFit(|s.buf|, args, i))
            && (Exact(r, all) ==> r.buf == if i < |args| then "" else s.buf)
    decreases |args| - i
  {
    if i == |args| {
      assert text + "" == text;
    } else {
      var line := ArgLine(i, args[i]);
      var put := Put(s, line);
      LinesEnd("", i, args[i]);
      PutAppends(s, text, line);
      FlushExact(put, text + line);
      ArgsExact(Flush(put), text + line, args, i + 1);
      JoinAssoc(text, line, ArgsText(args, i + 1));
    }
  }

  lemma {:induction false} PairsAppend(s: Wire, text: string, name: string, kvs: seq<KeyVal>, i: nat)
    requires Bounded(s, text) && i <= |kvs|
    ensures Appends(s, text, PairsText(name, kvs, i), PutPairs(s, name, kvs, i))
    decreases |kvs| - i
  {
    if i == |kvs| {
      AppendsNothing(s, text);
    } else {
      var a, b := PairLine(name + "_key_", i, kvs[i].key), PairLine(name + "_val_", i, kvs[i].value);
      TwoAppend(s, text, a, b);
      PairsAppend(Put(Put(s, a), b), text + (a + b), name, kvs, i + 1);
      AppendsChain(s, text, a + b, Put(Put(s, a), b), PairsText(name, kvs, i + 1), PutPairs(s, name, kvs, i));
      JoinAssoc(a, b, PairsText(name, kvs, i + 1));
    }
  }

  lemma TwoAppend(s: Wire, text: string, a: string, b: string)
    requires Bounded(s, text) && EndsInNewline(a) && EndsInNewline(b)
    ensures Appends(s, text, a + b, Put(Put(s, a), b))
  {
    PutAppends(s, text, a);
    PutAppends(Put(s, a), text + a, b);
    AppendsChain(s, text, a, Put(s, a), b, Put(Put(s, a), b));
  }

  lemma CountsAppend(s: Wire, text: string, j: Job, preput: seq<KeyVal>)
    requires Bounded(s, text)
    ensures Appends(s, text, CountsText(j, preput), FillCounts(s, j, preput))
  {
    LinesEnd("argcnt", |j.args|, "");
    LinesEnd("preput_num", |preput|, "");
    TwoAppend(s, text, NumLine("argcnt", |j.args|), NumLine("preput_num", |preput|));
  }

  lemma MiddleAppends(s: Wire, text: string, j: Job, preput: seq<KeyVal>)
    requires Bounded(s, text)
    ensures Appends(s, text, MiddleText(j, preput), FillMiddle(s, j, preput))
  {
    var a, pairs, num := CountsText(j, preput), PairsText("preput", preput, 0), NumLine("info_num", |j.info|);
    var s1 := FillCounts(s, j, preput);
    var s2 := PutPairs(s1, "preput", preput, 0);
    CountsAppend(s, text, j, preput);
    PairsAppend(s1, text + a, "preput", preput, 0);
    AppendsChain(s, text, a, s1, pairs, s2);
    LinesEnd("info_num", |j.info|, "");
    PutAppends(s2, text + (a + pairs), num);
    AppendsChain(s, text, a + pairs, s2, num, FillMiddle(s, j, preput));
  }

  lemma TailAppends(s: Wire, text: string, j: Job, preput: seq<KeyVal>)
    requires Bounded(s, text)
    ensures Appends(s, text, TailText(j, preput), FillTail(s, j, preput))
  {
    var a, pairs := MiddleText(j, preput), PairsText("info", j.info, 0);
    var s1 := FillMiddle(s, j, preput);
    var s2 := PutPairs(s1, "info", j.info, 0);
    MiddleAppends(s, text, j, preput);
    PairsAppend(s1, text + a, "info", j.info, 0);
    AppendsChain(s, text, a, s1, pairs, s2);
    PutAppends(s2, text + (a + pairs), "endcmd\n");
    AppendsChain(s, text, a + pairs, s2, "endcmd\n", FillTail(s, j, preput));
  }

  /** What must fit into the buffer together: front and first argument, each further argument, the
      tail; without arguments, front and tail. */
  predicate JobFits(j: Job, count: nat, i: nat, preput: seq<KeyVal>) {
    var front, tail := |FrontText(j, count, i)|, |TailText(j, preput)|;
    if j.args == [] then front + tail < MAXLINE
    else front < MAXLINE && ArgsFit(front, j.args, 0) && tail < MAXLINE
  }

  lemma JobExact(s: Wire, text: string, j: Job, count: nat, i: nat, preput: seq<KeyVal>)
    requires Bounded(s, text) && (s.Building? ==> s.buf == "")
    ensures var r, all := PutJob(s, j, count, i, preput), text + JobText(j, count, i, preput);
            && Bounded(r, all) && (Exact(r, all) <==> Exact(s, text) && JobFits(j, count, i, preput))
            && (r.Building? ==> r.buf == "")
  {
    var front, args, tail := FrontText(j, count, i), ArgsText(j.args, 0), TailText(j, preput);
    var s1 := PutFront(s, j, count, i);
    var s2 := PutArgs(s1, j.args, 0);
    TwoAppend(s, text, HeadLines(j), CountLines(count, i));
    ArgsExact(s1, text + front, j.args, 0);
    TailAppends(s2, text + front + args, j, preput);
    FlushExact(FillTail(s2, j, preput), text + front + args + tail);
    JoinAssoc(front, args, tail);
    JoinAssoc(text, front + args, tail);
    JoinAssoc(text, front, args);
  }

  predicate AllFit(jobs: seq<Job>, preput: seq<KeyVal>, i: nat)
    requires i <= |jobs|
    decreases |jobs| - i
  {
    i < |jobs| ==> JobFits(jobs[i], |jobs|, i, preput) && AllFit(jobs, preput, i + 1)
  }

  lemma {:induction false} AllExact(s: Wire, text: string, jobs: seq<Job>, preput: seq<KeyVal>, i: nat)
    requires Bounded(s, text) && (s.Building? ==> s.buf == "") && i <= |jobs|
    ensures var r, all := PutAll(s, jobs, preput, i), text + AllText(jobs, preput, i);
            && (Exact(r, all) <==> Exact(s, text) && AllFit(jobs, preput, i))
            && (r.Building? ==> r.buf == "")
    decreases |jobs| - i
  {
    if i == |jobs| {
      assert text + "" == text;
    } else {
      var t := JobText(jobs[i], |jobs|, i, preput);
      JobExact(s, text, jobs[i], |jobs|, i, preput);
      AllExact(PutJob(s, jobs[i], |jobs|, i, preput), text + t, jobs, preput, i + 1);
      JoinAssoc(text, t, AllText(jobs, preput, i + 1));
    }
  }

  /** The whole call succeeds and sends the plain text exactly if every stretch between two flushes
      fits into the line buffer. */
  lemma SpawnTextExact(jobs: seq<Job>, preput: seq<KeyVal>)
    ensures var r := PutAll(Building("", ""), jobs, preput, 0);
            (r.Building? && r.out == AllText(jobs, preput, 0))
            <==> AllFit(jobs, preput, 0)
  {
    AllExact(Building("", ""), "", jobs, preput, 0);
    AllSent(PutAll(Building("", ""), jobs, preput, 0), AllText(jobs, preput, 0));
  }

  lemma AllSent(r: Wire, text: string)
    requires r.Building? ==> r.buf == ""
    ensures Exact(r, "" + text) <==> r.Building? && r.out == text
  {
    assert "" + text == text;
    if r.Building? {
      assert r.out + "" == r.out;
    }
  }
}
