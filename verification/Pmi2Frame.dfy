/** Framing of PMI-2 commands and the agreement of the reader's counting pre-pass with its parser
    (modules/pmi/pmi2/client/pmi2_api.c). */
module Pmi2Frame {
  import opened Options
  import opened Text
  import opened Pmi2Codec

  // ---- The length field ----

  /** Every body the writer accepts has a length of at most five digits, so the "won't fit in
      length buffer" error cannot occur. */
  lemma LengthFits(len: nat)
    requires len < ROOM
    ensures |Decimal(len)| < COMMANDLEN_SIZE
  {
    assert Power10(4) == 10000;
    DecimalWidth(len, 5);
  }

  lemma HeaderReads(len: nat)
    requires len < ROOM
    ensures |Decimal(len)| < COMMANDLEN_SIZE && |Header(len)| == COMMANDLEN_SIZE
    ensures Atoi(Header(len)) == len
  {
    LengthFits(len);
    AtoiOfDecimal(len, seq(COMMANDLEN_SIZE - |Decimal(len)|, _ => ' '));
  }

  /** What the writer produces it also frames. */
  lemma WrittenFrames(cmd: string, kvs: seq<KeyVal>)
    requires WriteOutcome(cmd, kvs).Written?
    ensures var body := WriteOutcome(cmd, kvs).body;
            && body == EncodeBody(cmd, kvs) && 0 < |body| < ROOM && WithinLimits(kvs)
            && |Decimal(|body|)| < COMMANDLEN_SIZE
  {
    AppendWritten("cmd=" + cmd + ";", kvs);
    LengthFits(|WriteOutcome(cmd, kvs).body|);
  }

  lemma FrameSplits(body: string, rest: string)
    requires 0 < |body| < ROOM
    ensures |Decimal(|body|)| < COMMANDLEN_SIZE
    ensures var s := Frame(body) + rest;
            && |s| >= COMMANDLEN_SIZE + |body|
            && Atoi(s[..COMMANDLEN_SIZE]) == |body|
            && s[COMMANDLEN_SIZE..][..|body|] == body
            && s[COMMANDLEN_SIZE..][|body|..] == rest
  {
    HeaderReads(|body|);
    var s := Frame(body) + rest;
    assert s[..COMMANDLEN_SIZE] == Header(|body|);
    assert s[COMMANDLEN_SIZE..] == body + rest;
  }

  /** End to end: whatever follows on the stream, a written command is read back and the rest of
      the stream is left alone. */
  lemma StreamRoundTrip(cmd: string, kvs: seq<KeyVal>, rest: string)
    requires WriteOutcome(cmd, kvs).Written? && ';' !in cmd && GoodPairs(kvs)
    ensures |Decimal(|WriteOutcome(cmd, kvs).body|)| <= COMMANDLEN_SIZE
    ensures ReadStream(Frame(WriteOutcome(cmd, kvs).body) + rest) == Some((Command(cmd, kvs), rest))
  {
    WrittenFrames(cmd, kvs);
    FrameSplits(WriteOutcome(cmd, kvs).body, rest);
    BodyRoundTrip(cmd, kvs);
  }

  predicate Sendable(c: Command) {
    WriteOutcome(c.name, c.pairs).Written? && ';' !in c.name && GoodPairs(c.pairs)
  }

  function FrameOf(c: Command): string
    requires Sendable(c)
  {
    WrittenFrames(c.name, c.pairs);
    Frame(WriteOutcome(c.name, c.pairs).body)
  }

  function FrameAll(cmds: seq<Command>): string
    requires forall i | 0 <= i < |cmds| :: Sendable(cmds[i])
  {
    if cmds == [] then "" else FrameOf(cmds[0]) + FrameAll(cmds[1..])
  }

  function ReadMany(stream: string, n: nat): Option<(seq<Command>, string)> {
    if n == 0 then Some(([], stream))
    else
      var r := ReadStream(stream);
      if r.None? then None
      else
        var more := ReadMany(r.value.1, n - 1);
        if more.None? then None else Some(([r.value.0] + more.value.0, more.value.1))
  }

  lemma ReadOne(c: Command, tail: string)
    requires Sendable(c)
    ensures ReadStream(FrameOf(c) + tail) == Some((c, tail))
  {
    StreamRoundTrip(c.name, c.pairs, tail);
  }

  lemma ReadManyStep(stream: string, c: Command, tail: string, more: seq<Command>, rest: string)
    requires ReadStream(stream) == Some((c, tail)) && ReadMany(tail, |more|) == Some((more, rest))
    ensures ReadMany(stream, |more| + 1) == Some(([c] + more, rest))
  {
  }

  /** A conversation: any sequence of commands written back to back is read back in order. */
  lemma {:induction false} ConversationRoundTrip(cmds: seq<Command>, rest: string)
    requires forall i | 0 <= i < |cmds| :: Sendable(cmds[i])
    ensures ReadMany(FrameAll(cmds) + rest, |cmds|) == Some((cmds, rest))
  {
    if cmds == [] {
      assert FrameAll(cmds) + rest == rest;
    } else {
      var tail := FrameAll(cmds[1..]) + rest;
      JoinAssoc(FrameOf(cmds[0]), FrameAll(cmds[1..]), rest);
      ReadOne(cmds[0], tail);
      ConversationRoundTrip(cmds[1..], rest);
      ReadManyStep(FrameOf(cmds[0]) + tail, cmds[0], tail, cmds[1..], rest);
      assert [cmds[0]] + cmds[1..] == cmds;
    }
  }

  // ---- The encoder bound is exactly 30 pairs ----

  function Repeat<T>(x: T, n: nat): (r: seq<T>)
    ensures |r| == n && forall i | 0 <= i < n :: r[i] == x
  {
    seq(n, _ => x)
  }

  lemma {:induction false} EscapeSemis(n: nat)
    ensures |Escape(Repeat(';', n))| == 2 * n
  {
    if n > 0 {
      assert Repeat(';', n)[1..] == Repeat(';', n - 1);
      EscapeSemis(n - 1);
    }
  }

  lemma {:induction false} EncodeRepeated(kv: KeyVal, n: nat)
    ensures |EncodePairs(Repeat(kv, n))| == n * |EncodePair(kv)|
  {
    if n > 0 {
      assert Repeat(kv, n)[1..] == Repeat(kv, n - 1);
      EncodeRepeated(kv, n - 1);
      assert n * |EncodePair(kv)| == |EncodePair(kv)| + (n - 1) * |EncodePair(kv)|;
    }
  }

  ghost predicate AlwaysFits(n: nat) {
    forall cmd: string, kvs: seq<KeyVal> | |cmd| <= MAX_VALLEN && WithinLimits(kvs) && |kvs| <= n ::
      WriteOutcome(cmd, kvs).Written?
  }

  /** 31 pairs at the limits do not fit. */
  lemma ThirtyOnePairsDoNotFit()
    ensures exists cmd: string, kvs: seq<KeyVal> ::
              |cmd| <= MAX_VALLEN && WithinLimits(kvs) && |kvs| == 31 && !WriteOutcome(cmd, kvs).Written?
  {
    var cmd := Repeat('c', MAX_VALLEN);
    var kv := KeyVal(Repeat('k', MAX_KEYLEN), Repeat(';', MAX_VALLEN));
    var kvs := Repeat(kv, 31);
    EscapeSemis(MAX_VALLEN);
    EncodeRepeated(kv, 31);
    assert |EncodePair(kv)| == MAX_PAIR;
    assert |EncodePairs(kvs)| == 31 * MAX_PAIR;
    if WriteOutcome(cmd, kvs).Written? {
      WrittenFrames(cmd, kvs);
    }
    assert !WriteOutcome(cmd, kvs).Written?;
  }

  /** No list of n pairs within the limits is ever too much for the buffer exactly when n <= 30. */
  lemma EncoderBoundExact(n: nat)
    ensures AlwaysFits(n) <==> n <= 30
  {
    if n <= 30 {
      forall cmd: string, kvs: seq<KeyVal> | |cmd| <= MAX_VALLEN && WithinLimits(kvs) && |kvs| <= n
        ensures WriteOutcome(cmd, kvs).Written?
      {
        EncoderFits(cmd, kvs);
      }
    } else {
      ThirtyOnePairsDoNotFit();
    }
  }

  // ---- The counting pre-pass ----

  /** The pre-pass of PMIi_ReadCommand from position k on: skip to a ';'; a doubled one counts for
      nothing, a single one ends a pair; bytes behind the last ';' count as one more. */
  function CountPairs(w: string, k: nat): nat
    requires k <= |w|
    decreases |w| - k
  {
    if k == |w| then 0
    else if w[k] != ';' then (if k + 1 == |w| then 1 else CountPairs(w, k + 1))
    else if k + 1 < |w| && w[k + 1] == ';' then CountPairs(w, k + 2)
    else 1 + CountPairs(w, k + 1)
  }

  /** ';' left over in a key, from its i-th byte on, after pairing them up from the left. */
  function LoneSemis(key: string, i: nat): nat
    requires i <= |key|
    decreases |key| - i
  {
    if i == |key| then 0
    else if key[i] != ';' then LoneSemis(key, i + 1)
    else if i + 1 < |key| && key[i + 1] == ';' then LoneSemis(key, i + 2)
    else 1 + LoneSemis(key, i + 1)
  }

  function LoneSemisOf(kvs: seq<KeyVal>): nat {
    if kvs == [] then 0 else LoneSemis(kvs[0].key, 0) + LoneSemisOf(kvs[1..])
  }

  lemma {:induction false} CountKey(w: string, k: nat, key: string, i: nat)
    requires StandsAt(w, k, key) && k + |key| < |w| && w[k + |key|] != ';' && i <= |key|
    ensures CountPairs(w, k + i) == LoneSemis(key, i) + CountPairs(w, k + |key|)
    decreases |key| - i
  {
    if i < |key| {
      assert w[k + i] == key[i];
      assert i + 1 < |key| ==> w[k + (i + 1)] == key[i + 1];
      if key[i] == ';' && i + 1 < |key| && key[i + 1] == ';' {
        CountKey(w, k, key, i + 2);
      } else {
        CountKey(w, k, key, i + 1);
      }
    }
  }

  lemma {:induction false} CountValue(w: string, k: nat)
    requires k <= |w| && ScanValue(w, k).Value?
    ensures CountPairs(w, k) == 1 + CountPairs(w, ScanValue(w, k).end + 1)
    decreases |w| - k
  {
    if w[k] != ';' {
      CountValue(w, k + 1);
    } else if k + 1 < |w| && w[k + 1] == ';' {
      CountValue(w, k + 2);
    }
  }

  /** Every pair the parser takes, the pre-pass has counted, plus the lone ';' of its key. */
  lemma CountParsed(w: string, k: nat)
    requires k <= |w| && ParseKeyval(w, k).Pair?
    ensures var p := ParseKeyval(w, k);
            CountPairs(w, k) == 1 + LoneSemis(w[k..p.keyEnd], 0) + CountPairs(w, p.next)
  {
    var e := KeyEnd(w, k);
    CountKey(w, k, w[k..e], 0);
    CountValue(w, e + 1);
  }

  lemma {:induction false} CountAll(w: string, k: nat)
    requires k <= |w| && ParsePairs(w, k).Some?
    ensures CountPairs(w, k) == |ParsePairs(w, k).value| + LoneSemisOf(ParsePairs(w, k).value)
    decreases |w| - k
  {
    if k < |w| {
      var p := ParseKeyval(w, k);
      CountParsed(w, k);
      CountAll(w, p.next);
      FirstOfMore(w, k);
    }
  }

  lemma FirstOfMore(w: string, k: nat)
    requires k < |w| && ParsePairs(w, k).Some?
    ensures ParseKeyval(w, k).Pair? && ParsePairs(w, ParseKeyval(w, k).next).Some?
    ensures var p, kvs := ParseKeyval(w, k), ParsePairs(w, k).value;
            kvs != [] && kvs[0].key == w[k..p.keyEnd] && kvs[1..] == ParsePairs(w, p.next).value
  {
  }

  /** The pre-pass against the parser, on every buffer that parses: the slots allocated are as many
      as the pairs stored plus the lone ';' in keys. So no store is out of range, and the reported
      number of pairs is right exactly when no key has a lone ';'. */
  lemma PrepassAgrees(w: string)
    requires ParseBody(w).Some?
    ensures var p := ParseKeyval(w, 0);
            var kvs := ParsePairs(w, p.next).value;
            && CountPairs(w, 0) - 1 == |ParseBody(w).value.pairs| + LoneSemis(w[..p.keyEnd], 0) + LoneSemisOf(kvs)
            && (CountPairs(w, 0) - 1 == |ParseBody(w).value.pairs|
                <==> LoneSemis(w[..p.keyEnd], 0) == 0 && forall i | 0 <= i < |kvs| :: LoneSemis(kvs[i].key, 0) == 0)
  {
    var p := ParseKeyval(w, 0);
    CountParsed(w, 0);
    assert w[..p.keyEnd] == w[0..p.keyEnd];
    CountAll(w, p.next);
    NoLoneSemis(ParsePairs(w, p.next).value);
  }

  lemma {:induction false} NoLoneSemis(kvs: seq<KeyVal>)
    ensures LoneSemisOf(kvs) == 0 <==> forall i | 0 <= i < |kvs| :: LoneSemis(kvs[i].key, 0) == 0
  {
    if kvs != [] {
      NoLoneSemis(kvs[1..]);
      if LoneSemisOf(kvs) == 0 {
        forall i | 0 <= i < |kvs| ensures LoneSemis(kvs[i].key, 0) == 0 {
          if i > 0 {
            assert kvs[i] == kvs[1..][i - 1];
          }
        }
      }
    }
  }
}
