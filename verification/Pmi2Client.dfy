/** PMIi_WriteSimpleCommand, PMIi_ReadCommand and parse_keyval as they run: on byte arrays, in
    place, over short reads and writes (modules/pmi/pmi2/client/pmi2_api.c). Each is proved against
    the text-level functions of Pmi2Codec and Pmi2Frame. */
module Pmi2Client {
  import opened Options
  import opened Text
  import opened Pmi2Codec
  import opened Pmi2Frame
  import opened FileDescriptor

  // ---- Transfers ----

  /** The read loops of PMIi_ReadCommand: exactly the next `len` bytes, however they arrive. The
      buffer has one byte more, left at NUL. The loop runs at least once, so a zero length fails. */
  method ReadFully(fd: Fd, len: nat) returns (ok: bool, buf: array<char>)
    modifies fd
    ensures fresh(buf) && buf.Length == len + 1 && buf[len] == '\0'
    ensures fd.outgoing == old(fd.outgoing)
    ensures ok ==> 0 < len <= |old(fd.incoming)|
    ensures ok ==> buf[..len] == old(fd.incoming)[..len] && fd.incoming == old(fd.incoming)[len..]
    ensures fd.reliable && 0 < len <= |old(fd.incoming)| ==> ok
  {
    buf := new char[len + 1](_ => '\0');
    var offset := 0;
    var more := true;
    while more
      invariant 0 <= offset <= len && offset <= |old(fd.incoming)|
      invariant buf[..offset] == old(fd.incoming)[..offset] && fd.incoming == old(fd.incoming)[offset..]
      invariant buf[len] == '\0' && fd.outgoing == old(fd.outgoing)
      invariant !more ==> offset == len > 0
      invariant more ==> offset < len || offset == 0
      decreases len - offset, more, fd.signals
    {
      var r := fd.Read(len - offset);
      if r.Interrupted? {
        continue;
      }
      if r.Failed? || |r.data| == 0 {
        return false, buf;
      }
      forall i | 0 <= i < |r.data| {
        buf[offset + i] := r.data[i];
      }
      assert buf[..offset + |r.data|] == old(fd.incoming)[..offset + |r.data|];
      offset := offset + |r.data|;
      more := offset < len;
    }
    ok := true;
  }

  /** The write loop: the whole buffer goes out, however little each call takes. */
  method WriteFully(fd: Fd, data: string) returns (ok: bool)
    modifies fd
    ensures fd.incoming == old(fd.incoming)
    ensures ok ==> fd.outgoing == old(fd.outgoing) + data
    ensures fd.reliable && data != "" ==> ok
  {
    var offset := 0;
    var more := true;
    while more
      invariant 0 <= offset <= |data|
      invariant fd.incoming == old(fd.incoming) && fd.outgoing == old(fd.outgoing) + data[..offset]
      invariant !more ==> offset == |data|
      invariant more ==> offset < |data| || offset == 0
      decreases |data| - offset, more, fd.signals
    {
      var r := fd.Write(data[offset..]);
      if r.WriteInterrupted? {
        continue;
      }
      if r.WriteFailed? || r.count == 0 {
        return false;
      }
      assert data[..offset] + data[offset..][..r.count] == data[..offset + r.count];
      offset := offset + r.count;
      more := offset < |data|;
    }
    assert data[..offset] == data;
    ok := true;
  }

  // ---- The writer ----

  /** snprintf of a text that fits: the bytes are in the buffer, nothing before them changed. */
  method PutText(buf: array<char>, at: nat, text: string)
    requires at + |text| <= buf.Length
    modifies buf
    ensures buf[at..at + |text|] == text
    ensures buf[..at] == old(buf[..at])
  {
    forall i | 0 <= i < |text| {
      buf[at + i] := text[i];
    }
  }

  lemma EscapeNext(before: string, value: string, i: nat)
    requires i < |value|
    ensures before + Escape(value[i..]) == before + (if value[i] == ';' then ";;" else [value[i]]) + Escape(value[i + 1..])
  {
    assert value[i..][1..] == value[i + 1..];
  }

  /** The loop that copies one value, doubling ';'. It does not look at the space left: the
      caller must know that the escaped value fits. */
  method PutEscaped(buf: array<char>, at: nat, value: string, remaining: int) returns (c: nat, left: int)
    requires at + |Escape(value)| <= buf.Length
    modifies buf
    ensures c == at + |Escape(value)| && left + c == remaining + at
    ensures buf[at..c] == Escape(value)
    ensures buf[..at] == old(buf[..at])
  {
    c, left := at, remaining;
    for i := 0 to |value|
      invariant at <= c <= buf.Length && left + c == remaining + at
      invariant buf[at..c] + Escape(value[i..]) == Escape(value)
      invariant buf[..at] == old(buf[..at])
    {
      ghost var before := buf[at..c];
      EscapeNext(before, value, i);
      if value[i] == ';' {
        buf[c] := ';';
        c, left := c + 1, left - 1;
      }
      buf[c] := value[i];
      c, left := c + 1, left - 1;
      assert buf[at..c] == before + (if value[i] == ';' then ";;" else [value[i]]);
    }
  }

  /** The pair loop, from a buffer that holds `front` behind the blanks for the length. */
  method FillPairs(buf: array<char>, front: string, pairs: seq<KeyVal>) returns (r: Outcome, remaining: int)
    requires buf.Length == MAX_COMMAND_LEN && |front| < ROOM
    requires buf[COMMANDLEN_SIZE..COMMANDLEN_SIZE + |front|] == front
    requires buf[..COMMANDLEN_SIZE] == seq(COMMANDLEN_SIZE, _ => ' ')
    requires !AppendPairs(front, pairs).Overrun?
    modifies buf
    ensures r.Written? == AppendPairs(front, pairs).Written? && (!r.Written? ==> r == AppendPairs(front, pairs))
    ensures r.Written? ==> var body := AppendPairs(front, pairs).body;
              && remaining == ROOM - |body| && remaining >= 0
              && buf[COMMANDLEN_SIZE..COMMANDLEN_SIZE + |body|] == body
              && buf[..COMMANDLEN_SIZE] == seq(COMMANDLEN_SIZE, _ => ' ')
  {
    var c: nat := COMMANDLEN_SIZE + |front|;
    remaining := ROOM - |front|;
    ghost var body := front;
    var i := 0;
    while i < |pairs|
      invariant 0 <= i <= |pairs|
      invariant c == COMMANDLEN_SIZE + |body| && remaining == ROOM - |body| && remaining >= 0
      invariant buf[COMMANDLEN_SIZE..c] == body
      invariant buf[..COMMANDLEN_SIZE] == seq(COMMANDLEN_SIZE, _ => ' ')
      invariant AppendPairs(front, pairs) == AppendPairs(body, pairs[i..])
    {
      var kv := pairs[i];
      assert pairs[i..][0] == kv && pairs[i..][1..] == pairs[i + 1..];
      if |kv.key| > MAX_KEYLEN {
        return KeyTooLong, remaining;
      }
      if |kv.key| + 1 >= remaining {
        return NoRoom, remaining;
      }
      if |kv.value| > MAX_VALLEN {
        return ValTooLong, remaining;
      }
      ghost var at := c;
      c, remaining := PutPair(buf, c, remaining, kv);
      assert buf[COMMANDLEN_SIZE..c] == buf[COMMANDLEN_SIZE..at] + buf[at..c];
      body := body + EncodePair(kv);
      i := i + 1;
    }
    assert pairs[i..] == [];
    r := Written("");
  }

  /** PMIi_WriteSimpleCommand up to the transfer: fills the 64 KiB buffer. Callers must not hand
      it more than fits (see Pmi2Frame.EncoderBoundExact for when that is guaranteed). */
  method FillCommand(cmd: string, pairs: seq<KeyVal>) returns (r: Outcome, buf: array<char>)
    requires !WriteOutcome(cmd, pairs).Overrun?
    ensures r == WriteOutcome(cmd, pairs)
    ensures fresh(buf) && buf.Length == MAX_COMMAND_LEN
    ensures r.Written? ==> |Decimal(|r.body|)| < COMMANDLEN_SIZE && |Frame(r.body)| < buf.Length
                           && buf[..|Frame(r.body)|] == Frame(r.body)
  {
    buf := new char[MAX_COMMAND_LEN](_ => ' ');
    if |cmd| > MAX_VALLEN {
      return CmdTooLong, buf;
    }
    var front := "cmd=" + cmd + ";";
    PutText(buf, COMMANDLEN_SIZE, front);
    var remaining;
    r, remaining := FillPairs(buf, front, pairs);
    if r.Written? {
      r := FinishFrame(buf, remaining, AppendPairs(front, pairs).body);
    }
  }

  /** One turn of the pair loop. */
  method PutPair(buf: array<char>, at: nat, remaining: int, kv: KeyVal) returns (c: nat, left: int)
    requires COMMANDLEN_SIZE <= at && at + |EncodePair(kv)| <= buf.Length
    modifies buf
    ensures c == at + |EncodePair(kv)| && left + c == remaining + at
    ensures buf[..at] == old(buf[..at])
    ensures buf[at..c] == EncodePair(kv)
  {
    var key := kv.key + "=";
    PutText(buf, at, key);
    var v := at + |key|;
    ghost var esc := Escape(kv.value);
    c, left := PutEscaped(buf, v, kv.value, remaining - |key|);
    assert buf[at..v] == key;
    buf[c] := ';';
    assert buf[at..v] == key && buf[v..c] == esc;
    c, left := c + 1, left - 1;
    assert buf[at..c] == key + esc + ";";
  }

  /** Print the length into the space left for it, over the blanks. */
  method FinishFrame(buf: array<char>, remaining: int, ghost body: string) returns (r: Outcome)
    requires buf.Length == MAX_COMMAND_LEN && |body| < ROOM && remaining == ROOM - |body|
    requires buf[COMMANDLEN_SIZE..COMMANDLEN_SIZE + |body|] == body
    requires buf[..COMMANDLEN_SIZE] == seq(COMMANDLEN_SIZE, _ => ' ')
    modifies buf
    ensures r == Written(body)
    ensures |Decimal(|body|)| < COMMANDLEN_SIZE && |Frame(body)| < buf.Length && buf[..|Frame(body)|] == Frame(body)
  {
    var cmdlen := MAX_COMMAND_LEN - (remaining + COMMANDLEN_SIZE);
    LengthFits(cmdlen);
    var digits := Decimal(cmdlen);
    forall i | 0 <= i < |digits| {
      buf[i] := digits[i];
    }
    buf[cmdlen + COMMANDLEN_SIZE] := '\0';
    assert buf[COMMANDLEN_SIZE..COMMANDLEN_SIZE + cmdlen] == body;
    assert buf[..COMMANDLEN_SIZE] == Header(cmdlen);
    assert buf[..COMMANDLEN_SIZE + cmdlen] == buf[..COMMANDLEN_SIZE] + buf[COMMANDLEN_SIZE..COMMANDLEN_SIZE + cmdlen];
    r := Written(buf[COMMANDLEN_SIZE..COMMANDLEN_SIZE + cmdlen]);
  }

  /** The whole of PMIi_WriteSimpleCommand. */
  method WriteCommand(fd: Fd, cmd: string, pairs: seq<KeyVal>) returns (ok: bool)
    requires !WriteOutcome(cmd, pairs).Overrun?
    modifies fd
    ensures fd.incoming == old(fd.incoming)
    ensures ok ==> WriteOutcome(cmd, pairs).Written?
    ensures ok ==> |Decimal(|WriteOutcome(cmd, pairs).body|)| <= COMMANDLEN_SIZE
                   && fd.outgoing == old(fd.outgoing) + Frame(WriteOutcome(cmd, pairs).body)
    ensures fd.reliable && WriteOutcome(cmd, pairs).Written? ==> ok
  {
    var r, buf := FillCommand(cmd, pairs);
    if !r.Written? {
      return false;
    }
    ok := WriteFully(fd, buf[..COMMANDLEN_SIZE + |r.body|]);
  }

  // ---- The reader ----

  /** The buffer still holds the received text from position k on, with a NUL behind it. */
  predicate Intact(buf: array<char>, w: string, k: nat)
    reads buf
  {
    && buf.Length == |w| + 1 && k <= |w| && buf[|w|] == '\0'
    && forall i | k <= i < |w| :: buf[i] == w[i]
  }

  /** The counting loop over the received buffer. */
  method Prepass(buf: array<char>, cmdLen: nat, ghost w: string) returns (numPairs: nat)
    requires Intact(buf, w, 0) && cmdLen == |w|
    ensures numPairs == CountPairs(w, 0)
  {
    var c := 0;
    var remaining: int := cmdLen;
    numPairs := 0;
    while remaining > 0
      invariant remaining == cmdLen - c && -1 <= remaining
      invariant numPairs + (if remaining > 0 then CountPairs(w, c) else 0) == CountPairs(w, 0)
      decreases remaining
    {
      ghost var at := c;
      while remaining > 0 && buf[c] != ';'
        invariant at <= c <= cmdLen && remaining == cmdLen - c
        invariant CountPairs(w, at) == if c < |w| then CountPairs(w, c) else 1
        decreases remaining
      {
        remaining, c := remaining - 1, c + 1;
      }
      if buf[c] == ';' && buf[c + 1] == ';' {
        remaining, c := remaining - 2, c + 2;
      } else {
        numPairs, remaining, c := numPairs + 1, remaining - 1, c + 1;
      }
    }
  }

  /** The key loop. */
  method FindKey(buf: array<char>, start: nat, remaining: nat, ghost w: string) returns (c: nat, len: nat)
    requires Intact(buf, w, start) && start + remaining == |w|
    ensures c == KeyEnd(w, start) && c + len == |w|
  {
    c, len := start, remaining;
    while len > 0 && buf[c] != '='
      invariant start <= c && c + len == |w|
      invariant KeyEnd(w, start) == KeyEnd(w, c)
      decreases len
    {
      c, len := c + 1, len - 1;
    }
  }

  lemma AfterTwice(more: Scan, text: string, ch: char)
    ensures more.After([ch]).After(text) == more.After(text + [ch])
  {
    if more.Value? {
      assert text + ([ch] + more.text) == text + [ch] + more.text;
    }
  }

  /** The value loop: two positions, the writing one never ahead of the reading one. */
  method UnescapeInPlace(buf: array<char>, val: nat, remaining: nat, ghost w: string) returns (d: nat, c: nat, left: nat)
    requires Intact(buf, w, val) && val + remaining == |w|
    modifies buf
    ensures forall i | 0 <= i < val :: buf[i] == old(buf[i])
    ensures val <= d <= c && c + left == |w| && Intact(buf, w, c)
    ensures left == 0 ==> ScanValue(w, val).Unterminated?
    ensures left > 0 ==> && ScanValue(w, val).Value? && ScanValue(w, val).end == c
                         && |ScanValue(w, val).text| == d - val
                         && forall i | val <= i < d :: buf[i] == ScanValue(w, val).text[i - val]
  {
    ghost var text := "";
    d, c, left := val, val, remaining;
    assert ScanValue(w, val) == ScanValue(w, val).After("");
    while left > 0 && !(buf[c] == ';' && buf[c + 1] != ';')
      invariant val <= d <= c && c + left == |w| && Intact(buf, w, c)
      invariant forall i | 0 <= i < val :: buf[i] == old(buf[i])
      invariant d == val + |text| && forall i | val <= i < d :: buf[i] == text[i - val]
      invariant ScanValue(w, val) == ScanValue(w, c).After(text)
      decreases left
    {
      AfterTwice(ScanValue(w, if w[c] == ';' then c + 2 else c + 1), text, w[c]);
      text := text + [w[c]];
      if buf[c] == ';' {
        left, c := left - 1, c + 1;
      }
      left := left - 1;
      buf[d] := buf[c];
      d, c := d + 1, c + 1;
    }
    assert text + "" == text;
  }

  /** The value half of parse_keyval. */
  method ParseValueInPlace(buf: array<char>, val: nat, remaining: nat, ghost w: string)
    returns (ok: bool, vallen: nat, next: nat, left: nat)
    requires Intact(buf, w, val) && val + remaining == |w|
    modifies buf
    ensures forall i | 0 <= i < val :: buf[i] == old(buf[i])
    ensures var v := ScanValue(w, val);
            && ok == (v.Value? && |v.text| <= MAX_VALLEN)
            && (ok ==> && val + vallen < next && next + left == |w| && next == v.end + 1 && vallen == |v.text|
                       && (forall i | val <= i < val + vallen :: buf[i] == v.text[i - val])
                       && Intact(buf, w, next))
  {
    var d, c, len := UnescapeInPlace(buf, val, remaining, w);
    if len == 0 || d - val > MAX_VALLEN {
      return false, 0, 0, 0;
    }
    buf[c] := '\0';
    ok, vallen, next, left := true, d - val, c + 1, len - 1;
  }

  /** parse_keyval, in place: the key ends in NUL, the value is unescaped where it stands, what
      follows is untouched, and the remaining length is the distance to the end of the buffer. */
  method ParseKeyvalInPlace(buf: array<char>, start: nat, remaining: nat, ghost w: string)
    returns (ok: bool, keyLen: nat, val: nat, vallen: nat, next: nat, left: nat)
    requires Intact(buf, w, start) && start + remaining == |w|
    modifies buf
    ensures forall i | 0 <= i < start :: buf[i] == old(buf[i])
    ensures ok == ParseKeyval(w, start).Pair?
    ensures ok ==> && start + keyLen < val && val + vallen < next && next + left == |w|
                   && start + keyLen == ParseKeyval(w, start).keyEnd && next == ParseKeyval(w, start).next
                   && vallen == |ParseKeyval(w, start).value|
    ensures ok ==> && (forall i | start <= i < start + keyLen :: buf[i] == w[i])
                   && buf[start + keyLen] == '\0'
                   && (forall i | val <= i < val + vallen :: buf[i] == ParseKeyval(w, start).value[i - val])
                   && Intact(buf, w, next)
  {
    var c, len := FindKey(buf, start, remaining, w);
    if len == 0 || c - start > MAX_KEYLEN {
      return false, 0, 0, 0, 0, 0;
    }
    keyLen := c - start;
    buf[c] := '\0';
    val := c + 1;
    ok, vallen, next, left := ParseValueInPlace(buf, val, len - 1, w);
  }

  /** One call of parse_keyval and the copies made of its results. */
  method TakePair(buf: array<char>, start: nat, remaining: nat, ghost w: string)
    returns (ok: bool, key: string, value: string, next: nat, left: nat)
    requires Intact(buf, w, start) && start + remaining == |w|
    modifies buf
    ensures ok == ParseKeyval(w, start).Pair?
    ensures ok ==> var p := ParseKeyval(w, start);
                   && key == CStr(w[start..p.keyEnd]) && value == p.value && next == p.next
                   && next + left == |w| && Intact(buf, w, next)
  {
    key, value := "", "";
    var keyLen, val, vallen;
    ok, keyLen, val, vallen, next, left := ParseKeyvalInPlace(buf, start, remaining, w);
    if ok {
      ghost var p := ParseKeyval(w, start);
      key, value := buf[start..start + keyLen], buf[val..val + vallen];
      assert key == w[start..p.keyEnd];
      assert value == p.value;
      key := CStr(key);
    }
  }

  /** The pairs from k on, if `done` were stored before them. */
  function PairsAfter(done: seq<KeyVal>, w: string, k: nat): Option<seq<KeyVal>>
    requires k <= |w|
  {
    var rest := ParsePairs(w, k);
    if rest.None? then None else Some(done + Stored(rest.value))
  }

  lemma PairsAfterStep(done: seq<KeyVal>, w: string, k: nat)
    requires k < |w| && ParseKeyval(w, k).Pair?
    ensures var p := ParseKeyval(w, k);
            PairsAfter(done, w, k) == PairsAfter(done + [KeyVal(CStr(w[k..p.keyEnd]), p.value)], w, p.next)
  {
    var p := ParseKeyval(w, k);
    var kv, more := KeyVal(w[k..p.keyEnd], p.value), ParsePairs(w, p.next);
    if more.Some? {
      StoredStep(done, kv, more.value);
    }
  }

  lemma StoredStep(done: seq<KeyVal>, kv: KeyVal, more: seq<KeyVal>)
    ensures done + Stored([kv] + more) == done + [KeyVal(CStr(kv.key), kv.value)] + Stored(more)
  {
    assert Stored([kv] + more) == [KeyVal(CStr(kv.key), kv.value)] + Stored(more);
  }

  /** The pair loop of PMIi_ReadCommand: parse, copy, store. Every store into the counted slots
      is in range. */
  method StorePairs(buf: array<char>, start: nat, remaining: nat, pairs: array<KeyVal>, ghost w: string)
    returns (ok: bool, pairIndex: nat)
    requires Intact(buf, w, start) && start + remaining == |w|
    requires CountPairs(w, start) <= pairs.Length
    modifies buf, pairs
    ensures pairIndex <= pairs.Length
    ensures ok == ParsePairs(w, start).Some?
    ensures ok ==> pairs[..pairIndex] == Stored(ParsePairs(w, start).value)
  {
    var c, left := start, remaining;
    pairIndex := 0;
    while left > 0
      invariant c + left == |w| && Intact(buf, w, c) && 0 <= left
      invariant pairIndex + CountPairs(w, c) <= pairs.Length
      invariant PairsAfter([], w, start) == PairsAfter(pairs[..pairIndex], w, c)
      decreases left
    {
      ghost var at, done := c, pairs[..pairIndex];
      var key, value;
      ok, key, value, c, left := TakePair(buf, c, left, w);
      if !ok {
        return;
      }
      CountParsed(w, at);
      PairsAfterStep(done, w, at);
      pairs[pairIndex] := KeyVal(key, value);
      pairIndex := pairIndex + 1;
      assert pairs[..pairIndex] == done + [KeyVal(key, value)];
    }
    ok := true;
    assert pairs[..pairIndex] + Stored([]) == pairs[..pairIndex];
  }

  /** The body of PMIi_ReadCommand on a received buffer: count, parse in place, store. nPairs is
      what the command reports. */
  method ParseCommand(buf: array<char>, cmdLen: nat, ghost w: string) returns (r: Option<Command>, nPairs: nat)
    requires cmdLen == |w| && Intact(buf, w, 0)
    modifies buf
    ensures r == ParseBody(w)
    ensures r.Some? ==> nPairs + 1 == CountPairs(w, 0) && |r.value.pairs| <= nPairs
  {
    var numPairs := Prepass(buf, cmdLen, w);
    var ok, key, command, c, left := TakePair(buf, 0, cmdLen, w);
    if !ok || key != "cmd" {
      return None, 0;
    }
    CountParsed(w, 0);
    nPairs := numPairs - 1;
    var pairs := new KeyVal[nPairs](_ => KeyVal("", ""));
    var n;
    ok, n := StorePairs(buf, c, left, pairs, w);
    if !ok {
      return None, 0;
    }
    r := Some(Command(command, pairs[..n]));
  }

  /** PMIi_ReadCommand: the length field, the body, the parse. For every way the bytes arrive it
      reads exactly one frame and understands it as ReadStream does. */
  method ReadCommand(fd: Fd) returns (r: Option<Command>)
    modifies fd
    ensures fd.outgoing == old(fd.outgoing)
    ensures r.Some? ==> ReadStream(old(fd.incoming)) == Some((r.value, fd.incoming))
    ensures fd.reliable && ReadStream(old(fd.incoming)).Some? ==> r.Some?
  {
    var ok, header := ReadFully(fd, COMMANDLEN_SIZE);
    if !ok {
      return None;
    }
    var len := Atoi(header[..COMMANDLEN_SIZE]);
    if len <= 0 {
      return None;
    }
    ghost var stream := fd.incoming;
    var buf;
    ok, buf := ReadFully(fd, len);
    if !ok {
      return None;
    }
    assert buf[..len] == stream[..len];
    var n;
    r, n := ParseCommand(buf, len, stream[..len]);
  }
}
