/** The PMI-2 command text: `cmd=name;key=value;...` with `;` doubled inside values
    (modules/pmi/pmi2/client/pmi2_api.c). What is written, what a reader understands, and when the
    two agree. */
module Pmi2Codec {
  import opened Options
  import opened Text

  const MAX_KEYLEN: nat := 64
  const MAX_VALLEN: nat := 1024
  const COMMANDLEN_SIZE: nat := 6
  const MAX_COMMAND_LEN: nat := 65536

  /** Bytes available for the body when the writer starts. */
  const ROOM: nat := MAX_COMMAND_LEN - COMMANDLEN_SIZE

  datatype KeyVal = KeyVal(key: string, value: string)
  datatype Command = Command(name: string, pairs: seq<KeyVal>)

  // ---- Writing ----

  /** Values are written with every ';' doubled. */
  function Escape(v: string): string {
    if v == "" then "" else (if v[0] == ';' then ";;" else [v[0]]) + Escape(v[1..])
  }

  function EncodePair(kv: KeyVal): string {
    kv.key + "=" + Escape(kv.value) + ";"
  }

  function EncodePairs(kvs: seq<KeyVal>): string {
    if kvs == [] then "" else EncodePair(kvs[0]) + EncodePairs(kvs[1..])
  }

  function EncodeBody(cmd: string, kvs: seq<KeyVal>): string {
    "cmd=" + cmd + ";" + EncodePairs(kvs)
  }

  /** The outcomes of PMIi_WriteSimpleCommand. Overrun is not one it reports: the loop that copies
      a value does not look at the space left, and neither does the final terminator. */
  datatype Outcome = Written(body: string) | CmdTooLong | KeyTooLong | ValTooLong | NoRoom | Overrun

  function AppendPairs(body: string, kvs: seq<KeyVal>): Outcome
    decreases |kvs|
  {
    if kvs == [] then Written(body)
    else
      var kv := kvs[0];
      if |kv.key| > MAX_KEYLEN then KeyTooLong
      else if |body| + |kv.key| + 1 >= ROOM then NoRoom
      else if |kv.value| > MAX_VALLEN then ValTooLong
      else if |body + EncodePair(kv)| > ROOM then Overrun
      else AppendPairs(body + EncodePair(kv), kvs[1..])
  }

  function WriteOutcome(cmd: string, kvs: seq<KeyVal>): Outcome {
    if |cmd| > MAX_VALLEN then CmdTooLong
    else
      var r := AppendPairs("cmd=" + cmd + ";", kvs);
      if r.Written? && |r.body| >= ROOM then Overrun else r
  }

  /** The length field: decimal, left-justified, padded with spaces to six bytes. */
  function Header(len: nat): string
    requires |Decimal(len)| <= COMMANDLEN_SIZE
  {
    Decimal(len) + seq(COMMANDLEN_SIZE - |Decimal(len)|, _ => ' ')
  }

  function Frame(body: string): string
    requires |Decimal(|body|)| <= COMMANDLEN_SIZE
  {
    Header(|body|) + body
  }

  // ---- Reading ----

  /** A C string ends at its first NUL. */
  function CStr(s: string): (r: string)
    ensures '\0' !in r && |r| <= |s|
    ensures '\0' !in s ==> r == s
  {
    if s == "" || s[0] == '\0' then "" else [s[0]] + CStr(s[1..])
  }

  /** Where the key that starts at position k ends: at the first '=', or at the end of the text. */
  function KeyEnd(w: string, k: nat): (e: nat)
    requires k <= |w|
    ensures k <= e <= |w| && (e < |w| ==> w[e] == '=')
    decreases |w| - k
  {
    if k == |w| || w[k] == '=' then k else KeyEnd(w, k + 1)
  }

  /** A value as the parser sees it: its unescaped text and the position of the ';' that ends it. */
  datatype Scan = Unterminated | Value(text: string, end: nat) {
    function After(prefix: string): Scan {
      if Unterminated? then Unterminated else Value(prefix + text, end)
    }
  }

  function ScanValue(w: string, k: nat): (r: Scan)
    requires k <= |w|
    ensures r.Value? ==> k <= r.end < |w| && w[r.end] == ';'
    decreases |w| - k
  {
    if k == |w| then Unterminated
    else if w[k] != ';' then ScanValue(w, k + 1).After([w[k]])
    else if k + 1 < |w| && w[k + 1] == ';' then ScanValue(w, k + 2).After([';'])
    else Value("", k)
  }

  datatype Parsed = BadKeyval | Pair(keyEnd: nat, value: string, next: nat)

  /** parse_keyval: the pair that starts at position k, and where the next one starts. */
  function ParseKeyval(w: string, k: nat): (r: Parsed)
    requires k <= |w|
    ensures r.Pair? ==> k <= r.keyEnd < r.next <= |w| && r.keyEnd <= k + MAX_KEYLEN
  {
    var e := KeyEnd(w, k);
    if e == |w| || e - k > MAX_KEYLEN then BadKeyval
    else
      var v := ScanValue(w, e + 1);
      if v.Unterminated? || |v.text| > MAX_VALLEN then BadKeyval else Pair(e, v.text, v.end + 1)
  }

  /** The raw pairs from position k on, keys as the bytes between the separators. */
  function ParsePairs(w: string, k: nat): Option<seq<KeyVal>>
    requires k <= |w|
    decreases |w| - k
  {
    if k == |w| then Some([])
    else
      var p := ParseKeyval(w, k);
      if p.BadKeyval? then None
      else
        var more := ParsePairs(w, p.next);
        if more.None? then None else Some([KeyVal(w[k..p.keyEnd], p.value)] + more.value)
  }

  /** create_keyval copies the key as a C string. */
  function Stored(kvs: seq<KeyVal>): (r: seq<KeyVal>)
    ensures |r| == |kvs|
  {
    seq(|kvs|, i requires 0 <= i < |kvs| => KeyVal(CStr(kvs[i].key), kvs[i].value))
  }

  /** The command part of PMIi_ReadCommand: the first pair names the command. */
  function ParseBody(w: string): Option<Command> {
    var p := ParseKeyval(w, 0);
    if p.BadKeyval? || CStr(w[..p.keyEnd]) != "cmd" then None
    else
      var more := ParsePairs(w, p.next);
      if more.None? then None else Some(Command(p.value, Stored(more.value)))
  }

  /** One framed command from the front of a byte stream, and what is left of the stream. */
  function ReadStream(stream: string): Option<(Command, string)> {
    if |stream| < COMMANDLEN_SIZE then None
    else
      var len := Atoi(stream[..COMMANDLEN_SIZE]);
      if len <= 0 || |stream| < COMMANDLEN_SIZE + len then None
      else
        var c := ParseBody(stream[COMMANDLEN_SIZE..][..len]);
        if c.None? then None else Some((c.value, stream[COMMANDLEN_SIZE..][len..]))
  }

  // ---- Round trip ----

  /** The text `part` stands in w at position k. */
  predicate StandsAt(w: string, k: nat, part: string) {
    k + |part| <= |w| && forall i | 0 <= i < |part| :: w[k + i] == part[i]
  }

  lemma {:induction false} KeyEndOf(w: string, k: nat, e: nat)
    requires k <= e < |w| && w[e] == '=' && forall i | k <= i < e :: w[i] != '='
    ensures KeyEnd(w, k) == e
    decreases e - k
  {
    if k < e {
      KeyEndOf(w, k + 1, e);
    }
  }

  lemma StandsTail(w: string, k: nat, part: string, n: nat, tail: string)
    requires StandsAt(w, k, part) && n <= |part| && tail == part[n..]
    ensures StandsAt(w, k + n, tail)
  {
    forall i | 0 <= i < |tail| ensures w[k + n + i] == tail[i] {
      assert w[k + (n + i)] == part[n + i];
    }
  }

  /** Escaped text scans back to itself if its terminator is not the first half of a doubled ';'. */
  lemma {:induction false} ScanEscaped(w: string, k: nat, v: string)
    requires StandsAt(w, k, Escape(v)) && k + |Escape(v)| < |w| && w[k + |Escape(v)|] == ';'
    requires k + |Escape(v)| + 1 < |w| ==> w[k + |Escape(v)| + 1] != ';'
    ensures ScanValue(w, k) == Value(v, k + |Escape(v)|)
    decreases |v|
  {
    if v != "" {
      var n := if v[0] == ';' then 2 else 1;
      assert w[k + 0] == Escape(v)[0];
      if n == 2 {
        assert w[k + 1] == Escape(v)[1];
      }
      StandsTail(w, k, Escape(v), n, Escape(v[1..]));
      ScanEscaped(w, k + n, v[1..]);
      assert [v[0]] + v[1..] == v;
    }
  }

  /** A key that survives: no '=', no NUL, and not starting with ';' (which would join the
      terminator in front of it into an escape). */
  predicate GoodKey(key: string) {
    |key| <= MAX_KEYLEN && '=' !in key && '\0' !in key && (key == "" || key[0] != ';')
  }

  predicate GoodPairs(kvs: seq<KeyVal>) {
    forall i | 0 <= i < |kvs| :: GoodKey(kvs[i].key) && |kvs[i].value| <= MAX_VALLEN
  }

  lemma StandsPrefix(w: string, k: nat, a: string, b: string)
    requires StandsAt(w, k, a + b)
    ensures StandsAt(w, k, a) && StandsAt(w, k + |a|, b)
  {
    forall i | 0 <= i < |a| ensures w[k + i] == a[i] {
      assert w[k + i] == (a + b)[i];
    }
    StandsTail(w, k, a + b, |a|, b);
  }

  lemma PairLayout(w: string, k: nat, kv: KeyVal)
    requires StandsAt(w, k, EncodePair(kv))
    ensures StandsAt(w, k, kv.key) && w[k + |kv.key|] == '='
    ensures var v := k + |kv.key| + 1;
            StandsAt(w, v, Escape(kv.value)) && w[v + |Escape(kv.value)|] == ';'
  {
    var esc := Escape(kv.value);
    StandsPrefix(w, k, kv.key + "=" + esc, ";");
    StandsPrefix(w, k, kv.key + "=", esc);
    StandsPrefix(w, k, kv.key, "=");
    assert w[k + |kv.key| + 0] == "="[0];
    assert w[k + |kv.key + "=" + esc| + 0] == ";"[0];
  }

  lemma KeyStands(w: string, k: nat, key: string)
    requires StandsAt(w, k, key) && k + |key| < |w| && w[k + |key|] == '=' && '=' !in key
    ensures KeyEnd(w, k) == k + |key| && w[k..k + |key|] == key
  {
    forall i | k <= i < k + |key| ensures w[i] != '=' {
      assert w[k + (i - k)] == key[i - k];
    }
    KeyEndOf(w, k, k + |key|);
  }

  /** A pair standing at position k parses, if what follows does not start with ';'. */
  lemma ParseEncodedPair(w: string, k: nat, kv: KeyVal)
    requires GoodKey(kv.key) && |kv.value| <= MAX_VALLEN
    requires StandsAt(w, k, EncodePair(kv))
    requires k + |EncodePair(kv)| < |w| ==> w[k + |EncodePair(kv)|] != ';'
    ensures ParseKeyval(w, k) == Pair(k + |kv.key|, kv.value, k + |EncodePair(kv)|)
    ensures w[k..k + |kv.key|] == kv.key
  {
    PairLayout(w, k, kv);
    KeyStands(w, k, kv.key);
    ScanEscaped(w, k + |kv.key| + 1, kv.value);
  }

  lemma EncodedStart(kvs: seq<KeyVal>)
    requires GoodPairs(kvs)
    ensures EncodePairs(kvs) != "" ==> EncodePairs(kvs)[0] != ';'
  {
  }

  lemma {:induction false} ParseEncodedPairs(w: string, k: nat, kvs: seq<KeyVal>)
    requires GoodPairs(kvs) && StandsAt(w, k, EncodePairs(kvs)) && k + |EncodePairs(kvs)| == |w|
    ensures ParsePairs(w, k) == Some(kvs)
    decreases |kvs|
  {
    if kvs != [] {
      FirstParses(w, k, kvs);
      ParseEncodedPairs(w, ParseKeyval(w, k).next, kvs[1..]);
      ParsePairsStep(w, k, kvs);
    }
  }

  lemma ParsePairsStep(w: string, k: nat, kvs: seq<KeyVal>)
    requires k < |w| && ParseKeyval(w, k).Pair? && kvs != []
    requires var p := ParseKeyval(w, k);
             KeyVal(w[k..p.keyEnd], p.value) == kvs[0] && ParsePairs(w, p.next) == Some(kvs[1..])
    ensures ParsePairs(w, k) == Some(kvs)
  {
    assert [kvs[0]] + kvs[1..] == kvs;
  }

  lemma FirstParses(w: string, k: nat, kvs: seq<KeyVal>)
    requires GoodPairs(kvs) && kvs != [] && StandsAt(w, k, EncodePairs(kvs)) && k + |EncodePairs(kvs)| == |w|
    ensures k < |w| && ParseKeyval(w, k).Pair?
    ensures var p := ParseKeyval(w, k);
            && KeyVal(w[k..p.keyEnd], p.value) == kvs[0]
            && StandsAt(w, p.next, EncodePairs(kvs[1..])) && p.next + |EncodePairs(kvs[1..])| == |w|
  {
    FirstStands(w, k, kvs);
    ParseEncodedPair(w, k, kvs[0]);
  }

  lemma FirstStands(w: string, k: nat, kvs: seq<KeyVal>)
    requires GoodPairs(kvs) && kvs != [] && StandsAt(w, k, EncodePairs(kvs)) && k + |EncodePairs(kvs)| == |w|
    ensures StandsAt(w, k, EncodePair(kvs[0]))
    ensures var n := k + |EncodePair(kvs[0])|;
            && StandsAt(w, n, EncodePairs(kvs[1..])) && n + |EncodePairs(kvs[1..])| == |w|
            && (n < |w| ==> w[n] != ';')
  {
    EncodedStart(kvs[1..]);
    TwoStand(w, k, EncodePair(kvs[0]), EncodePairs(kvs[1..]));
  }

  lemma TwoStand(w: string, k: nat, first: string, rest: string)
    requires StandsAt(w, k, first + rest) && k + |first + rest| == |w| && (rest != "" ==> rest[0] != ';')
    ensures StandsAt(w, k, first) && StandsAt(w, k + |first|, rest)
    ensures k + |first| < |w| ==> w[k + |first|] != ';'
  {
    StandsPrefix(w, k, first, rest);
    assert rest != "" ==> w[k + |first| + 0] == rest[0];
  }

  lemma {:induction false} EscapeOfPlain(v: string)
    requires ';' !in v
    ensures Escape(v) == v
  {
    if v != "" {
      EscapeOfPlain(v[1..]);
      assert [v[0]] + v[1..] == v;
    }
  }

  lemma StoredGood(kvs: seq<KeyVal>)
    requires GoodPairs(kvs)
    ensures Stored(kvs) == kvs
  {
  }

  /** The layout of a body. */
  lemma BodyLayout(cmd: string, kvs: seq<KeyVal>)
    ensures var w := EncodeBody(cmd, kvs);
            && |w| == 5 + |cmd| + |EncodePairs(kvs)|
            && KeyEnd(w, 0) == 3 && CStr(w[..3]) == "cmd"
            && StandsAt(w, 4, cmd) && w[4 + |cmd|] == ';'
            && StandsAt(w, 5 + |cmd|, EncodePairs(kvs))
  {
    var w := EncodeBody(cmd, kvs);
    assert w[0] == 'c' && w[1] == 'm' && w[2] == 'd' && w[3] == '=';
    assert w[..3] == "cmd";
    KeyEndOf(w, 0, 3);
  }

  /** The name scans back to itself, up to the ';' the writer put behind it. */
  lemma NameScans(cmd: string, kvs: seq<KeyVal>)
    requires ';' !in cmd && GoodPairs(kvs)
    ensures var w := EncodeBody(cmd, kvs); |w| >= 4 && ScanValue(w, 4) == Value(cmd, 4 + |cmd|)
  {
    var w, t := EncodeBody(cmd, kvs), EncodePairs(kvs);
    BodyLayout(cmd, kvs);
    EscapeOfPlain(cmd);
    EncodedStart(kvs);
    assert t != "" ==> w[5 + |cmd| + 0] == t[0];
    ScanEscaped(w, 4, cmd);
  }

  /** The round trip: any command name without ';', any values at all. */
  lemma BodyRoundTrip(cmd: string, kvs: seq<KeyVal>)
    requires ';' !in cmd && |cmd| <= MAX_VALLEN && GoodPairs(kvs)
    ensures ParseBody(EncodeBody(cmd, kvs)) == Some(Command(cmd, kvs))
  {
    BodyLayout(cmd, kvs);
    NameScans(cmd, kvs);
    ParseEncodedPairs(EncodeBody(cmd, kvs), 5 + |cmd|, kvs);
    StoredGood(kvs);
    BodyParses(EncodeBody(cmd, kvs), cmd, kvs);
  }

  lemma BodyParses(w: string, cmd: string, kvs: seq<KeyVal>)
    requires |w| >= 5 + |cmd| && KeyEnd(w, 0) == 3 && CStr(w[..3]) == "cmd" && |cmd| <= MAX_VALLEN
    requires ScanValue(w, 4) == Value(cmd, 4 + |cmd|) && ParsePairs(w, 5 + |cmd|) == Some(kvs) && Stored(kvs) == kvs
    ensures ParseBody(w) == Some(Command(cmd, kvs))
  {
  }

  // ---- ... and only those names ----

  function Semis(s: string): nat {
    if s == "" then 0 else (if s[0] == ';' then 1 else 0) + Semis(s[1..])
  }

  lemma {:induction false} SemisConcat(s: string, t: string)
    ensures Semis(s + t) == Semis(s) + Semis(t)
  {
    if s == "" {
      assert s + t == t;
    } else {
      assert (s + t)[1..] == s[1..] + t;
      SemisConcat(s[1..], t);
    }
  }

  lemma {:induction false} SemisAtMost(s: string)
    ensures Semis(s) <= |s|
    ensures Semis(s) == |s| > 0 ==> s[0] == ';'
    ensures ';' in s <==> Semis(s) > 0
  {
    if s != "" {
      SemisAtMost(s[1..]);
      assert s == [s[0]] + s[1..];
    }
  }

  /** Scanning consumes two ';' for each one it yields and nothing else extra. */
  lemma {:induction false} ScanCounts(w: string, k: nat)
    requires k <= |w| && ScanValue(w, k).Value?
    ensures var v := ScanValue(w, k);
            v.end - k == |v.text| + Semis(v.text) && Semis(w[k..v.end]) == 2 * Semis(v.text)
    decreases |w| - k
  {
    var v := ScanValue(w, k);
    if w[k] != ';' || (k + 1 < |w| && w[k + 1] == ';') {
      var n := if w[k] != ';' then 1 else 2;
      ScanCounts(w, k + n);
      var t := ScanValue(w, k + n);
      assert w[k..v.end] == w[k..k + n] + w[k + n..v.end];
      SemisConcat(w[k..k + n], w[k + n..v.end]);
      SemisConcat([w[k]], t.text);
      if n == 1 {
        assert w[k..k + n] == [w[k]];
      } else {
        assert w[k..k + n] == [';'] + [';'];
        SemisConcat([';'], [';']);
      }
      SemisOne(w[k]);
    }
  }

  lemma SemisOne(ch: char)
    ensures Semis([ch]) == if ch == ';' then 1 else 0
  {
    assert [ch][1..] == "";
  }

  lemma SemisLead(t: string, n: nat)
    requires n < |t| && Semis(t[..n]) == n && t[n] == ';'
    ensures t[0] == ';'
  {
    SemisAtMost(t[..n]);
  }

  /** A command name with ';' in it never reads back as itself: to yield the name, the scanner
      would have to eat the terminator and then find more ';' than the pairs can start with. */
  lemma NameWithSemiIsLost(cmd: string, kvs: seq<KeyVal>)
    requires ';' in cmd && GoodPairs(kvs)
    ensures var w := EncodeBody(cmd, kvs);
            |w| >= 4 && (ScanValue(w, 4).Unterminated? || ScanValue(w, 4).text != cmd)
  {
    var w, t := EncodeBody(cmd, kvs), EncodePairs(kvs);
    BodyLayout(cmd, kvs);
    EncodedStart(kvs);
    if ScanValue(w, 4).Value? && ScanValue(w, 4).text == cmd {
      StolenTerminator(w, cmd, t);
    }
  }

  lemma StolenTerminator(w: string, cmd: string, t: string)
    requires ';' in cmd && |w| == 5 + |cmd| + |t|
    requires StandsAt(w, 4, cmd) && w[4 + |cmd|] == ';' && StandsAt(w, 5 + |cmd|, t)
    requires ScanValue(w, 4).Value? && ScanValue(w, 4).text == cmd
    ensures t != "" && t[0] == ';'
  {
    var n := Semis(cmd);
    ScanCounts(w, 4);
    SemisAtMost(cmd);
    NameAndMore(w, cmd, t, n - 1);
    SemisLead(t, n - 1);
  }

  lemma NameAndMore(w: string, cmd: string, t: string, n: nat)
    requires |w| == 5 + |cmd| + |t| && n < |t|
    requires StandsAt(w, 4, cmd) && w[4 + |cmd|] == ';' && StandsAt(w, 5 + |cmd|, t)
    ensures Semis(w[4..5 + |cmd| + n]) == Semis(cmd) + 1 + Semis(t[..n])
    ensures w[5 + |cmd| + n] == t[n]
  {
    WindowIs(w, cmd, t, n);
    SemisConcat(cmd + [';'], t[..n]);
    SemisConcat(cmd, [';']);
    SemisOne(';');
  }

  lemma WindowIs(w: string, cmd: string, t: string, n: nat)
    requires |w| == 5 + |cmd| + |t| && n < |t|
    requires StandsAt(w, 4, cmd) && w[4 + |cmd|] == ';' && StandsAt(w, 5 + |cmd|, t)
    ensures w[4..5 + |cmd| + n] == cmd + [';'] + t[..n]
  {
    var win, want := w[4..5 + |cmd| + n], cmd + [';'] + t[..n];
    forall i | 0 <= i < |win| ensures win[i] == want[i] {
      if i > |cmd| {
        assert w[5 + |cmd| + (i - |cmd| - 1)] == t[i - |cmd| - 1];
      } else if i < |cmd| {
        assert w[4 + i] == cmd[i];
      }
    }
  }

  // ---- Only good keys are ever read ----

  lemma {:induction false} KeyHasNoEquals(w: string, k: nat)
    requires k <= |w|
    ensures '=' !in w[k..KeyEnd(w, k)]
    decreases |w| - k
  {
    if k < |w| && w[k] != '=' {
      KeyHasNoEquals(w, k + 1);
      assert w[k..KeyEnd(w, k)] == [w[k]] + w[k + 1..KeyEnd(w, k)];
    }
  }

  /** A value never ends in the middle of a doubled ';'. */
  lemma {:induction false} ScanEndsClean(w: string, k: nat)
    requires k <= |w| && ScanValue(w, k).Value?
    ensures var e := ScanValue(w, k).end + 1; e == |w| || w[e] != ';'
    decreases |w| - k
  {
    if w[k] != ';' {
      ScanEndsClean(w, k + 1);
    } else if k + 1 < |w| && w[k + 1] == ';' {
      ScanEndsClean(w, k + 2);
    }
  }

  /** What a pair looks like before its key is cut at a NUL. */
  predicate GoodRaw(kv: KeyVal) {
    |kv.key| <= MAX_KEYLEN && '=' !in kv.key && (kv.key == "" || kv.key[0] != ';') && |kv.value| <= MAX_VALLEN
  }

  lemma PairIsGood(w: string, k: nat)
    requires k <= |w| && (k == |w| || w[k] != ';') && ParseKeyval(w, k).Pair?
    ensures var p := ParseKeyval(w, k);
            GoodRaw(KeyVal(w[k..p.keyEnd], p.value)) && (p.next == |w| || w[p.next] != ';')
  {
    KeyHasNoEquals(w, k);
    ScanEndsClean(w, KeyEnd(w, k) + 1);
  }

  lemma {:induction false} PairsAreGood(w: string, k: nat)
    requires k <= |w| && (k == |w| || w[k] != ';') && ParsePairs(w, k).Some?
    ensures forall i | 0 <= i < |ParsePairs(w, k).value| :: GoodRaw(ParsePairs(w, k).value[i])
    decreases |w| - k
  {
    if k < |w| {
      PairIsGood(w, k);
      PairsAreGood(w, ParseKeyval(w, k).next);
    }
  }

  lemma {:induction false} CStrPrefix(s: string)
    ensures CStr(s) <= s
  {
    if s != "" && s[0] != '\0' {
      CStrPrefix(s[1..]);
    }
  }

  lemma StoredIsGood(kvs: seq<KeyVal>)
    requires forall i | 0 <= i < |kvs| :: GoodRaw(kvs[i])
    ensures GoodPairs(Stored(kvs))
  {
    forall i | 0 <= i < |kvs| ensures GoodKey(CStr(kvs[i].key)) {
      CStrPrefix(kvs[i].key);
    }
  }

  /** Every command the reader accepts has only good keys and values within the limits. */
  lemma ReadIsGood(w: string)
    requires ParseBody(w).Some?
    ensures |ParseBody(w).value.name| <= MAX_VALLEN && GoodPairs(ParseBody(w).value.pairs)
  {
    var p := ParseKeyval(w, 0);
    ScanEndsClean(w, KeyEnd(w, 0) + 1);
    PairsAreGood(w, p.next);
    StoredIsGood(ParsePairs(w, p.next).value);
  }

  /** Exactly when the round trip works, for every name and every list of pairs: the name has no
      ';', the keys are good, and name and values are within the limits. */
  lemma BodyRoundTripExact(cmd: string, kvs: seq<KeyVal>)
    ensures ParseBody(EncodeBody(cmd, kvs)) == Some(Command(cmd, kvs))
            <==> ';' !in cmd && |cmd| <= MAX_VALLEN && GoodPairs(kvs)
  {
    if ParseBody(EncodeBody(cmd, kvs)) == Some(Command(cmd, kvs)) {
      ReadIsGood(EncodeBody(cmd, kvs));
      BodyLayout(cmd, kvs);
      if ';' in cmd {
        NameWithSemiIsLost(cmd, kvs);
      }
    } else if ';' !in cmd && |cmd| <= MAX_VALLEN && GoodPairs(kvs) {
      BodyRoundTrip(cmd, kvs);
    }
  }

  // ---- The size of what is written ----

  lemma {:induction false} EscapeLength(v: string)
    ensures |v| <= |Escape(v)| <= 2 * |v|
  {
    if v != "" {
      EscapeLength(v[1..]);
    }
  }

  predicate WithinLimits(kvs: seq<KeyVal>) {
    forall i | 0 <= i < |kvs| :: |kvs[i].key| <= MAX_KEYLEN && |kvs[i].value| <= MAX_VALLEN
  }

  /** Longest encoding of one pair within the limits: every byte of the value escaped. */
  const MAX_PAIR: nat := MAX_KEYLEN + 1 + 2 * MAX_VALLEN + 1

  lemma {:induction false} AppendFits(body: string, kvs: seq<KeyVal>)
    requires WithinLimits(kvs) && |body| + |kvs| * MAX_PAIR < ROOM
    ensures AppendPairs(body, kvs) == Written(body + EncodePairs(kvs))
    ensures |EncodePairs(kvs)| <= |kvs| * MAX_PAIR
    decreases |kvs|
  {
    if kvs == [] {
      assert body + "" == body;
    } else {
      EscapeLength(kvs[0].value);
      AppendFits(body + EncodePair(kvs[0]), kvs[1..]);
      assert body + EncodePair(kvs[0]) + EncodePairs(kvs[1..]) == body + EncodePairs(kvs);
    }
  }

  /** The encoder bound: up to 30 pairs, even if every value byte needs escaping, the writer never
      runs out of its 64 KiB buffer, and the length it prints has at most five digits. */
  lemma EncoderFits(cmd: string, kvs: seq<KeyVal>)
    requires |cmd| <= MAX_VALLEN && WithinLimits(kvs) && |kvs| <= 30
    ensures WriteOutcome(cmd, kvs) == Written(EncodeBody(cmd, kvs))
    ensures |EncodeBody(cmd, kvs)| < ROOM
  {
    var front := "cmd=" + cmd + ";";
    assert |kvs| * MAX_PAIR <= 30 * MAX_PAIR;
    AppendFits(front, kvs);
  }

  /** Whatever is written is the encoding, and it fits behind the length field. */
  lemma {:induction false} AppendWritten(body: string, kvs: seq<KeyVal>)
    requires AppendPairs(body, kvs).Written?
    ensures AppendPairs(body, kvs).body == body + EncodePairs(kvs)
    ensures WithinLimits(kvs)
    ensures |body| + |kvs| * 2 <= |AppendPairs(body, kvs).body|
    ensures |body| <= ROOM ==> |AppendPairs(body, kvs).body| <= ROOM
    decreases |kvs|
  {
    if kvs == [] {
      assert body + "" == body;
    } else {
      AppendWritten(body + EncodePair(kvs[0]), kvs[1..]);
      assert body + EncodePair(kvs[0]) + EncodePairs(kvs[1..]) == body + EncodePairs(kvs);
    }
  }
}
