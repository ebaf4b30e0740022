/** The address exchange: who pairs with whom, under which keys addresses are published, and their
    text form (benchmark/pingpong_prg.cpp, include/bench_ofi.hpp, include/bench_ib.hpp,
    include/bench_ucx.hpp). */
module AddressExchange {
  import opened Options
  import opened Text
  import opened Pmi2Codec
  import RoundRobin

  // ---- The peer ----

  function Peer(rank: nat, size: nat): nat
    requires 0 < size
  {
    (rank + size / 2) % size
  }

  /** Everybody is its peer's peer and nobody its own. */
  predicate Paired(size: nat)
    requires 0 < size
  {
    forall r | 0 <= r < size :: Peer(r, size) != r && Peer(Peer(r, size), size) == r
  }

  lemma PeerCases(r: nat, size: nat)
    requires r < size
    ensures Peer(r, size) == if r + size / 2 < size then r + size / 2 else r + size / 2 - size
  {
    RoundRobin.Small(r + size / 2, size);
  }

  /** The ranks pair up exactly for even job sizes. */
  lemma PairedExact(size: nat)
    requires 0 < size
    ensures Paired(size) <==> size % 2 == 0
  {
    forall r | 0 <= r < size && size % 2 == 0 ensures Peer(r, size) != r && Peer(Peer(r, size), size) == r {
      PeerCases(r, size);
      PeerCases(Peer(r, size), size);
    }
    if size % 2 != 0 {
      PeerCases(0, size);
      PeerCases(size / 2, size);
      assert Peer(0, size) == 0 || Peer(Peer(0, size), size) != 0;
    }
  }

  // ---- Keys ----

  function Key(prefix: string, rank: nat, id: nat): string {
    prefix + (Decimal(rank) + ("_" + Decimal(id)))
  }

  predicate AllDigits(s: string) { forall i | 0 <= i < |s| :: IsDigit(s[i]) }

  lemma FieldsDistinct(d: string, x: string, d': string, x': string)
    requires AllDigits(d) && AllDigits(d') && d + ("_" + x) == d' + ("_" + x')
    ensures d == d' && x == x'
  {
    var a, b := d + ("_" + x), d' + ("_" + x');
    assert a[|d|] == '_' && b[|d'|] == '_';
    assert |d| == |d'|;
    assert a[..|d|] == d && b[..|d'|] == d' && a[|d| + 1..] == x && b[|d'| + 1..] == x';
  }

  lemma SamePrefix(p: string, a: string, b: string)
    requires p + a == p + b
    ensures a == b
  {
    assert (p + a)[|p|..] == a && (p + b)[|p|..] == b;
  }

  /** Distinct contexts never share a key. */
  lemma KeysDistinct(prefix: string, r: nat, i: nat, r': nat, i': nat)
    requires Key(prefix, r, i) == Key(prefix, r', i')
    ensures r == r' && i == i'
  {
    SamePrefix(prefix, Decimal(r) + ("_" + Decimal(i)), Decimal(r') + ("_" + Decimal(i')));
    FieldsDistinct(Decimal(r), Decimal(i), Decimal(r'), Decimal(i'));
    DecimalInjective(r, r');
    DecimalInjective(i, i');
  }

  // ---- Six words in hexadecimal ----

  predicate IsHex(ch: char) { '0' <= ch <= '9' || 'a' <= ch <= 'f' }

  function HexDigit(d: nat): (ch: char)
    requires d < 16
    ensures IsHex(ch) && HexValue(ch) == d
  {
    if d < 10 then '0' + d as char else 'a' + (d - 10) as char
  }

  function HexValue(ch: char): nat
    requires IsHex(ch)
  {
    if ch <= '9' then ch as int - '0' as int else ch as int - 'a' as int + 10
  }

  /** "%0<k>lx" of a number of at most k digits. */
  function Hex(n: nat, k: nat): (s: string)
    ensures |s| == k && forall i | 0 <= i < k :: IsHex(s[i])
  {
    if k == 0 then "" else Hex(n / 16, k - 1) + [HexDigit(n % 16)]
  }

  predicate AllHex(w: string, k: nat, e: nat) {
    k <= e <= |w| && forall i | k <= i < e :: IsHex(w[i])
  }

  /** The number the digits from k to e stand for. */
  function HexNumber(w: string, k: nat, e: nat): nat
    requires AllHex(w, k, e)
  {
    if e == k then 0 else 16 * HexNumber(w, k, e - 1) + HexValue(w[e - 1])
  }

  function Power16(k: nat): nat { if k == 0 then 1 else 16 * Power16(k - 1) }

  lemma {:induction false} HexReads(w: string, k: nat, n: nat, width: nat)
    requires n < Power16(width) && StandsAt(w, k, Hex(n, width))
    ensures AllHex(w, k, k + width) && HexNumber(w, k, k + width) == n
    decreases width
  {
    if width > 0 {
      var high, digit := Hex(n / 16, width - 1), [HexDigit(n % 16)];
      StandsPrefix(w, k, high, digit);
      assert w[k + |high| + 0] == digit[0];
      HexReads(w, k, n / 16, width - 1);
    }
  }

  /** The end of the digits at k, at most `max` of them. */
  function HexEnd(w: string, k: nat, max: nat): (e: nat)
    requires k <= |w|
    ensures AllHex(w, k, e)
    decreases max
  {
    if max == 0 || k == |w| || !IsHex(w[k]) then k else HexEnd(w, k + 1, max - 1)
  }

  lemma {:induction false} HexEndOf(w: string, k: nat, max: nat)
    requires AllHex(w, k, k + max)
    ensures HexEnd(w, k, max) == k + max
    decreases max
  {
    if max > 0 {
      HexEndOf(w, k + 1, max - 1);
    }
  }

  /** Numbers of `width` hexadecimal digits each, joined by '-'. */
  function EncodeWords(ws: seq<nat>, width: nat): string {
    if ws == [] then ""
    else if |ws| == 1 then Hex(ws[0], width)
    else Hex(ws[0], width) + "-" + EncodeWords(ws[1..], width)
  }

  /** The scan: digits, at most `width`, then a '-' if more words are to come. */
  function DecodeWords(w: string, k: nat, count: nat, width: nat): Option<seq<nat>>
    requires k <= |w|
    decreases count
  {
    if count == 0 then Some([])
    else
      var e := HexEnd(w, k, width);
      if e == k then None
      else if count == 1 then Some([HexNumber(w, k, e)])
      else if e == |w| || w[e] != '-' then None
      else
        var more := DecodeWords(w, e + 1, count - 1, width);
        if more.None? then None else Some([HexNumber(w, k, e)] + more.value)
  }

  predicate WordSized(n: nat, width: nat) { n < Power16(width) }

  predicate AllSized(ws: seq<nat>, width: nat) {
    forall i | 0 <= i < |ws| :: WordSized(ws[i], width)
  }

  lemma WordReads(w: string, k: nat, n: nat, width: nat)
    requires WordSized(n, width) && StandsAt(w, k, Hex(n, width))
    ensures AllHex(w, k, k + width) && HexEnd(w, k, width) == k + width && HexNumber(w, k, k + width) == n
  {
    HexReads(w, k, n, width);
    HexEndOf(w, k, width);
  }

  lemma {:induction false} WordsRoundTrip(w: string, k: nat, ws: seq<nat>, width: nat)
    requires 0 < width && AllSized(ws, width) && StandsAt(w, k, EncodeWords(ws, width))
    ensures DecodeWords(w, k, |ws|, width) == Some(ws)
    decreases |ws|
  {
    if |ws| == 1 {
      WordReads(w, k, ws[0], width);
      assert [ws[0]] == ws;
    } else if |ws| > 1 {
      FirstReads(w, k, ws[0], EncodeWords(ws[1..], width), width);
      WordsRoundTrip(w, k + width + 1, ws[1..], width);
      DecodeStep(w, k, ws, width);
    }
  }

  lemma DecodeStep(w: string, k: nat, ws: seq<nat>, width: nat)
    requires |ws| > 1 && 0 < width && k + width < |w| && w[k + width] == '-' && HexEnd(w, k, width) == k + width
    requires AllHex(w, k, k + width) && HexNumber(w, k, k + width) == ws[0] && DecodeWords(w, k + width + 1, |ws| - 1, width) == Some(ws[1..])
    ensures DecodeWords(w, k, |ws|, width) == Some(ws)
  {
    assert [ws[0]] + ws[1..] == ws;
  }

  lemma FirstReads(w: string, k: nat, n: nat, rest: string, width: nat)
    requires WordSized(n, width) && StandsAt(w, k, Hex(n, width) + "-" + rest)
    ensures var e := k + width;
            && HexEnd(w, k, width) == e < |w| && w[e] == '-' && HexNumber(w, k, e) == n
            && StandsAt(w, e + 1, rest)
  {
    var h := Hex(n, width);
    StandsPrefix(w, k, h + "-", rest);
    StandsPrefix(w, k, h, "-");
    assert w[k + width + 0] == "-"[0];
    WordReads(w, k, n, width);
  }

  // ---- Two integers ----

  /** "%d" of sscanf: an optional sign and at least one digit; what is left of the text. */
  function ScanInt(s: string): Option<(int, string)> {
    var t := if s != "" && (s[0] == '-' || s[0] == '+') then s[1..] else s;
    var n := Digits(t);
    if n == 0 then None
    else Some((if s[0] == '-' then 0 - Number(t[..n]) else Number(t[..n]), t[n..]))
  }

  function EncodeInts(a: int, b: int): string { DecimalInt(a) + ("-" + DecimalInt(b)) }

  function DecodeInts(s: string): Option<(int, int)> {
    var a := ScanInt(s);
    if a.None? || a.value.1 == "" || a.value.1[0] != '-' then None
    else
      var b := ScanInt(a.value.1[1..]);
      if b.None? then None else Some((a.value.0, b.value.0))
  }

  lemma ScanPlain(t: string)
    requires t != "" && IsDigit(t[0])
    ensures ScanInt(t) == Some((Number(t[..Digits(t)]) as int, t[Digits(t)..]))
  {
  }

  lemma ScanNegative(t: string)
    requires Digits(t) > 0
    ensures ScanInt("-" + t) == Some((0 - Number(t[..Digits(t)]), t[Digits(t)..]))
  {
    assert ("-" + t)[1..] == t;
  }

  lemma FrontOf(d: string, rest: string)
    ensures (d + rest)[..|d|] == d && (d + rest)[|d|..] == rest
  {
  }

  lemma PlainReads(d: string, rest: string)
    requires d != "" && Digits(d + rest) == |d| && AllDigits(d)
    ensures ScanInt(d + rest) == Some((Number(d), rest))
  {
    FrontOf(d, rest);
    ScanPlain(d + rest);
  }

  lemma NegativeReads(d: string, rest: string)
    requires d != "" && Digits(d + rest) == |d| && AllDigits(d)
    ensures ScanInt("-" + d + rest) == Some((0 - Number(d), rest))
  {
    FrontOf(d, rest);
    ScanNegative(d + rest);
    JoinAssoc("-", d, rest);
  }

  lemma IntReads(n: int, rest: string)
    requires rest == "" || !IsDigit(rest[0])
    ensures ScanInt(DecimalInt(n) + rest) == Some((n, rest))
  {
    var m := if n < 0 then -n else n;
    DigitsThen(Decimal(m), rest);
    NumberOfDecimal(m);
    if n < 0 {
      NegativeReads(Decimal(m), rest);
    } else {
      PlainReads(Decimal(m), rest);
    }
  }

  /** The '-' between the numbers is never taken for a sign, not even before a negative one. */
  lemma IntsRoundTrip(a: int, b: int)
    ensures DecodeInts(EncodeInts(a, b)) == Some((a, b))
  {
    var rest := "-" + DecimalInt(b);
    IntReads(a, rest);
    IntReads(b, "");
    assert rest[1..] == DecimalInt(b) == DecimalInt(b) + "";
  }

  // ---- The key-value space ----

  /** One pmi_put. */
  datatype Entry = Entry(key: string, value: string)

  /** What pmi_get finds after the puts so far, in whatever order they came. */
  function Space(puts: seq<Entry>): map<string, string> {
    if puts == [] then map[]
    else var p := puts[|puts| - 1]; Space(puts[..|puts| - 1])[p.key := p.value]
  }

  /** Nobody publishes two values under one key. */
  predicate Consistent(puts: seq<Entry>) {
    forall i, j | 0 <= i < |puts| && 0 <= j < |puts| && puts[i].key == puts[j].key :: puts[i].value == puts[j].value
  }

  lemma {:induction false} PublishedStays(puts: seq<Entry>, k: nat)
    requires k < |puts| && Consistent(puts)
    ensures puts[k].key in Space(puts) && Space(puts)[puts[k].key] == puts[k].value
    decreases |puts|
  {
    var before := puts[..|puts| - 1];
    if k < |puts| - 1 {
      assert before[k] == puts[k];
      PublishedStays(before, k);
    }
  }

  /** Process `rank` publishes its context `id`. */
  datatype Publication = Publication(rank: nat, id: nat)

  // ---- OFI: six words ----

  const OFI_WIDTH: nat := 16
  const EP_ADDR_LEN: nat := 6

  /** The words of every context of every process. */
  type Contexts = seq<seq<seq<nat>>>

  predicate Known(ctxs: Contexts, p: Publication) {
    && p.rank < |ctxs| && p.id < |ctxs[p.rank]| && |ctxs[p.rank][p.id]| == EP_ADDR_LEN
    && AllSized(ctxs[p.rank][p.id], OFI_WIDTH)
  }

  function OfiEntry(ctxs: Contexts, p: Publication): Entry
    requires Known(ctxs, p)
  {
    Entry(Key("_FB_KEY_", p.rank, p.id), EncodeWords(ctxs[p.rank][p.id], OFI_WIDTH))
  }

  predicate OfiPuts(ctxs: Contexts, ps: seq<Publication>, puts: seq<Entry>) {
    |puts| == |ps| && forall i | 0 <= i < |ps| :: Known(ctxs, ps[i]) && puts[i] == OfiEntry(ctxs, ps[i])
  }

  lemma OfiConsistent(ctxs: Contexts, ps: seq<Publication>, puts: seq<Entry>)
    requires OfiPuts(ctxs, ps, puts)
    ensures Consistent(puts)
  {
    forall i, j | 0 <= i < |puts| && 0 <= j < |puts| && puts[i].key == puts[j].key
      ensures puts[i].value == puts[j].value
    {
      KeysDistinct("_FB_KEY_", ps[i].rank, ps[i].id, ps[j].rank, ps[j].id);
    }
  }

  /** Once everything is published, in any order, every process decodes for context i exactly the
      words its peer published for context i; and with an even job size it is that peer's peer. */
  lemma ExchangeCorrect(ctxs: Contexts, ps: seq<Publication>, puts: seq<Entry>, rank: nat, k: nat)
    requires |ctxs| > 0 && |ctxs| % 2 == 0 && rank < |ctxs| && OfiPuts(ctxs, ps, puts)
    requires k < |ps| && ps[k].rank == Peer(rank, |ctxs|)
    ensures var peer := Peer(rank, |ctxs|);
            var key := Key("_FB_KEY_", peer, ps[k].id);
            && peer != rank && Peer(peer, |ctxs|) == rank
            && Known(ctxs, ps[k]) && key in Space(puts)
            && DecodeWords(Space(puts)[key], 0, EP_ADDR_LEN, OFI_WIDTH) == Some(ctxs[peer][ps[k].id])
  {
    PairedExact(|ctxs|);
    OfiConsistent(ctxs, ps, puts);
    PublishedStays(puts, k);
    assert Known(ctxs, ps[k]) && puts[k] == OfiEntry(ctxs, ps[k]);
    var ws := ctxs[ps[k].rank][ps[k].id];
    WordsRoundTrip(EncodeWords(ws, OFI_WIDTH), 0, ws, OFI_WIDTH);
  }

  // ---- Verbs: queue pair number and local id ----

  /** Queue pair number and local id of every context of every process. */
  type Connections = seq<seq<(int, int)>>

  predicate Connected(conns: Connections, p: Publication) { p.rank < |conns| && p.id < |conns[p.rank]| }

  function IbEntry(conns: Connections, p: Publication): Entry
    requires Connected(conns, p)
  {
    Entry(Key("_IB_KEY_", p.rank, p.id), EncodeInts(conns[p.rank][p.id].0, conns[p.rank][p.id].1))
  }

  predicate IbPuts(conns: Connections, ps: seq<Publication>, puts: seq<Entry>) {
    |puts| == |ps| && forall i | 0 <= i < |ps| :: Connected(conns, ps[i]) && puts[i] == IbEntry(conns, ps[i])
  }

  lemma IbConsistent(conns: Connections, ps: seq<Publication>, puts: seq<Entry>)
    requires IbPuts(conns, ps, puts)
    ensures Consistent(puts)
  {
    forall i, j | 0 <= i < |puts| && 0 <= j < |puts| && puts[i].key == puts[j].key
      ensures puts[i].value == puts[j].value
    {
      KeysDistinct("_IB_KEY_", ps[i].rank, ps[i].id, ps[j].rank, ps[j].id);
    }
  }

  /** The same for the verbs benchmark. */
  lemma IbExchangeCorrect(conns: Connections, ps: seq<Publication>, puts: seq<Entry>, rank: nat, k: nat)
    requires |conns| > 0 && |conns| % 2 == 0 && rank < |conns| && IbPuts(conns, ps, puts)
    requires k < |ps| && ps[k].rank == Peer(rank, |conns|)
    ensures var peer := Peer(rank, |conns|);
            var key := Key("_IB_KEY_", peer, ps[k].id);
            && peer != rank && Peer(peer, |conns|) == rank
            && Connected(conns, ps[k]) && key in Space(puts)
            && DecodeInts(Space(puts)[key]) == Some(conns[peer][ps[k].id])
  {
    PairedExact(|conns|);
    IbConsistent(conns, ps, puts);
    PublishedStays(puts, k);
    assert Connected(conns, ps[k]) && puts[k] == IbEntry(conns, ps[k]);
    var conn := conns[ps[k].rank][ps[k].id];
    IntsRoundTrip(conn.0, conn.1);
  }

  // ---- UCX: a device address and any number of endpoint addresses per context ----

  const UCX_WIDTH: nat := 2
  const DEV_LEN: nat := 3
  const EP_LEN: nat := 5

  /** Contexts of workers and of progress threads. */
  datatype Kind = Worker | Progress {
    function Letter(): string { if Worker? then "w" else "p" }
  }

  /** One put: the device address of a context, or its j-th endpoint address. */
  datatype UcxPut = Dev(kind: Kind, rank: nat, id: nat) | Ep(kind: Kind, j: nat, rank: nat, id: nat)

  function UcxKey(p: UcxPut): string {
    match p
    case Dev(kind, rank, id) => "_IB_KEY1_" + (kind.Letter() + ("_" + (Decimal(rank) + ("_" + Decimal(id)))))
    case Ep(kind, j, rank, id) =>
      "_IB_KEY2_" + (kind.Letter() + ("_" + (Decimal(j) + ("_" + (Decimal(rank) + ("_" + Decimal(id)))))))
  }

  lemma SameLetter(a: Kind, x: string, b: Kind, y: string)
    requires a.Letter() + ("_" + x) == b.Letter() + ("_" + y)
    ensures a == b && x == y
  {
    var s, t := a.Letter() + ("_" + x), b.Letter() + ("_" + y);
    assert s[0] == a.Letter()[0] && t[0] == b.Letter()[0];
    assert s[2..] == x && t[2..] == y;
  }

  lemma SameNumbers(r: nat, i: nat, r': nat, i': nat)
    requires Decimal(r) + ("_" + Decimal(i)) == Decimal(r') + ("_" + Decimal(i'))
    ensures r == r' && i == i'
  {
    FieldsDistinct(Decimal(r), Decimal(i), Decimal(r'), Decimal(i'));
    DecimalInjective(r, r');
    DecimalInjective(i, i');
  }

  lemma PrefixTells(a: string, b: string)
    ensures "_IB_KEY1_" + a != "_IB_KEY2_" + b
  {
    assert ("_IB_KEY1_" + a)[7] == '1' && ("_IB_KEY2_" + b)[7] == '2';
  }

  /** Three- and four-field keys, of both kinds, never collide. */
  lemma UcxKeysDistinct(p: UcxPut, q: UcxPut)
    requires UcxKey(p) == UcxKey(q)
    ensures p == q
  {
    if p.Dev? && q.Dev? {
      var x, y := Decimal(p.rank) + ("_" + Decimal(p.id)), Decimal(q.rank) + ("_" + Decimal(q.id));
      SamePrefix("_IB_KEY1_", p.kind.Letter() + ("_" + x), q.kind.Letter() + ("_" + y));
      SameLetter(p.kind, x, q.kind, y);
      SameNumbers(p.rank, p.id, q.rank, q.id);
    } else if p.Ep? && q.Ep? {
      var x, y := Decimal(p.rank) + ("_" + Decimal(p.id)), Decimal(q.rank) + ("_" + Decimal(q.id));
      var v, z := Decimal(p.j) + ("_" + x), Decimal(q.j) + ("_" + y);
      SamePrefix("_IB_KEY2_", p.kind.Letter() + ("_" + v), q.kind.Letter() + ("_" + z));
      SameLetter(p.kind, v, q.kind, z);
      FieldsDistinct(Decimal(p.j), x, Decimal(q.j), y);
      DecimalInjective(p.j, q.j);
      SameNumbers(p.rank, p.id, q.rank, q.id);
    } else if p.Dev? {
      PrefixTells(p.kind.Letter() + ("_" + (Decimal(p.rank) + ("_" + Decimal(p.id)))),
                  q.kind.Letter() + ("_" + (Decimal(q.j) + ("_" + (Decimal(q.rank) + ("_" + Decimal(q.id)))))));
    } else {
      PrefixTells(q.kind.Letter() + ("_" + (Decimal(q.rank) + ("_" + Decimal(q.id)))),
                  p.kind.Letter() + ("_" + (Decimal(p.j) + ("_" + (Decimal(p.rank) + ("_" + Decimal(p.id)))))));
    }
  }

  /** The bytes behind every put. */
  type Bytes = UcxPut -> seq<nat>

  predicate UcxPuts(bytes: Bytes, ps: seq<UcxPut>, puts: seq<Entry>) {
    && |puts| == |ps|
    && forall i | 0 <= i < |ps| ::
         && |bytes(ps[i])| == (if ps[i].Dev? then DEV_LEN else EP_LEN) && AllSized(bytes(ps[i]), UCX_WIDTH)
         && puts[i] == Entry(UcxKey(ps[i]), EncodeWords(bytes(ps[i]), UCX_WIDTH))
  }

  lemma UcxConsistent(bytes: Bytes, ps: seq<UcxPut>, puts: seq<Entry>)
    requires UcxPuts(bytes, ps, puts)
    ensures Consistent(puts)
  {
    forall i, j | 0 <= i < |puts| && 0 <= j < |puts| && puts[i].key == puts[j].key
      ensures puts[i].value == puts[j].value
    {
      UcxKeysDistinct(ps[i], ps[j]);
    }
  }

  /** Whatever the order of the puts, each key decodes to the bytes put under it. */
  lemma UcxExchangeCorrect(bytes: Bytes, ps: seq<UcxPut>, puts: seq<Entry>, k: nat)
    requires UcxPuts(bytes, ps, puts) && k < |ps|
    ensures UcxKey(ps[k]) in Space(puts)
    ensures DecodeWords(Space(puts)[UcxKey(ps[k])], 0, if ps[k].Dev? then DEV_LEN else EP_LEN, UCX_WIDTH)
            == Some(bytes(ps[k]))
  {
    UcxConsistent(bytes, ps, puts);
    PublishedStays(puts, k);
    WordsRoundTrip(EncodeWords(bytes(ps[k]), UCX_WIDTH), 0, bytes(ps[k]), UCX_WIDTH);
  }

  lemma EndpointDecodes(bytes: Bytes, ps: seq<UcxPut>, puts: seq<Entry>, p: UcxPut)
    requires UcxPuts(bytes, ps, puts) && p in ps && p.Ep?
    ensures UcxKey(p) in Space(puts)
    ensures DecodeWords(Space(puts)[UcxKey(p)], 0, EP_LEN, UCX_WIDTH) == Some(bytes(p))
  {
    var k :| 0 <= k < |ps| && ps[k] == p;
    UcxExchangeCorrect(bytes, ps, puts, k);
  }

  /** One turn of the loop below. */
  method GetEndpoint(ghost bytes: Bytes, ghost ps: seq<UcxPut>, ghost puts: seq<Entry>, space: map<string, string>,
                     p: UcxPut) returns (addr: seq<nat>)
    requires UcxPuts(bytes, ps, puts) && space == Space(puts) && p in ps && p.Ep?
    ensures addr == bytes(p)
  {
    EndpointDecodes(bytes, ps, puts, p);
    var ws := DecodeWords(space[UcxKey(p)], 0, EP_LEN, UCX_WIDTH);
    addr := ws.value;
  }

  /** The loop of get_ctx_addr: the endpoint addresses of a context, j-th published at position j. */
  method GetEndpoints(ghost bytes: Bytes, ghost ps: seq<UcxPut>, ghost puts: seq<Entry>, space: map<string, string>,
                      kind: Kind, rank: nat, id: nat, n: nat) returns (addrs: seq<seq<nat>>)
    requires UcxPuts(bytes, ps, puts) && space == Space(puts)
    requires forall j | 0 <= j < n :: Ep(kind, j, rank, id) in ps
    ensures |addrs| == n && forall j | 0 <= j < n :: addrs[j] == bytes(Ep(kind, j, rank, id))
  {
    addrs := [];
    for j := 0 to n
      invariant |addrs| == j && forall i | 0 <= i < j :: addrs[i] == bytes(Ep(kind, i, rank, id))
    {
      var addr := GetEndpoint(bytes, ps, puts, space, Ep(kind, j, rank, id));
      addrs := addrs + [addr];
    }
  }
}
