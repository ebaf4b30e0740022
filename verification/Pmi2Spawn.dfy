/** The pairs of PMI2_Job_Spawn (modules/pmi/pmi2/client/pmi2_api.c): counted first, then filled in
    one by one, then sent as one command. */
module Pmi2Spawn {
  import opened Options
  import opened Text
  import opened Pmi2Codec
  import opened Pmi2Frame

  /** One executable of the request. */
  datatype Sub = Sub(cmd: string, maxprocs: int, argv: seq<string>, info: seq<KeyVal>)

  // ---- The pairs, in order ----

  function Numbered(name: string, i: nat, value: string): KeyVal { KeyVal(name + Decimal(i), value) }

  function Args(argv: seq<string>, i: nat): seq<KeyVal>
    requires i <= |argv|
    decreases |argv| - i
  {
    if i == |argv| then [] else [Numbered("argv", i, argv[i])] + Args(argv, i + 1)
  }

  function Both(name: string, i: nat, kv: KeyVal): seq<KeyVal> {
    [Numbered(name + "key", i, kv.key), Numbered(name + "val", i, kv.value)]
  }

  function KeysAndValues(name: string, kvs: seq<KeyVal>, i: nat): seq<KeyVal>
    requires i <= |kvs|
    decreases |kvs| - i
  {
    if i == |kvs| then [] else Both(name, i, kvs[i]) + KeysAndValues(name, kvs, i + 1)
  }

  function InfoPairs(info: seq<KeyVal>, withInfo: bool): seq<KeyVal> {
    if withInfo then [KeyVal("infokeycount", Decimal(|info|))] + KeysAndValues("info", info, 0) else []
  }

  function HeadPairs(s: Sub): seq<KeyVal> {
    [KeyVal("subcmd", s.cmd), KeyVal("maxprocs", DecimalInt(s.maxprocs)), KeyVal("argc", Decimal(|s.argv|))]
  }

  function SubPairs(s: Sub, withInfo: bool): seq<KeyVal> {
    HeadPairs(s) + Args(s.argv, 0) + InfoPairs(s.info, withInfo)
  }

  function SubsPairs(subs: seq<Sub>, withInfo: bool, i: nat): seq<KeyVal>
    requires i <= |subs|
    decreases |subs| - i
  {
    if i == |subs| then [] else SubPairs(subs[i], withInfo) + SubsPairs(subs, withInfo, i + 1)
  }

  function FrontPairs(count: nat, preput: seq<KeyVal>): seq<KeyVal> {
    [KeyVal("ncmds", Decimal(count)), KeyVal("preputcount", Decimal(|preput|))] + KeysAndValues("pp", preput, 0)
  }

  /** Everything the command carries. */
  function SpawnPairs(subs: seq<Sub>, preput: seq<KeyVal>, withInfo: bool): seq<KeyVal> {
    FrontPairs(|subs|, preput) + SubsPairs(subs, withInfo, 0)
  }

  // ---- How many there are ----

  lemma {:induction false} ArgsLength(argv: seq<string>, i: nat)
    requires i <= |argv|
    ensures |Args(argv, i)| == |argv| - i
    decreases |argv| - i
  {
    if i < |argv| {
      ArgsLength(argv, i + 1);
    }
  }

  lemma {:induction false} KeysAndValuesLength(name: string, kvs: seq<KeyVal>, i: nat)
    requires i <= |kvs|
    ensures |KeysAndValues(name, kvs, i)| == 2 * (|kvs| - i)
    decreases |kvs| - i
  {
    if i < |kvs| {
      KeysAndValuesLength(name, kvs, i + 1);
    }
  }

  lemma SubLength(s: Sub, withInfo: bool)
    ensures |SubPairs(s, withInfo)| == 3 + |s.argv| + if withInfo then 1 + 2 * |s.info| else 0
  {
    ArgsLength(s.argv, 0);
    KeysAndValuesLength("info", s.info, 0);
  }

  /** The count made before the array is allocated. */
  method CountSpawnPairs(subs: seq<Sub>, preput: seq<KeyVal>, withInfo: bool) returns (total: nat)
    ensures total == |SpawnPairs(subs, preput, withInfo)|
  {
    total := 2 + 3 * |subs| + 2 * |preput|;
    KeysAndValuesLength("pp", preput, 0);
    for i := 0 to |subs|
      invariant total + |SubsPairs(subs, withInfo, i)| - 3 * (|subs| - i) == |SpawnPairs(subs, preput, withInfo)|
    {
      SubLength(subs[i], withInfo);
      total := total + |subs[i].argv|;
      if withInfo {
        total := total + 1;
        total := total + 2 * |subs[i].info|;
      }
    }
  }

  // ---- Filling the array ----

  method Store(pairs: array<KeyVal>, n: nat, kv: KeyVal) returns (m: nat)
    requires n < pairs.Length
    modifies pairs
    ensures m == n + 1 && pairs[..m] == old(pairs[..n]) + [kv]
  {
    pairs[n] := kv;
    m := n + 1;
  }

  lemma Regroup(a: seq<KeyVal>, b: seq<KeyVal>, c: seq<KeyVal>)
    ensures a + (b + c) == a + b + c
  {
  }

  method StoreArgs(pairs: array<KeyVal>, n: nat, argv: seq<string>) returns (m: nat)
    requires n + |Args(argv, 0)| <= pairs.Length
    modifies pairs
    ensures m == n + |Args(argv, 0)| && pairs[..m] == old(pairs[..n]) + Args(argv, 0)
  {
    ghost var done := pairs[..n];
    ghost var all := done + Args(argv, 0);
    m := n;
    for i := 0 to |argv|
      invariant m + |Args(argv, i)| == |all| <= pairs.Length && pairs[..m] == done && |done| == m
      invariant done + Args(argv, i) == all
    {
      ghost var kv := Numbered("argv", i, argv[i]);
      Regroup(done, [kv], Args(argv, i + 1));
      m := Store(pairs, m, Numbered("argv", i, argv[i]));
      done := done + [kv];
    }
  }

  method StoreKeysAndValues(pairs: array<KeyVal>, n: nat, name: string, kvs: seq<KeyVal>) returns (m: nat)
    requires n + |KeysAndValues(name, kvs, 0)| <= pairs.Length
    modifies pairs
    ensures m == n + |KeysAndValues(name, kvs, 0)| && pairs[..m] == old(pairs[..n]) + KeysAndValues(name, kvs, 0)
  {
    ghost var done := pairs[..n];
    ghost var all := done + KeysAndValues(name, kvs, 0);
    m := n;
    for i := 0 to |kvs|
      invariant m + |KeysAndValues(name, kvs, i)| == |all| <= pairs.Length && pairs[..m] == done && |done| == m
      invariant done + KeysAndValues(name, kvs, i) == all
    {
      Regroup(done, Both(name, i, kvs[i]), KeysAndValues(name, kvs, i + 1));
      m := Store(pairs, m, Numbered(name + "key", i, kvs[i].key));
      m := Store(pairs, m, Numbered(name + "val", i, kvs[i].value));
      done := done + Both(name, i, kvs[i]);
    }
  }

  method StoreSub(pairs: array<KeyVal>, n: nat, s: Sub, withInfo: bool) returns (m: nat)
    requires n + |SubPairs(s, withInfo)| <= pairs.Length
    modifies pairs
    ensures m == n + |SubPairs(s, withInfo)| && pairs[..m] == old(pairs[..n]) + SubPairs(s, withInfo)
  {
    ghost var done := pairs[..n];
    m := Store(pairs, n, KeyVal("subcmd", s.cmd));
    m := Store(pairs, m, KeyVal("maxprocs", DecimalInt(s.maxprocs)));
    m := Store(pairs, m, KeyVal("argc", Decimal(|s.argv|)));
    assert pairs[..m] == done + HeadPairs(s);
    m := StoreArgs(pairs, m, s.argv);
    Regroup(done, HeadPairs(s), Args(s.argv, 0));
    Regroup(done, HeadPairs(s) + Args(s.argv, 0), InfoPairs(s.info, withInfo));
    if withInfo {
      ghost var before := pairs[..m];
      m := Store(pairs, m, KeyVal("infokeycount", Decimal(|s.info|)));
      m := StoreKeysAndValues(pairs, m, "info", s.info);
      Regroup(before, [KeyVal("infokeycount", Decimal(|s.info|))], KeysAndValues("info", s.info, 0));
    }
  }

  method StoreFront(pairs: array<KeyVal>, count: nat, preput: seq<KeyVal>) returns (m: nat)
    requires |FrontPairs(count, preput)| <= pairs.Length
    modifies pairs
    ensures m == |FrontPairs(count, preput)| && pairs[..m] == FrontPairs(count, preput)
  {
    m := Store(pairs, 0, KeyVal("ncmds", Decimal(count)));
    m := Store(pairs, m, KeyVal("preputcount", Decimal(|preput|)));
    assert pairs[..m] == [KeyVal("ncmds", Decimal(count)), KeyVal("preputcount", Decimal(|preput|))];
    m := StoreKeysAndValues(pairs, m, "pp", preput);
  }

  method StoreSubs(pairs: array<KeyVal>, n: nat, subs: seq<Sub>, withInfo: bool) returns (m: nat)
    requires n + |SubsPairs(subs, withInfo, 0)| <= pairs.Length
    modifies pairs
    ensures m == n + |SubsPairs(subs, withInfo, 0)| && pairs[..m] == old(pairs[..n]) + SubsPairs(subs, withInfo, 0)
  {
    ghost var done := pairs[..n];
    ghost var all := done + SubsPairs(subs, withInfo, 0);
    m := n;
    for i := 0 to |subs|
      invariant m + |SubsPairs(subs, withInfo, i)| == |all| <= pairs.Length && pairs[..m] == done && |done| == m
      invariant done + SubsPairs(subs, withInfo, i) == all
    {
      Regroup(done, SubPairs(subs[i], withInfo), SubsPairs(subs, withInfo, i + 1));
      m := StoreSub(pairs, m, subs[i], withInfo);
      done := done + SubPairs(subs[i], withInfo);
    }
  }

  /** The array that PMI2_Job_Spawn sends: exactly as many slots as pairs, each filled once, in
      order. */
  method BuildSpawnPairs(subs: seq<Sub>, preput: seq<KeyVal>, withInfo: bool) returns (pairs: array<KeyVal>)
    ensures fresh(pairs) && pairs[..] == SpawnPairs(subs, preput, withInfo)
  {
    var total := CountSpawnPairs(subs, preput, withInfo);
    pairs := new KeyVal[total](_ => KeyVal("", ""));
    var n := StoreFront(pairs, |subs|, preput);
    n := StoreSubs(pairs, n, subs, withInfo);
    assert pairs[..n] == pairs[..];
  }

  // ---- Its keys survive the codec ----

  predicate SafeKeys(kvs: seq<KeyVal>) {
    forall i | 0 <= i < |kvs| :: SafeKey(kvs[i].key)
  }

  predicate SafeKey(key: string) { '=' !in key && '\0' !in key && key != "" && key[0] != ';' }

  lemma NumberedSafe(name: string, i: nat)
    requires SafeKey(name)
    ensures SafeKey(name + Decimal(i))
  {
  }

  lemma SafeJoin(a: seq<KeyVal>, b: seq<KeyVal>)
    requires SafeKeys(a) && SafeKeys(b)
    ensures SafeKeys(a + b)
  {
  }

  lemma {:induction false} ArgsSafe(argv: seq<string>, i: nat)
    requires i <= |argv|
    ensures SafeKeys(Args(argv, i))
    decreases |argv| - i
  {
    if i < |argv| {
      ArgsSafe(argv, i + 1);
      NumberedSafe("argv", i);
    }
  }

  lemma {:induction false} KeysAndValuesSafe(name: string, kvs: seq<KeyVal>, i: nat)
    requires i <= |kvs| && SafeKey(name)
    ensures SafeKeys(KeysAndValues(name, kvs, i))
    decreases |kvs| - i
  {
    if i < |kvs| {
      KeysAndValuesSafe(name, kvs, i + 1);
      NumberedSafe(name + "key", i);
      NumberedSafe(name + "val", i);
      SafeJoin(Both(name, i, kvs[i]), KeysAndValues(name, kvs, i + 1));
    }
  }

  lemma HeadSafe(s: Sub)
    ensures SafeKeys(HeadPairs(s))
  {
    assert SafeKey("subcmd") && SafeKey("maxprocs") && SafeKey("argc");
  }

  lemma InfoSafe(info: seq<KeyVal>, withInfo: bool)
    ensures SafeKeys(InfoPairs(info, withInfo))
  {
    KeysAndValuesSafe("info", info, 0);
    assert SafeKey("infokeycount");
    SafeJoin([KeyVal("infokeycount", Decimal(|info|))], KeysAndValues("info", info, 0));
  }

  lemma SubSafe(s: Sub, withInfo: bool)
    ensures SafeKeys(SubPairs(s, withInfo))
  {
    HeadSafe(s);
    ArgsSafe(s.argv, 0);
    InfoSafe(s.info, withInfo);
    SafeJoin(HeadPairs(s), Args(s.argv, 0));
    SafeJoin(HeadPairs(s) + Args(s.argv, 0), InfoPairs(s.info, withInfo));
  }

  lemma {:induction false} SubsSafe(subs: seq<Sub>, withInfo: bool, i: nat)
    requires i <= |subs|
    ensures SafeKeys(SubsPairs(subs, withInfo, i))
    decreases |subs| - i
  {
    if i < |subs| {
      SubSafe(subs[i], withInfo);
      SubsSafe(subs, withInfo, i + 1);
      SafeJoin(SubPairs(subs[i], withInfo), SubsPairs(subs, withInfo, i + 1));
    }
  }

  lemma SpawnSafe(subs: seq<Sub>, preput: seq<KeyVal>, withInfo: bool)
    ensures SafeKeys(SpawnPairs(subs, preput, withInfo))
  {
    KeysAndValuesSafe("pp", preput, 0);
    SubsSafe(subs, withInfo, 0);
    SafeJoin([KeyVal("ncmds", Decimal(|subs|)), KeyVal("preputcount", Decimal(|preput|))], KeysAndValues("pp", preput, 0));
    SafeJoin(FrontPairs(|subs|, preput), SubsPairs(subs, withInfo, 0));
  }

  lemma SafeIsGood(kvs: seq<KeyVal>)
    requires SafeKeys(kvs) && WithinLimits(kvs)
    ensures GoodPairs(kvs)
  {
  }

  /** Whatever executables, arguments, preput and info pairs the caller gives: if the spawn command
      can be written at all, it is read back from the stream as the same list of pairs. */
  lemma SpawnRoundTrip(subs: seq<Sub>, preput: seq<KeyVal>, withInfo: bool, rest: string)
    requires WriteOutcome("spawn", SpawnPairs(subs, preput, withInfo)).Written?
    ensures var kvs := SpawnPairs(subs, preput, withInfo);
            var body := WriteOutcome("spawn", kvs).body;
            && |Decimal(|body|)| <= COMMANDLEN_SIZE
            && ReadStream(Frame(body) + rest) == Some((Command("spawn", kvs), rest))
  {
    var kvs := SpawnPairs(subs, preput, withInfo);
    SpawnSafe(subs, preput, withInfo);
    WrittenFrames("spawn", kvs);
    SafeIsGood(kvs);
    StreamRoundTrip("spawn", kvs, rest);
  }
}
