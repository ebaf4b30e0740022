/** The key/value lines of the first PMI protocol: the in-place parser, its table and the lookups
    (modules/pmi/pmi1/simple/simple_pmiutil.c, modules/pmi/pmi2/client/pmi2_util.c). */
module Keyvals {
  import opened BoundedText
  import opened Pmi2Codec

  const MAXKEYLEN: nat := 32
  const MAXVALLEN: nat := 1024
  const TABLE_SIZE: nat := 64

  // ---- What a line says, word by word ----

  predicate AtEnd(w: string, k: nat) { k >= |w| || w[k] == '\n' }

  function SkipBlanks(w: string, k: nat): (r: nat)
    requires k <= |w|
    ensures k <= r <= |w| && (r < |w| ==> w[r] != ' ')
    decreases |w| - k
  {
    if k < |w| && w[k] == ' ' then SkipBlanks(w, k + 1) else k
  }

  /** The end of the word at k: the next blank, newline or end of text. */
  function WordEnd(w: string, k: nat): (e: nat)
    requires k <= |w|
    ensures k <= e <= |w| && (AtEnd(w, e) || w[e] == ' ')
    ensures !AtEnd(w, k) && w[k] != ' ' ==> k < e
    decreases |w| - k
  {
    if AtEnd(w, k) || w[k] == ' ' then k else WordEnd(w, k + 1)
  }

  /** The words of the line from k on, up to the newline or the end. */
  function Words(w: string, k: nat): seq<string>
    requires k <= |w|
    decreases |w| - k
  {
    var a := SkipBlanks(w, k);
    if AtEnd(w, a) then [] else [w[a..WordEnd(w, a)]] + Words(w, WordEnd(w, a))
  }

  /** Where the first '=' of a word is, or its length. */
  function EqualsAt(word: string, i: nat): (e: nat)
    requires i <= |word|
    ensures i <= e <= |word| && (e < |word| ==> word[e] == '=')
    decreases |word| - i
  {
    if i == |word| || word[i] == '=' then i else EqualsAt(word, i + 1)
  }

  /** A word is a pair if it has an '=' that is not its first byte. */
  predicate WellFormed(word: string) { '=' in word && word[0] != '=' }

  /** The pair of a word: the key cut to the table's 31 bytes, the value all that follows. */
  function PairOf(word: string): KeyVal
    requires WellFormed(word)
  {
    EqualsIs(word);
    var e := EqualsAt(word, 0);
    KeyVal(Cut(word[..e], MAXKEYLEN - 1), word[e + 1..])
  }

  /** The pairs up to the first word that is not one, and whether there is no such word. */
  function PairsOf(words: seq<string>): (bool, seq<KeyVal>) {
    if words == [] then (true, [])
    else if !WellFormed(words[0]) then (false, [])
    else var r := PairsOf(words[1..]); (r.0, [PairOf(words[0])] + r.1)
  }

  /** A line is rejected exactly if some word of it is no pair; the table then has the pairs before. */
  lemma {:induction false} PairsOfIs(words: seq<string>)
    ensures var r := PairsOf(words);
            && (r.0 <==> forall i | 0 <= i < |words| :: WellFormed(words[i]))
            && |r.1| <= |words| && (r.0 <==> |r.1| == |words|)
            && (forall i | 0 <= i < |r.1| :: WellFormed(words[i]) && r.1[i] == PairOf(words[i]))
            && (|r.1| < |words| ==> !WellFormed(words[|r.1|]))
  {
    if words != [] && WellFormed(words[0]) {
      PairsOfIs(words[1..]);
      var r, t := PairsOf(words), PairsOf(words[1..]);
      forall i | 0 <= i < |r.1| ensures WellFormed(words[i]) && r.1[i] == PairOf(words[i]) {
        if i > 0 {
          assert words[i] == words[1..][i - 1];
        }
      }
      if r.0 {
        forall i | 0 <= i < |words| ensures WellFormed(words[i]) {
          if i > 0 {
            assert words[i] == words[1..][i - 1];
          }
        }
      } else {
        assert words[|r.1|] == words[1..][|t.1|];
      }
    }
  }

  // ---- The same, as the parser walks the line ----

  /** The end of the key loop: a blank, an '=', a newline or the end of text. */
  function KeyStop(w: string, k: nat): (e: nat)
    requires k <= |w|
    ensures k <= e <= |w| && (AtEnd(w, e) || w[e] == ' ' || w[e] == '=')
    decreases |w| - k
  {
    if AtEnd(w, k) || w[k] == ' ' || w[k] == '=' then k else KeyStop(w, k + 1)
  }

  lemma {:induction false} WordEndFrom(w: string, k: nat, m: nat)
    requires k <= |w| && k <= m <= WordEnd(w, k)
    ensures WordEnd(w, m) == WordEnd(w, k)
    decreases m - k
  {
    if k < m {
      WordEndFrom(w, k + 1, m);
    }
  }

  /** Where the key loop stops, in terms of the word it started in. */
  lemma {:induction false} StopInWord(w: string, k: nat, word: string, i: nat)
    requires i <= |word| && k <= |w| && k + |word| - i == WordEnd(w, k)
    requires forall j | i <= j < |word| :: word[j] == w[k - i + j]
    ensures KeyStop(w, k) == k - i + EqualsAt(word, i)
    decreases |word| - i
  {
    if i < |word| && word[i] != '=' {
      StopInWord(w, k + 1, word, i + 1);
    }
  }

  /** One turn of the parser against one word. */
  lemma WordStep(w: string, a: nat)
    requires a < |w| && !AtEnd(w, a) && w[a] != ' '
    ensures var s, e := KeyStop(w, a), WordEnd(w, a);
            && s <= e && (WellFormed(w[a..e]) <==> PairAt(w, a))
            && (PairAt(w, a) ==>
                  && s < e && WordEnd(w, s + 1) == e
                  && PairOf(w[a..e]) == KeyVal(Cut(w[a..s], MAXKEYLEN - 1), w[s + 1..e]))
  {
    var s, e := KeyStop(w, a), WordEnd(w, a);
    StopInWord(w, a, w[a..e], 0);
    EqualsIs(w[a..e]);
    if PairAt(w, a) {
      WordEndFrom(w, a, s + 1);
      WordParts(w, a, s, e);
    }
  }

  lemma WordParts(w: string, a: nat, s: nat, e: nat)
    requires a <= s < e <= |w|
    ensures w[a..e][..s - a] == w[a..s] && w[a..e][s - a + 1..] == w[s + 1..e]
  {
  }

  lemma EqualsIs(word: string)
    ensures EqualsAt(word, 0) < |word| <==> '=' in word
    ensures word != "" ==> (EqualsAt(word, 0) == 0 <==> word[0] == '=')
  {
    EqualsFirst(word, 0);
  }

  lemma {:induction false} EqualsFirst(word: string, i: nat)
    requires i <= |word|
    ensures forall j | i <= j < EqualsAt(word, i) :: word[j] != '='
    decreases |word| - i
  {
    if i < |word| && word[i] != '=' {
      EqualsFirst(word, i + 1);
    }
  }

  /** The pair that starts at a: its key loop stops at an '=' behind at least one byte. */
  predicate PairAt(w: string, a: nat)
    requires a <= |w|
  {
    a < KeyStop(w, a) < |w| && w[KeyStop(w, a)] == '='
  }

  /** The result when `done` is in the table already. */
  function PairsAfter(done: seq<KeyVal>, words: seq<string>): (bool, seq<KeyVal>) {
    (PairsOf(words).0, done + PairsOf(words).1)
  }

  lemma PairsAfterStep(done: seq<KeyVal>, word: string, more: seq<string>)
    requires WellFormed(word)
    ensures PairsAfter(done, [word] + more) == PairsAfter(done + [PairOf(word)], more)
    ensures |PairsOf([word] + more).1| == 1 + |PairsOf(more).1|
  {
    assert ([word] + more)[1..] == more;
    assert done + ([PairOf(word)] + PairsOf(more).1) == done + [PairOf(word)] + PairsOf(more).1;
  }

  lemma EndTurn(done: seq<KeyVal>, w: string, p: nat)
    requires p <= |w| && AtEnd(w, SkipBlanks(w, p))
    ensures PairsAfter(done, Words(w, p)) == (true, done)
  {
    assert done + [] == done;
  }

  lemma BadTurn(done: seq<KeyVal>, w: string, p: nat)
    requires p <= |w| && !AtEnd(w, SkipBlanks(w, p)) && !PairAt(w, SkipBlanks(w, p))
    ensures PairsAfter(done, Words(w, p)) == (false, done)
  {
    WordStep(w, SkipBlanks(w, p));
    assert done + [] == done;
  }

  lemma GoodTurn(done: seq<KeyVal>, w: string, p: nat)
    requires p <= |w| && !AtEnd(w, SkipBlanks(w, p)) && PairAt(w, SkipBlanks(w, p))
    ensures var a := SkipBlanks(w, p);
            var s := KeyStop(w, a);
            var e := WordEnd(w, s + 1);
            && PairsAfter(done, Words(w, p))
               == PairsAfter(done + [KeyVal(Cut(w[a..s], MAXKEYLEN - 1), w[s + 1..e])], Words(w, e))
            && |PairsOf(Words(w, p)).1| == 1 + |PairsOf(Words(w, e)).1|
  {
    var a := SkipBlanks(w, p);
    var e := WordEnd(w, a);
    WordStep(w, a);
    PairsAfterStep(done, w[a..e], Words(w, e));
  }

  /** The line still stands in the buffer from position k on. */
  predicate TailIs(st: array<char>, w: string, k: nat)
    reads st
  {
    && k <= |w| < st.Length && st[|w|] == '\0'
    && forall i | k <= i < |w| :: st[i] == w[i] && w[i] != '\0'
  }

  method PassBlanks(st: array<char>, start: nat, ghost w: string) returns (p: nat)
    requires TailIs(st, w, start)
    ensures p == SkipBlanks(w, start)
  {
    p := start;
    while st[p] == ' '
      invariant start <= p <= |w| && SkipBlanks(w, p) == SkipBlanks(w, start)
      decreases |w| - p
    {
      p := p + 1;
    }
  }

  method PassKey(st: array<char>, start: nat, ghost w: string) returns (p: nat)
    requires TailIs(st, w, start)
    ensures p == KeyStop(w, start)
  {
    p := start;
    while st[p] != ' ' && st[p] != '=' && st[p] != '\n' && st[p] != '\0'
      invariant start <= p <= |w| && KeyStop(w, p) == KeyStop(w, start)
      decreases |w| - p
    {
      p := p + 1;
    }
  }

  method PassValue(st: array<char>, start: nat, ghost w: string) returns (p: nat)
    requires TailIs(st, w, start)
    ensures p == WordEnd(w, start)
  {
    p := start;
    while st[p] != ' ' && st[p] != '\n' && st[p] != '\0'
      invariant start <= p <= |w| && WordEnd(w, p) == WordEnd(w, start)
      decreases |w| - p
    {
      p := p + 1;
    }
  }

  datatype Found = NoMore | Malformed | KeyAt

  /** The loop body up to the end of the key. */
  method FindPair(st: array<char>, p: nat, ghost w: string) returns (found: Found, a: nat, s: nat)
    requires TailIs(st, w, p)
    ensures a == SkipBlanks(w, p) && (found == NoMore <==> AtEnd(w, a))
    ensures found == KeyAt <==> !AtEnd(w, a) && PairAt(w, a)
    ensures found == KeyAt ==> s == KeyStop(w, a)
  {
    a := PassBlanks(st, p, w);
    if st[a] == '=' {
      return Malformed, a, a;
    }
    if st[a] == '\n' || st[a] == '\0' {
      return NoMore, a, a;
    }
    s := PassKey(st, a, w);
    found := if st[s] == ' ' || st[s] == '\n' || st[s] == '\0' then Malformed else KeyAt;
  }

  /** The key field of a table entry after the copy. */
  method KeyField(st: array<char>, keystart: nat, len: nat, ghost key: string) returns (r: string)
    requires len == |key| && IsCStr(st, keystart, key)
    ensures r == Cut(key, MAXKEYLEN - 1)
  {
    var field := new char[MAXKEYLEN](_ => '\0');
    var rc := Strncpy(field, st, keystart, MAXKEYLEN, key);
    r := field[..if len < MAXKEYLEN then len else MAXKEYLEN - 1];
  }

  /** The value field: the copy takes the rest of the line, and the NUL at `offset` cuts it. */
  method ValueField(st: array<char>, valstart: nat, offset: nat, ghost rest: string) returns (r: string)
    requires offset <= |rest| < MAXVALLEN && IsCStr(st, valstart, rest)
    ensures r == rest[..offset]
  {
    var field := new char[MAXVALLEN](_ => '\0');
    var rc := Strncpy(field, st, valstart, MAXVALLEN, rest);
    field[offset] := '\0';
    r := field[..offset];
  }

  lemma SliceOf(w: string, a: nat, b: nat)
    requires a <= b <= |w|
    ensures w[a..][..b - a] == w[a..b]
  {
  }

  /** Both fields of the pair whose '=' is at p; the '=' becomes a NUL. */
  method TakeFields(st: array<char>, keystart: nat, p: nat, ghost w: string) returns (key: string, value: string, end: nat)
    requires |w| < MAXVALLEN && TailIs(st, w, keystart) && keystart <= p < |w|
    modifies st
    ensures end == WordEnd(w, p + 1) && TailIs(st, w, p + 1)
    ensures key == Cut(w[keystart..p], MAXKEYLEN - 1) && value == w[p + 1..end] && '\0' !in value
  {
    st[p] := '\0';
    key := KeyField(st, keystart, p - keystart, w[keystart..p]);
    end := PassValue(st, p + 1, w);
    value := ValueField(st, p + 1, end - (p + 1), w[p + 1..]);
    SliceOf(w, p + 1, end);
  }

  /** The copy out of a value field. */
  method CopyValue(valstr: array<char>, value: string, vallen: nat) returns (rc: int)
    requires vallen <= valstr.Length && '\0' !in value
    modifies valstr
    ensures rc == if 0 < vallen <= |value| then 1 else 0
    ensures if vallen == 0 then valstr[..] == old(valstr[..]) else IsCStr(valstr, 0, Cut(value, vallen - 1))
  {
    var field := new char[|value| + 1](i requires 0 <= i <= |value| => if i < |value| then value[i] else '\0');
    rc := Strncpy(valstr, field, 0, vallen, value);
  }

  class KeyvalTable {
    const tab: array<KeyVal>
    var idx: nat

    /** The entries in use hold C strings. */
    ghost predicate Valid()
      reads this, tab
    {
      && tab.Length == TABLE_SIZE && idx <= TABLE_SIZE
      && forall i | 0 <= i < idx :: '\0' !in tab[i].value
    }

    ghost function Contents(): seq<KeyVal>
      requires Valid()
      reads this, tab
    {
      tab[..idx]
    }

    constructor ()
      ensures Valid() && fresh(tab) && Contents() == []
    {
      tab := new KeyVal[TABLE_SIZE](_ => KeyVal("", ""));
      idx := 0;
    }

    /** Store one pair whose '=' is at p and whose value ends at `end`. */
    method StorePair(st: array<char>, keystart: nat, p: nat, ghost w: string) returns (end: nat)
      requires Valid() && idx < TABLE_SIZE && |w| < MAXVALLEN
      requires TailIs(st, w, keystart) && keystart <= p < |w|
      modifies this`idx, tab, st
      ensures Valid() && end == WordEnd(w, p + 1) && TailIs(st, w, p + 1)
      ensures Contents() == old(Contents()) + [KeyVal(Cut(w[keystart..p], MAXKEYLEN - 1), w[p + 1..end])]
    {
      var key, value;
      key, value, end := TakeFields(st, keystart, p, w);
      tab[idx] := KeyVal(key, value);
      idx := idx + 1;
    }

    /** One turn of the parser's loop. */
    method Turn(st: array<char>, p: nat, ghost w: string) returns (stop: bool, rc: int, next: nat)
      requires Valid() && TailIs(st, w, p) && |w| < MAXVALLEN
      requires idx + |PairsOf(Words(w, p)).1| <= TABLE_SIZE
      modifies this`idx, tab, st
      ensures Valid() && (stop ==> rc == 0 || rc == -1)
      ensures stop ==> PairsAfter(old(Contents()), Words(w, p)) == (rc == 0, Contents())
      ensures !stop ==> p < next && TailIs(st, w, next) && idx + |PairsOf(Words(w, next)).1| <= TABLE_SIZE
                        && PairsAfter(Contents(), Words(w, next)) == PairsAfter(old(Contents()), Words(w, p))
    {
      ghost var done := Contents();
      var found, a, s := FindPair(st, p, w);
      next := 0;
      if found == Malformed {
        BadTurn(done, w, p);
        return true, -1, 0;
      }
      if found == NoMore {
        EndTurn(done, w, p);
        return true, 0, 0;
      }
      GoodTurn(done, w, p);
      next := StorePair(st, a, s, w);
      ghost var now := Contents();
      assert PairsAfter(now, Words(w, next)) == PairsAfter(done, Words(w, p));
      stop, rc := st[next] != ' ', 0;
      if stop {
        assert AtEnd(w, next) && SkipBlanks(w, next) == next;
        EndTurn(now, w, next);
      }
    }

    /** PMIU_parse_keyvals, in place, on a line of less than 1024 bytes with at most 64 pairs: the
        callers' lines are never longer, and the table index is not checked. */
    method ParseKeyvals(st: array<char>, ghost w: string) returns (rc: int)
      requires Valid() && IsCStr(st, 0, w) && |w| < MAXVALLEN
      requires |PairsOf(Words(w, 0)).1| <= TABLE_SIZE
      modifies this`idx, tab, st
      ensures Valid()
      ensures rc == if PairsOf(Words(w, 0)).0 then 0 else -1
      ensures Contents() == PairsOf(Words(w, 0)).1
    {
      idx, rc := 0, 0;
      var p, stop := 0, false;
      assert [] + PairsOf(Words(w, 0)).1 == PairsOf(Words(w, 0)).1;
      while !stop
        invariant Valid()
        invariant !stop ==> TailIs(st, w, p) && idx + |PairsOf(Words(w, p)).1| <= TABLE_SIZE
        invariant !stop ==> PairsAfter(Contents(), Words(w, p)) == PairsOf(Words(w, 0))
        invariant stop ==> (rc == 0 || rc == -1) && PairsOf(Words(w, 0)) == (rc == 0, Contents())
        decreases !stop, |w| - p
      {
        stop, rc, p := Turn(st, p, w);
      }
    }

    /** PMIU_getval: the value of the first entry with this key, copied into the caller's buffer and
        cut to its size, and an error if that loses something. A zero-sized buffer is left as it was. */
    method GetVal(key: string, valstr: array<char>, vallen: nat) returns (found: bool)
      requires Valid() && 0 < valstr.Length && vallen <= valstr.Length
      modifies valstr
      ensures Valid() && Contents() == old(Contents())
      ensures (forall i | 0 <= i < idx :: tab[i].key != key) ==> !found && IsCStr(valstr, 0, "")
      ensures forall i | 0 <= i < idx && IsFirst(Contents(), key, i) ::
                && (found <==> vallen == 0 || |tab[i].value| < vallen)
                && (if vallen == 0 then valstr[..] == old(valstr[..])
                    else IsCStr(valstr, 0, Cut(tab[i].value, vallen - 1)))
    {
      for i := 0 to idx
        invariant forall j | 0 <= j < i :: tab[j].key != key
        invariant valstr[..] == old(valstr[..])
      {
        if tab[i].key == key {
          var rc := CopyValue(valstr, tab[i].value, vallen);
          return rc == 0;
        }
      }
      valstr[0] := '\0';
      found := false;
    }

    /** PMI2U_getval: the same without the error, but the table's own value is cut too. */
    method GetValAndCut(key: string, valstr: array<char>, vallen: nat) returns (found: bool)
      requires Valid() && 0 < vallen <= MAXVALLEN && vallen <= valstr.Length
      modifies tab, valstr
      ensures Valid()
      ensures found <==> exists i | 0 <= i < idx :: old(tab[i].key) == key
      ensures !found ==> IsCStr(valstr, 0, "") && Contents() == old(Contents())
      ensures forall i | 0 <= i < idx && IsFirst(old(Contents()), key, i) ::
                && IsCStr(valstr, 0, Cut(old(tab[i].value), vallen - 1))
                && Contents() == old(Contents())[i := KeyVal(key, Cut(old(tab[i].value), vallen - 1))]
    {
      for i := 0 to idx
        invariant forall j | 0 <= j < i :: tab[j].key != key
        invariant Valid() && Contents() == old(Contents())
      {
        if tab[i].key == key {
          assert IsFirst(old(Contents()), key, i);
          var value := tab[i].value;
          var rc := CopyValue(valstr, value, vallen);
          tab[i] := KeyVal(key, Cut(value, vallen - 1));
          assert Contents() == old(Contents())[i := KeyVal(key, Cut(value, vallen - 1))];
          return true;
        }
      }
      valstr[0] := '\0';
      found := false;
    }

    /** PMIU_chgval: every entry with this key gets the new value, cut to 1022 bytes. */
    method ChgVal(key: string, valstr: string)
      requires Valid() && '\0' !in valstr
      modifies tab
      ensures Valid()
      ensures forall i | 0 <= i < idx ::
                tab[i] == if old(tab[i].key) == key then KeyVal(key, Cut(valstr, MAXVALLEN - 2)) else old(tab[i])
      ensures forall i | idx <= i < tab.Length :: tab[i] == old(tab[i])
    {
      for i := 0 to idx
        invariant forall j | 0 <= j < i ::
                    tab[j] == if old(tab[j].key) == key then KeyVal(key, Cut(valstr, MAXVALLEN - 2)) else old(tab[j])
        invariant forall j | i <= j < tab.Length :: tab[j] == old(tab[j])
        invariant Valid()
      {
        if tab[i].key == key {
          tab[i] := KeyVal(key, Cut(valstr, MAXVALLEN - 2));
        }
      }
    }
  }

  /** Entry i is the first with this key. */
  predicate IsFirst(es: seq<KeyVal>, key: string, i: nat) {
    i < |es| && es[i].key == key && forall j | 0 <= j < i :: es[j].key != key
  }

  // ---- Round trip of a printed line ----

  function Word(e: KeyVal): string { e.key + "=" + e.value }

  function Print(es: seq<KeyVal>): string {
    if es == [] then "\n"
    else if |es| == 1 then Word(es[0]) + "\n"
    else Word(es[0]) + " " + Print(es[1..])
  }

  predicate Printable(e: KeyVal) {
    0 < |e.key| < MAXKEYLEN && '=' !in e.key && Plain(e.key) && Plain(e.value)
  }

  predicate Plain(s: string) { ' ' !in s && '\n' !in s && '\0' !in s }

  function WordsOf(es: seq<KeyVal>): seq<string> {
    if es == [] then [] else [Word(es[0])] + WordsOf(es[1..])
  }

  lemma {:induction false} WordEndOf(w: string, k: nat, e: nat)
    requires k <= e < |w| && (w[e] == ' ' || w[e] == '\n') && forall i | k <= i < e :: w[i] != ' ' && w[i] != '\n'
    ensures WordEnd(w, k) == e
    decreases e - k
  {
    if k < e {
      WordEndOf(w, k + 1, e);
    }
  }

  /** A word standing in the line, followed by a separator, is the next word. */
  lemma WordStands(w: string, k: nat, e: KeyVal, sep: string)
    requires Printable(e) && (sep == " " || sep == "\n") && StandsAt(w, k, Word(e) + sep)
    ensures k + |Word(e)| < |w| && w[k + |Word(e)|] == sep[0]
    ensures Words(w, k) == [Word(e)] + Words(w, k + |Word(e)|)
  {
    var word := Word(e);
    assert Plain(word) && word[0] == e.key[0];
    StandsPrefix(w, k, word, sep);
    assert w[k + |word| + 0] == sep[0];
    forall i | k <= i < k + |word| ensures w[i] == word[i - k] {
      assert w[k + (i - k)] == word[i - k];
    }
    WordEndOf(w, k, k + |word|);
    assert w[k..k + |word|] == word;
  }

  lemma {:induction false} WordsOfPrint(w: string, k: nat, es: seq<KeyVal>)
    requires (forall i | 0 <= i < |es| :: Printable(es[i])) && StandsAt(w, k, Print(es))
    ensures k <= |w| && Words(w, k) == WordsOf(es)
    decreases |es|
  {
    if es == [] {
      NoWord(w, k);
    } else {
      FirstWord(w, k, es);
      if |es| > 1 {
        WordsOfPrint(w, k + |Word(es[0])| + 1, es[1..]);
      }
    }
  }

  lemma FirstWord(w: string, k: nat, es: seq<KeyVal>)
    requires es != [] && Printable(es[0]) && StandsAt(w, k, Print(es))
    ensures k <= |w| && (|es| == 1 ==> Words(w, k) == WordsOf(es))
    ensures |es| > 1 ==> var next := k + |Word(es[0])| + 1;
                         StandsAt(w, next, Print(es[1..])) && Words(w, k) == [Word(es[0])] + Words(w, next)
  {
    if |es| == 1 {
      LastWord(w, k, es[0]);
      OneWord(es);
    } else {
      NextWord(w, k, es[0], Print(es[1..]));
    }
  }

  lemma OneWord(es: seq<KeyVal>)
    requires |es| == 1
    ensures WordsOf(es) == [Word(es[0])]
  {
    assert es[1..] == [];
  }

  lemma NoWord(w: string, k: nat)
    requires StandsAt(w, k, "\n")
    ensures Words(w, k) == []
  {
    assert w[k + 0] == "\n"[0];
  }

  lemma LastWord(w: string, k: nat, e: KeyVal)
    requires Printable(e) && StandsAt(w, k, Word(e) + "\n")
    ensures Words(w, k) == [Word(e)]
  {
    WordStands(w, k, e, "\n");
  }

  lemma NextWord(w: string, k: nat, e: KeyVal, rest: string)
    requires Printable(e) && StandsAt(w, k, Word(e) + " " + rest)
    ensures var next := k + |Word(e)| + 1;
            StandsAt(w, next, rest) && Words(w, k) == [Word(e)] + Words(w, next)
  {
    StandsPrefix(w, k, Word(e) + " ", rest);
    WordStands(w, k, e, " ");
    SkipOne(w, k + |Word(e)|);
  }

  lemma SkipOne(w: string, k: nat)
    requires k < |w| && w[k] == ' '
    ensures Words(w, k) == Words(w, k + 1)
  {
  }

  lemma PairOfWord(e: KeyVal)
    requires Printable(e)
    ensures WellFormed(Word(e)) && PairOf(Word(e)) == e
  {
    var word := Word(e);
    assert word[|e.key|] == '=' && word[..|e.key|] == e.key && word[|e.key| + 1..] == e.value;
    assert word[0] == e.key[0];
    assert forall i | 0 <= i < |e.key| :: word[i] == e.key[i];
    EqualsAtOf(word, 0, |e.key|);
  }

  lemma {:induction false} EqualsAtOf(word: string, i: nat, e: nat)
    requires i <= e < |word| && word[e] == '=' && forall j | i <= j < e :: word[j] != '='
    ensures EqualsAt(word, i) == e
    decreases e - i
  {
    if i < e {
      EqualsAtOf(word, i + 1, e);
    }
  }

  lemma {:induction false} PairsOfWords(es: seq<KeyVal>)
    requires forall i | 0 <= i < |es| :: Printable(es[i])
    ensures PairsOf(WordsOf(es)) == (true, es)
  {
    if es != [] {
      PairOfWord(es[0]);
      PairsOfWords(es[1..]);
      assert WordsOf(es)[1..] == WordsOf(es[1..]);
      assert [es[0]] + es[1..] == es;
    }
  }

  /** A printed list of pairs parses back to itself, '=' inside values included. */
  lemma LineRoundTrip(es: seq<KeyVal>)
    requires forall i | 0 <= i < |es| :: Printable(es[i])
    ensures PairsOf(Words(Print(es), 0)) == (true, es)
  {
    WordsOfPrint(Print(es), 0, es);
    PairsOfWords(es);
  }

  // ---- ... and only such lists ----

  predicate Unbroken(s: string) { ' ' !in s && '\n' !in s }

  lemma {:induction false} WordUnbroken(w: string, k: nat)
    requires k <= |w|
    ensures Unbroken(w[k..WordEnd(w, k)])
    decreases |w| - k
  {
    if !AtEnd(w, k) && w[k] != ' ' {
      WordUnbroken(w, k + 1);
      assert w[k..WordEnd(w, k)] == [w[k]] + w[k + 1..WordEnd(w, k)];
    }
  }

  lemma {:induction false} WordsUnbroken(w: string, k: nat)
    requires k <= |w|
    ensures forall i | 0 <= i < |Words(w, k)| :: Unbroken(Words(w, k)[i])
    decreases |w| - k
  {
    var a := SkipBlanks(w, k);
    if !AtEnd(w, a) {
      WordUnbroken(w, a);
      WordsUnbroken(w, WordEnd(w, a));
    }
  }

  /** A pair as the table holds it. */
  predicate Tabled(e: KeyVal) {
    0 < |e.key| < MAXKEYLEN && '=' !in e.key && Unbroken(e.key) && Unbroken(e.value)
  }

  lemma PairTabled(word: string)
    requires WellFormed(word) && Unbroken(word)
    ensures Tabled(PairOf(word))
  {
    var e := EqualsAt(word, 0);
    EqualsIs(word);
    EqualsFirst(word, 0);
    assert '=' !in word[..e];
    assert PairOf(word).key <= word[..e];
  }

  /** Whatever line is parsed, the table holds non-empty keys of at most 31 bytes without '=', and no
      blank or newline anywhere. */
  lemma TableIsClean(w: string)
    ensures forall i | 0 <= i < |PairsOf(Words(w, 0)).1| :: Tabled(PairsOf(Words(w, 0)).1[i])
  {
    var words := Words(w, 0);
    WordsUnbroken(w, 0);
    PairsOfIs(words);
    forall i | 0 <= i < |PairsOf(words).1| ensures Tabled(PairsOf(words).1[i]) {
      PairTabled(words[i]);
    }
  }

  /** Exactly when a printed list of pairs of C strings parses back to itself. */
  lemma LineRoundTripExact(es: seq<KeyVal>)
    requires forall i | 0 <= i < |es| :: '\0' !in es[i].key && '\0' !in es[i].value
    ensures PairsOf(Words(Print(es), 0)) == (true, es) <==> forall i | 0 <= i < |es| :: Printable(es[i])
  {
    if forall i | 0 <= i < |es| :: Printable(es[i]) {
      LineRoundTrip(es);
    } else if PairsOf(Words(Print(es), 0)) == (true, es) {
      TableIsClean(Print(es));
      assert forall i | 0 <= i < |es| :: Tabled(es[i]);
    }
  }

  // ---- Lookups in sequence ----

  /** Two lookups of the second protocol, as PMI2_Init makes them: the second sees what the first left,
      which differs from the original if and only if the first cut something the second had room for. */
  method LookupTwice(t: KeyvalTable, key: string, a: array<char>, m: nat, b: array<char>, n: nat, ghost i: nat)
    requires t.Valid() && 0 < m <= MAXVALLEN && m <= a.Length && 0 < n <= MAXVALLEN && n <= b.Length && a != b
    requires i < t.idx && IsFirst(t.Contents(), key, i)
    modifies t.tab, a, b
    ensures var v := old(t.tab[i].value);
            && IsCStr(a, 0, Cut(v, m - 1)) && IsCStr(b, 0, Cut(v, if m < n then m - 1 else n - 1))
            && (IsCStr(b, 0, Cut(v, n - 1)) <==> |v| < m || n <= m)
  {
    ghost var v := t.tab[i].value;
    var found := t.GetValAndCut(key, a, m);
    assert IsFirst(t.Contents(), key, i) && t.tab[i].value == Cut(v, m - 1);
    found := t.GetValAndCut(key, b, n);
    assert IsCStr(b, 0, Cut(Cut(v, m - 1), n - 1));
    CutTwice(v, m - 1, n - 1);
    CStrUnique(b, Cut(Cut(v, m - 1), n - 1), Cut(v, n - 1));
  }

  /** A buffer holds one C string. */
  lemma CStrUnique(buf: array<char>, s: string, t: string)
    requires IsCStr(buf, 0, s)
    ensures IsCStr(buf, 0, t) <==> s == t
  {
    if IsCStr(buf, 0, t) {
      assert |s| == |t|;
      forall i | 0 <= i < |s| ensures s[i] == t[i] {
        assert buf[i] == s[i - 0];
      }
    }
  }

  /** A reply as the clients take it apart: parse the line, look a key up. For a line that prints a
      list of pairs, the value of the first pair with the key is what arrives. */
  method ParseAndGet(t: KeyvalTable, st: array<char>, ghost es: seq<KeyVal>, key: string, valstr: array<char>, vallen: nat,
                     ghost i: nat) returns (rc: int, found: bool)
    requires t.Valid() && (forall j | 0 <= j < |es| :: Printable(es[j])) && |es| <= TABLE_SIZE
    requires IsCStr(st, 0, Print(es)) && |Print(es)| < MAXVALLEN
    requires 0 < vallen <= valstr.Length && st != valstr && IsFirst(es, key, i) && |es[i].value| < vallen
    modifies t`idx, t.tab, st, valstr
    ensures rc == 0 && found && IsCStr(valstr, 0, es[i].value)
  {
    LineRoundTrip(es);
    rc := t.ParseKeyvals(st, Print(es));
    assert t.Contents() == es && IsFirst(t.Contents(), key, i);
    found := t.GetVal(key, valstr, vallen);
  }
}
