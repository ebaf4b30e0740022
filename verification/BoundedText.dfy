/** Bounded copy and append of C strings (modules/pmi/pmi1/simple/simple_pmiutil.c). */
module BoundedText {

  /** A C string: the text from `at` up to the first NUL. */
  predicate IsCStr(buf: array<char>, at: nat, s: string)
    reads buf
  {
    && at + |s| < buf.Length && buf[at + |s|] == '\0'
    && forall i | at <= i < at + |s| :: buf[i] == s[i - at] && buf[i] != '\0'
  }

  /** At most n bytes of s. */
  function Cut(s: string, n: nat): (r: string)
    ensures |r| == if |s| <= n then |s| else n
    ensures r <= s
  {
    if |s| <= n then s else s[..n]
  }

  /** Cutting twice is cutting once at the smaller length; the first cut shows through exactly when
      it removed something the second would have kept. */
  lemma CutTwice(s: string, a: nat, b: nat)
    ensures Cut(Cut(s, a), b) == Cut(s, if a < b then a else b)
    ensures Cut(Cut(s, a), b) == Cut(s, b) <==> |s| <= a || b <= a
  {
    assert |Cut(Cut(s, a), b)| != |Cut(s, b)| || |s| <= a || b <= a;
  }

  /** MPIU_Strncpy: at most n bytes with the NUL, and an error exactly if that loses something. */
  method Strncpy(dest: array<char>, src: array<char>, at: nat, n: nat, ghost s: string) returns (rc: int)
    requires dest != src && n <= dest.Length && IsCStr(src, at, s)
    modifies dest
    ensures rc == if 0 < n <= |s| then 1 else 0
    ensures n > 0 ==> IsCStr(dest, 0, Cut(s, n - 1))
    ensures forall i | n <= i < dest.Length :: dest[i] == old(dest[i])
  {
    if n == 0 {
      return 0;
    }
    var i, d := n, 0;
    while src[at + d] != '\0' && i > 0
      invariant 0 <= d <= |s| && 0 <= i && i + d == n
      invariant forall j | 0 <= j < d :: dest[j] == s[j] && s[j] != '\0'
      invariant forall j | n <= j < dest.Length :: dest[j] == old(dest[j])
      decreases i
    {
      dest[d] := src[at + d];
      i, d := i - 1, d + 1;
    }
    if i > 0 {
      dest[d] := '\0';
      return 0;
    } else {
      dest[n - 1] := '\0';
      return 1;
    }
  }

  /** What MPIU_Strnapp leaves: the whole append if it fits with its NUL. If not, a destination that
      is already full stays, and otherwise the text is cut to n - 2 bytes, one less than would fit. */
  function Strnappended(d: string, s: string, n: nat): (r: string) {
    if |d| + 1 >= n then d else if |d| + |s| < n then d + s else Cut(d + s, n - 2)
  }

  predicate StrnappFits(d: string, s: string, n: nat) { |d| + 1 < n && |d| + |s| < n }

  /** The dest loop: to the first NUL within n bytes; i is what is left of n, one less for the NUL. */
  method FindEnd(dest: array<char>, n: nat, ghost d: string) returns (p: nat, i: int)
    requires n <= dest.Length && IsCStr(dest, 0, d)
    ensures i + p == n - 1 && (p == |d| || (i <= 0 && p < |d|))
  {
    i, p := n, 0;
    while i > 0 && dest[p] != '\0'
      invariant 0 <= p <= |d| && 0 <= i && i + p == n
      decreases i
    {
      i, p := i - 1, p + 1;
    }
    i := i - 1;
  }

  /** The src loop: as much of s as there is room for. */
  method CopyTail(dest: array<char>, at: nat, src: array<char>, room: nat, ghost s: string) returns (k: nat)
    requires dest != src && at + room <= dest.Length && IsCStr(src, 0, s)
    modifies dest
    ensures k == if |s| < room then |s| else room
    ensures forall j | 0 <= j < at :: dest[j] == old(dest[j])
    ensures forall j | at <= j < at + k :: dest[j] == s[j - at] && dest[j] != '\0'
  {
    k := 0;
    while src[k] != '\0' && k < room
      invariant 0 <= k <= |s| && k <= room
      invariant forall j | 0 <= j < at :: dest[j] == old(dest[j])
      invariant forall j | at <= j < at + k :: dest[j] == s[j - at] && dest[j] != '\0'
      decreases room - k
    {
      dest[at + k] := src[k];
      k := k + 1;
    }
  }

  /** MPIU_Strnapp. Copying all the room without reaching the end of src is the error; the NUL then
      goes over the last byte copied. */
  method Strnapp(dest: array<char>, src: array<char>, n: nat, ghost d: string, ghost s: string) returns (rc: int)
    requires dest != src && n <= dest.Length && IsCStr(dest, 0, d) && IsCStr(src, 0, s)
    modifies dest
    ensures rc == if StrnappFits(d, s, n) then 0 else 1
    ensures IsCStr(dest, 0, Strnappended(d, s, n))
  {
    var p, i := FindEnd(dest, n, d);
    if i <= 0 {
      return 1;
    }
    var k := CopyTail(dest, p, src, i, s);
    if src[k] == '\0' {
      dest[p + k] := '\0';
      rc := 0;
    } else {
      dest[p + k - 1] := '\0';
      rc := 1;
    }
  }
}
