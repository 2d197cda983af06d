/** Peer identifiers: the alphabet they are configured in, the trimming `Open` and
    `Register` apply, and the key that names a pair of peers without saying which
    of them asked first. */
module Identifiers {

  /** The characters a configured peer identifier may use. */
  predicate PeerIdAllowed(c: char) {
    'a' <= c <= 'z' || 'A' <= c <= 'Z' || '0' <= c <= '9' || c == '-' || c == '_' || c == '.'
  }

  /** By code point: the letters and digits of ASCII, the hyphen, the full stop and the
      low line. */
  lemma AlphabetIs(c: char)
    ensures PeerIdAllowed(c) <==>
      0x61 <= c as int <= 0x7A || 0x41 <= c as int <= 0x5A || 0x30 <= c as int <= 0x39
      || c as int == 0x2D || c as int == 0x2E || c as int == 0x5F
  {
  }

  /** An identifier a client may be configured with. */
  predicate PeerId(s: string) {
    s != "" && forall c :: c in s ==> PeerIdAllowed(c)
  }

  /** The characters strings.TrimSpace strips: Unicode White_Space. */
  predicate IsSpace(c: char) {
    || '\t' <= c <= '\r' || c == ' ' || c == '\U{85}' || c == '\U{A0}' || c == '\U{1680}'
    || '\U{2000}' <= c <= '\U{200A}' || c == '\U{2028}' || c == '\U{2029}' || c == '\U{202F}'
    || c == '\U{205F}' || c == '\U{3000}'
  }

  /** White space as Unicode lists it. */
  const WHITE_SPACE := "\t\n\U{0B}\U{0C}\r \U{85}\U{A0}\U{1680}"
    + "\U{2000}\U{2001}\U{2002}\U{2003}\U{2004}\U{2005}\U{2006}\U{2007}\U{2008}\U{2009}\U{200A}"
    + "\U{2028}\U{2029}\U{202F}\U{205F}\U{3000}"

  lemma SpacesAre(c: char)
    ensures IsSpace(c) <==> c in WHITE_SPACE
  {
  }

  function TrimLeft(s: string): string {
    if s != "" && IsSpace(s[0]) then TrimLeft(s[1..]) else s
  }

  function TrimRight(s: string): string {
    if s != "" && IsSpace(s[|s| - 1]) then TrimRight(s[..|s| - 1]) else s
  }

  function TrimSpace(s: string): string {
    TrimRight(TrimLeft(s))
  }

  ghost predicate AllSpace(s: string) {
    forall c :: c in s ==> IsSpace(c)
  }

  lemma {:induction false} TrimLeftCuts(s: string) returns (k: nat)
    ensures k <= |s| && TrimLeft(s) == s[k..] && AllSpace(s[..k])
    ensures k < |s| ==> !IsSpace(s[k])
  {
    if s != "" && IsSpace(s[0]) {
      hide IsSpace;
      var l := TrimLeftCuts(s[1..]);
      k := l + 1;
      assert s[1..][l..] == s[k..] && s[..k] == [s[0]] + s[1..][..l];
    } else {
      k := 0;
    }
  }

  lemma {:induction false} TrimRightCuts(s: string) returns (k: nat)
    ensures k <= |s| && TrimRight(s) == s[..k] && AllSpace(s[k..])
    ensures k > 0 ==> !IsSpace(s[k - 1])
  {
    var n := |s|;
    if s != "" && IsSpace(s[n - 1]) {
      hide IsSpace;
      k := TrimRightCuts(s[..n - 1]);
      assert s[..n - 1][..k] == s[..k] && s[k..] == s[..n - 1][k..] + [s[n - 1]];
    } else {
      k := n;
      assert s == s[..n];
    }
  }

  /** What is trimmed off is space at the two ends, and no space is left at either. */
  lemma TrimSpaceCutsTheEnds(s: string) returns (i: nat, j: nat)
    ensures i <= j <= |s| && TrimSpace(s) == s[i..j] && AllSpace(s[..i]) && AllSpace(s[j..])
    ensures i < j ==> !IsSpace(s[i]) && !IsSpace(s[j - 1])
  {
    hide TrimLeft, TrimRight, IsSpace, AllSpace;
    i := TrimLeftCuts(s);
    var k := TrimRightCuts(s[i..]);
    j := i + k;
    assert s[i..][..k] == s[i..j] && s[i..][k..] == s[j..];
    if k > 0 { assert s[i..][k - 1] == s[j - 1]; }
  }

  /** An identifier from the alphabet is left as it is. */
  lemma TrimKeepsPeerId(s: string)
    requires PeerId(s)
    ensures TrimSpace(s) == s
  {
    assert s[0] in s && s[|s| - 1] in s;
  }

  /** The order sort.Strings uses. */
  predicate Leq(a: string, b: string) {
    a == "" || (b != "" && (a[0] < b[0] || (a[0] == b[0] && Leq(a[1..], b[1..]))))
  }

  lemma {:induction false} LeqTotal(a: string, b: string)
    ensures Leq(a, b) || Leq(b, a)
  {
    if a != "" && b != "" { LeqTotal(a[1..], b[1..]); }
  }

  lemma {:induction false} LeqAntisymmetric(a: string, b: string)
    requires Leq(a, b) && Leq(b, a)
    ensures a == b
  {
    if a != "" && b != "" {
      LeqAntisymmetric(a[1..], b[1..]);
      assert a == [a[0]] + a[1..] && b == [b[0]] + b[1..];
    }
  }

  function PairKey(a: string, b: string): string {
    if Leq(a, b) then a + "\0" + b else b + "\0" + a
  }

  lemma PairKeySymmetric(a: string, b: string)
    ensures PairKey(a, b) == PairKey(b, a)
  {
    LeqTotal(a, b);
    if Leq(a, b) && Leq(b, a) { LeqAntisymmetric(a, b); }
  }

  predicate NulFree(s: string) {
    '\0' !in s
  }

  lemma PeerIdIsNulFree(s: string)
    requires PeerId(s)
    ensures NulFree(s)
  {
  }

  /** The first NUL of a joined key is the separator, so the two halves come back. */
  lemma JoinInjective(a: string, b: string, c: string, d: string)
    requires NulFree(a) && NulFree(c)
    requires a + "\0" + b == c + "\0" + d
    ensures a == c && b == d
  {
    var k := a + "\0" + b;
    var l := c + "\0" + d;
    assert k[|a|] == '\0' && l[|c|] == '\0';
    assert forall i :: 0 <= i < |a| ==> k[i] == a[i] && a[i] in a;
    assert forall i :: 0 <= i < |c| ==> l[i] == c[i] && c[i] in c;
    assert |a| == |c|;
    assert a == k[..|a|] && c == l[..|c|];
    assert b == k[|a| + 1..] && d == l[|c| + 1..];
  }

  /** Two pairs share a key exactly when they are the same two peers. */
  lemma PairKeyInjective(a: string, b: string, c: string, d: string)
    requires NulFree(a) && NulFree(b) && NulFree(c) && NulFree(d)
    ensures PairKey(a, b) == PairKey(c, d) <==> {a, b} == {c, d}
  {
    if PairKey(a, b) == PairKey(c, d) {
      var x, y := if Leq(a, b) then a else b, if Leq(a, b) then b else a;
      var z, w := if Leq(c, d) then c else d, if Leq(c, d) then d else c;
      JoinInjective(x, y, z, w);
      assert {a, b} == {x, y} && {c, d} == {z, w};
    } else if {a, b} == {c, d} {
      assert a in {c, d} && b in {c, d} && c in {a, b} && d in {a, b};
      PairKeySymmetric(a, b);
    }
  }

  /** Outside the alphabet the key does collide: a NUL inside an identifier reads as
      the separator. */
  lemma PairKeyCollidesOnNul()
    ensures PairKey("a", "b\0c") == PairKey("a\0b", "c")
    ensures {"a", "b\0c"} != {"a\0b", "c"}
  {
  }

  /** A NUL of the key at which it reads as an ordered pair. */
  predicate ReadsAt(key: string, i: int) {
    0 <= i < |key| && key[i] == '\0' && Leq(key[..i], key[i + 1..])
  }

  lemma KeyReadsAsItsPair(a: string, b: string) returns (i: nat)
    ensures ReadsAt(PairKey(a, b), i)
    ensures {PairKey(a, b)[..i], PairKey(a, b)[i + 1..]} == {a, b}
  {
    LeqTotal(a, b);
    var x, y := if Leq(a, b) then a else b, if Leq(a, b) then b else a;
    i := |x|;
    var key := PairKey(a, b);
    assert key == x + "\0" + y && key[..i] == x && key[i + 1..] == y;
  }

  lemma ReadsAsJoin(key: string, i: int)
    requires ReadsAt(key, i)
    ensures PairKey(key[..i], key[i + 1..]) == key
  {
    assert key == key[..i] + "\0" + key[i + 1..];
  }

  /** The exact condition: some other pair shares the key of `a` and `b` if and only if the
      key has a NUL at which it reads as an ordered pair that is not the two of them. */
  lemma PairKeyCollidesIff(a: string, b: string)
    ensures (exists c, d :: PairKey(c, d) == PairKey(a, b) && {c, d} != {a, b})
      <==> (exists i :: ReadsAt(PairKey(a, b), i) && {PairKey(a, b)[..i], PairKey(a, b)[i + 1..]} != {a, b})
  {
    hide Leq, PairKey;
    var key := PairKey(a, b);
    if c, d :| PairKey(c, d) == key && {c, d} != {a, b} {
      var i := KeyReadsAsItsPair(c, d);
    }
    if i :| ReadsAt(key, i) && {key[..i], key[i + 1..]} != {a, b} {
      ReadsAsJoin(key, i);
    }
  }
}
