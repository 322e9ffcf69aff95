/** Configuration keys of channels: chans.<name>.<index>.<field>. */
module Keys {

  import opened Wrappers

  const CHANS: string := "chans."

  function Digit(d: nat): char
    requires d < 10
  {
    ['0', '1', '2', '3', '4', '5', '6', '7', '8', '9'][d]
  }

  /** Decimal representation. */
  function Digits(n: nat): string {
    if n < 10 then [Digit(n)] else Digits(n / 10) + [Digit(n % 10)]
  }

  function DigitValue(c: char): nat { if '0' <= c <= '9' then (c as int) - ('0' as int) else 0 }

  function Number(s: string): nat {
    if s == [] then 0 else 10 * Number(s[..|s| - 1]) + DigitValue(s[|s| - 1])
  }

  lemma {:induction false} DigitsRoundTrip(n: nat)
    ensures Number(Digits(n)) == n
    ensures forall c | c in Digits(n) :: '0' <= c <= '9'
  {
    if n >= 10 {
      DigitsRoundTrip(n / 10);
      assert Digits(n)[..|Digits(n)| - 1] == Digits(n / 10);
    } else {
      assert [Digit(n)][..0] == [];
    }
  }

  lemma DigitsInjective(i: nat, j: nat)
    requires Digits(i) == Digits(j)
    ensures i == j
  {
    DigitsRoundTrip(i);
    DigitsRoundTrip(j);
  }

  predicate DotFree(s: string) { '.' !in s }

  /** Everything before the first dot. */
  function UpToDot(s: string): string {
    if s == [] || s[0] == '.' then [] else [s[0]] + UpToDot(s[1..])
  }

  lemma {:induction false} UpToDotOf(a: string, rest: string)
    requires DotFree(a)
    ensures UpToDot(a + "." + rest) == a
  {
    var s := a + "." + rest;
    if a == [] {
    } else {
      UpToDotOf(a[1..], rest);
      assert s[1..] == a[1..] + "." + rest;
      assert s[0] == a[0];
    }
  }

  /** What follows the first dot does not matter. */
  lemma {:induction false} UpToDotStops(a: string, rest: string)
    ensures UpToDot(a + "." + rest) == UpToDot(a)
  {
    var s := a + "." + rest;
    if a == [] {
      assert s[0] == '.';
    } else {
      UpToDotStops(a[1..], rest);
      assert s[1..] == a[1..] + "." + rest && s[0] == a[0];
    }
  }

  lemma {:induction false} UpToDotSelf(s: string)
    ensures UpToDot(s) == s <==> DotFree(s)
  {
    if s == [] {
    } else {
      UpToDotSelf(s[1..]);
      UpToDotFree(s);
      if DotFree(s) { assert forall c | c in s[1..] :: c in s; }
    }
  }

  lemma {:induction false} UpToDotFree(s: string)
    ensures DotFree(UpToDot(s))
  {
    if s != [] && s[0] != '.' { UpToDotFree(s[1..]); }
  }

  /** A dot after a dot-free part splits a string in only one way. */
  lemma SplitUnique(a: string, r: string, b: string, t: string)
    requires DotFree(a) && DotFree(b) && a + "." + r == b + "." + t
    ensures a == b && r == t
  {
    UpToDotOf(a, r);
    UpToDotOf(b, t);
    assert (a + "." + r)[|a| + 1..] == r;
    assert (b + "." + t)[|b| + 1..] == t;
  }

  function Prefix(name: string, i: nat): string { CHANS + name + "." + Digits(i) + "." }

  function Key(name: string, i: nat, field: string): string { Prefix(name, i) + field }

  lemma KeyShape(name: string, i: nat, field: string)
    ensures Key(name, i, field) == CHANS + (name + "." + (Digits(i) + "." + field))
  {
  }

  lemma DropChans(a: string, b: string)
    requires CHANS + a == CHANS + b
    ensures a == b
  {
    assert (CHANS + a)[6..] == a && (CHANS + b)[6..] == b;
  }

  lemma DigitsDotFree(i: nat)
    ensures DotFree(Digits(i)) && '[' !in Digits(i) && ']' !in Digits(i)
  {
    DigitsRoundTrip(i);
  }

  /** A dot before a dot-free part splits a string in only one way. */
  lemma SplitLast(a: string, f: string, b: string, g: string)
    requires DotFree(f) && DotFree(g) && a + "." + f == b + "." + g
    ensures a == b && f == g
  {
    var s := a + "." + f;
    assert s[|a|] == '.' && s[|b|] == '.';
    assert forall j | |a| < j < |s| :: s[j] in f;
    assert forall j | |b| < j < |s| :: (b + "." + g)[j] in g;
    assert |a| == |b|;
    assert s[..|a|] == a && (b + "." + g)[..|b|] == b;
    assert s[|a| + 1..] == f && (b + "." + g)[|b| + 1..] == g;
  }

  /** Different channels, indices or fields never share a key, whatever the names contain. */
  lemma KeyInjective(n: string, i: nat, f: string, m: string, j: nat, g: string)
    requires DotFree(f) && DotFree(g) && Key(n, i, f) == Key(m, j, g)
    ensures n == m && i == j && f == g
  {
    var p, q := CHANS + n, CHANS + m;
    assert Key(n, i, f) == (p + "." + Digits(i)) + "." + f;
    assert Key(m, j, g) == (q + "." + Digits(j)) + "." + g;
    SplitLast(p + "." + Digits(i), f, q + "." + Digits(j), g);
    DigitsDotFree(i);
    DigitsDotFree(j);
    SplitLast(p, Digits(i), q, Digits(j));
    DigitsInjective(i, j);
    DropChans(n, m);
  }

  /** With dot-free names a key also splits from the left, whatever follows the index. */
  lemma PrefixInjective(n: string, i: nat, f: string, m: string, j: nat, g: string)
    requires DotFree(n) && DotFree(m) && Key(n, i, f) == Key(m, j, g)
    ensures n == m && i == j && f == g
  {
    KeyShape(n, i, f);
    KeyShape(m, j, g);
    DropChans(n + "." + (Digits(i) + "." + f), m + "." + (Digits(j) + "." + g));
    SplitUnique(n, Digits(i) + "." + f, m, Digits(j) + "." + g);
    DigitsDotFree(i);
    DigitsDotFree(j);
    SplitUnique(Digits(i), f, Digits(j), g);
    DigitsInjective(i, j);
  }

  /** A key that starts with the prefix of index i belongs to index i: 1 never captures 10. */
  lemma PrefixOwns(n: string, i: nat, m: string, j: nat, g: string)
    requires DotFree(n) && DotFree(m) && Prefix(n, i) <= Key(m, j, g)
    ensures n == m && i == j
  {
    var f := Key(m, j, g)[|Prefix(n, i)|..];
    assert Key(n, i, f) == Key(m, j, g);
    PrefixInjective(n, i, f, m, j, g);
  }

  // ---------------------------------------------------------------- counting channels

  /** The expression chans\..*\.type matches the whole key. */
  predicate IsTypeKey(k: string) {
    |k| >= 11 && k[..6] == CHANS && k[|k| - 5..] == ".type"
  }

  function NameOf(k: string): string
    requires |k| >= 6
  {
    UpToDot(k[6..])
  }

  /** The name a key is counted under. */
  lemma KeyName(n: string, i: nat, f: string)
    ensures |Key(n, i, f)| >= 6 && CHANS <= Key(n, i, f) && NameOf(Key(n, i, f)) == UpToDot(n)
  {
    KeyShape(n, i, f);
    assert Key(n, i, f)[6..] == n + "." + (Digits(i) + "." + f);
    UpToDotStops(n, Digits(i) + "." + f);
  }

  /** The last dot of a key separates its field. */
  lemma LastField(p: string, f: string)
    requires DotFree(f)
    requires var k := p + "." + f; |k| >= 5 && k[|k| - 5..] == ".type"
    ensures f == "type"
  {
    var k := p + "." + f;
    var t := k[|k| - 5..];
    assert k[|p|] == '.';
    assert forall j | |p| < j < |k| :: k[j] in f;
    assert k[|k| - 5] == t[0] == '.';
    assert |f| <= 4;
    assert t[4 - |f|] == k[|p|];
    assert t[1..] == "type";
    assert k[|k| - |f|..] == f;
  }

  lemma TypeKeyField(n: string, i: nat, f: string)
    requires DotFree(f)
    ensures IsTypeKey(Key(n, i, f)) <==> f == "type"
  {
    var k := Key(n, i, f);
    var p := CHANS + n + "." + Digits(i);
    assert k == p + "." + f;
    assert |p| >= 8 by { assert |Digits(i)| >= 1; }
    if IsTypeKey(k) {
      LastField(p, f);
    }
    assert f == "type" ==> k[|k| - 5..] == ".type" && k[..6] == CHANS;
  }

  // ---------------------------------------------------------------- channel names

  /** What the channel object is called, and the parts it can give back. */
  function FullName(name: string, i: nat): string { name + "[" + Digits(i) + "]" }

  /** Position of the last occurrence of `c`. */
  function LastIndex(s: string, c: char): (r: Option<nat>)
    ensures r.Some? ==> r.value < |s|
  {
    if s == [] then None
    else if s[|s| - 1] == c then Some(|s| - 1)
    else LastIndex(s[..|s| - 1], c)
  }

  lemma {:induction false} LastIndexOf(a: string, c: char, b: string)
    requires c !in b
    ensures LastIndex(a + [c] + b, c) == Some(|a|)
  {
    var s := a + [c] + b;
    assert s[|a|] == c;
    if b == [] {
    } else {
      var t := b[..|b| - 1];
      assert s[..|s| - 1] == a + [c] + t;
      assert s[|s| - 1] == b[|b| - 1];
      LastIndexOf(a, c, t);
    }
  }

  /** Erasing from a bracket that is not there throws: None. */
  function GetPrefix(full: string): Option<string> {
    match LastIndex(full, '[')
    case None => None
    case Some(n) => Some(full[..n])
  }

  /** Cut at the last ']', then after the last '[' if there is one. */
  function GetIndex(full: string): Option<string> {
    match LastIndex(full, ']')
    case None => None
    case Some(n) =>
      var s := full[..n];
      match LastIndex(s, '[')
      case None => Some(s)
      case Some(m) => Some(s[m + 1..])
  }

  /** Whatever the name contains, prefix and index come back and rebuild the configuration key. */
  lemma NameRoundTrip(name: string, i: nat)
    ensures GetPrefix(FullName(name, i)) == Some(name)
    ensures GetIndex(FullName(name, i)) == Some(Digits(i))
  {
    var full := FullName(name, i);
    DigitsDotFree(i);
    assert full == name + ['['] + (Digits(i) + "]");
    LastIndexOf(name, '[', Digits(i) + "]");
    assert full[..|name|] == name;
    var s := name + "[" + Digits(i);
    assert full == s + [']'] + "";
    LastIndexOf(s, ']', "");
    assert full[..|s|] == s;
    assert s == name + ['['] + Digits(i);
    LastIndexOf(name, '[', Digits(i));
  }

  /** The key under which a rewritten address is put back. */
  function AddressKey(full: string): Option<string> {
    match (GetPrefix(full), GetIndex(full))
    case (Some(p), Some(i)) => Some(CHANS + p + "." + i + ".address")
    case _ => None
  }

  lemma AddressKeyIs(name: string, i: nat)
    ensures AddressKey(FullName(name, i)) == Some(Key(name, i, "address"))
  {
    NameRoundTrip(name, i);
    assert CHANS + name + "." + Digits(i) + ".address" == Key(name, i, "address");
  }
}
