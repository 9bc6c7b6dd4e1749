/** How the comparer writes a polynomial down: keys in sorted order, each with its coefficient. Two
    polynomials are compared by this text. */
module Rendering {
  import opened R1cs

  // ---- The first key ----

  ghost predicate IsLeast(k: string, keys: set<string>) {
    k in keys && forall j :: j in keys ==> LexLe(k, j)
  }

  lemma LeastUnique(k: string, j: string, keys: set<string>)
    requires IsLeast(k, keys) && IsLeast(j, keys)
    ensures k == j
  {
    LexTotal(k, j);
  }

  /** The first key in sorted order. */
  method FindLeast(keys: set<string>) returns (k: string)
    requires keys != {}
    ensures IsLeast(k, keys)
  {
    k :| k in keys;
    var left := keys - {k};
    LexTotal(k, k);
    while left != {}
      invariant left <= keys && IsLeast(k, keys - left)
      decreases |left|
    {
      var j :| j in left;
      LexTotal(k, j);
      if LexLe(j, k) {
        forall i | i in keys - left ensures LexLe(j, i) { LexTrans(j, k, i); }
        LexTotal(j, j);
        k := j;
      }
      left := left - {j};
    }
    assert keys - left == keys;
  }

  ghost function Pivot(keys: set<string>): string
    requires keys != {}
    ensures IsLeast(Pivot(keys), keys)
  {
    LeastExists(keys);
    var k :| IsLeast(k, keys);
    k
  }

  lemma {:induction false} LeastExists(keys: set<string>)
    requires keys != {}
    ensures exists k :: IsLeast(k, keys)
    decreases |keys|
  {
    var x :| x in keys;
    LexTotal(x, x);
    if keys == {x} {
      assert IsLeast(x, keys);
    } else {
      LeastExists(keys - {x});
      var k :| IsLeast(k, keys - {x});
      LexTotal(x, k);
      if LexLe(k, x) {
        assert IsLeast(k, keys);
      } else {
        forall j | j in keys ensures LexLe(x, j) { if j != x { LexTrans(x, k, j); } }
        assert IsLeast(x, keys);
      }
    }
  }

  // ---- Decimal numbers ----

  const DIGITS := "0123456789"

  function Digits(n: nat): string {
    if n < 10 then [DIGITS[n]] else Digits(n / 10) + [DIGITS[n % 10]]
  }

  function DigitOf(c: char): nat {
    if '0' <= c <= '9' then (c as int - '0' as int) else 0
  }

  function Parse(s: string): nat {
    if s == [] then 0 else Parse(s[..|s| - 1]) * 10 + DigitOf(s[|s| - 1])
  }

  lemma DigitRoundTrip(d: nat)
    requires d < 10
    ensures DigitOf(DIGITS[d]) == d && '0' <= DIGITS[d] <= '9'
  {
    assert DIGITS == ['0', '1', '2', '3', '4', '5', '6', '7', '8', '9'];
  }

  lemma {:induction false} DigitsRoundTrip(n: nat)
    ensures Parse(Digits(n)) == n && forall c :: c in Digits(n) ==> '0' <= c <= '9'
  {
    DigitRoundTrip(n % 10);
    if n < 10 {
      assert Digits(n)[..0] == [];
    } else {
      DigitsRoundTrip(n / 10);
      var init := Digits(n / 10);
      assert (init + [DIGITS[n % 10]])[..|init|] == init;
    }
  }

  // ---- The text ----

  function Entry(key: string, coeff: nat): string {
    key + ['='] + Digits(coeff)
  }

  ghost function Entries(t: Terms): string
    requires t != map[]
    decreases |t|
  {
    var k := Pivot(t.Keys);
    var rest := t - {k};
    if rest == map[] then Entry(k, t[k]) else Entry(k, t[k]) + [';'] + Entries(rest)
  }

  ghost function More(rest: Terms): string {
    if rest == map[] then [] else [';'] + Entries(rest)
  }

  lemma EntriesHead(t: Terms, k: string)
    requires t != map[] && IsLeast(k, t.Keys)
    ensures Entries(t) == Entry(k, t[k]) + More(t - {k}) && |t - {k}| < |t|
  {
    hide Entry;
    LeastUnique(k, Pivot(t.Keys), t.Keys);
    assert t.Keys == (t - {k}).Keys + {k};
  }

  ghost function Render(t: Terms): string {
    if t == map[] then "0" else Entries(t)
  }

  method RenderTerms(t: Terms) returns (text: string)
    ensures text == Render(t)
  {
    if t == map[] { return "0"; }
    text := "";
    var left := t;
    var first := true;
    while left != map[]
      invariant first ==> text == "" && left == t
      invariant !first && left == map[] ==> text == Entries(t)
      invariant !first && left != map[] ==> text + [';'] + Entries(left) == Entries(t)
      decreases |left|
    {
      hide Entries, Entry;
      var k := FindLeast(left.Keys);
      EntriesHead(left, k);
      var entry := Entry(k, left[k]);
      var rest := left - {k};
      ghost var more := More(rest);
      if first {
        text := entry;
      } else {
        assert text + [';'] + (entry + more) == (text + [';'] + entry) + more;
        text := text + [';'] + entry;
      }
      left, first := rest, false;
    }
  }

  // ---- Reading it back ----

  /** The last separator splits a text in one way only. */
  lemma SplitUniqueLast(sep: char, a: string, b: string, c: string, d: string)
    requires sep !in b && sep !in d && a + [sep] + b == c + [sep] + d
    ensures a == c && b == d
  {
    var s, t := a + [sep] + b, c + [sep] + d;
    assert s[|a|] == sep && t[|c|] == sep;
    assert forall i :: |a| < i < |s| ==> s[i] == b[i - |a| - 1];
    assert forall i :: |c| < i < |t| ==> t[i] == d[i - |c| - 1];
    assert |a| == |c|;
    assert a == s[..|a|] && c == t[..|c|];
    assert b == s[|a| + 1..] && d == t[|c| + 1..];
  }

  lemma EntryUnique(k: string, x: nat, j: string, y: nat)
    requires Entry(k, x) == Entry(j, y)
    ensures k == j && x == y
  {
    hide Digits, Parse;
    DigitsRoundTrip(x);
    DigitsRoundTrip(y);
    SplitUniqueLast('=', k, Digits(x), j, Digits(y));
  }

  /** What follows the key in an entry has no separator. */
  lemma EntryShape(k: string, x: nat)
    ensures '=' in Entry(k, x) && |Entry(k, x)| > |k|
    ensures forall i :: |k| <= i < |Entry(k, x)| ==> Entry(k, x)[i] != ';'
    ensures k <= Entry(k, x)
  {
    hide Digits, Parse;
    DigitsRoundTrip(x);
    assert Entry(k, x)[|k|] == '=';
    forall i | |k| <= i < |Entry(k, x)| ensures Entry(k, x)[i] != ';' {
      if i > |k| {
        assert Entry(k, x)[i] == Digits(x)[i - |k| - 1];
        assert Digits(x)[i - |k| - 1] in Digits(x);
      }
    }
  }

  /** No key begins with another key's entry and the separator. */
  ghost predicate NoEntryPrefix(keys: set<string>) {
    forall j, k, c: nat | j in keys && k in keys :: !StartsWithEntry(k, j, c)
  }

  predicate StartsWithEntry(k: string, j: string, c: nat) {
    Entry(j, c) + [';'] <= k
  }

  lemma HeadRest(t: Terms) returns (k: string, rest: Terms)
    requires t != map[]
    ensures k in t && rest == t - {k} && |rest| < |t| && rest.Keys <= t.Keys
    ensures Entries(t) == Entry(k, t[k]) + More(rest)
  {
    hide Entry;
    k := Pivot(t.Keys);
    rest := t - {k};
    assert t == rest[k := t[k]];
    assert k !in rest;
  }

  /** Two entries that begin one text, each to its end or to a separator, are the same. */
  lemma FirstEntry(j: string, x: nat, m: string, k: string, y: nat, n: string)
    requires Entry(j, x) + m == Entry(k, y) + n
    requires (m == [] || m[0] == ';') && (n == [] || n[0] == ';')
    requires !StartsWithEntry(k, j, x) && !StartsWithEntry(j, k, y)
    ensures j == k && x == y && m == n
  {
    EntryShape(j, x);
    EntryShape(k, y);
    hide Entry, StartsWithEntry;
    if |Entry(j, x)| < |Entry(k, y)| {
      LongerEntry(j, x, m, k, y, n);
    } else if |Entry(k, y)| < |Entry(j, x)| {
      LongerEntry(k, y, n, j, x, m);
    } else {
      assert (Entry(j, x) + m)[..|Entry(j, x)|] == Entry(j, x);
      assert (Entry(k, y) + n)[..|Entry(k, y)|] == Entry(k, y);
      assert (Entry(j, x) + m)[|Entry(j, x)|..] == m && (Entry(k, y) + n)[|Entry(k, y)|..] == n;
      EntryUnique(j, x, k, y);
    }
  }

  lemma LongerEntry(j: string, x: nat, m: string, k: string, y: nat, n: string)
    requires Entry(j, x) + m == Entry(k, y) + n && (m == [] || m[0] == ';') && |Entry(j, x)| < |Entry(k, y)|
    ensures StartsWithEntry(k, j, x)
  {
    EntryShape(k, y);
    hide Entry;
    var s, i := Entry(j, x) + m, |Entry(j, x)|;
    assert s[i] == m[0] && s[i] == Entry(k, y)[i];
    assert i < |k|;
    forall h | 0 <= h <= i ensures (Entry(j, x) + [';'])[h] == k[h] {
      assert s[h] == Entry(k, y)[h] == k[h];
    }
  }

  lemma MoreShape(rest: Terms)
    ensures More(rest) == [] <==> rest == map[]
    ensures rest != map[] ==> More(rest) == [';'] + Entries(rest) && More(rest)[0] == ';'
  {
    hide Entries;
  }

  lemma SameHead(t: Terms, u: Terms, k: string)
    requires k in t && k in u && t[k] == u[k] && t - {k} == u - {k}
    ensures t == u
  {
    forall j ensures j in t <==> j in u {
      assert j in t - {k} <==> j in t && j != k;
      assert j in u - {k} <==> j in u && j != k;
    }
    forall j | j in t ensures t[j] == u[j] {
      if j != k { assert t[j] == (t - {k})[j] == (u - {k})[j]; }
    }
  }

  lemma SeparatedKeys(keys: set<string>, j: string, k: string, c: nat)
    requires NoEntryPrefix(keys) && j in keys && k in keys
    ensures !StartsWithEntry(k, j, c)
  {
  }

  /** Polynomials none of whose keys begins with another's entry are determined by their text. */
  lemma {:induction false} EntriesInjective(keys: set<string>, t: Terms, u: Terms)
    requires t != map[] && u != map[] && NoEntryPrefix(keys) && t.Keys <= keys && u.Keys <= keys
    requires Entries(t) == Entries(u)
    ensures t == u
    decreases |t|
  {
    hide *;
    var k, rest := HeadRest(t);
    var j, rest' := HeadRest(u);
    MoreShape(rest);
    MoreShape(rest');
    SeparatedKeys(keys, k, j, t[k]);
    SeparatedKeys(keys, j, k, u[j]);
    FirstEntry(k, t[k], More(rest), j, u[j], More(rest'));
    if rest != map[] && rest' != map[] {
      assert Entries(rest) == More(rest)[1..] && Entries(rest') == More(rest')[1..];
      EntriesInjective(keys, rest, rest');
    }
    SameHead(t, u, k);
  }

  lemma NotZeroText(t: Terms)
    requires t != map[]
    ensures Entries(t) != "0"
  {
    hide *;
    var k, rest := HeadRest(t);
    EntryShape(k, t[k]);
    var i :| 0 <= i < |Entry(k, t[k])| && Entry(k, t[k])[i] == '=';
    assert Entries(t)[i] == '=';
    assert '=' !in "0";
  }

  lemma RenderInjective(keys: set<string>, t: Terms, u: Terms)
    requires NoEntryPrefix(keys) && t.Keys <= keys && u.Keys <= keys && Render(t) == Render(u)
    ensures t == u
  {
    hide Entries, NoEntryPrefix;
    if t != map[] { NotZeroText(t); }
    if u != map[] { NotZeroText(u); }
    if t != map[] && u != map[] { EntriesInjective(keys, t, u); }
  }

  lemma PrefixMember(a: string, k: string)
    requires a + [';'] <= k
    ensures ';' in k
  {
    assert (a + [';'])[|a|] == ';' && k[|a|] == ';';
  }

  /** Keys without the separator are such keys. */
  lemma PlainKeysSeparate(keys: set<string>)
    requires forall k :: k in keys ==> ';' !in k
    ensures NoEntryPrefix(keys)
  {
    hide Entry;
    forall j, k, c: nat | j in keys && k in keys ensures !StartsWithEntry(k, j, c) {
      if StartsWithEntry(k, j, c) { PrefixMember(Entry(j, c), k); }
    }
  }
}
