/** Positional step keys: the first call of a label keeps the label, call N is
    keyed `label#N`. Models the key arithmetic of src/papayya/durable/run.py. */
module Labels {

  function Decimal(n: nat): string {
    if n < 10 then [DigitChar(n)] else Decimal(n / 10) + [DigitChar(n % 10)]
  }

  function DigitChar(d: nat): char
    requires d < 10
  {
    '0' + d as char
  }

  /** The value of a numeral; the inverse of `Decimal`. */
  function Numeral(s: string): nat
    requires forall i :: 0 <= i < |s| ==> '0' <= s[i] <= '9'
  {
    if s == [] then 0
    else 10 * Numeral(s[..|s| - 1]) + (s[|s| - 1] - '0') as nat
  }

  lemma {:induction false} DecimalRoundTrip(n: nat)
    ensures IsDigits(Decimal(n))
    ensures Numeral(Decimal(n)) == n
    ensures n > 0 ==> Decimal(n)[0] != '0'
    ensures n < 10 ==> |Decimal(n)| == 1
  {
    if n >= 10 {
      DecimalRoundTrip(n / 10);
      var s := Decimal(n);
      assert s[..|s| - 1] == Decimal(n / 10);
    } else {
      var s := Decimal(n);
      assert s[..|s| - 1] == [];
    }
  }

  predicate IsDigits(s: string) {
    s != [] && forall i :: 0 <= i < |s| ==> '0' <= s[i] <= '9'
  }

  function Key(name: string, n: nat): string
    requires n >= 1
  {
    if n == 1 then name else name + "#" + Decimal(n)
  }

  /** Position of the last `#`, or -1. */
  function LastHash(s: string): (i: int)
    ensures -1 <= i < |s|
    ensures i >= 0 ==> s[i] == '#'
    ensures forall j :: i < j < |s| ==> s[j] != '#'
  {
    if s == [] then -1
    else if s[|s| - 1] == '#' then |s| - 1
    else LastHash(s[..|s| - 1])
  }

  predicate HasDigitTail(name: string) {
    var i := LastHash(name);
    i >= 0 && IsDigits(name[i + 1..])
  }

  function BaseLabel(name: string): string {
    if HasDigitTail(name) then name[..LastHash(name)] else name
  }

  /** `name` is `base`, a hash and digits. */
  predicate EndsInDigits(name: string, base: string) {
    |base| < |name| && name[..|base|] == base && name[|base|] == '#'
    && |base| + 1 < |name| && forall i :: |base| < i < |name| ==> '0' <= name[i] <= '9'
  }

  /** What stripping a suffix means: a label of that form loses it, any other stays. */
  lemma BaseLabelMeaning(name: string)
    ensures HasDigitTail(name) <==> exists base :: EndsInDigits(name, base)
    ensures forall base :: EndsInDigits(name, base) ==> BaseLabel(name) == base
    ensures (forall base :: !EndsInDigits(name, base)) ==> BaseLabel(name) == name
  {
    var i := LastHash(name);
    if HasDigitTail(name) {
      forall j | i < j < |name|
        ensures '0' <= name[j] <= '9'
      {
        assert name[i + 1..][j - i - 1] == name[j];
      }
      assert EndsInDigits(name, name[..i]);
    }
    forall base | EndsInDigits(name, base)
      ensures HasDigitTail(name) && name[..i] == base
    {
      assert i == |base|;
    }
  }

  lemma {:induction false} LastHashAt(name: string, tail: string)
    requires forall i :: 0 <= i < |tail| ==> tail[i] != '#'
    ensures LastHash(name + "#" + tail) == |name|
  {
    var k := name + "#" + tail;
    if tail == [] {
      assert k == name + "#";
    } else {
      var shorter := tail[..|tail| - 1];
      LastHashAt(name, shorter);
      assert k[..|k| - 1] == name + "#" + shorter;
    }
  }

  lemma {:induction false} HashThenDigits(name: string, tail: string)
    requires IsDigits(tail)
    ensures LastHash(name + "#" + tail) == |name|
    ensures (name + "#" + tail)[|name| + 1..] == tail
    ensures (name + "#" + tail)[..|name|] == name
  {
    LastHashAt(name, tail);
  }

  lemma SuffixedKey(name: string, n: nat)
    requires n >= 2
    ensures LastHash(Key(name, n)) == |name|
    ensures HasDigitTail(Key(name, n))
    ensures BaseLabel(Key(name, n)) == name
    ensures Key(name, n)[|name| + 1..] == Decimal(n)
  {
    DecimalRoundTrip(n);
    HashThenDigits(name, Decimal(n));
  }

  /** The base label comes back out of a key, except for a first call whose own
      label already looks like a suffixed key. */
  lemma BaseOfKey(name: string, n: nat)
    requires n >= 1
    ensures BaseLabel(Key(name, n)) == name <==> n >= 2 || !HasDigitTail(name)
  {
    if n >= 2 {
      SuffixedKey(name, n);
    } else if HasDigitTail(name) {
      assert |name[..LastHash(name)]| < |name|;
    }
  }

  /** Exactly when two calls share a key: they are the same call, or one is a
      first call whose label spells the other's suffixed key. */
  lemma KeysCollide(l: string, n: nat, m: string, k: nat)
    requires n >= 1 && k >= 1
    ensures Key(l, n) == Key(m, k) <==>
              || (l == m && n == k)
              || (n == 1 && k >= 2 && l == m + "#" + Decimal(k))
              || (k == 1 && n >= 2 && m == l + "#" + Decimal(n))
  {
    if n >= 2 && k >= 2 && Key(l, n) == Key(m, k) {
      SuffixedKey(l, n);
      SuffixedKey(m, k);
      DecimalRoundTrip(n);
      DecimalRoundTrip(k);
    } else if n >= 2 && k >= 2 && l == m && n == k {
    } else if n >= 2 && k == 1 && l == m {
      assert |Key(l, n)| > |m|;
    } else if n == 1 && k >= 2 && l == m {
      assert |Key(m, k)| > |l|;
    }
  }

  /** Over labels without a digit tail the key is a code: no two calls share one. */
  lemma KeyInjective(l: string, n: nat, m: string, k: nat)
    requires n >= 1 && k >= 1
    requires !HasDigitTail(l) && !HasDigitTail(m)
    requires Key(l, n) == Key(m, k)
    ensures l == m && n == k
  {
    KeysCollide(l, n, m, k);
    if n >= 2 { SuffixedKey(l, n); }
    if k >= 2 { SuffixedKey(m, k); }
  }

  lemma KeysDiffer(l: string, n: nat, m: string, k: nat)
    requires n >= 1 && k >= 1
    requires !HasDigitTail(l) && !HasDigitTail(m)
    requires l != m || n != k
    ensures Key(l, n) != Key(m, k)
  {
    if Key(l, n) == Key(m, k) {
      KeyInjective(l, n, m, k);
    }
  }

  /** The number of times `label` occurs in a call list. */
  function Count(calls: seq<string>, name: string): nat {
    if calls == [] then 0
    else Count(calls[..|calls| - 1], name) + (if calls[|calls| - 1] == name then 1 else 0)
  }

  /** The key of call `i` of a call list. */
  function KeyAt(calls: seq<string>, i: nat): string
    requires i < |calls|
  {
    Key(calls[i], Count(calls[..i], calls[i]) + 1)
  }

  /** No two calls share a key. */
  ghost predicate DistinctKeys(names: seq<string>) {
    forall i, j :: 0 <= i < j < |names| ==> KeyAt(names, i) != KeyAt(names, j)
  }

  lemma KeyAtPrefix(calls: seq<string>, n: nat, i: nat)
    requires i < n <= |calls|
    ensures KeyAt(calls[..n], i) == KeyAt(calls, i)
  {
    assert calls[..n][..i] == calls[..i];
  }

  lemma {:induction false} CountMonotone(calls: seq<string>, i: nat, name: string)
    requires i <= |calls|
    ensures Count(calls[..i], name) <= Count(calls, name)
    decreases |calls|
  {
    if i < |calls| {
      var shorter := calls[..|calls| - 1];
      assert shorter[..i] == calls[..i];
      CountMonotone(shorter, i, name);
    } else {
      assert calls[..i] == calls;
    }
  }

  lemma {:induction false} CountStep(calls: seq<string>, i: nat)
    requires i < |calls|
    ensures Count(calls[..i], calls[i]) < Count(calls, calls[i])
  {
    var upTo := calls[..i + 1];
    assert upTo[..|upTo| - 1] == calls[..i];
    CountMonotone(calls, i + 1, calls[i]);
  }

  /** The key the next call gets is different from the key of every call before it. */
  lemma EarlierKeyDiffers(calls: seq<string>, name: string, i: nat)
    requires i < |calls|
    requires !HasDigitTail(name) && !HasDigitTail(calls[i])
    ensures KeyAt(calls, i) != Key(name, Count(calls, name) + 1)
  {
    CountStep(calls, i);
    KeysDiffer(calls[i], Count(calls[..i], calls[i]) + 1, name, Count(calls, name) + 1);
  }

  /** Two plainly labelled calls of one list have different keys. */
  lemma PlainKeysDiffer(calls: seq<string>, i: nat, j: nat)
    requires i < j < |calls|
    requires !HasDigitTail(calls[i]) && !HasDigitTail(calls[j])
    ensures KeyAt(calls, i) != KeyAt(calls, j)
  {
    KeyAtPrefix(calls, j, i);
    EarlierKeyDiffers(calls[..j], calls[j], i);
  }

  lemma DistinctPrefix(calls: seq<string>, n: nat)
    requires DistinctKeys(calls) && n <= |calls|
    ensures DistinctKeys(calls[..n])
  {
    forall i, j | 0 <= i < j < n
      ensures KeyAt(calls[..n], i) != KeyAt(calls[..n], j)
    {
      KeyAtPrefix(calls, n, i);
      KeyAtPrefix(calls, n, j);
      assert KeyAt(calls, i) != KeyAt(calls, j);
    }
  }

  /** Labels without a digit tail give every call a key of its own. */
  lemma {:induction false} PlainNamesHaveDistinctKeys(names: seq<string>)
    requires forall i :: 0 <= i < |names| ==> !HasDigitTail(names[i])
    ensures DistinctKeys(names)
  {
    forall i, j | 0 <= i < j < |names|
      ensures KeyAt(names, i) != KeyAt(names, j)
    {
      PlainKeysDiffer(names, i, j);
    }
  }

  /** Without the restriction on labels the freshness fails: two calls of `a`
      and one of `a#2`. */
  lemma DigitTailsCollide()
    ensures KeyAt(["a", "a", "a#2"], 1) == KeyAt(["a", "a", "a#2"], 2) == "a#2"
  {
    var calls := ["a", "a", "a#2"];
    assert calls[..1] == ["a"];
    assert calls[..2] == ["a", "a"];
    assert Count(["a"], "a") == 1;
    assert ["a", "a"][..1] == ["a"];
    assert Count(["a", "a"], "a#2") == 0;
  }
}
