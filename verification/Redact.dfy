/** Keeping installed secret values out of stored text: leftmost, non-overlapping
    replacement of several values. Models src/papayya/runtime/redact.py. */
module Redact {
  import opened Types

  const MARKER := "[REDACTED]"
  const MIN_LENGTH := 8

  predicate At(v: string, s: string, i: int) {
    0 <= i <= |s| - |v| && s[i..i + |v|] == v
  }

  ghost predicate Occurs(v: string, s: string) {
    exists i :: At(v, s, i)
  }

  /** The first occurrence at or after `i`. */
  function FindFrom(s: string, v: string, i: nat): (p: Option<nat>)
    requires i <= |s|
    ensures p.Some? ==> At(v, s, p.value) && i <= p.value && forall j :: i <= j < p.value ==> !At(v, s, j)
    ensures p.None? ==> forall j :: i <= j ==> !At(v, s, j)
    decreases |s| - i
  {
    if At(v, s, i) then Some(i)
    else if i == |s| then None
    else FindFrom(s, v, i + 1)
  }

  function Find(s: string, v: string): (p: Option<nat>)
    ensures p.Some? <==> Occurs(v, s)
    ensures p.Some? ==> At(v, s, p.value) && forall j :: j < p.value ==> !At(v, s, j)
  {
    FindFrom(s, v, 0)
  }

  /** `text.replace(v, "[REDACTED]")`. */
  function Replace(s: string, v: string): string
    requires v != ""
    decreases |s|
  {
    var p := Find(s, v);
    if p.None? then s
    else s[..p.value] + MARKER + Replace(s[p.value + |v|..], v)
  }

  function RedactAll(text: string, values: seq<string>): string
    requires forall i :: 0 <= i < |values| ==> values[i] != ""
    decreases |values|
  {
    if values == [] then text else RedactAll(Replace(text, values[0]), values[1..])
  }

  /** Longest first, no value twice, none too short to be a credential. */
  ghost predicate Installed(values: seq<string>) {
    && (forall i :: 0 <= i < |values| ==> |values[i]| >= MIN_LENGTH)
    && (forall i, j :: 0 <= i < j < |values| ==> |values[i]| >= |values[j]| && values[i] != values[j])
  }

  class Redactor {
    var values: seq<string>

    constructor ()
      ensures values == []
    {
      values := [];
    }

    /** Install the values to strip, replacing any previous set. */
    method SetRedactor(secrets: map<string, string>)
      modifies this
      ensures Installed(values)
      ensures forall v :: v in values <==> v in secrets.Values && |v| >= 8
    {
      var live := set name | name in secrets && |secrets[name]| >= MIN_LENGTH :: secrets[name];
      values := SortLongestFirst(live);
    }

    /** Forget every value: after it every text comes back as it is. */
    method ClearRedactor()
      modifies this
      ensures values == [] && forall text: string :: RedactAll(text, values) == text
    {
      values := [];
    }

    method Redact(input: string) returns (text: string)
      requires Installed(values)
      ensures text == RedactAll(input, values)
    {
      text := input;
      if values == [] || input == "" {
        EmptyStaysEmpty(values);
        return;
      }
      for i := 0 to |values|
        invariant RedactAll(text, values[i..]) == RedactAll(input, values)
      {
        var value := values[i];
        assert values[i..][0] == value && values[i..][1..] == values[i + 1..];
        if Find(text, value).Some? {
          text := Replace(text, value);
        }
      }
    }
  }

  method SortLongestFirst(live: set<string>) returns (values: seq<string>)
    requires forall v :: v in live ==> |v| >= MIN_LENGTH
    ensures Installed(values) && forall v :: v in values <==> v in live
  {
    values := [];
    var rest := live;
    while rest != {}
      invariant rest <= live && Installed(values)
      invariant forall v :: v in values <==> v in live && v !in rest
      invariant forall v, w :: v in values && w in rest ==> |v| >= |w|
      decreases rest
    {
      LongestExists(rest);
      var next :| next in rest && forall w :: w in rest ==> |w| <= |next|;
      values := values + [next];
      rest := rest - {next};
    }
  }

  lemma {:induction false} LongestExists(s: set<string>)
    requires s != {}
    ensures exists v :: v in s && forall w :: w in s ==> |w| <= |v|
    decreases s
  {
    var v :| v in s;
    if s - {v} != {} {
      LongestExists(s - {v});
      var u :| u in s - {v} && forall w :: w in s - {v} ==> |w| <= |u|;
      var longest := if |u| >= |v| then u else v;
      assert longest in s && forall w :: w in s ==> |w| <= |longest|;
    } else {
      assert s == {v};
    }
  }

  lemma {:induction false} EmptyStaysEmpty(values: seq<string>)
    requires forall i :: 0 <= i < |values| ==> values[i] != ""
    ensures RedactAll("", values) == ""
  {
    if values == [] {
    } else {
      EmptyStaysEmpty(values[1..]);
    }
  }

  // ---- what a replacement is ----

  /** The pieces with `sep` between them. */
  function Join(pieces: seq<string>, sep: string): string {
    if pieces == [] then ""
    else if |pieces| == 1 then pieces[0]
    else pieces[0] + sep + Join(pieces[1..], sep)
  }

  /** `v` is nowhere in the pieces, and ends each of them but the last at its first place. */
  ghost predicate CutAtFirst(pieces: seq<string>, v: string) {
    && pieces != [] && !Occurs(v, pieces[|pieces| - 1])
    && forall i, j :: 0 <= i < |pieces| - 1 && 0 <= j < |pieces[i]| ==> !At(v, pieces[i] + v, j)
  }

  lemma FirstPiece(s: string, v: string, p: nat)
    requires Find(s, v) == Some(p)
    ensures s == s[..p] + v + s[p + |v|..]
    ensures forall j :: 0 <= j < p ==> !At(v, s[..p] + v, j)
  {
    assert s[p..p + |v|] == v;
    forall j | 0 <= j < p
      ensures !At(v, s[..p] + v, j)
    {
      assert s[..p] + v == s[..p + |v|];
      if At(v, s[..p + |v|], j) {
        AtPrefix(v, s, p + |v|, j);
      }
    }
  }

  /** A replacement keeps everything else: the text is cut at the value, leftmost first, and
      the same pieces are put together again with the marker. */
  lemma {:induction false} ReplaceKeepsTheRest(s: string, v: string) returns (pieces: seq<string>)
    requires v != ""
    ensures CutAtFirst(pieces, v) && Join(pieces, v) == s && Join(pieces, "[REDACTED]") == Replace(s, v)
    decreases |s|
  {
    var p := Find(s, v);
    if p.None? {
      pieces := [s];
    } else {
      FirstPiece(s, v, p.value);
      var rest := ReplaceKeepsTheRest(s[p.value + |v|..], v);
      pieces := [s[..p.value]] + rest;
      assert pieces[1..] == rest && pieces[|pieces| - 1] == rest[|rest| - 1];
    }
  }

  // ---- values that keep clear of the marker ----

  /** The last `k` characters of `v` are the first of the marker. */
  predicate EndBeginsMarker(v: string, k: int) {
    1 <= k <= |v| && k <= |MARKER| && v[|v| - k..] == MARKER[..k]
  }

  /** The first `k` characters of `v` are the last of the marker. */
  predicate BeginningEndsMarker(v: string, k: int) {
    1 <= k <= |v| && k <= |MARKER| && v[..k] == MARKER[|MARKER| - k..]
  }

  /** No end of `v` is a beginning of the marker, no beginning of `v` an end of it,
      and `v` does not contain it. A value without brackets always keeps clear. */
  ghost predicate KeepsClear(v: string) {
    && (forall k :: !EndBeginsMarker(v, k))
    && (forall k :: !BeginningEndsMarker(v, k))
    && !Occurs(MARKER, v)
  }

  lemma NoBracketsKeepClear(v: string)
    requires forall i :: 0 <= i < |v| ==> v[i] != '[' && v[i] != ']'
    ensures KeepsClear(v)
  {
    forall k | 1 <= k <= |v| && k <= |MARKER|
      ensures v[|v| - k..] != MARKER[..k] && v[..k] != MARKER[|MARKER| - k..]
    {
      assert MARKER[..k][0] == '[' && v[|v| - k..][0] == v[|v| - k];
      assert MARKER[|MARKER| - k..][k - 1] == ']' && v[..k][k - 1] == v[k - 1];
    }
    forall i
      ensures !At(MARKER, v, i)
    {
      if 0 <= i <= |v| - |MARKER| {
        assert v[i..i + |MARKER|][0] == v[i];
      }
    }
  }

  /** Inside the marker there is only one place for a value that keeps clear of it. */
  lemma InsideTheMarker(v: string, i: int)
    requires |v| >= MIN_LENGTH && At(v, MARKER, i)
    ensures v == "REDACTED" || !KeepsClear(v)
  {
    if i == 0 {
      assert v[|v| - |v|..] == v == MARKER[..|v|];
      assert EndBeginsMarker(v, |v|);
    } else if i + |v| == |MARKER| {
      assert v[..|v|] == v == MARKER[|MARKER| - |v|..];
      assert BeginningEndsMarker(v, |v|);
    }
  }

  lemma NotInTheMarker(v: string)
    requires KeepsClear(v) && |v| >= MIN_LENGTH && v != "REDACTED"
    ensures !Occurs(v, MARKER)
  {
    forall i
      ensures !At(v, MARKER, i)
    {
      if At(v, MARKER, i) {
        InsideTheMarker(v, i);
      }
    }
  }

  lemma SliceOfSlice(s: string, i: nat, j: nat, k: nat, l: nat)
    requires i <= j <= |s| && k <= l <= j - i
    ensures s[i..j][k..l] == s[i + k..i + l]
  {
    assert forall n :: 0 <= n < l - k ==> s[i..j][k..l][n] == s[i + k..i + l][n];
  }

  /** An occurrence that ends inside the marker at `m`. */
  lemma EndsInTheMarker(v: string, s: string, m: nat, i: int)
    requires At(MARKER, s, m) && At(v, s, i) && i < m < i + |v| < m + |MARKER|
    ensures EndBeginsMarker(v, i + |v| - m) && v[..m - i] == s[i..m]
  {
    SliceOfSlice(s, i, i + |v|, m - i, |v|);
    SliceOfSlice(s, i, i + |v|, 0, m - i);
    SliceOfSlice(s, m, m + |MARKER|, 0, i + |v| - m);
    assert v[m - i..|v|] == MARKER[0..i + |v| - m];
  }

  /** An occurrence that begins inside the marker at `m`. */
  lemma BeginsInTheMarker(v: string, s: string, m: nat, i: int)
    requires At(MARKER, s, m) && At(v, s, i) && m < i < m + |MARKER| < i + |v|
    ensures BeginningEndsMarker(v, m + |MARKER| - i)
  {
    SliceOfSlice(s, i, i + |v|, 0, m + |MARKER| - i);
    SliceOfSlice(s, m, m + |MARKER|, i - m, |MARKER|);
    assert v[0..m + |MARKER| - i] == MARKER[i - m..|MARKER|];
  }

  /** An occurrence that covers the marker, or lies within it. */
  lemma NestedWithTheMarker(v: string, s: string, m: nat, i: int)
    requires At(MARKER, s, m) && At(v, s, i)
    requires (i <= m && m + |MARKER| <= i + |v|) || (m <= i && i + |v| <= m + |MARKER|)
    ensures Occurs(v, MARKER) || Occurs(MARKER, v)
  {
    var e, f := m + |MARKER|, i + |v|;
    if i <= m && e <= f {
      SliceOfSlice(s, i, f, m - i, e - i);
      assert At(MARKER, v, m - i);
    } else {
      SliceOfSlice(s, m, e, i - m, f - m);
      assert At(v, MARKER, i - m);
    }
  }

  /** Where an occurrence around a marker can be: clear of it, nested with it, or
      sharing only some characters with one end of it. */
  lemma AroundTheMarker(v: string, a: string, b: string, i: int)
    requires At(v, a + MARKER + b, i)
    ensures || Occurs(v, a) || Occurs(v, b) || Occurs(v, MARKER) || Occurs(MARKER, v)
            || (i < |a| && EndBeginsMarker(v, i + |v| - |a|) && v[..|a| - i] == a[i..])
            || (i > |a| && i + |v| > |a| + |MARKER| && BeginningEndsMarker(v, |a| + |MARKER| - i))
  {
    var s, m := a + MARKER + b, |a|;
    var e := m + |MARKER|;
    assert s[m..e] == MARKER;
    assert At(MARKER, s, m);
    if i + |v| <= m {
      assert a[i..i + |v|] == v;
      assert At(v, a, i);
    } else if i >= e {
      assert b[i - e..i - e + |v|] == s[i..i + |v|];
      assert At(v, b, i - e);
    } else if (i <= m && e <= i + |v|) || (m <= i && i + |v| <= e) {
      NestedWithTheMarker(v, s, m, i);
    } else if i < m {
      EndsInTheMarker(v, s, m, i);
      assert s[i..m] == a[i..];
    } else {
      BeginsInTheMarker(v, s, m, i);
    }
  }

  /** A value that keeps clear is not created by a marker. */
  lemma NotAroundTheMarker(v: string, a: string, b: string)
    requires KeepsClear(v) && !Occurs(v, MARKER) && !Occurs(v, a) && !Occurs(v, b)
    ensures !Occurs(v, a + MARKER + b)
  {
    forall i
      ensures !At(v, a + MARKER + b, i)
    {
      if At(v, a + MARKER + b, i) {
        AroundTheMarker(v, a, b, i);
      }
    }
  }

  lemma AtPrefix(v: string, s: string, p: nat, i: int)
    requires p <= |s| && At(v, s[..p], i)
    ensures At(v, s, i)
  {
    assert s[i..i + |v|] == s[..p][i..i + |v|];
  }

  lemma AtSuffix(v: string, s: string, q: nat, i: int)
    requires q <= |s| && At(v, s[q..], i)
    ensures At(v, s, q + i)
  {
    assert s[q + i..q + i + |v|] == s[q..][i..i + |v|];
  }

  lemma PartsStayClear(v: string, s: string, p: nat, q: nat)
    requires p <= q <= |s| && !Occurs(v, s)
    ensures !Occurs(v, s[..p]) && !Occurs(v, s[q..])
  {
    forall i
      ensures !At(v, s[..p], i) && !At(v, s[q..], i)
    {
      if At(v, s[..p], i) {
        AtPrefix(v, s, p, i);
      }
      if At(v, s[q..], i) {
        AtSuffix(v, s, q, i);
      }
    }
  }

  lemma NoneBeforeTheFirst(v: string, s: string)
    requires v != "" && Find(s, v).Some?
    ensures !Occurs(v, s[..Find(s, v).value])
  {
    var p := Find(s, v).value;
    forall i
      ensures !At(v, s[..p], i)
    {
      if At(v, s[..p], i) {
        AtPrefix(v, s, p, i);
      }
    }
  }

  lemma ReplaceUnfolds(s: string, v: string)
    requires v != "" && Occurs(v, s)
    ensures var p := Find(s, v).value;
      Replace(s, v) == s[..p] + MARKER + Replace(s[p + |v|..], v)
  {
  }

  /** Replacing a value removes it. */
  lemma {:induction false} ReplaceRemoves(s: string, v: string)
    requires v != "" && KeepsClear(v) && !Occurs(v, MARKER)
    ensures !Occurs(v, Replace(s, v))
    decreases |s|
  {
    if Find(s, v).None? {
    } else {
      var p := Find(s, v).value;
      var rest := s[p + |v|..];
      ReplaceRemoves(rest, v);
      NoneBeforeTheFirst(v, s);
      NotAroundTheMarker(v, s[..p], Replace(rest, v));
      ReplaceUnfolds(s, v);
    }
  }

  /** Replacing one value does not bring back another. */
  lemma {:induction false} ReplaceKeepsOut(s: string, v: string, w: string)
    requires v != "" && KeepsClear(w) && !Occurs(w, MARKER) && !Occurs(w, s)
    ensures !Occurs(w, Replace(s, v))
    decreases |s|
  {
    if Find(s, v).None? {
    } else {
      var p := Find(s, v).value;
      var rest := s[p + |v|..];
      PartsStayClear(w, s, p, p + |v|);
      ReplaceKeepsOut(rest, v, w);
      NotAroundTheMarker(w, s[..p], Replace(rest, v));
      ReplaceUnfolds(s, v);
    }
  }

  // ---- the theorems ----

  ghost predicate Clean(text: string, values: seq<string>) {
    forall i :: 0 <= i < |values| ==> !Occurs(values[i], text)
  }

  ghost predicate AllKeepClear(values: seq<string>) {
    forall i :: 0 <= i < |values| ==> KeepsClear(values[i]) && |values[i]| >= MIN_LENGTH
  }

  lemma {:induction false} AbsentStaysAbsent(text: string, values: seq<string>, w: string)
    requires AllKeepClear(values) && KeepsClear(w) && !Occurs(w, MARKER) && !Occurs(w, text)
    ensures !Occurs(w, RedactAll(text, values))
    decreases |values|
  {
    if values == [] {
    } else {
      ReplaceKeepsOut(text, values[0], w);
      AbsentStaysAbsent(Replace(text, values[0]), values[1..], w);
    }
  }

  lemma {:induction false} RedactionIsComplete(text: string, values: seq<string>)
    requires AllKeepClear(values) && "REDACTED" !in values
    ensures Clean(RedactAll(text, values), values)
    decreases |values|
  {
    if values == [] {
    } else {
      var v, rest := values[0], values[1..];
      NotInTheMarker(v);
      ReplaceRemoves(text, v);
      AbsentStaysAbsent(Replace(text, v), rest, v);
      RedactionIsComplete(Replace(text, v), rest);
      forall i | 0 <= i < |values|
        ensures !Occurs(values[i], RedactAll(text, values))
      {
        assert i > 0 ==> values[i] == rest[i - 1];
      }
    }
  }

  /** In the caller's terms: values without brackets, other than the word itself. */
  lemma BracketFreeSecretsAreRemoved(text: string, values: seq<string>)
    requires forall i :: 0 <= i < |values| ==> |values[i]| >= MIN_LENGTH && '[' !in values[i] && ']' !in values[i]
    requires "REDACTED" !in values
    ensures Clean(RedactAll(text, values), values)
  {
    forall i | 0 <= i < |values|
      ensures KeepsClear(values[i])
    {
      NoBracketsKeepClear(values[i]);
    }
    RedactionIsComplete(text, values);
  }

  /** A text that holds no installed value comes back unchanged. */
  lemma {:induction false} CleanTextIsUntouched(text: string, values: seq<string>)
    requires (forall i :: 0 <= i < |values| ==> values[i] != "") && Clean(text, values)
    ensures RedactAll(text, values) == text
  {
    if values == [] {
    } else {
      assert !Occurs(values[0], text);
      forall i | 0 <= i < |values[1..]|
        ensures !Occurs(values[1..][i], text)
      {
        assert values[1..][i] == values[i + 1];
      }
      CleanTextIsUntouched(text, values[1..]);
    }
  }

  /** A longer value, or another of the same length, cannot occur in `s`. */
  lemma TooLongToOccur(v: string, s: string)
    requires |v| >= |s| && v != s
    ensures !Occurs(v, s)
  {
    assert s[0..|s|] == s;
  }

  lemma ReplaceWhole(v: string)
    requires v != ""
    ensures Replace(v, v) == MARKER
  {
    assert v[0..|v|] == v;
    assert At(v, v, 0);
    assert Find(v, v) == Some(0);
    assert v[|v|..] == "";
    assert Replace("", v) == "";
  }

  /** Longest first: every installed value, alone, becomes one marker, whatever
      shorter values it contains. */
  lemma {:induction false} WholeSecretBecomesOneMarker(values: seq<string>, k: nat)
    requires Installed(values) && AllKeepClear(values) && "REDACTED" !in values && k < |values|
    ensures RedactAll(values[k], values) == "[REDACTED]"
  {
    var v, rest := values[0], values[1..];
    forall i | 0 <= i < |rest|
      ensures rest[i] == values[i + 1]
    {
    }
    if k == 0 {
      ReplaceWhole(v);
      forall i | 0 <= i < |rest|
        ensures !Occurs(rest[i], MARKER)
      {
        NotInTheMarker(rest[i]);
      }
      CleanTextIsUntouched(MARKER, rest);
    } else {
      TooLongToOccur(v, values[k]);
      WholeSecretBecomesOneMarker(rest, k - 1);
    }
  }

  lemma {:induction false} MarkerWordSurvives(values: seq<string>)
    requires Installed(values) && AllKeepClear(values) && "REDACTED" in values
    ensures RedactAll("REDACTED", values) == MARKER
  {
    var v, rest := values[0], values[1..];
    forall i | 0 <= i < |rest|
      ensures rest[i] == values[i + 1]
    {
    }
    if v == "REDACTED" {
      ReplaceWhole(v);
      forall i | 0 <= i < |rest|
        ensures !Occurs(rest[i], MARKER)
      {
        NotInTheMarker(rest[i]);
      }
      CleanTextIsUntouched(MARKER, rest);
    } else {
      TooLongToOccur(v, "REDACTED");
      MarkerWordSurvives(rest);
    }
  }

  lemma MarkerWordIsLeft(values: seq<string>)
    requires Installed(values) && AllKeepClear(values) && "REDACTED" in values
    ensures !Clean(RedactAll("REDACTED", values), values)
  {
    MarkerWordSurvives(values);
    assert MARKER[1..9] == "REDACTED";
    assert At("REDACTED", MARKER, 1);
    assert Occurs("REDACTED", MARKER);
  }

  /** For installed values that keep clear of the marker, redaction leaves none of
      them in any text exactly when the word inside the marker is not one of them. */
  lemma CompleteIffMarkerWordNotInstalled(values: seq<string>)
    requires Installed(values) && AllKeepClear(values)
    ensures (forall text :: Clean(RedactAll(text, values), values)) <==> "REDACTED" !in values
  {
    if "REDACTED" in values {
      MarkerWordIsLeft(values);
    } else {
      forall text
        ensures Clean(RedactAll(text, values), values)
      {
        RedactionIsComplete(text, values);
      }
    }
  }

  // ---- one value, whatever it looks like ----

  /** `v` behind its own first part occurs before that place already. */
  ghost predicate TakenEarlier(v: string, cut: nat)
    requires cut <= |v|
  {
    exists j :: 0 <= j < cut && At(v, v[..cut] + v, j)
  }

  /** No beginning of `v` is an end of the marker; and wherever an end of it is a
      beginning of the marker, an earlier occurrence is replaced instead. */
  ghost predicate SafeAlone(v: string) {
    && !Occurs(v, MARKER)
    && (forall k :: k < |v| ==> !BeginningEndsMarker(v, k))
    && (forall k :: k < |v| && EndBeginsMarker(v, k) ==> TakenEarlier(v, |v| - k))
  }

  /** An occurrence in `s[i..p] + v`, read as a part of `s`. */
  lemma EarlierOccurrence(v: string, s: string, i: nat, p: nat, j: nat)
    requires i <= p && At(v, s, p) && j <= p - i && At(v, s[i..p] + v, j)
    ensures At(v, s, i + j)
  {
    assert s[i..p] + v == s[i..p + |v|];
    SliceOfSlice(s, i, p + |v|, j, j + |v|);
  }

  /** An occurrence at `p` that would leave one reaching into its marker is not the first. */
  lemma NotTheFirst(v: string, s: string, i: nat, p: nat)
    requires SafeAlone(v) && At(v, s, p) && i < p < i + |v| && v[..p - i] == s[i..p]
    requires EndBeginsMarker(v, i + |v| - p)
    ensures exists q :: i <= q < p && At(v, s, q)
  {
    assert TakenEarlier(v, p - i);
    var j :| 0 <= j < p - i && At(v, v[..p - i] + v, j);
    EarlierOccurrence(v, s, i, p, j);
  }

  lemma NotAroundTheFirst(v: string, s: string, b: string)
    requires v != "" && Find(s, v).Some? && SafeAlone(v) && !Occurs(MARKER, v) && !Occurs(v, b)
    ensures !Occurs(v, s[..Find(s, v).value] + MARKER + b)
  {
    var p := Find(s, v).value;
    var a := s[..p];
    NoneBeforeTheFirst(v, s);
    forall i
      ensures !At(v, a + MARKER + b, i)
    {
      if At(v, a + MARKER + b, i) {
        AroundTheMarker(v, a, b, i);
        assert i < p ==> a[i..] == s[i..p];
        if i < p && EndBeginsMarker(v, i + |v| - p) {
          NotTheFirst(v, s, i, p);
        }
      }
    }
  }

  lemma {:induction false} SafeAloneIsRemoved(s: string, v: string)
    requires v != "" && SafeAlone(v) && !Occurs(MARKER, v)
    ensures !Occurs(v, Replace(s, v))
    decreases |s|
  {
    if Find(s, v).None? {
    } else {
      var p := Find(s, v).value;
      var rest := s[p + |v|..];
      SafeAloneIsRemoved(rest, v);
      NotAroundTheFirst(v, s, Replace(rest, v));
      ReplaceUnfolds(s, v);
    }
  }

  lemma AcrossTheEnd(m: string, v: string, k: nat)
    requires k <= |v| && k <= |m| && v[..k] == m[|m| - k..]
    ensures At(v, m + v[k..], |m| - k)
  {
    var s, i := m + v[k..], |m| - k;
    assert forall j :: 0 <= j < k ==> s[i + j] == m[i..][j] == v[..k][j];
    assert forall j :: k <= j < |v| ==> s[i..i + |v|][j] == v[j];
    assert s[i..i + |v|] == v;
  }

  lemma AcrossTheBeginning(m: string, v: string, k: nat)
    requires k <= |v| && k <= |m| && v[|v| - k..] == m[..k]
    ensures At(v, v[..|v| - k] + m, 0)
  {
    var s, i := v[..|v| - k] + m, |v| - k;
    assert forall j :: i <= j < |v| ==> s[j] == m[..k][j - i] == v[i..][j - i];
    assert s[0..|v|] == v;
  }

  /** A value that begins with an end of the marker comes back. */
  lemma BeginningComesBack(v: string, k: nat)
    requires k < |v| && BeginningEndsMarker(v, k)
    ensures Occurs(v, Replace(v + v[k..], v))
  {
    ShorterHasNone(v, v[k..]);
    ReplaceFirst(v, v[k..]);
    AcrossTheEnd(MARKER, v, k);
  }

  lemma ShorterHasNone(v: string, s: string)
    requires |s| < |v|
    ensures !Occurs(v, s)
  {
  }

  lemma FirstBehind(v: string, x: string)
    requires v != "" && forall j :: 0 <= j < |x| ==> !At(v, x + v, j)
    ensures Replace(x + v, v) == x + MARKER
  {
    var s := x + v;
    assert s[|x|..|x| + |v|] == v;
    assert At(v, s, |x|);
    assert Find(s, v) == Some(|x|);
    ReplaceUnfolds(s, v);
    assert s[..|x|] == x && s[|x| + |v|..] == "";
    assert Replace("", v) == "";
    assert x + MARKER + "" == x + MARKER;
  }

  /** A value that ends with a beginning of the marker comes back, unless it occurs
      earlier in the text that would show it. */
  lemma EndComesBack(v: string, k: nat)
    requires k < |v| && EndBeginsMarker(v, k) && !TakenEarlier(v, |v| - k)
    ensures Occurs(v, Replace(v[..|v| - k] + v, v))
  {
    FirstBehind(v, v[..|v| - k]);
    AcrossTheBeginning(MARKER, v, k);
  }

  lemma MarkerPartComesBack(v: string)
    requires v != "" && Occurs(v, MARKER)
    ensures Occurs(v, Replace(v, v))
  {
    ReplaceWhole(v);
  }

  lemma OneValue(text: string, v: string)
    requires v != ""
    ensures RedactAll(text, [v]) == Replace(text, v)
  {
    assert [v][1..] == [];
    assert RedactAll(text, [v]) == RedactAll(Replace(text, v), []);
  }

  lemma UnsafeAlone(v: string) returns (text: string)
    requires v != "" && !SafeAlone(v)
    ensures Occurs(v, Replace(text, v))
  {
    if Occurs(v, MARKER) {
      text := v;
      MarkerPartComesBack(v);
    } else if k :| k < |v| && BeginningEndsMarker(v, k) {
      text := v + v[k..];
      BeginningComesBack(v, k);
    } else {
      var k :| k < |v| && EndBeginsMarker(v, k) && !TakenEarlier(v, |v| - k);
      text := v[..|v| - k] + v;
      EndComesBack(v, k);
    }
  }

  /** One installed value that does not contain the marker: no text keeps it exactly
      when it is not inside the marker, no beginning of it is an end of the marker, and
      where an end of it is a beginning of the marker an earlier occurrence is replaced. */
  lemma OneValueIsRemovedIff(v: string)
    requires v != "" && !Occurs(MARKER, v)
    ensures (forall text :: Clean(RedactAll(text, [v]), [v])) <==> SafeAlone(v)
  {
    if SafeAlone(v) {
      forall text
        ensures Clean(RedactAll(text, [v]), [v])
      {
        OneValue(text, v);
        SafeAloneIsRemoved(text, v);
      }
    } else {
      var text := UnsafeAlone(v);
      OneValue(text, v);
      assert Occurs([v][0], RedactAll(text, [v]));
      assert !Clean(RedactAll(text, [v]), [v]);
    }
  }

  // ---- several values that touch the marker ----

  lemma ReplaceFirst(v: string, rest: string)
    requires v != "" && !Occurs(v, rest)
    ensures Replace(v + rest, v) == MARKER + rest
  {
    var text := v + rest;
    assert text[0..|v|] == v;
    assert At(v, text, 0);
    assert Find(text, v) == Some(0);
    assert text[|v|..] == rest;
    assert Replace(rest, v) == rest;
    assert text[..0] + MARKER + rest == MARKER + rest;
  }

  lemma MarkerEndsInABracket(u: string, rest: string)
    requires u == "]" + rest
    ensures Occurs(u, MARKER + rest)
  {
    assert (MARKER + rest)[9..9 + |u|] == u;
    assert At(u, MARKER + rest, 9);
  }

  lemma TwoValues(text: string, u: string, v: string)
    requires u != "" && v != ""
    ensures RedactAll(text, [u, v]) == Replace(Replace(text, u), v)
  {
    assert [u, v][1..] == [v];
    assert [v][1..] == [];
    var once := Replace(text, u);
    assert RedactAll(once, [v]) == RedactAll(Replace(once, v), []);
  }

  /** A value that touches the marker can come back: replacing a later value puts the
      marker's last bracket in front of the rest of it. */
  lemma TouchingValueComesBack(u: string, v: string, rest: string)
    requires v != "" && u == "]" + rest && !Occurs(u, v + rest) && !Occurs(v, rest)
    ensures Occurs(u, RedactAll(v + rest, [u, v]))
  {
    TwoValues(v + rest, u, v);
    assert Replace(v + rest, u) == v + rest;
    ReplaceFirst(v, rest);
    MarkerEndsInABracket(u, rest);
  }

  /** A value that ends with a beginning of the marker comes back in front of another,
      even if it is safe alone. */
  lemma AnotherBringsItBack(u: string, v: string, k: nat)
    requires v != "" && k < |u| && EndBeginsMarker(u, k)
    requires var x := u[..|u| - k]; !Occurs(u, x + v) && forall j :: 0 <= j < |x| ==> !At(v, x + v, j)
    ensures Occurs(u, RedactAll(u[..|u| - k] + v, [u, v]))
  {
    var x := u[..|u| - k];
    TwoValues(x + v, u, v);
    FirstBehind(v, x);
    AcrossTheBeginning(MARKER, u, k);
  }

  lemma OccursWithin(v: string, u: string, s: string)
    requires Occurs(v, u) && Occurs(u, s)
    ensures Occurs(v, s)
  {
    var i :| At(u, s, i);
    var j :| At(v, u, j);
    SliceOfSlice(s, i, i + |u|, j, j + |v|);
    assert At(v, s, i + j);
  }

  /** A value that contains a later one, which keeps clear, is never kept, whatever it
      touches. */
  lemma AnotherKeepsItOut(text: string, u: string, v: string)
    requires u != "" && v != "" && Occurs(v, u) && KeepsClear(v) && !Occurs(v, MARKER)
    ensures Clean(RedactAll(text, [u, v]), [u, v])
  {
    TwoValues(text, u, v);
    ReplaceRemoves(Replace(text, u), v);
    if Occurs(u, RedactAll(text, [u, v])) {
      OccursWithin(v, u, RedactAll(text, [u, v]));
    }
  }

  lemma FirstCharAbsent(v: string, s: string)
    requires v != "" && v[0] !in s
    ensures !Occurs(v, s)
  {
    forall i
      ensures !At(v, s, i)
    {
      if 0 <= i <= |s| - |v| {
        assert s[i..i + |v|][0] == s[i];
      }
    }
  }

  /** Two installed values and a text for which redaction is not complete. */
  lemma RedactionIsNotCompleteInGeneral()
    ensures Installed(["]bbbbbbbb", "aaaaaaaa"])
    ensures !Clean(RedactAll("aaaaaaaa" + "bbbbbbbb", ["]bbbbbbbb", "aaaaaaaa"]), ["]bbbbbbbb", "aaaaaaaa"])
  {
    FirstCharAbsent("]bbbbbbbb", "aaaaaaaa" + "bbbbbbbb");
    FirstCharAbsent("aaaaaaaa", "bbbbbbbb");
    assert "]bbbbbbbb" == "]" + "bbbbbbbb";
    TouchingValueComesBack("]bbbbbbbb", "aaaaaaaa", "bbbbbbbb");
    var values := ["]bbbbbbbb", "aaaaaaaa"];
    assert values[0] == "]bbbbbbbb";
  }
}
