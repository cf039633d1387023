/** Cron expressions are compared by their fields: `" ".join(cron.split())` in
    src/papayya/_reconcile.py. */
module Cron {

  /** The characters Python splits on. */
  predicate IsSpace(c: char) {
    || c == ' ' || '\t' <= c <= '\r' || '\U{1C}' <= c <= '\U{1F}'
    || c == '\U{85}' || c == '\U{A0}' || c == '\U{1680}' || '\U{2000}' <= c <= '\U{200A}'
    || c == '\U{2028}' || c == '\U{2029}' || c == '\U{202F}' || c == '\U{205F}' || c == '\U{3000}'
  }

  /** They are these 29. */
  lemma SpacesAre(c: char)
    ensures IsSpace(c) <==>
            var n := c as int;
            || 9 <= n <= 13 || 28 <= n <= 32 || 8192 <= n <= 8202
            || n in {133, 160, 5760, 8232, 8233, 8239, 8287, 12288}
  {
  }

  /** The length of the leading stretch without a space. */
  function WordLength(s: string): (n: nat)
    ensures n <= |s|
    ensures forall i :: 0 <= i < n ==> !IsSpace(s[i])
    ensures n < |s| ==> IsSpace(s[n])
  {
    if s == [] || IsSpace(s[0]) then 0 else 1 + WordLength(s[1..])
  }

  function Fields(s: string): seq<string>
    decreases |s|
  {
    if s == [] then []
    else if IsSpace(s[0]) then Fields(s[1..])
    else [s[..WordLength(s)]] + Fields(s[WordLength(s)..])
  }

  function Join(fields: seq<string>): string {
    if fields == [] then ""
    else if |fields| == 1 then fields[0]
    else fields[0] + " " + Join(fields[1..])
  }

  function Normalize(cron: string): string {
    Join(Fields(cron))
  }

  predicate IsField(f: string) {
    f != "" && forall i :: 0 <= i < |f| ==> !IsSpace(f[i])
  }

  lemma {:induction false} FieldsAreFields(s: string)
    ensures forall i :: 0 <= i < |Fields(s)| ==> IsField(Fields(s)[i])
    decreases |s|
  {
    if s == [] {
    } else {
      if IsSpace(s[0]) {
        FieldsAreFields(s[1..]);
      } else {
        FieldsAreFields(s[WordLength(s)..]);
      }
    }
  }

  lemma {:induction false} FirstField(f: string, rest: string)
    requires IsField(f) && (rest == "" || IsSpace(rest[0]))
    ensures Fields(f + rest) == [f] + Fields(rest)
  {
    var s := f + rest;
    var n := WordLength(s);
    assert forall i :: 0 <= i < |f| ==> s[i] == f[i];
    assert rest != "" ==> s[|f|] == rest[0];
    assert n == |f|;
    assert s[..n] == f && s[n..] == rest;
  }

  lemma {:induction false} FieldsOfJoin(fields: seq<string>)
    requires forall i :: 0 <= i < |fields| ==> IsField(fields[i])
    ensures Fields(Join(fields)) == fields
  {
    if |fields| == 1 {
      FirstField(fields[0], "");
      assert fields[0] + "" == fields[0];
    } else if |fields| > 1 {
      var rest := " " + Join(fields[1..]);
      FieldsOfJoin(fields[1..]);
      assert rest[1..] == Join(fields[1..]);
      FirstField(fields[0], rest);
      assert fields[0] + " " + Join(fields[1..]) == fields[0] + rest;
    }
  }

  /** Two expressions have the same key exactly when they have the same fields, and
      a key is its own key. */
  lemma NormalizeKeepsTheFields(a: string, b: string)
    ensures Normalize(a) == Normalize(b) <==> Fields(a) == Fields(b)
    ensures Normalize(Normalize(a)) == Normalize(a)
  {
    FieldsAreFields(a);
    FieldsAreFields(b);
    FieldsOfJoin(Fields(a));
    FieldsOfJoin(Fields(b));
  }
}
