/** The data-annotation attributes the request DTOs use, as the framework's model
    validation evaluates them on one property. */
module Validation {
  import opened Wrappers
  import opened DotNet

  /** The attributes of `attrs` that `fails`, each once, in the order given: the list
      of errors model validation reports. */
  function Collect<V>(fails: V -> bool, attrs: seq<V>): (r: seq<V>)
    ensures |r| <= |attrs|
  {
    if attrs == [] then []
    else (if fails(attrs[0]) then [attrs[0]] else []) + Collect(fails, attrs[1..])
  }

  /** `Collect` keeps an attribute exactly when it is listed and fails, so it reports
      nothing exactly when no listed attribute fails. */
  lemma {:induction false} CollectMembers<V>(fails: V -> bool, attrs: seq<V>)
    ensures forall v :: v in Collect(fails, attrs) <==> v in attrs && fails(v)
    ensures Collect(fails, attrs) == [] <==> forall v :: v in attrs ==> !fails(v)
  {
    if attrs != [] {
      CollectMembers(fails, attrs[1..]);
      assert attrs == [attrs[0]] + attrs[1..];
      var r := Collect(fails, attrs);
      if r != [] {
        assert r[0] in r;
      }
    }
  }

  /** Two tests that agree on every listed attribute report the same violations. */
  lemma {:induction false} CollectAgrees<V>(f: V -> bool, g: V -> bool, attrs: seq<V>)
    requires forall v :: v in attrs ==> f(v) == g(v)
    ensures Collect(f, attrs) == Collect(g, attrs)
  {
    if attrs != [] {
      assert attrs[0] in attrs;
      assert forall v :: v in attrs[1..] ==> v in attrs;
      CollectAgrees(f, g, attrs[1..]);
    }
  }

  /** Peels the first attribute off a list. */
  lemma CollectStep<V>(fails: V -> bool, a: V, rest: seq<V>)
    ensures Collect(fails, [a] + rest) == (if fails(a) then [a] else []) + Collect(fails, rest)
  {
    assert ([a] + rest)[1..] == rest;
  }

  /** `string.Length`: the number of UTF-16 code units, so a character outside the
      Basic Multilingual Plane counts twice. */
  function Utf16Length(s: string): (n: nat)
    ensures |s| <= n <= 2 * |s|
    ensures (forall i :: 0 <= i < |s| ==> s[i] as int < 0x1_0000) ==> n == |s|
  {
    if s == [] then 0
    else (if s[0] as int < 0x1_0000 then 1 else 2) + Utf16Length(s[1..])
  }

  /** Sixty emoji are 120 UTF-16 code units: too long for a 100-unit limit. */
  lemma {:induction false} AstralCharactersCountTwice(n: nat)
    ensures Utf16Length(seq(n, _ => '\U{1F600}')) == 2 * n
  {
    if n > 0 {
      var s := seq(n, _ => '\U{1F600}');
      assert s[1..] == seq(n - 1, _ => '\U{1F600}');
      AstralCharactersCountTwice(n - 1);
    }
  }

  /** `[Required]` on a string, empty strings not allowed: present and not only white space. */
  predicate RequiredOk(s: Option<string>) {
    !IsNullOrWhiteSpace(s)
  }

  /** `[StringLength(max, MinimumLength = min)]`: a missing value passes; otherwise its
      `Length` lies between the bounds. */
  predicate LengthOk(s: Option<string>, min: nat, max: nat) {
    s.None? || min <= Utf16Length(s.value) <= max
  }

  /** `[StringLength(max)]`. */
  predicate MaxLengthOk(s: Option<string>, max: nat) {
    LengthOk(s, 0, max)
  }
}
