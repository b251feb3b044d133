/** Vocabulary shared by every component: options, results, JSON values, sequence helpers. */
module Basics {

  datatype Option<+T> = None | Some(value: T)

  /** The failures the modelled operations can return. */
  datatype Error =
    | TenantRequired | TypeRequired | StatusRequired | EndsRequired | FieldsRequired
    | NoEnabledModel | NotFound | Conflict | DuplicateKey | ForeignKey
    | TenantNameMissing | VertexExists | VertexNotFound
    | PolicyNodeNotFound | PolicyWithoutSource | PolicyFailed

  datatype Result<+T> = Ok(value: T) | Err(error: Error)

  /** A JSON value; number literals stay opaque. */
  datatype Json =
    | Null
    | Bool(b: bool)
    | Number(literal: string)
    | Text(s: string)
    | Array(items: seq<Json>)
    | Object(fields: map<string, Json>)

  /** A Go `map[string]any`: None is the nil map. */
  type Blob = Option<map<string, Json>>

  /** json.Marshal of a map: nil is written as JSON null. */
  function Encode(b: Blob): Json {
    if b.Some? then Object(b.value) else Null
  }

  /** json.Unmarshal into a nil map with the error dropped: anything but an object leaves nil. */
  function Decode(j: Json): Blob {
    if j.Object? then Some(j.fields) else None
  }

  /** A nil-safe map read: absent fields and JSON null both read as nil (here None). */
  function Field(b: Blob, name: string): Option<Json> {
    if b.Some? && name in b.value && b.value[name] != Null then Some(b.value[name]) else None
  }

  function FirstNonEmpty(v: string, def: string): string {
    if v != "" then v else def
  }

  /** The elements of s that satisfy f, in order. */
  function Filter<T>(s: seq<T>, f: T -> bool): seq<T> {
    if s == [] then []
    else
      var rest := Filter(s[..|s| - 1], f);
      if f(s[|s| - 1]) then rest + [s[|s| - 1]] else rest
  }

  function Map<T, U>(s: seq<T>, g: T -> U): (m: seq<U>)
    ensures |m| == |s|
    ensures forall i :: 0 <= i < |s| ==> m[i] == g(s[i])
  {
    if s == [] then [] else Map(s[..|s| - 1], g) + [g(s[|s| - 1])]
  }

  lemma MapSnoc<T, U>(s: seq<T>, x: T, g: T -> U)
    ensures Map(s + [x], g) == Map(s, g) + [g(x)]
  {}

  /** One more element of a loop that maps s front to back. */
  lemma MapNext<T, U>(s: seq<T>, i: nat, g: T -> U)
    requires i < |s|
    ensures Map(s[..i + 1], g) == Map(s[..i], g) + [g(s[i])]
  {
    assert s[..i + 1] == s[..i] + [s[i]];
  }

  lemma FilterSnoc<T>(s: seq<T>, x: T, f: T -> bool)
    ensures Filter(s + [x], f) == if f(x) then Filter(s, f) + [x] else Filter(s, f)
  {
    assert (s + [x])[..|s|] == s;
  }

  lemma {:induction false} FilterConcat<T>(s: seq<T>, t: seq<T>, f: T -> bool)
    ensures Filter(s + t, f) == Filter(s, f) + Filter(t, f)
  {
    if t == [] {
      assert s + t == s;
    } else {
      var n := |t| - 1;
      FilterConcat(s, t[..n], f);
      assert s + t == (s + t[..n]) + [t[n]];
      FilterSnoc(s + t[..n], t[n], f);
    }
  }

  lemma {:induction false} FilterMembers<T>(s: seq<T>, f: T -> bool)
    ensures forall x :: x in Filter(s, f) <==> x in s && f(x)
  {
    if s != [] {
      FilterMembers(s[..|s| - 1], f);
      assert s == s[..|s| - 1] + [s[|s| - 1]];
    }
  }

  lemma FilterMember<T>(s: seq<T>, f: T -> bool, x: T)
    requires x in Filter(s, f)
    ensures x in s && f(x)
  {
    FilterMembers(s, f);
  }

  lemma {:induction false} FilterAll<T>(s: seq<T>, f: T -> bool)
    requires forall x :: x in s ==> f(x)
    ensures Filter(s, f) == s
  {
    if s != [] {
      FilterAll(s[..|s| - 1], f);
      assert s == s[..|s| - 1] + [s[|s| - 1]];
    }
  }

  lemma {:induction false} FilterNone<T>(s: seq<T>, f: T -> bool)
    requires forall x :: x in s ==> !f(x)
    ensures Filter(s, f) == []
  {
    if s != [] {
      assert s[|s| - 1] in s;
      FilterNone(s[..|s| - 1], f);
    }
  }

  /** In a permutation of xs, the first of xs stands somewhere and the others are the others. */
  lemma SplitAtFirst<T>(xs: seq<T>, ys: seq<T>) returns (i: nat)
    requires multiset(xs) == multiset(ys) && xs != []
    ensures i < |ys| && ys == ys[..i] + [xs[0]] + ys[i + 1..]
    ensures multiset(xs[1..]) == multiset(ys[..i] + ys[i + 1..])
  {
    assert xs[0] in multiset(xs);
    i :| 0 <= i < |ys| && ys[i] == xs[0];
    var rest := ys[..i] + ys[i + 1..];
    assert xs == [xs[0]] + xs[1..] && ys == ys[..i] + [xs[0]] + ys[i + 1..];
    assert multiset(xs[1..]) == multiset(xs) - multiset{xs[0]};
    assert multiset(ys) == multiset(rest) + multiset{xs[0]};
    assert multiset(rest) == multiset(ys) - multiset{xs[0]};
  }
}
