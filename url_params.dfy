/** The query string of a URL as the WHATWG URL Standard's `URLSearchParams`
    sees it: an ordered list of name-value pairs in which a name may repeat.
    `get` reads the first pair with a name, `set` keeps one pair per name in
    the place of the first, `delete` removes every pair with the name. */
module UrlParams {
  import opened Common

  type Pair = (string, string)

  /** Index of the first pair named `name`, or `|ps|` when there is none. */
  function IndexOf(ps: seq<Pair>, name: string): (i: nat)
    ensures i <= |ps|
    ensures i < |ps| ==> ps[i].0 == name
    ensures forall j :: 0 <= j < i ==> ps[j].0 != name
  {
    if ps == [] || ps[0].0 == name then 0 else 1 + IndexOf(ps[1..], name)
  }

  predicate Has(ps: seq<Pair>, name: string) {
    IndexOf(ps, name) < |ps|
  }

  /** `params.get(name)`: the value of the first pair with that name. */
  function Get(ps: seq<Pair>, name: string): (r: Option<string>)
    ensures r.None? <==> forall j :: 0 <= j < |ps| ==> ps[j].0 != name
  {
    var i := IndexOf(ps, name);
    if i < |ps| then Some(ps[i].1) else None
  }

  /** `params.delete(name)`: every pair with that name is removed. */
  function Delete(ps: seq<Pair>, name: string): seq<Pair> {
    Filter(ps, (p: Pair) => p.0 != name)
  }

  /** `params.set(name, value)`: the first pair with that name takes the value
      and the later ones are removed; with no such pair, one is appended. */
  function Set(ps: seq<Pair>, name: string, value: string): seq<Pair> {
    var i := IndexOf(ps, name);
    if i == |ps| then ps + [(name, value)]
    else ps[..i] + [(name, value)] + Delete(ps[i + 1..], name)
  }

  /** Number of pairs named `name`. */
  function Occurrences(ps: seq<Pair>, name: string): nat {
    if ps == [] then 0 else (if ps[0].0 == name then 1 else 0) + Occurrences(ps[1..], name)
  }

  lemma {:induction false} OccurrencesAppend(a: seq<Pair>, b: seq<Pair>, name: string)
    ensures Occurrences(a + b, name) == Occurrences(a, name) + Occurrences(b, name)
  {
    if a == [] {
      assert a + b == b;
    } else {
      assert (a + b)[1..] == a[1..] + b;
      OccurrencesAppend(a[1..], b, name);
    }
  }

  lemma {:induction false} OccurrencesNone(ps: seq<Pair>, name: string)
    requires forall j :: 0 <= j < |ps| ==> ps[j].0 != name
    ensures Occurrences(ps, name) == 0
  {
    if ps != [] {
      OccurrencesNone(ps[1..], name);
    }
  }

  lemma {:induction false} DeleteKeepsOthers(ps: seq<Pair>, name: string, other: string)
    requires other != name
    ensures Get(Delete(ps, name), other) == Get(ps, other)
    ensures Occurrences(Delete(ps, name), other) == Occurrences(ps, other)
  {
    if ps != [] {
      DeleteKeepsOthers(ps[1..], name, other);
      var keep := if ps[0].0 != name then [ps[0]] else [];
      assert Delete(ps, name) == keep + Delete(ps[1..], name);
      if ps[0].0 != name {
        assert (keep + Delete(ps[1..], name))[1..] == Delete(ps[1..], name);
      } else {
        assert keep + Delete(ps[1..], name) == Delete(ps[1..], name);
      }
    }
  }

  /** After `delete(name)`, `get(name)` is null and no pair has the name;
      every other name reads and counts as before. */
  lemma DeleteSpec(ps: seq<Pair>, name: string, other: string)
    ensures Get(Delete(ps, name), name).None?
    ensures Occurrences(Delete(ps, name), name) == 0
    ensures other != name ==> Get(Delete(ps, name), other) == Get(ps, other)
  {
    DeleteRemovesName(ps, name);
    OccurrencesNone(Delete(ps, name), name);
    if other != name {
      DeleteKeepsOthers(ps, name, other);
    }
  }

  /** No pair left by `delete(name)` has the name. */
  lemma DeleteRemovesName(ps: seq<Pair>, name: string)
    ensures forall j :: 0 <= j < |Delete(ps, name)| ==> Delete(ps, name)[j].0 != name
  {
    var r := Delete(ps, name);
    forall j | 0 <= j < |r|
      ensures r[j].0 != name
    {
      assert r[j] in r;
    }
  }

  /** After `set(name, value)`, `get(name)` is `value` and exactly one pair
      has the name; every other name reads as before. */
  lemma SetSpec(ps: seq<Pair>, name: string, value: string, other: string)
    ensures Get(Set(ps, name, value), name) == Some(value)
    ensures Occurrences(Set(ps, name, value), name) == 1
    ensures other != name ==> Get(Set(ps, name, value), other) == Get(ps, other)
  {
    var i := IndexOf(ps, name);
    var pre, post := ps[..i], if i == |ps| then [] else Delete(ps[i + 1..], name);
    if i < |ps| {
      DeleteRemovesName(ps[i + 1..], name);
    }
    assert Set(ps, name, value) == pre + [(name, value)] + post;
    SetReadsName(pre, post, name, value);
    if other != name {
      if i < |ps| {
        assert ps == pre + [ps[i]] + ps[i + 1..];
        DeleteKeepsOthers(ps[i + 1..], name, other);
        GetAcross(pre, ps[i], (name, value), ps[i + 1..], post, other);
      } else {
        assert ps == pre;
        GetAppend(ps, (name, value), other);
      }
    }
  }

  /** One pair named `name` between pairs of other names. */
  lemma SetReadsName(pre: seq<Pair>, post: seq<Pair>, name: string, value: string)
    requires forall j :: 0 <= j < |pre| ==> pre[j].0 != name
    requires forall j :: 0 <= j < |post| ==> post[j].0 != name
    ensures Get(pre + [(name, value)] + post, name) == Some(value)
    ensures Occurrences(pre + [(name, value)] + post, name) == 1
  {
    var tail := [(name, value)] + post;
    ConcatAssoc(pre, [(name, value)], post);
    assert Get(tail, name) == Some(value);
    GetConcat(pre, tail, name);
    OccurrencesOne(pre, (name, value), post, name);
  }

  lemma ConcatAssoc(a: seq<Pair>, b: seq<Pair>, c: seq<Pair>)
    ensures a + b + c == a + (b + c)
  {
  }

  lemma OccurrencesOne(pre: seq<Pair>, x: Pair, post: seq<Pair>, name: string)
    requires x.0 == name
    requires forall j :: 0 <= j < |pre| ==> pre[j].0 != name
    requires forall j :: 0 <= j < |post| ==> post[j].0 != name
    ensures Occurrences(pre + [x] + post, name) == 1
  {
    OccurrencesNone(pre, name);
    OccurrencesNone(post, name);
    assert Occurrences([x], name) == 1 by {
      assert [x][1..] == [];
    }
    OccurrencesAppend(pre + [x], post, name);
    OccurrencesAppend(pre, [x], name);
  }

  lemma {:induction false} IndexAfterPrefix(pre: seq<Pair>, rest: seq<Pair>, name: string)
    requires forall j :: 0 <= j < |pre| ==> pre[j].0 != name
    ensures IndexOf(pre + rest, name) == |pre| + IndexOf(rest, name)
  {
    if pre != [] {
      assert (pre + rest)[1..] == pre[1..] + rest;
      IndexAfterPrefix(pre[1..], rest, name);
    } else {
      assert pre + rest == rest;
    }
  }

  /** `get` on a concatenation reads the first part when it has the name. */
  lemma {:induction false} GetConcat(pre: seq<Pair>, rest: seq<Pair>, name: string)
    ensures Get(pre + rest, name) == if Has(pre, name) then Get(pre, name) else Get(rest, name)
  {
    if pre == [] {
      assert pre + rest == rest;
    } else {
      assert (pre + rest)[1..] == pre[1..] + rest;
      GetConcat(pre[1..], rest, name);
    }
  }

  /** Reading `other` is unaffected by replacing a pair that is not named `other`
      and by replacing the pairs after it with ones that read the same. */
  lemma GetAcross(pre: seq<Pair>, x: Pair, y: Pair, a: seq<Pair>, b: seq<Pair>, other: string)
    requires x.0 != other && y.0 != other
    requires Get(a, other) == Get(b, other)
    ensures Get(pre + [x] + a, other) == Get(pre + [y] + b, other)
  {
    ConcatAssoc(pre, [x], a);
    ConcatAssoc(pre, [y], b);
    GetConcat(pre, [x] + a, other);
    GetConcat(pre, [y] + b, other);
    GetConcat([x], a, other);
    GetConcat([y], b, other);
  }

  lemma GetAppend(ps: seq<Pair>, y: Pair, other: string)
    requires y.0 != other
    ensures Get(ps + [y], other) == Get(ps, other)
  {
    GetConcat(ps, [y], other);
  }

  /** The `URLSearchParams` object an updater builds, mutates and hands back. */
  class SearchParams {
    var pairs: seq<Pair>

    /** `new URLSearchParams(params.toString())`: a copy of the current pairs. */
    constructor Copy(ps: seq<Pair>)
      ensures pairs == ps
    {
      pairs := ps;
    }

    function GetParam(name: string): Option<string>
      reads this
    {
      Get(pairs, name)
    }

    method SetParam(name: string, value: string)
      modifies this
      ensures pairs == Set(old(pairs), name, value)
      ensures GetParam(name) == Some(value)
    {
      SetSpec(pairs, name, value, name);
      pairs := Set(pairs, name, value);
    }

    method DeleteParam(name: string)
      modifies this
      ensures pairs == Delete(old(pairs), name)
      ensures GetParam(name).None?
    {
      DeleteSpec(pairs, name, name);
      pairs := Delete(pairs, name);
    }
  }
}
