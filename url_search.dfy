/**
 * The query list of a URL as `URLSearchParams` keeps it (WHATWG URL
 * Standard, section 6.2): an ordered list of name-value pairs.
 */
module UrlSearch {
  import opened Wrappers
  import Uri

  type Pairs = seq<(string, string)>

  predicate HasName(ps: Pairs, name: string) {
    exists i :: 0 <= i < |ps| && ps[i].0 == name
  }

  /** `params.get(name)`: the value of the first pair with that name. */
  function Get(ps: Pairs, name: string): (r: Option<string>)
    ensures r.Some? <==> HasName(ps, name)
  {
    if ps == [] then None else if ps[0].0 == name then Some(ps[0].1) else Get(ps[1..], name)
  }

  function RemoveAll(ps: Pairs, name: string): (r: Pairs)
    ensures !HasName(r, name)
    ensures forall n :: n != name ==> Get(r, n) == Get(ps, n)
  {
    if ps == [] then []
    else if ps[0].0 == name then RemoveAll(ps[1..], name)
    else
      var rest := RemoveAll(ps[1..], name);
      assert forall i :: 1 <= i < |[ps[0]] + rest| ==> ([ps[0]] + rest)[i] == rest[i - 1];
      [ps[0]] + rest
  }

  /**
   * `params.set(name, value)`: the first pair with that name takes the value
   * and the others are removed; without one, the pair is appended.
   */
  function SetParam(ps: Pairs, name: string, value: string): Pairs {
    if ps == [] then [(name, value)]
    else if ps[0].0 == name then [(name, value)] + RemoveAll(ps[1..], name)
    else [ps[0]] + SetParam(ps[1..], name, value)
  }

  /** After `set`, the name reads back the new value and every other name reads as before. */
  lemma {:induction false} GetSetParam(ps: Pairs, name: string, value: string, n: string)
    ensures Get(SetParam(ps, name, value), n) == if n == name then Some(value) else Get(ps, n)
  {
    if ps != [] && ps[0].0 != name {
      GetSetParam(ps[1..], name, value, n);
    }
  }

  /** `get` finds the pair at `k` when no earlier pair has its name. */
  lemma {:induction false} GetAt(ps: Pairs, k: nat)
    requires k < |ps|
    requires forall j :: 0 <= j < k ==> ps[j].0 != ps[k].0
    ensures Get(ps, ps[k].0) == Some(ps[k].1)
  {
    if k > 0 {
      GetAt(ps[1..], k - 1);
    }
  }

  /** No two pairs of the list share a name. */
  ghost predicate DistinctNames(ps: Pairs) {
    forall i, j :: 0 <= i < j < |ps| ==> ps[i].0 != ps[j].0
  }

  /** In a list with distinct names, `get` finds each pair. */
  lemma GetDistinct(ps: Pairs, k: nat)
    requires k < |ps| && DistinctNames(ps)
    ensures Get(ps, ps[k].0) == Some(ps[k].1)
  {
    GetAt(ps, k);
  }

  /** Setting the pairs of a list with distinct names one by one, in order, rebuilds it. */
  lemma SetParamNext(full: Pairs, k: nat)
    requires k < |full| && DistinctNames(full)
    ensures SetParam(full[..k], full[k].0, full[k].1) == full[..k + 1]
  {
    SetParamAppends(full[..k], full[k].0, full[k].1);
    assert full[..k + 1] == full[..k] + [full[k]];
  }

  /** Setting a name the list does not hold appends the pair. */
  lemma {:induction false} SetParamAppends(ps: Pairs, name: string, value: string)
    requires forall i :: 0 <= i < |ps| ==> ps[i].0 != name
    ensures SetParam(ps, name, value) == ps + [(name, value)]
  {
    if ps != [] {
      SetParamAppends(ps[1..], name, value);
      assert ps + [(name, value)] == [ps[0]] + (ps[1..] + [(name, value)]);
    }
  }

  /** A URL's query object, which `searchParams.set` changes in place. */
  class SearchParams {
    var pairs: Pairs

    constructor()
      ensures pairs == []
    {
      pairs := [];
    }

    method Set(name: string, value: string)
      modifies this
      ensures pairs == SetParam(old(pairs), name, value)
    {
      pairs := SetParam(pairs, name, value);
    }

    /** The serialized query, as `toString()` gives it. */
    function ToString(): string
      reads this
    {
      Uri.FormSerialize(pairs)
    }
  }
}
