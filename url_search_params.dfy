/** The query string as an ordered list of name-value pairs, with the
    `get`, `set` and `delete` operations of `URLSearchParams` as section 6.2
    of the WHATWG URL Standard defines them. */
module UrlSearchParams {
  import opened Wrappers

  type Query = seq<(string, string)>

  /** Index of the first pair named `name`, or `|q|` when there is none. */
  function FirstIndex(q: Query, name: string): (i: nat)
    ensures i <= |q|
    ensures forall j :: 0 <= j < i ==> q[j].0 != name
    ensures i < |q| ==> q[i].0 == name
  {
    if q == [] then 0
    else if q[0].0 == name then 0
    else 1 + FirstIndex(q[1..], name)
  }

  /** `get(name)`: the value of the first pair named `name`, `None` when
      there is no such pair. */
  function GetParam(q: Query, name: string): (r: Option<string>)
    ensures r.None? <==> forall j :: 0 <= j < |q| ==> q[j].0 != name
    ensures r.Some? ==> (name, r.value) in q
  {
    var i := FirstIndex(q, name);
    if i < |q| then Some(q[i].1) else None
  }

  /** `delete(name)`: every pair named `name` removed, every other pair kept
      as often as it occurred. */
  function DeleteParam(q: Query, name: string): (r: Query)
    ensures forall j :: 0 <= j < |r| ==> r[j].0 != name
    ensures forall p: (string, string) {:trigger multiset(r)[p]} :: p.0 != name ==> multiset(r)[p] == multiset(q)[p]
  {
    if q == [] then []
    else
      assert q == [q[0]] + q[1..];
      (if q[0].0 == name then [] else [q[0]]) + DeleteParam(q[1..], name)
  }

  /** At most one pair is named `name`. */
  ghost predicate AtMostOnce(q: Query, name: string)
  {
    forall i, j :: 0 <= i < j < |q| && q[i].0 == name ==> q[j].0 != name
  }

  /** `set(name, value)`: the first pair named `name` takes the new value
      where it stands and later pairs of that name are removed; with no such
      pair, a new one is appended. All other pairs keep their order. */
  function SetParam(q: Query, name: string, value: string): (r: Query)
    ensures GetParam(r, name) == Some(value)
  {
    if q == [] then [(name, value)]
    else if q[0].0 == name then
      var rest := DeleteParam(q[1..], name);
      GetParamCons((name, value), rest, name);
      assert ([(name, value)] + rest)[1..] == rest;
      [(name, value)] + rest
    else
      var tail := SetParam(q[1..], name, value);
      var r := [q[0]] + tail;
      GetParamCons(q[0], tail, name);
      assert r[1..] == tail;
      r
  }

  /** After `set`, the name occurs exactly once, where it first stood
      before (or at the end when it was absent). */
  lemma {:induction false} SetParamOnce(q: Query, name: string, value: string)
    ensures FirstIndex(SetParam(q, name, value), name) == FirstIndex(q, name)
    ensures AtMostOnce(SetParam(q, name, value), name)
    decreases |q|
  {
    if q != [] {
      if q[0].0 == name {
        var rest := DeleteParam(q[1..], name);
        var r := [(name, value)] + rest;
        assert SetParam(q, name, value) == r;
        forall i, j | 0 <= i < j < |r| && r[i].0 == name
          ensures r[j].0 != name
        {
          assert r[j] == rest[j - 1];
        }
      } else {
        var t := SetParam(q[1..], name, value);
        SetParamOnce(q[1..], name, value);
        var r := [q[0]] + t;
        assert SetParam(q, name, value) == r;
        assert r[1..] == t;
        forall i, j | 0 <= i < j < |r| && r[i].0 == name
          ensures r[j].0 != name
        {
          assert r[i] == t[i - 1] && r[j] == t[j - 1];
        }
      }
    }
  }

  /** Deleting from a list with one more pair in front. */
  lemma DeleteParamCons(p: (string, string), q: Query, name: string)
    ensures DeleteParam([p] + q, name) == (if p.0 == name then [] else [p]) + DeleteParam(q, name)
  {
    assert ([p] + q)[1..] == q;
  }

  /** `set` followed by `delete` of the same name is just the `delete`: `set`
      touches no pair of another name. */
  lemma {:induction false} DeleteAfterSet(q: Query, name: string, value: string)
    ensures DeleteParam(SetParam(q, name, value), name) == DeleteParam(q, name)
    decreases |q|
  {
    if q == [] {
      DeleteParamCons((name, value), [], name);
    } else {
      assert q == [q[0]] + q[1..];
      DeleteParamCons(q[0], q[1..], name);
      if q[0].0 == name {
        var rest := DeleteParam(q[1..], name);
        DeleteParamCons((name, value), rest, name);
        DeleteAbsent(rest, name);
      } else {
        DeleteAfterSet(q[1..], name, value);
        DeleteParamCons(q[0], SetParam(q[1..], name, value), name);
      }
    }
  }

  /** Looking up a name in a list with one more pair in front. */
  lemma GetParamCons(p: (string, string), q: Query, name: string)
    ensures GetParam([p] + q, name) == if p.0 == name then Some(p.1) else GetParam(q, name)
  {
    assert ([p] + q)[1..] == q;
  }

  /** Pairs named other than `name` are all that `delete(name)` leaves, so
      looking up another name sees through the deletion. */
  lemma {:induction false} GetParamDeleted(q: Query, name: string, other: string)
    requires other != name
    ensures GetParam(DeleteParam(q, name), other) == GetParam(q, other)
    decreases |q|
  {
    if q != [] {
      GetParamDeleted(q[1..], name, other);
      assert q == [q[0]] + q[1..];
      GetParamCons(q[0], q[1..], other);
      if q[0].0 == name {
        assert DeleteParam(q, name) == DeleteParam(q[1..], name);
      } else {
        assert DeleteParam(q, name) == [q[0]] + DeleteParam(q[1..], name);
        GetParamCons(q[0], DeleteParam(q[1..], name), other);
      }
    }
  }

  /** `set` and `delete` of one name leave every other name's value as it was. */
  lemma GetParamOther(q: Query, name: string, value: string, other: string)
    requires other != name
    ensures GetParam(SetParam(q, name, value), other) == GetParam(q, other)
    ensures GetParam(DeleteParam(q, name), other) == GetParam(q, other)
  {
    DeleteAfterSet(q, name, value);
    GetParamDeleted(SetParam(q, name, value), name, other);
    GetParamDeleted(q, name, other);
  }

  /** `delete` of an absent name changes nothing. */
  lemma {:induction false} DeleteAbsent(q: Query, name: string)
    requires GetParam(q, name) == None
    ensures DeleteParam(q, name) == q
    decreases |q|
  {
    if q != [] {
      assert q == [q[0]] + q[1..];
      GetParamCons(q[0], q[1..], name);
      DeleteAbsent(q[1..], name);
    }
  }

  /** `set` of an absent name appends one pair at the end. */
  lemma {:induction false} SetAbsent(q: Query, name: string, value: string)
    requires GetParam(q, name) == None
    ensures SetParam(q, name, value) == q + [(name, value)]
    decreases |q|
  {
    if q != [] {
      assert q == [q[0]] + q[1..];
      GetParamCons(q[0], q[1..], name);
      SetAbsent(q[1..], name, value);
      assert SetParam(q, name, value) == [q[0]] + SetParam(q[1..], name, value);
    }
  }

  /** `set` of a name that occurs once replaces that pair in place. */
  lemma {:induction false} SetPresentOnce(q: Query, name: string, value: string)
    requires GetParam(q, name).Some? && AtMostOnce(q, name)
    ensures SetParam(q, name, value) == q[FirstIndex(q, name) := (name, value)]
    decreases |q|
  {
    var tail := q[1..];
    assert q == [q[0]] + tail;
    if q[0].0 == name {
      AtMostOnceTail(q, name);
      SetPresentFirst(q, name, value);
    } else {
      assert GetParam(tail, name).Some? && AtMostOnce(tail, name) by {
        GetParamCons(q[0], tail, name);
        AtMostOnceTail(q, name);
      }
      SetPresentOnce(tail, name, value);
      var k := FirstIndex(tail, name);
      assert FirstIndex(q, name) == k + 1;
      assert SetParam(q, name, value) == [q[0]] + SetParam(tail, name, value);
      UpdateBehindHead(q[0], tail, k, (name, value));
    }
  }

  /** `set` of a name that only the first pair has replaces that pair. */
  lemma SetPresentFirst(q: Query, name: string, value: string)
    requires q != [] && q[0].0 == name && GetParam(q[1..], name) == None
    ensures SetParam(q, name, value) == q[0 := (name, value)]
  {
    var tail, x := q[1..], (name, value);
    assert DeleteParam(tail, name) == tail by {
      DeleteAbsent(tail, name);
    }
    var left, right := [x] + tail, q[0 := x];
    forall i | 0 <= i < |left|
      ensures left[i] == right[i]
    {
      if i > 0 {
        assert left[i] == tail[i - 1];
      }
    }
    assert SetParam(q, name, value) == left;
  }

  /** What remains after the first pair of a list in which `name` occurs at
      most once: `name` still occurs at most once, and not at all when the
      first pair had it. */
  lemma AtMostOnceTail(q: Query, name: string)
    requires q != [] && AtMostOnce(q, name)
    ensures AtMostOnce(q[1..], name)
    ensures q[0].0 == name ==> GetParam(q[1..], name) == None
  {
    var tail := q[1..];
    forall i, j | 0 <= i < j < |tail| && tail[i].0 == name
      ensures tail[j].0 != name
    {
      assert tail[i] == q[i + 1] && tail[j] == q[j + 1];
    }
    if q[0].0 == name {
      forall j | 0 <= j < |tail|
        ensures tail[j].0 != name
      {
        assert tail[j] == q[j + 1];
      }
    }
  }

  lemma UpdateBehindHead(head: (string, string), tail: Query, k: nat, p: (string, string))
    requires k < |tail|
    ensures [head] + tail[k := p] == ([head] + tail)[k + 1 := p]
  {
    var left, right := [head] + tail[k := p], ([head] + tail)[k + 1 := p];
    forall i | 0 <= i < |left|
      ensures left[i] == right[i]
    {
      if i > 0 {
        assert left[i] == tail[k := p][i - 1];
      }
    }
  }

  /** A `URLSearchParams` object: its list of pairs, updated in place. */
  class Params {
    var pairs: Query

    /** `new URLSearchParams(init)`, copying the pairs. */
    constructor (init: Query)
      ensures pairs == init
    {
      pairs := init;
    }

    function Get(name: string): Option<string>
      reads this
    {
      GetParam(pairs, name)
    }

    method Set(name: string, value: string)
      modifies this
      ensures pairs == SetParam(old(pairs), name, value)
    {
      pairs := SetParam(pairs, name, value);
    }

    method Delete(name: string)
      modifies this
      ensures pairs == DeleteParam(old(pairs), name)
    {
      pairs := DeleteParam(pairs, name);
    }
  }
}
