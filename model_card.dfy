/** A catalogue card's capability chips: clicking one toggles that tag in
    the `capability` query parameter (`toggleCapability`). */
module ModelCard {
  import opened Wrappers
  import opened Text
  import opened Lists
  import opened UrlSearchParams
  import opened CapabilityParam

  /** The new tag list: a selected tag is removed, every copy of it; an
      unselected one is appended at the end. Other tags stay selected. */
  function ToggledTags(current: seq<string>, tag: string): (next: seq<string>)
    ensures tag in next <==> tag !in current
    ensures forall c :: c != tag ==> (c in next <==> c in current)
    ensures tag !in current ==> next == current + [tag]
  {
    if tag in current then
      var next := RemoveAll(current, tag);
      assert forall c :: c in next <==> c in multiset(next);
      next
    else current + [tag]
  }

  /** The query `toggleCapability(tag)` produces: the toggled list joined
      with commas, or no `capability` parameter when the list is empty. No
      other pair is added, removed or moved. */
  function ToggledQuery(q: Query, tag: string): (r: Query)
    ensures DeleteParam(r, "capability") == DeleteParam(q, "capability")
    ensures AtMostOnce(r, "capability")
    ensures var next := ToggledTags(DecodeCapabilities(GetParam(q, "capability")), tag);
      GetParam(r, "capability") == if next == [] then None else Some(EncodeCapabilities(next))
  {
    var next := ToggledTags(DecodeCapabilities(GetParam(q, "capability")), tag);
    if |next| > 0 then
      DeleteAfterSet(q, "capability", EncodeCapabilities(next));
      SetParamOnce(q, "capability", EncodeCapabilities(next));
      SetParam(q, "capability", EncodeCapabilities(next))
    else
      var r := DeleteParam(q, "capability");
      DeleteAbsent(r, "capability");
      r
  }

  /** `toggleCapability`: copies the query into a `URLSearchParams`, decodes
      the selected tags, toggles `tag`, and sets or deletes the parameter. */
  method ToggleCapability(query: Query, tag: string) returns (next: Query)
    ensures next == ToggledQuery(query, tag)
  {
    var params := new Params(query);
    var currentCaps := DecodeCapabilities(params.Get("capability"));
    var newCaps;
    if tag in currentCaps {
      newCaps := RemoveAll(currentCaps, tag);
    } else {
      newCaps := currentCaps + [tag];
    }
    if |newCaps| > 0 {
      params.Set("capability", EncodeCapabilities(newCaps));
    } else {
      params.Delete("capability");
    }
    next := params.pairs;
  }

  /** The tags a query selects. */
  function Selection(q: Query): seq<string>
  {
    DecodeCapabilities(GetParam(q, "capability"))
  }

  /** Toggling a non-empty, comma-free tag flips whether it is selected and
      leaves every other non-empty tag as selected as it was. */
  lemma ToggleFlipsMembership(q: Query, tag: string)
    requires tag != "" && ',' !in tag
    ensures tag in Selection(ToggledQuery(q, tag)) <==> tag !in Selection(q)
    ensures forall c :: c != tag && c != "" ==> (c in Selection(ToggledQuery(q, tag)) <==> c in Selection(q))
  {
    var current := Selection(q);
    var next := ToggledTags(current, tag);
    if next != [] {
      forall i | 0 <= i < |next|
        ensures ',' !in next[i]
      {
        assert next[i] in next;
      }
      DecodeEncoded(next);
    }
  }

  /** Toggling an unselected, non-empty, comma-free tag appends it to the
      selection. */
  lemma ToggleSelects(q: Query, tag: string)
    requires tag != "" && ',' !in tag
    requires tag !in Selection(q)
    ensures Selection(ToggledQuery(q, tag)) == Selection(q) + [tag]
  {
    var added := Selection(q) + [tag];
    forall i | 0 <= i < |added|
      ensures ',' !in added[i]
    {
    }
    DecodeEncoded(added);
  }

  /** Toggling an unselected, non-empty, comma-free tag twice gives the
      `capability` parameter its old value back, or leaves it absent when it
      was absent or empty. */
  lemma ToggleTwiceRestores(q: Query, tag: string)
    requires tag != "" && ',' !in tag
    requires tag !in Selection(q)
    ensures GetParam(ToggledQuery(ToggledQuery(q, tag), tag), "capability") ==
      if GetParam(q, "capability") == Some("") then None else GetParam(q, "capability")
  {
    ToggleSelects(q, tag);
    RemoveAllAppended(Selection(q), tag);
  }

  /** When the `capability` parameter occurred at most once and was not
      empty, toggling an unselected, non-empty, comma-free tag twice restores
      the whole query, pairs and order. */
  lemma ToggleTwiceRestoresQuery(q: Query, tag: string)
    requires tag != "" && ',' !in tag
    requires tag !in Selection(q)
    requires AtMostOnce(q, "capability") && GetParam(q, "capability") != Some("")
    ensures ToggledQuery(ToggledQuery(q, tag), tag) == q
  {
    var current := Selection(q);
    assert Selection(ToggledQuery(q, tag)) == current + [tag] by {
      ToggleSelects(q, tag);
    }
    assert RemoveAll(current + [tag], tag) == current by {
      RemoveAllAppended(current, tag);
    }
    if GetParam(q, "capability") == None {
      RestoreAbsent(q, tag);
    } else {
      RestorePresent(q, tag);
    }
  }

  /** The absent-parameter case: the pair appended by the first toggle is
      deleted by the second. */
  lemma RestoreAbsent(q: Query, tag: string)
    requires GetParam(q, "capability") == None
    requires Selection(ToggledQuery(q, tag)) == [tag]
    requires RemoveAll([tag], tag) == []
    ensures ToggledQuery(ToggledQuery(q, tag), tag) == q
  {
    var q1 := ToggledQuery(q, tag);
    assert ToggledQuery(q1, tag) == DeleteParam(q1, "capability");
    DeleteAbsent(q, "capability");
  }

  /** The present-parameter case: both toggles rewrite the one pair in place,
      the second back to the value it had. */
  lemma RestorePresent(q: Query, tag: string)
    requires AtMostOnce(q, "capability") && GetParam(q, "capability").Some?
    requires GetParam(q, "capability") != Some("")
    requires Selection(ToggledQuery(q, tag)) == Selection(q) + [tag]
    requires RemoveAll(Selection(q) + [tag], tag) == Selection(q)
    ensures ToggledQuery(ToggledQuery(q, tag), tag) == q
  {
    var current := Selection(q);
    var k := FirstIndex(q, "capability");
    var q1 := ToggledQuery(q, tag);
    assert GetParam(q, "capability") == Some(q[k].1);
    assert current != [] && EncodeCapabilities(current) == q[k].1;
    assert tag !in current;
    assert ToggledTags(current, tag) == current + [tag];
    ToggleInPlace(q, tag);
    assert ToggledTags(Selection(q1), tag) == current;
    ToggleInPlace(q1, tag);
    assert ToggledQuery(q1, tag) == q[k := ("capability", q[k].1)];
  }

  /** When the parameter occurs once and stays present, a toggle rewrites
      that one pair in place. */
  lemma ToggleInPlace(q: Query, tag: string)
    requires AtMostOnce(q, "capability") && GetParam(q, "capability").Some?
    requires GetParam(ToggledQuery(q, tag), "capability").Some?
    ensures var k, r := FirstIndex(q, "capability"), ToggledQuery(q, tag);
      && r == q[k := ("capability", GetParam(r, "capability").value)]
      && FirstIndex(r, "capability") == k
  {
    var value := GetParam(ToggledQuery(q, tag), "capability").value;
    SetPresentOnce(q, "capability", value);
    SetParamOnce(q, "capability", value);
  }
}
