/**
 * A response's headers as PHP keeps them: an ordered array from header name
 * to value. Assigning to a name that is present replaces its value where it
 * stands; assigning to a new name appends it; `unset` removes the entry and
 * keeps the order of the rest.
 */
module Headers {
  import opened Wrappers

  datatype Header = Header(name: string, value: string)

  /** The header names in array order. */
  function Names(h: seq<Header>): (r: seq<string>)
    ensures |r| == |h|
  {
    if h == [] then [] else [h[0].name] + Names(h[1..])
  }

  /** No name occurs twice, as in every PHP array. */
  predicate Distinct(h: seq<Header>)
  {
    h == [] || (h[0].name !in Names(h[1..]) && Distinct(h[1..]))
  }

  /** `$headers[$name]`, or None when the name is not a key. */
  function Find(h: seq<Header>, name: string): Option<string>
  {
    if h == [] then None
    else if h[0].name == name then Some(h[0].value)
    else Find(h[1..], name)
  }

  /** `$headers[$name] = $value`. */
  function Put(h: seq<Header>, name: string, value: string): seq<Header>
  {
    if h == [] then [Header(name, value)]
    else if h[0].name == name then [Header(name, value)] + h[1..]
    else [h[0]] + Put(h[1..], name, value)
  }

  /** `unset($headers[$name])`. */
  function Remove(h: seq<Header>, name: string): seq<Header>
  {
    if h == [] then []
    else if h[0].name == name then Remove(h[1..], name)
    else [h[0]] + Remove(h[1..], name)
  }

  /** A name is found exactly when it is a key, and then with the value of an entry of that name. */
  lemma {:induction false} FindMeaning(h: seq<Header>, name: string)
    ensures Find(h, name).None? <==> name !in Names(h)
    ensures Find(h, name).Some? ==> exists i :: 0 <= i < |h| && h[i] == Header(name, Find(h, name).value)
  {
    if h != [] && h[0].name != name {
      FindMeaning(h[1..], name);
      if Find(h, name).Some? {
        var i :| 0 <= i < |h[1..]| && h[1..][i] == Header(name, Find(h, name).value);
        assert h[i + 1] == h[1..][i];
      }
    }
  }

  /** After `$headers[$name] = $value` the name has that value and every other name keeps its own. */
  lemma {:induction false} PutFind(h: seq<Header>, name: string, value: string, other: string)
    ensures Find(Put(h, name, value), name) == Some(value)
    ensures other != name ==> Find(Put(h, name, value), other) == Find(h, other)
  {
    if h != [] && h[0].name != name {
      PutFind(h[1..], name, value, other);
    }
  }

  /** Assignment keeps the positions of all names and appends a new one at the end. */
  lemma {:induction false} PutNames(h: seq<Header>, name: string, value: string)
    ensures Names(Put(h, name, value)) == if name in Names(h) then Names(h) else Names(h) + [name]
  {
    if h != [] && h[0].name != name {
      PutNames(h[1..], name, value);
    }
  }

  /** Assignment keeps the names distinct. */
  lemma {:induction false} PutDistinct(h: seq<Header>, name: string, value: string)
    requires Distinct(h)
    ensures Distinct(Put(h, name, value))
  {
    if h != [] {
      if h[0].name == name {
        assert Put(h, name, value)[1..] == h[1..];
      } else {
        PutDistinct(h[1..], name, value);
        PutNames(h[1..], name, value);
        assert Put(h, name, value)[1..] == Put(h[1..], name, value);
      }
    } else {
      assert Put(h, name, value)[1..] == [];
    }
  }

  /** After `unset($headers[$name])` the name is gone and every other name keeps its value. */
  lemma {:induction false} RemoveFind(h: seq<Header>, name: string, other: string)
    ensures Find(Remove(h, name), name) == None
    ensures other != name ==> Find(Remove(h, name), other) == Find(h, other)
  {
    if h != [] {
      RemoveFind(h[1..], name, other);
    }
  }

  /** Unsetting a name that is not a key changes nothing. */
  lemma {:induction false} RemoveAbsent(h: seq<Header>, name: string)
    requires name !in Names(h)
    ensures Remove(h, name) == h
  {
    if h != [] {
      RemoveAbsent(h[1..], name);
      assert [h[0]] + h[1..] == h;
    }
  }

  /** Unsetting keeps the other names, in order. */
  lemma {:induction false} RemoveNames(h: seq<Header>, name: string)
    ensures forall n :: n in Names(Remove(h, name)) <==> n in Names(h) && n != name
  {
    if h != [] {
      RemoveNames(h[1..], name);
    }
  }

  /** Unsetting keeps the names distinct. */
  lemma {:induction false} RemoveDistinct(h: seq<Header>, name: string)
    requires Distinct(h)
    ensures Distinct(Remove(h, name))
  {
    if h != [] {
      RemoveDistinct(h[1..], name);
      RemoveNames(h[1..], name);
      if h[0].name != name {
        assert Remove(h, name)[1..] == Remove(h[1..], name);
      }
    }
  }

  /** On a PHP array, unsetting a name removes exactly its one entry and keeps the rest in order. */
  lemma {:induction false} RemoveAt(h: seq<Header>, k: nat)
    requires Distinct(h) && k < |h|
    ensures Remove(h, h[k].name) == h[..k] + h[k + 1..]
  {
    if k == 0 {
      RemoveAbsent(h[1..], h[0].name);
    } else {
      RemoveAt(h[1..], k - 1);
      assert h[1..][k - 1] == h[k];
      assert h[1..][..k - 1] + h[1..][k..] == h[1..k] + h[k + 1..];
      assert h[..k] + h[k + 1..] == [h[0]] + (h[1..k] + h[k + 1..]);
      NameAt(h, k);
    }
  }

  lemma {:induction false} NameAt(h: seq<Header>, k: nat)
    requires 0 < k < |h| && Distinct(h)
    ensures h[k].name != h[0].name
  {
    NameIn(h[1..], k - 1);
    assert h[1..][k - 1] == h[k];
  }

  lemma {:induction false} NameIn(h: seq<Header>, k: nat)
    requires k < |h|
    ensures h[k].name in Names(h)
  {
    if k > 0 {
      NameIn(h[1..], k - 1);
    }
  }

  /** The last assignment to a name wins. */
  lemma {:induction false} PutPut(h: seq<Header>, name: string, first: string, second: string)
    ensures Put(Put(h, name, first), name, second) == Put(h, name, second)
  {
    if h != [] && h[0].name != name {
      PutPut(h[1..], name, first, second);
      assert Put(h, name, first)[1..] == Put(h[1..], name, first);
    } else if h != [] {
      assert Put(h, name, first)[1..] == h[1..];
    } else {
      assert Put(h, name, first)[1..] == [];
    }
  }

  /** Assigning and then unsetting a name leaves what unsetting alone leaves. */
  lemma {:induction false} PutThenRemove(h: seq<Header>, name: string, value: string)
    ensures Remove(Put(h, name, value), name) == Remove(h, name)
  {
    if h != [] {
      if h[0].name == name {
        assert Put(h, name, value)[1..] == h[1..];
      } else {
        PutThenRemove(h[1..], name, value);
        assert Put(h, name, value)[1..] == Put(h[1..], name, value);
      }
    } else {
      assert Put(h, name, value)[1..] == [];
    }
  }
}
