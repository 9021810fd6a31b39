/**
 * The three registries of the component are unordered multimaps from field
 * id to point. They are modelled as sequences in the map's iteration order,
 * which is fixed but unspecified: a registration inserts at whatever
 * position the hash table gives the new point.
 */
module Registry {
  import opened BsbTypes

  /** No point occurs twice in one registry. */
  ghost predicate Distinct<T>(ps: seq<T>) {
    forall i, j :: 0 <= i < j < |ps| ==> ps[i] != ps[j]
  }

  /** The registry after inserting p at iteration position slot. */
  function Insert<T>(ps: seq<T>, slot: nat, p: T): (r: seq<T>)
    requires slot <= |ps|
    ensures |r| == |ps| + 1 && r[slot] == p
    ensures r[..slot] == ps[..slot] && r[slot + 1..] == ps[slot..]
  {
    ps[..slot] + [p] + ps[slot..]
  }

  /** Inserting a point not yet registered keeps the registry free of duplicates. */
  lemma DistinctInsert<T>(ps: seq<T>, slot: nat, p: T)
    requires slot <= |ps| && Distinct(ps)
    requires forall i :: 0 <= i < |ps| ==> ps[i] != p
    ensures Distinct(Insert(ps, slot, p))
  {
    var r := Insert(ps, slot, p);
    forall i, j | 0 <= i < j < |r|
      ensures r[i] != r[j]
    {
      var i' := if i < slot then i else i - 1;
      var j' := if j <= slot then j else j - 1;
      if i != slot && j != slot {
        assert r[i] == ps[i'] && r[j] == ps[j'];
      } else if i == slot {
        assert r[j] == ps[j'];
      } else {
        assert r[i] == ps[i'];
      }
    }
  }

  /** equal_range: the points registered under f, in iteration order. */
  function Lookup<T>(ps: seq<T>, key: T -> FieldId, f: FieldId): (r: seq<T>)
    ensures |r| <= |ps|
    decreases |ps|
  {
    if |ps| == 0 then []
    else (if key(ps[0]) == f then [ps[0]] else []) + Lookup(ps[1..], key, f)
  }

  /** A lookup gives registered points under f only, and every one of them. */
  lemma {:induction false} LookupMembers<T>(ps: seq<T>, key: T -> FieldId, f: FieldId)
    ensures forall x :: x in Lookup(ps, key, f) <==> x in ps && key(x) == f
    decreases |ps|
  {
    if |ps| > 0 {
      LookupMembers(ps[1..], key, f);
      assert ps == [ps[0]] + ps[1..];
    }
  }

  lemma {:induction false} LookupAppend<T>(a: seq<T>, b: seq<T>, key: T -> FieldId, f: FieldId)
    ensures Lookup(a + b, key, f) == Lookup(a, key, f) + Lookup(b, key, f)
    decreases |a|
  {
    if |a| > 0 {
      LookupAppend(a[1..], b, key, f);
      assert (a + b)[1..] == a[1..] + b;
    } else {
      assert a + b == b;
    }
  }

  /**
   * A multimap keeps every registration: after inserting p, a lookup of f
   * gives the points it gave before, plus p exactly when p's key is f.
   */
  lemma LookupAfterInsert<T>(ps: seq<T>, slot: nat, p: T, key: T -> FieldId, f: FieldId)
    requires slot <= |ps|
    ensures multiset(Lookup(Insert(ps, slot, p), key, f))
         == multiset(Lookup(ps, key, f)) + (if key(p) == f then multiset{p} else multiset{})
  {
    var a, b := ps[..slot], ps[slot..];
    assert ps == a + b;
    assert Insert(ps, slot, p) == (a + [p]) + b;
    assert Lookup([p], key, f) == (if key(p) == f then [p] else []) by {
      assert [p][1..] == [];
    }
    LookupAppend(a + [p], b, key, f);
    LookupAppend(a, [p], key, f);
    LookupAppend(a, b, key, f);
  }

  /** Inserting a point under another id does not change the lookup of f. */
  lemma LookupOtherKey<T>(ps: seq<T>, slot: nat, p: T, key: T -> FieldId, f: FieldId)
    requires slot <= |ps| && key(p) != f
    ensures Lookup(Insert(ps, slot, p), key, f) == Lookup(ps, key, f)
  {
    var a, b := ps[..slot], ps[slot..];
    assert ps == a + b;
    assert Insert(ps, slot, p) == (a + [p]) + b;
    assert Lookup([p], key, f) == [] by {
      assert Lookup([p], key, f) == [] + Lookup([p][1..], key, f);
      assert [p][1..] == [];
    }
    LookupAppend(a, [p], key, f);
    assert Lookup(a + [p], key, f) == Lookup(a, key, f);
    LookupAppend(a + [p], b, key, f);
    LookupAppend(a, b, key, f);
  }

  /** g applied to every point of a sequence, in order. */
  function Applied<T>(ps: seq<T>, g: T -> T): (r: seq<T>)
    ensures |r| == |ps| && forall i {:trigger r[i]} :: 0 <= i < |ps| ==> r[i] == g(ps[i])
  {
    seq(|ps|, i requires 0 <= i < |ps| => g(ps[i]))
  }

  /**
   * Updating the points under f, when the update keeps each point's id, is
   * the same as walking equal_range of f: the lookup of f afterwards is the
   * old lookup with g applied, and the lookup of any other id is unchanged.
   */
  lemma {:induction false} UpdateWhereLookup<T>(ps: seq<T>, key: T -> FieldId, f: FieldId, g: T -> T, other: FieldId)
    requires forall x :: key(g(x)) == key(x)
    requires other != f
    ensures Lookup(UpdateWhere(ps, key, f, g), key, f) == Applied(Lookup(ps, key, f), g)
    ensures Lookup(UpdateWhere(ps, key, f, g), key, other) == Lookup(ps, key, other)
    decreases |ps|
  {
    if |ps| > 0 {
      var u := UpdateWhere(ps, key, f, g);
      assert u[1..] == UpdateWhere(ps[1..], key, f, g);
      UpdateWhereLookup(ps[1..], key, f, g, other);
      var l := Lookup(ps, key, f);
      if key(ps[0]) == f {
        assert l == [ps[0]] + Lookup(ps[1..], key, f);
        assert Applied(l, g) == [g(ps[0])] + Applied(Lookup(ps[1..], key, f), g);
      } else {
        assert l == Lookup(ps[1..], key, f);
      }
    } else {
      assert UpdateWhere(ps, key, f, g) == [];
    }
  }

  /** Every point registered under f gets g applied; every other point stays as it is. */
  function UpdateWhere<T>(ps: seq<T>, key: T -> FieldId, f: FieldId, g: T -> T): (r: seq<T>)
    ensures |r| == |ps|
    ensures forall i {:trigger r[i]} :: 0 <= i < |ps| ==> r[i] == if key(ps[i]) == f then g(ps[i]) else ps[i]
  {
    seq(|ps|, i requires 0 <= i < |ps| => if key(ps[i]) == f then g(ps[i]) else ps[i])
  }
}
