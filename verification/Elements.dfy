/** Lists seen as the sets of their elements. */
module Elements {

  ghost function Elems<T>(v: seq<T>): set<T> {
    set x | x in v
  }

  ghost predicate Distinct<T>(v: seq<T>) {
    forall i, j :: 0 <= i < j < |v| ==> v[i] != v[j]
  }

  lemma EmptyElems<T>()
    ensures Elems<T>([]) == {} && Distinct<T>([])
  {
  }

  lemma AddLast<T>(v: seq<T>, x: T)
    ensures Elems(v + [x]) == Elems(v) + {x}
    ensures Distinct(v) && x !in Elems(v) ==> Distinct(v + [x])
  {
    assert forall i :: 0 <= i < |v| ==> v[i] in Elems(v);
  }

  lemma AddFirst<T>(x: T, v: seq<T>)
    ensures Elems([x] + v) == Elems(v) + {x}
    ensures Distinct(v) && x !in Elems(v) ==> Distinct([x] + v)
  {
    assert forall i :: 0 <= i < |v| ==> v[i] in Elems(v);
  }

  lemma DropLast<T>(v: seq<T>)
    requires v != [] && Distinct(v)
    ensures var n := |v| - 1; v[n] in Elems(v) && Elems(v[..n]) == Elems(v) - {v[n]} && Distinct(v[..n])
  {
    var n := |v| - 1;
    forall x | x in Elems(v) && x != v[n]
      ensures x in v[..n]
    {
      var i :| 0 <= i < |v| && v[i] == x;
      assert v[..n][i] == x;
    }
  }

  lemma FirstAndRest<T>(v: seq<T>)
    requires v != [] && Distinct(v)
    ensures v == [v[0]] + v[1..] && Distinct(v[1..])
    ensures v[0] in Elems(v) && v[0] !in Elems(v[1..]) && Elems(v) == Elems(v[1..]) + {v[0]}
  {
    assert v == [v[0]] + v[1..];
    assert v[0] !in v[1..] by {
      forall i | 0 <= i < |v[1..]| ensures v[1..][i] != v[0] { assert v[1..][i] == v[i + 1]; }
    }
    AddFirst(v[0], v[1..]);
  }
}
