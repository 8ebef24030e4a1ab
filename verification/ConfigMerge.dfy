/** Deep merging of JSON maps: how a changed configuration is written over the
    file it came from. */
module ConfigMerge {
  import opened ConfigScrub

  /** The right value wins, except that two objects are merged key by key. */
  function MergeJson(l: Json, r: Json): Json
    decreases r
  {
    if l.Obj? && r.Obj? then
      Obj(map k | k in l.fields.Keys + r.fields.Keys ::
        if k !in r.fields then l.fields[k]
        else if k in l.fields then MergeJson(l.fields[k], r.fields[k])
        else r.fields[k])
    else r
  }

  /** Every key of an object in `l` has a counterpart wherever `r` has an object. */
  predicate Covered(l: Json, r: Json)
    decreases r
  {
    l.Obj? && r.Obj? ==> forall k :: k in l.fields ==> k in r.fields && Covered(l.fields[k], r.fields[k])
  }

  /** Merging replaces the left value exactly when the right one leaves nothing out. */
  lemma {:induction false} MergeReplacesIff(l: Json, r: Json)
    ensures MergeJson(l, r) == r <==> Covered(l, r)
    decreases r
  {
    if l.Obj? && r.Obj? {
      var m := MergeJson(l, r);
      forall k | k in l.fields && k in r.fields
        ensures MergeJson(l.fields[k], r.fields[k]) == r.fields[k] <==> Covered(l.fields[k], r.fields[k])
      {
        MergeReplacesIff(l.fields[k], r.fields[k]);
      }
      if Covered(l, r) {
        assert m.fields == r.fields;
      } else {
        var k :| k in l.fields && !(k in r.fields && Covered(l.fields[k], r.fields[k]));
        assert k in m.fields;
      }
    }
  }

  lemma {:induction false} CoveredSelf(j: Json)
    ensures Covered(j, j)
  {
    if j.Obj? {
      forall k | k in j.fields ensures Covered(j.fields[k], j.fields[k]) {
        CoveredSelf(j.fields[k]);
      }
    }
  }

  lemma MergeSame(j: Json)
    ensures MergeJson(j, j) == j
  {
    CoveredSelf(j);
    MergeReplacesIff(j, j);
  }
}
