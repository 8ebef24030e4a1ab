/** Removing secrets from a configuration before it is shown. */
module ConfigScrub {
  import opened Strings
  import opened Wrappers

  /** A JSON value; arrays count as leaves. */
  datatype Json = Null | Leaf(text: string) | Obj(fields: map<string, Json>)

  /** A selector part matches a field name: a star, or equal up to case. */
  predicate Hit(part: string, name: string) {
    part == "*" || EqualFold(part, name)
  }

  /** The reference: a matched leaf goes, a matched object is scrubbed with the
      rest of the selector and becomes empty when nothing of it is left. */
  function Scrub(m: map<string, Json>, key: seq<string>): map<string, Json>
    decreases |key|
  {
    if key == [] then map[]
    else map k | k in m && (!Hit(key[0], k) || m[k].Obj?) ::
           if Hit(key[0], k) then Obj(Scrub(m[k].fields, key[1..])) else m[k]
  }

  method ScrubMapInternal(m: map<string, Json>, key: seq<string>) returns (n: map<string, Json>)
    ensures n == Scrub(m, key)
    decreases |key|, 1
  {
    if |key| == 0 {
      return map[];
    }
    n := map[];
    var rest := m.Keys;
    while rest != {}
      invariant rest <= m.Keys
      invariant forall k :: k in n <==> k in m && k !in rest && k in Scrub(m, key)
      invariant forall k :: k in n ==> n[k] == Scrub(m, key)[k]
    {
      var k :| k in rest;
      if key[0] == "*" || EqualFold(key[0], k) {
        var u := ScrubEither(m[k], key[1..]);
        if u.Some? {
          n := n[k := u.value];
        }
      } else {
        n := n[k := m[k]];
      }
      rest := rest - {k};
    }
    assert n.Keys == Scrub(m, key).Keys;
  }

  /** An object is scrubbed further; anything else yields nothing, whatever is
      left of the selector and whether or not a missing value is tolerated. */
  method ScrubEither(v: Json, key: seq<string>) returns (u: Option<Json>)
    ensures u == if v.Obj? then Some(Obj(Scrub(v.fields, key))) else None
    decreases |key|, 2
  {
    if v.Obj? {
      var n := ScrubMapInternal(v.fields, key);
      return Some(Obj(n));
    }
    return None;
  }

  /** The value at a non-empty path of field names. */
  function Lookup(m: map<string, Json>, path: seq<string>): Option<Json>
    requires path != []
    decreases |path|
  {
    if path[0] !in m then None
    else if |path| == 1 then Some(m[path[0]])
    else if m[path[0]].Obj? then Lookup(m[path[0]].fields, path[1..])
    else None
  }

  /** Some part of the path is not matched by the selector. */
  predicate Diverges(key: seq<string>, path: seq<string>) {
    exists i :: 0 <= i < |key| && i < |path| && !Hit(key[i], path[i])
  }

  /** What every path holds after scrubbing: a diverging path is untouched; on a
      matching path up to the length of the selector only objects survive,
      scrubbed with the rest of it; below that nothing does. */
  lemma {:induction false} ScrubLookup(m: map<string, Json>, key: seq<string>, path: seq<string>)
    requires key != [] && path != []
    ensures Lookup(Scrub(m, key), path) ==
      if Diverges(key, path) then Lookup(m, path)
      else if |path| > |key| then None
      else match Lookup(m, path)
           case Some(Obj(f)) => Some(Obj(Scrub(f, key[|path|..])))
           case _ => None
    decreases |key|
  {
    var k := path[0];
    if Hit(key[0], k) {
      assert Diverges(key, path) <==> Diverges(key[1..], path[1..]) by {
        if Diverges(key, path) {
          var i :| 0 <= i < |key| && i < |path| && !Hit(key[i], path[i]);
          assert key[1..][i - 1] == key[i] && path[1..][i - 1] == path[i];
        }
        if Diverges(key[1..], path[1..]) {
          var i :| 0 <= i < |key[1..]| && i < |path[1..]| && !Hit(key[1..][i], path[1..][i]);
          assert !Hit(key[i + 1], path[i + 1]);
        }
      }
      if k in m && m[k].Obj? && |path| > 1 {
        if |key| > 1 {
          ScrubLookup(m[k].fields, key[1..], path[1..]);
          assert |path| <= |key| ==> key[1..][|path| - 1..] == key[|path|..];
        } else {
          assert Scrub(m[k].fields, key[1..]) == map[];
        }
      }
    } else {
      assert Diverges(key, path);
    }
  }

  /** Nothing but objects is left at a path that the selector matches. */
  lemma NoMatchingLeaf(m: map<string, Json>, key: seq<string>, path: seq<string>)
    requires key != [] && path != [] && !Diverges(key, path)
    ensures Lookup(Scrub(m, key), path).Some? ==> Lookup(Scrub(m, key), path).value.Obj?
  {
    ScrubLookup(m, key, path);
  }

  lemma {:induction false} ScrubIdempotent(m: map<string, Json>, key: seq<string>)
    ensures Scrub(Scrub(m, key), key) == Scrub(m, key)
    decreases |key|
  {
    if key != [] {
      var n := Scrub(m, key);
      forall k | k in n && Hit(key[0], k) ensures Scrub(n[k].fields, key[1..]) == n[k].fields {
        ScrubIdempotent(m[k].fields, key[1..]);
      }
      assert Scrub(n, key).Keys == n.Keys;
    }
  }
}
