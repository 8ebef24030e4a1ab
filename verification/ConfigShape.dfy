/** Typed configurations: how JSON is decoded into fields of known types and encoded
    again, and what becomes of a file when a typed value is written over it. A typed
    value is represented by JSON in which every field is spelled out. */
module ConfigShape {
  import opened ConfigMerge
  import opened ConfigScrub

  datatype Shape =
    | Scalar(zero: Json, empties: set<Json>)  // its zero value, and which values an encoder may omit
    | Any                                     // untyped JSON
    | MapOf(elem: Shape)
    | Pointer(target: Shape)
    | Struct(members: map<string, Member>)

  /** A field; with `omitEmpty` the encoder leaves an empty value out. */
  datatype Member = Member(shape: Shape, omitEmpty: bool)

  /** A scalar's zero value is no object. */
  ghost predicate Proper(p: Shape) {
    match p
    case Scalar(zero, _) => !zero.Obj?
    case Any => true
    case MapOf(e) => Proper(e)
    case Pointer(e) => Proper(e)
    case Struct(ms) => forall k :: k in ms ==> Proper(ms[k].shape)
  }

  /** The value of a field that is not given. */
  function Zero(p: Shape): Json {
    match p
    case Scalar(zero, _) => zero
    case Any => Null
    case MapOf(_) => Null
    case Pointer(_) => Null
    case Struct(ms) => Obj(map k | k in ms :: Zero(ms[k].shape))
  }

  /** The typed values of a shape. A nil map or pointer is null. */
  predicate Typed(p: Shape, v: Json) {
    match p
    case Scalar(zero, _) => !v.Obj? && (v.Null? ==> zero.Null?)
    case Any => true
    case MapOf(e) => v.Null? || (v.Obj? && forall k :: k in v.fields ==> Typed(e, v.fields[k]))
    case Pointer(e) => v.Null? || Typed(e, v)
    case Struct(ms) => v.Obj? && v.fields.Keys == ms.Keys && forall k :: k in ms ==> Typed(ms[k].shape, v.fields[k])
  }

  /** What the decoder accepts; null leaves any field at its zero value. */
  predicate Decodable(p: Shape, j: Json) {
    match p
    case Scalar(_, _) => !j.Obj?
    case Any => true
    case MapOf(e) => j.Null? || (j.Obj? && forall k :: k in j.fields ==> Decodable(e, j.fields[k]))
    case Pointer(e) => j.Null? || Decodable(e, j)
    case Struct(ms) =>
      j.Null? || (j.Obj? && forall k :: k in ms && k in j.fields ==> Decodable(ms[k].shape, j.fields[k]))
  }

  /** Decoding fills in zero values and drops unknown fields. */
  function Decode(p: Shape, j: Json): Json {
    match p
    case Scalar(zero, _) => if j.Null? then zero else j
    case Any => j
    case MapOf(e) => if j.Obj? then Obj(map k | k in j.fields :: Decode(e, j.fields[k])) else Null
    case Pointer(e) => if j.Null? then Null else Decode(e, j)
    case Struct(ms) =>
      Obj(map k | k in ms ::
        if j.Obj? && k in j.fields then Decode(ms[k].shape, j.fields[k]) else Zero(ms[k].shape))
  }

  predicate Empty(p: Shape, v: Json) {
    match p
    case Scalar(_, empties) => v in empties
    case Any => v.Null?
    case MapOf(_) => v.Null? || v == Obj(map[])
    case Pointer(_) => v.Null?
    case Struct(_) => false
  }

  function Encode(p: Shape, v: Json): Json {
    match p
    case Scalar(_, _) => v
    case Any => v
    case MapOf(e) => if v.Obj? then Obj(map k | k in v.fields :: Encode(e, v.fields[k])) else Null
    case Pointer(e) => if v.Null? then Null else Encode(e, v)
    case Struct(ms) =>
      if !v.Obj? then v
      else Obj(map k | k in ms && k in v.fields && !Omitted(ms[k], v.fields[k]) :: Encode(ms[k].shape, v.fields[k]))
  }

  predicate Omitted(m: Member, v: Json) {
    m.omitEmpty && Empty(m.shape, v)
  }

  function FieldNames(j: Json): set<string> {
    if j.Obj? then j.fields.Keys else {}
  }

  /** The reference: what the next reader gets when `v` was written over a file that
      read as `old_`. A scalar is the written one. A map keeps the old keys that
      the written one lacks, unless it is nil. A struct has the written fields,
      except that an omitted one is still the old one. */
  function Over(p: Shape, old_: Json, v: Json): Json {
    match p
    case Scalar(_, _) => v
    case Any => MergeJson(old_, v)
    case MapOf(e) =>
      if !v.Obj? then Null
      else Obj(map k | k in v.fields.Keys + FieldNames(old_) ::
        if k !in v.fields then old_.fields[k]
        else Over(e, if old_.Obj? && k in old_.fields then old_.fields[k] else Zero(e), v.fields[k]))
    case Pointer(e) => if v.Null? then Null else Over(e, if old_.Null? then Zero(e) else old_, v)
    case Struct(ms) =>
      if !v.Obj? || !old_.Obj? then v
      else Obj(map k | k in ms && k in v.fields && k in old_.fields ::
        if Omitted(ms[k], v.fields[k]) then old_.fields[k] else Over(ms[k].shape, old_.fields[k], v.fields[k]))
  }

  lemma {:induction false} ZeroTyped(p: Shape)
    requires Proper(p)
    ensures Typed(p, Zero(p))
  {
    match p
    case Struct(ms) =>
      forall k | k in ms ensures Typed(ms[k].shape, Zero(ms[k].shape)) {
        ZeroTyped(ms[k].shape);
      }
    case _ =>
  }

  lemma {:induction false} DecodeTyped(p: Shape, j: Json)
    requires Proper(p) && Decodable(p, j)
    ensures Typed(p, Decode(p, j))
  {
    match p
    case MapOf(e) =>
      if j.Obj? {
        forall k | k in j.fields ensures Typed(e, Decode(e, j.fields[k])) {
          DecodeTyped(e, j.fields[k]);
        }
      }
    case Pointer(e) =>
      if !j.Null? {
        DecodeTyped(e, j);
      }
    case Struct(ms) =>
      forall k | k in ms ensures Typed(ms[k].shape, Decode(p, j).fields[k]) {
        ZeroTyped(ms[k].shape);
        if j.Obj? && k in j.fields {
          DecodeTyped(ms[k].shape, j.fields[k]);
        }
      }
    case _ =>
  }

  /** What is read back when a value was written where nothing was: the value, with
      omitted fields at zero. */
  lemma {:induction false} EncodeRead(p: Shape, v: Json)
    requires Proper(p) && Typed(p, v)
    ensures Decodable(p, Encode(p, v)) && Decode(p, Encode(p, v)) == Over(p, Zero(p), v)
  {
    var j := Encode(p, v);
    match p
    case MapOf(e) =>
      if v.Obj? {
        forall k | k in v.fields
          ensures Decodable(e, j.fields[k]) && Decode(e, j.fields[k]) == Over(e, Zero(e), v.fields[k])
        {
          EncodeRead(e, v.fields[k]);
        }
        assert Decode(p, j).fields == Over(p, Zero(p), v).fields;
      }
    case Pointer(e) =>
      if !v.Null? {
        EncodeRead(e, v);
        EncodeNotNull(e, v);
      }
    case Struct(ms) =>
      forall k | k in ms && !Omitted(ms[k], v.fields[k])
        ensures Decodable(ms[k].shape, j.fields[k])
        ensures Decode(ms[k].shape, j.fields[k]) == Over(ms[k].shape, Zero(ms[k].shape), v.fields[k])
      {
        EncodeRead(ms[k].shape, v.fields[k]);
      }
      assert Decode(p, j).fields == Over(p, Zero(p), v).fields;
    case _ =>
  }

  lemma {:induction false} EncodeNotNull(p: Shape, v: Json)
    requires Typed(p, v) && !v.Null?
    ensures !Encode(p, v).Null?
  {
    match p
    case Pointer(e) => EncodeNotNull(e, v);
    case _ =>
  }

  /** A field that the struct does not have is never looked at. */
  lemma UnknownIgnored(ms: map<string, Member>, file: map<string, Json>, k: string, v: Json)
    requires k !in ms
    ensures Decodable(Struct(ms), Obj(file[k := v])) <==> Decodable(Struct(ms), Obj(file))
    ensures Decode(Struct(ms), Obj(file[k := v])) == Decode(Struct(ms), Obj(file))
  {
    assert Decode(Struct(ms), Obj(file[k := v])).fields == Decode(Struct(ms), Obj(file)).fields;
  }

  /** Null is read as the zero value. */
  lemma NullRead(p: Shape)
    ensures Decodable(p, Null) && Decode(p, Null) == Zero(p)
  {
    match p
    case Struct(ms) => assert Decode(p, Null).fields == Zero(p).fields;
    case _ =>
  }

  /** Reading back what was written over a file, for every shape, file and value. */
  lemma {:induction false} WrittenOver(p: Shape, file: Json, v: Json)
    requires Proper(p) && Decodable(p, file) && Typed(p, v)
    ensures var n := MergeJson(file, Encode(p, v));
            Decodable(p, n) && Decode(p, n) == Over(p, Decode(p, file), v)
    decreases p, 1
  {
    var j := Encode(p, v);
    match p
    case Scalar(_, _) =>
    case Any =>
    case MapOf(_) => MapWritten(p, file, v);
    case Pointer(e) =>
      if !v.Null? {
        EncodeNotNull(e, v);
        if file.Null? {
          EncodeRead(e, v);
        } else {
          WrittenOver(e, file, v);
          DecodeNotNull(e, file, v);
          MergeNotNull(file, j);
        }
      }
    case Struct(_) => StructWritten(p, file, v);
  }

  lemma MergeNotNull(l: Json, r: Json)
    ensures MergeJson(l, r).Null? <==> r.Null?
  {
  }

  /** A pointer's target is read as zero only when it is zero. */
  lemma DecodeNotNull(e: Shape, file: Json, v: Json)
    requires Decodable(e, file) && !file.Null?
    ensures Over(e, if Decode(e, file).Null? then Zero(e) else Decode(e, file), v) == Over(e, Decode(e, file), v)
    decreases e
  {
    match e
    case Pointer(d) => DecodeNotNull(d, file, v);
    case _ =>
  }

  lemma MapWritten(p: Shape, file: Json, v: Json)
    requires p.MapOf? && Proper(p) && Decodable(p, file) && Typed(p, v)
    ensures var n := MergeJson(file, Encode(p, v));
            Decodable(p, n) && Decode(p, n) == Over(p, Decode(p, file), v)
    decreases p, 0
  {
    var e := p.elem;
    var j := Encode(p, v);
    var n := MergeJson(file, j);
    if v.Obj? {
      forall k | k in n.fields
        ensures Decodable(e, n.fields[k]) && Decode(e, n.fields[k]) == Over(p, Decode(p, file), v).fields[k]
      {
        if k in v.fields {
          EncodeRead(e, v.fields[k]);
          if file.Obj? && k in file.fields {
            WrittenOver(e, file.fields[k], v.fields[k]);
          }
        }
      }
      assert Decode(p, n).fields == Over(p, Decode(p, file), v).fields;
    }
  }

  lemma StructWritten(p: Shape, file: Json, v: Json)
    requires p.Struct? && Proper(p) && Decodable(p, file) && Typed(p, v)
    ensures var n := MergeJson(file, Encode(p, v));
            Decodable(p, n) && Decode(p, n) == Over(p, Decode(p, file), v)
    decreases p, 0
  {
    var ms := p.members;
    var j := Encode(p, v);
    var n, o := MergeJson(file, j), Over(p, Decode(p, file), v);
    forall k | k in ms
      ensures k in n.fields ==> Decodable(ms[k].shape, n.fields[k])
      ensures Decode(p, n).fields[k] == o.fields[k]
    {
      EncodeRead(ms[k].shape, v.fields[k]);
      if file.Obj? && k in file.fields {
        WrittenOver(ms[k].shape, file.fields[k], v.fields[k]);
      }
    }
    assert Decode(p, n).fields == o.fields;
  }

  // ---------------------------------------------------------------------------
  // When writing replaces

  /** The written value leaves nothing of the old one out: no map lacks an old key,
      and a field that is omitted was as empty before. */
  predicate LeavesNothingOut(p: Shape, old_: Json, v: Json) {
    match p
    case Scalar(_, _) => true
    case Any => Covered(old_, v)
    case MapOf(e) =>
      v.Obj? ==>
        (old_.Obj? ==> old_.fields.Keys <= v.fields.Keys) &&
        forall k :: k in v.fields ==>
          LeavesNothingOut(e, if old_.Obj? && k in old_.fields then old_.fields[k] else Zero(e), v.fields[k])
    case Pointer(e) => !v.Null? ==> LeavesNothingOut(e, if old_.Null? then Zero(e) else old_, v)
    case Struct(ms) =>
      v.Obj? && old_.Obj? ==>
        forall k :: k in ms && k in v.fields && k in old_.fields ==>
          if Omitted(ms[k], v.fields[k]) then old_.fields[k] == v.fields[k]
          else LeavesNothingOut(ms[k].shape, old_.fields[k], v.fields[k])
  }

  /** What is read back is what was written, and no more, exactly when nothing was
      left out. */
  lemma {:induction false} OverExactIff(p: Shape, old_: Json, v: Json)
    requires Proper(p) && Typed(p, old_) && Typed(p, v)
    ensures Over(p, old_, v) == v <==> LeavesNothingOut(p, old_, v)
  {
    match p
    case Scalar(_, _) =>
    case Any => MergeReplacesIff(old_, v);
    case MapOf(e) =>
      if v.Obj? {
        ZeroTyped(e);
        var o := Over(p, old_, v);
        forall k | k in v.fields
          ensures o.fields[k] == v.fields[k] <==>
            LeavesNothingOut(e, if old_.Obj? && k in old_.fields then old_.fields[k] else Zero(e), v.fields[k])
        {
          OverExactIff(e, if old_.Obj? && k in old_.fields then old_.fields[k] else Zero(e), v.fields[k]);
        }
        assert old_.Obj? ==> forall k :: k in old_.fields ==> k in o.fields;
        assert LeavesNothingOut(p, old_, v) ==> o.fields == v.fields;
      }
    case Pointer(e) =>
      if !v.Null? {
        ZeroTyped(e);
        OverExactIff(e, if old_.Null? then Zero(e) else old_, v);
      }
    case Struct(ms) =>
      var o := Over(p, old_, v);
      forall k | k in ms && !Omitted(ms[k], v.fields[k])
        ensures o.fields[k] == v.fields[k] <==> LeavesNothingOut(ms[k].shape, old_.fields[k], v.fields[k])
      {
        OverExactIff(ms[k].shape, old_.fields[k], v.fields[k]);
      }
      assert LeavesNothingOut(p, old_, v) ==> o.fields == v.fields;
  }

  lemma {:induction false} NothingOutSelf(p: Shape, v: Json)
    requires Typed(p, v)
    ensures LeavesNothingOut(p, v, v)
  {
    match p
    case Any => CoveredSelf(v);
    case MapOf(e) =>
      if v.Obj? {
        forall k | k in v.fields ensures LeavesNothingOut(e, v.fields[k], v.fields[k]) {
          NothingOutSelf(e, v.fields[k]);
        }
      }
    case Pointer(e) =>
      if !v.Null? {
        NothingOutSelf(e, v);
      }
    case Struct(ms) =>
      forall k | k in ms ensures LeavesNothingOut(ms[k].shape, v.fields[k], v.fields[k]) {
        NothingOutSelf(ms[k].shape, v.fields[k]);
      }
    case _ =>
  }

  /** A value written over itself is read back. */
  lemma OverSelf(p: Shape, v: Json)
    requires Proper(p) && Typed(p, v)
    ensures Over(p, v, v) == v
  {
    NothingOutSelf(p, v);
    OverExactIff(p, v, v);
  }
}
