/** `ipfs config show` and `ipfs config replace`: what the second makes of the
    output of the first, in the running instance and in the file. */
module ConfigReplace {
  import opened ConfigMerge
  import opened ConfigScrub
  import opened ConfigShape
  import opened Strings
  import opened Wrappers

  // ---------------------------------------------------------------------------
  // The typed configuration

  const TEXT := Scalar(Leaf(""), {Leaf("")})
  const FLAG := Scalar(Leaf("false"), {Leaf("false")})
  const LIST := Scalar(Null, {Null, Leaf("[]")})

  const IDENTITY := Struct(map["PeerID" := Member(TEXT, false), "PrivKey" := Member(TEXT, true)])

  const AUTH_SCOPE := Struct(map["AuthSecret" := Member(TEXT, false), "AllowedPaths" := Member(LIST, false)])
  const AUTHORIZATIONS := MapOf(Pointer(AUTH_SCOPE))
  const RPC_API := Struct(map["HTTPHeaders" := Member(MapOf(LIST), false),
                              "Authorizations" := Member(AUTHORIZATIONS, true)])

  const SERVICE_API := Struct(map["Endpoint" := Member(TEXT, false), "Key" := Member(TEXT, false)])
  const MFS_POLICY := Struct(map["Enable" := Member(FLAG, false), "PinName" := Member(TEXT, false),
                                 "RepinInterval" := Member(TEXT, false)])
  const POLICIES := Struct(map["MFS" := Member(MFS_POLICY, false)])
  const SERVICE := Struct(map["API" := Member(SERVICE_API, false), "Policies" := Member(POLICIES, false)])
  const SERVICES := MapOf(SERVICE)
  const PINNING := Struct(map["RemoteServices" := Member(SERVICES, false)])

  /** The three sections that the commands look into, among any others. */
  function Sections(rest: map<string, Member>): map<string, Member> {
    rest["Identity" := Member(IDENTITY, false)]["API" := Member(RPC_API, false)]["Pinning" := Member(PINNING, false)]
  }

  function ConfigOf(rest: map<string, Member>): Shape {
    Struct(Sections(rest))
  }

  /** The other sections are of any proper shape, and their names do not look like
      one of the three. */
  ghost predicate OtherSections(rest: map<string, Member>) {
    forall k :: k in rest ==>
      !EqualFold("Identity", k) && !EqualFold("API", k) && !EqualFold("Pinning", k) && Proper(rest[k].shape)
  }

  lemma ServiceProper()
    ensures Proper(SERVICE)
  {
    assert Proper(SERVICE_API) && Proper(MFS_POLICY);
    assert Proper(POLICIES);
  }

  lemma SectionsProper()
    ensures Proper(IDENTITY) && Proper(RPC_API) && Proper(PINNING)
  {
    assert Proper(AUTH_SCOPE);
    assert Proper(AUTHORIZATIONS);
    ServiceProper();
    assert Proper(SERVICES);
  }

  lemma ConfigProper(rest: map<string, Member>)
    requires OtherSections(rest)
    ensures Proper(ConfigOf(rest))
  {
    SectionsProper();
    var ms := Sections(rest);
    forall k | k in ms ensures Proper(ms[k].shape) {
      assert k in rest || k in {"Identity", "API", "Pinning"};
    }
    hide IDENTITY, RPC_API, PINNING;
  }

  /** The field `k` of a JSON value, null when there is none. */
  function At(j: Json, k: string): Json {
    if j.Obj? && k in j.fields then j.fields[k] else Null
  }

  function Put(j: Json, k: string, v: Json): Json {
    if j.Obj? then Obj(j.fields[k := v]) else j
  }

  function Entries(j: Json): map<string, Json> {
    if j.Obj? then j.fields else map[]
  }

  function PrivKey(c: Json): Json {
    At(At(c, "Identity"), "PrivKey")
  }

  function Authorizations(c: Json): Json {
    At(At(c, "API"), "Authorizations")
  }

  function Services(c: Json): Json {
    At(At(c, "Pinning"), "RemoteServices")
  }

  function WithKey(c: Json, key: Json): Json {
    Put(c, "Identity", Put(At(c, "Identity"), "PrivKey", key))
  }

  function WithAuthorizations(c: Json, a: Json): Json {
    Put(c, "API", Put(At(c, "API"), "Authorizations", a))
  }

  function WithServices(c: Json, s: Json): Json {
    Put(c, "Pinning", Put(At(c, "Pinning"), "RemoteServices", s))
  }

  /** Decoding is field by field, an absent one counting as null. */
  lemma DecodeAt(ms: map<string, Member>, j: Json, k: string)
    requires k in ms
    ensures Decode(Struct(ms), j).Obj? && Decode(Struct(ms), j).fields.Keys == ms.Keys
    ensures At(Decode(Struct(ms), j), k) == Decode(ms[k].shape, At(j, k))
    ensures Decodable(Struct(ms), j) ==> Decodable(ms[k].shape, At(j, k))
  {
    NullRead(ms[k].shape);
  }

  // ---------------------------------------------------------------------------
  // Showing

  const PRIV_KEY_SELECTOR := ["Identity", "PrivKey"]
  const AUTHORIZATION_SELECTOR := ["API", "Authorizations"]
  const CONCEAL_SELECTOR := ["Pinning", "RemoteServices", "*", "API", "Key"]

  function Shown(file: map<string, Json>): map<string, Json> {
    Scrub(Scrub(Scrub(file, PRIV_KEY_SELECTOR), AUTHORIZATION_SELECTOR), CONCEAL_SELECTOR)
  }

  method Show(file: map<string, Json>) returns (shown: map<string, Json>)
    ensures shown == Shown(file)
  {
    shown := ScrubMapInternal(file, PRIV_KEY_SELECTOR);
    shown := ScrubMapInternal(shown, AUTHORIZATION_SELECTOR);
    shown := ScrubMapInternal(shown, CONCEAL_SELECTOR);
  }

  /** What a scrub leaves of a matched value; null when nothing. */
  function Left(j: Json, key: seq<string>): Json {
    if j.Obj? then Obj(Scrub(j.fields, key)) else Null
  }

  lemma LeftAt(j: Json, key: seq<string>, k: string)
    requires key != []
    ensures At(Left(j, key), k) == if Hit(key[0], k) then Left(At(j, k), key[1..]) else At(j, k)
  {
  }

  /** A configuration without its secrets: no key, no authorizations, no service keys. */
  function Concealed(c: Json): Json {
    WithServices(WithAuthorizations(WithKey(c, Leaf("")), Emptied(Authorizations(c))), Keyless(Services(c)))
  }

  /** A map without its entries; a nil map stays nil. */
  function Emptied(m: Json): Json {
    if m.Obj? then Obj(map[]) else Null
  }

  function KeylessService(s: Json): Json {
    Put(s, "API", Put(At(s, "API"), "Key", Leaf("")))
  }

  function Keyless(services: Json): Json {
    if services.Obj? then Obj(map n | n in services.fields :: KeylessService(services.fields[n])) else Null
  }

  /** Decoding what a scrub leaves of a struct of which it hits one member. */
  lemma MemberScrubbed(ms: map<string, Member>, j: Json, key: seq<string>, k: string, v: Json)
    requires key != [] && k in ms && Hit(key[0], k) && forall m :: m in ms && m != k ==> !Hit(key[0], m)
    requires Decodable(Struct(ms), j)
    requires Decodable(ms[k].shape, Left(At(j, k), key[1..])) && Decode(ms[k].shape, Left(At(j, k), key[1..])) == v
    ensures Decodable(Struct(ms), Left(j, key))
    ensures Decode(Struct(ms), Left(j, key)) == Put(Decode(Struct(ms), j), k, v)
  {
    var n := Left(j, key);
    hide Hit, Left, Scrub, Decode;
    LeftShape(j, key);
    forall m | m in ms
      ensures Decodable(ms[m].shape, At(n, m))
      ensures At(Decode(Struct(ms), n), m) == if m == k then v else At(Decode(Struct(ms), j), m)
    {
      LeftAt(j, key, m);
      DecodeAt(ms, j, m);
      DecodeAt(ms, n, m);
    }
    DecodeAt(ms, j, k);
    DecodeAt(ms, n, k);
    FieldsEqual(Decode(Struct(ms), n), Put(Decode(Struct(ms), j), k, v));
  }

  lemma LeftShape(j: Json, key: seq<string>)
    ensures Left(j, key).Obj? || Left(j, key).Null?
  {
  }

  lemma FieldsEqual(a: Json, b: Json)
    requires a.Obj? && b.Obj? && a.fields.Keys == b.fields.Keys && forall k :: k in a.fields ==> At(a, k) == At(b, k)
    ensures a == b
  {
    assert a.fields == b.fields;
  }

  /** A matched text is read as the empty one. */
  lemma TextConcealed(j: Json)
    requires Decodable(TEXT, j)
    ensures Decodable(TEXT, Left(j, [])) && Decode(TEXT, Left(j, [])) == Leaf("")
  {
  }

  lemma IdentityConcealed(j: Json)
    requires Decodable(IDENTITY, j)
    ensures var n := Left(j, ["PrivKey"]);
            Decodable(IDENTITY, n) && Decode(IDENTITY, n) == Put(Decode(IDENTITY, j), "PrivKey", Leaf(""))
  {
    assert ["PrivKey"][1..] == [] && !Hit("PrivKey", "PeerID") && Hit("PrivKey", "PrivKey");
    hide Decode, Decodable, Scrub, Hit, Left, TEXT;
    DecodeAt(IDENTITY.members, j, "PrivKey");
    TextConcealed(At(j, "PrivKey"));
    MemberScrubbed(IDENTITY.members, j, ["PrivKey"], "PrivKey", Leaf(""));
  }

  lemma MapEmptied(e: Shape, j: Json)
    requires Decodable(MapOf(e), j)
    ensures Decodable(MapOf(e), Left(j, [])) && Decode(MapOf(e), Left(j, [])) == Emptied(Decode(MapOf(e), j))
  {
  }

  lemma ApiConcealed(j: Json)
    requires Decodable(RPC_API, j)
    ensures var n := Left(j, ["Authorizations"]);
            && Decodable(RPC_API, n)
            && Decode(RPC_API, n) ==
               Put(Decode(RPC_API, j), "Authorizations", Emptied(At(Decode(RPC_API, j), "Authorizations")))
  {
    assert ["Authorizations"][1..] == [] && !Hit("Authorizations", "HTTPHeaders");
    assert Hit("Authorizations", "Authorizations");
    hide Decode, Decodable, Scrub, Hit, Left, Emptied, TEXT, LIST, AUTH_SCOPE;
    DecodeAt(RPC_API.members, j, "Authorizations");
    MapEmptied(Pointer(AUTH_SCOPE), At(j, "Authorizations"));
    MemberScrubbed(RPC_API.members, j, ["Authorizations"], "Authorizations",
                   Emptied(At(Decode(RPC_API, j), "Authorizations")));
  }

  lemma ServiceApiConcealed(j: Json)
    requires Decodable(SERVICE_API, j)
    ensures var n := Left(j, ["Key"]);
            Decodable(SERVICE_API, n) && Decode(SERVICE_API, n) == Put(Decode(SERVICE_API, j), "Key", Leaf(""))
  {
    assert ["Key"][1..] == [] && !Hit("Key", "Endpoint") && Hit("Key", "Key");
    hide Decode, Decodable, Scrub, Hit, Left, TEXT;
    DecodeAt(SERVICE_API.members, j, "Key");
    TextConcealed(At(j, "Key"));
    MemberScrubbed(SERVICE_API.members, j, ["Key"], "Key", Leaf(""));
  }

  lemma ServiceConcealed(j: Json)
    requires Decodable(SERVICE, j)
    ensures var n := Left(j, ["API", "Key"]);
            Decodable(SERVICE, n) && Decode(SERVICE, n) == KeylessService(Decode(SERVICE, j))
  {
    assert ["API", "Key"][1..] == ["Key"] && !Hit("API", "Policies") && Hit("API", "API");
    hide Decode, Decodable, Scrub, Hit, Left, SERVICE_API, POLICIES;
    DecodeAt(SERVICE.members, j, "API");
    ServiceApiConcealed(At(j, "API"));
    MemberScrubbed(SERVICE.members, j, ["API", "Key"], "API", Put(At(Decode(SERVICE, j), "API"), "Key", Leaf("")));
  }

  /** No service in the file is null. */
  predicate NoNullService(services: Json) {
    forall n :: n in Entries(services) ==> services.fields[n].Obj?
  }

  function ObjectNames(j: Json): set<string> {
    set k | k in Entries(j) && j.fields[k].Obj?
  }

  lemma MapRead(e: Shape, j: Json, k: string)
    requires j.Obj? && k in j.fields
    ensures Decode(MapOf(e), j).Obj? && Decode(MapOf(e), j).fields.Keys == j.fields.Keys
    ensures Decode(MapOf(e), j).fields[k] == Decode(e, j.fields[k])
    ensures Decodable(MapOf(e), j) ==> Decodable(e, j.fields[k])
  {
  }

  lemma StarLeft(j: Json, k: string)
    requires j.Obj?
    ensures var n := Left(j, ["*", "API", "Key"]);
      && n.Obj? && (k in n.fields <==> k in j.fields && j.fields[k].Obj?)
      && (k in n.fields ==> n.fields[k] == Left(j.fields[k], ["API", "Key"]))
  {
    assert ["*", "API", "Key"][1..] == ["API", "Key"];
  }

  /** Below the star every service loses its key, and one that is null goes. */
  lemma ServicesConcealed(j: Json)
    requires Decodable(SERVICES, j)
    ensures var n := Left(j, ["*", "API", "Key"]);
            && Decodable(SERVICES, n) && Entries(Decode(SERVICES, n)).Keys == ObjectNames(j)
            && (NoNullService(j) ==> Decode(SERVICES, n) == Keyless(Decode(SERVICES, j)))
  {
    var n := Left(j, ["*", "API", "Key"]);
    hide Scrub, Left, KeylessService, SERVICE, Decode, Decodable;
    if j.Obj? {
      StarLeft(j, "");
      forall k | k in n.fields
        ensures k in j.fields && j.fields[k].Obj? && Decodable(SERVICE, n.fields[k])
        ensures Decode(SERVICE, n.fields[k]) == KeylessService(Decode(SERVICE, j.fields[k]))
      {
        StarLeft(j, k);
        MapRead(SERVICE, j, k);
        ServiceConcealed(j.fields[k]);
      }
      forall k | k in j.fields && j.fields[k].Obj? ensures k in n.fields {
        StarLeft(j, k);
      }
      assert n.fields.Keys == ObjectNames(j);
      MapScrubbed(SERVICE, j, n);
    } else {
      NilScrubbed(SERVICE, j);
    }
  }

  lemma NilScrubbed(e: Shape, j: Json)
    requires Decodable(MapOf(e), j) && !j.Obj?
    ensures var n := Left(j, ["*", "API", "Key"]);
      Decodable(MapOf(e), n) && Decode(MapOf(e), n) == Null && Decode(MapOf(e), j) == Null
  {
  }

  lemma MapScrubbed(e: Shape, j: Json, n: Json)
    requires j.Obj? && n.Obj? && n.fields.Keys <= j.fields.Keys
    requires forall k :: k in n.fields ==> Decodable(e, n.fields[k])
    requires forall k :: k in n.fields ==> Decode(e, n.fields[k]) == KeylessService(Decode(e, j.fields[k]))
    ensures Decodable(MapOf(e), n) && Entries(Decode(MapOf(e), n)).Keys == n.fields.Keys
    ensures n.fields.Keys == j.fields.Keys ==> Decode(MapOf(e), n) == Keyless(Decode(MapOf(e), j))
  {
    hide KeylessService, Decode, Keyless, Decodable;
    MapDecodable(e, n);
    MapNames(e, n);
    MapNames(e, j);
    if n.fields.Keys == j.fields.Keys {
      forall k | k in n.fields
        ensures Decode(MapOf(e), n).fields[k] == KeylessService(Decode(MapOf(e), j).fields[k])
      {
        MapRead(e, n, k);
        MapRead(e, j, k);
      }
      KeylessEqual(Decode(MapOf(e), n), Decode(MapOf(e), j));
    }
  }

  lemma MapDecodable(e: Shape, n: Json)
    requires n.Obj? && forall k :: k in n.fields ==> Decodable(e, n.fields[k])
    ensures Decodable(MapOf(e), n)
  {
  }

  lemma KeylessEqual(d: Json, c: Json)
    requires d.Obj? && c.Obj? && d.fields.Keys == c.fields.Keys
    requires forall k :: k in d.fields ==> d.fields[k] == KeylessService(c.fields[k])
    ensures d == Keyless(c)
  {
    hide KeylessService;
    assert d.fields == Keyless(c).fields;
  }

  lemma MapNames(e: Shape, j: Json)
    requires j.Obj?
    ensures Decode(MapOf(e), j).Obj? && Decode(MapOf(e), j).fields.Keys == j.fields.Keys
  {
  }

  lemma PinningConcealed(j: Json)
    requires Decodable(PINNING, j)
    ensures var n := Left(j, ["RemoteServices", "*", "API", "Key"]);
      var services := Decode(SERVICES, Left(At(j, "RemoteServices"), ["*", "API", "Key"]));
      Decodable(PINNING, n) && Decode(PINNING, n) == Put(Decode(PINNING, j), "RemoteServices", services)
  {
    var key := ["RemoteServices", "*", "API", "Key"];
    assert key[1..] == ["*", "API", "Key"] && Hit("RemoteServices", "RemoteServices");
    hide Decode, Decodable, Scrub, Hit, Left, SERVICES;
    DecodeAt(PINNING.members, j, "RemoteServices");
    ServicesConcealed(At(j, "RemoteServices"));
    MemberScrubbed(PINNING.members, j, key, "RemoteServices",
                   Decode(SERVICES, Left(At(j, "RemoteServices"), ["*", "API", "Key"])));
  }

  /** The names of the sections are told apart by the selectors. */
  lemma SectionHits(rest: map<string, Member>, m: string)
    requires OtherSections(rest) && m in Sections(rest)
    ensures Hit("Identity", m) <==> m == "Identity"
    ensures Hit("API", m) <==> m == "API"
    ensures Hit("Pinning", m) <==> m == "Pinning"
  {
    hide IDENTITY, RPC_API, PINNING;
    if m !in {"Identity", "API", "Pinning"} {
      assert m in rest;
    }
  }

  /** Decoding what is shown, section by section. */
  lemma ShowReads(rest: map<string, Member>, file: map<string, Json>)
    requires OtherSections(rest) && Decodable(ConfigOf(rest), Obj(file))
    ensures Decodable(ConfigOf(rest), Obj(Shown(file)))
    ensures var c := Decode(ConfigOf(rest), Obj(file));
      Decode(ConfigOf(rest), Obj(Shown(file))) ==
        WithServices(WithAuthorizations(WithKey(c, Leaf("")), Emptied(Authorizations(c))),
                     Decode(SERVICES, Left(Services(Obj(file)), ["*", "API", "Key"])))
  {
    var ms, j := Sections(rest), Obj(file);
    forall m | m in ms
      ensures Hit("Identity", m) <==> m == "Identity"
      ensures Hit("API", m) <==> m == "API"
      ensures Hit("Pinning", m) <==> m == "Pinning"
    {
      SectionHits(rest, m);
    }
    assert PRIV_KEY_SELECTOR[1..] == ["PrivKey"] && AUTHORIZATION_SELECTOR[1..] == ["Authorizations"];
    assert CONCEAL_SELECTOR[1..] == ["RemoteServices", "*", "API", "Key"];
    var one := Left(j, PRIV_KEY_SELECTOR);
    var two := Left(one, AUTHORIZATION_SELECTOR);
    assert Obj(Shown(file)) == Left(two, CONCEAL_SELECTOR);
    hide Decode, Decodable, Scrub, Hit, Left, Shown, Emptied, OtherSections;
    hide IDENTITY, RPC_API, PINNING, SERVICES;
    FirstStage(rest, j, one);
    SecondStage(rest, one, two);
    assert At(two, "Pinning") == At(j, "Pinning") by {
      LeftAt(j, PRIV_KEY_SELECTOR, "Pinning");
      LeftAt(one, AUTHORIZATION_SELECTOR, "Pinning");
    }
    DecodeAt(ms, two, "Pinning");
    DecodeAt(ms, j, "Pinning");
    DecodeAt(ms, j, "Identity");
    PinningConcealed(At(two, "Pinning"));
    MemberScrubbed(ms, two, CONCEAL_SELECTOR, "Pinning",
                   Decode(PINNING, Left(At(two, "Pinning"), ["RemoteServices", "*", "API", "Key"])));
  }

  lemma FirstStage(rest: map<string, Member>, j: Json, one: Json)
    requires forall m :: m in Sections(rest) ==> (Hit("Identity", m) <==> m == "Identity")
    requires Decodable(ConfigOf(rest), j) && one == Left(j, PRIV_KEY_SELECTOR)
    ensures Decodable(ConfigOf(rest), one)
    ensures Decode(ConfigOf(rest), one) == WithKey(Decode(ConfigOf(rest), j), Leaf(""))
  {
    assert PRIV_KEY_SELECTOR[1..] == ["PrivKey"];
    hide Decode, Decodable, Scrub, Hit, Left, IDENTITY, RPC_API, PINNING;
    DecodeAt(Sections(rest), j, "Identity");
    IdentityConcealed(At(j, "Identity"));
    MemberScrubbed(Sections(rest), j, PRIV_KEY_SELECTOR, "Identity",
                   Put(At(Decode(ConfigOf(rest), j), "Identity"), "PrivKey", Leaf("")));
  }

  lemma SecondStage(rest: map<string, Member>, j: Json, two: Json)
    requires forall m :: m in Sections(rest) ==> (Hit("API", m) <==> m == "API")
    requires Decodable(ConfigOf(rest), j) && two == Left(j, AUTHORIZATION_SELECTOR)
    ensures Decodable(ConfigOf(rest), two)
    ensures var c := Decode(ConfigOf(rest), j);
            Decode(ConfigOf(rest), two) == WithAuthorizations(c, Emptied(Authorizations(c)))
  {
    assert AUTHORIZATION_SELECTOR[1..] == ["Authorizations"];
    hide Decode, Decodable, Scrub, Hit, Left, IDENTITY, RPC_API, PINNING, Emptied;
    DecodeAt(Sections(rest), j, "API");
    ApiConcealed(At(j, "API"));
    var a := At(Decode(ConfigOf(rest), j), "API");
    MemberScrubbed(Sections(rest), j, AUTHORIZATION_SELECTOR, "API",
                   Put(a, "Authorizations", Emptied(At(a, "Authorizations"))));
  }

  /** Showing a configuration file and decoding what is shown gives the configuration
      without its secrets, and nothing else is lost but services that are null. */
  lemma ShowConceals(rest: map<string, Member>, file: map<string, Json>)
    requires OtherSections(rest) && Decodable(ConfigOf(rest), Obj(file))
    ensures Decodable(ConfigOf(rest), Obj(Shown(file)))
    ensures Entries(Services(Decode(ConfigOf(rest), Obj(Shown(file))))).Keys == ObjectNames(Services(Obj(file)))
    ensures NoNullService(Services(Obj(file))) ==>
      Decode(ConfigOf(rest), Obj(Shown(file))) == Concealed(Decode(ConfigOf(rest), Obj(file)))
  {
    var ms, j := Sections(rest), Obj(file);
    hide Decode, Decodable, Scrub, Shown, Left, Emptied, Keyless, OtherSections, NoNullService, ObjectNames;
    hide IDENTITY, RPC_API, SERVICES, Hit, EqualFold;
    ShowReads(rest, file);
    DecodeAt(ms, j, "Pinning");
    DecodeAt(ms, j, "API");
    DecodeAt(ms, j, "Identity");
    DecodeAt(PINNING.members, At(j, "Pinning"), "RemoteServices");
    ServicesConcealed(Services(j));
  }

  // ---------------------------------------------------------------------------
  // Writing

  /** Top-level fields that the typed configuration does not have. */
  ghost predicate UnknownKept(rest: map<string, Member>, file: map<string, Json>, later: map<string, Json>) {
    forall k :: k in file && k !in Sections(rest) ==> k in later && later[k] == file[k]
  }

  lemma UnknownWritten(rest: map<string, Member>, file: map<string, Json>, v: Json)
    requires v.Obj?
    ensures MergeJson(Obj(file), Encode(ConfigOf(rest), v)).Obj?
    ensures UnknownKept(rest, file, MergeJson(Obj(file), Encode(ConfigOf(rest), v)).fields)
  {
    hide IDENTITY, RPC_API, PINNING;
  }

  lemma AtTyped(ms: map<string, Member>, v: Json, k: string)
    requires Typed(Struct(ms), v) && k in ms
    ensures v.Obj? && v.fields.Keys == ms.Keys && Typed(ms[k].shape, At(v, k))
  {
  }

  lemma PutTyped(ms: map<string, Member>, v: Json, k: string, x: Json)
    requires Typed(Struct(ms), v) && k in ms && Typed(ms[k].shape, x)
    ensures Typed(Struct(ms), Put(v, k, x))
  {
  }

  /** Writing a struct over itself with one member changed is read back unchanged when
      that member is omitted or read back unchanged. */
  lemma OverMember(ms: map<string, Member>, v: Json, k: string, x: Json)
    requires Proper(Struct(ms)) && Typed(Struct(ms), v) && k in ms
    requires Omitted(ms[k], x) || Over(ms[k].shape, At(v, k), x) == At(v, k)
    ensures Over(Struct(ms), v, Put(v, k, x)) == v
  {
    forall m | m in ms ensures m != k ==> Over(ms[m].shape, v.fields[m], v.fields[m]) == v.fields[m] {
      OverSelf(ms[m].shape, v.fields[m]);
    }
    assert Over(Struct(ms), v, Put(v, k, x)).fields == v.fields;
  }

  lemma EmptiedOmitted(a: Json)
    ensures Omitted(RPC_API.members["Authorizations"], Emptied(a))
  {
  }

  /** A configuration written over itself without its authorizations is read back
      with them, because empty ones are omitted. */
  lemma OverWithoutAuthorizations(rest: map<string, Member>, c: Json)
    requires OtherSections(rest) && Typed(ConfigOf(rest), c)
    ensures Over(ConfigOf(rest), c, WithAuthorizations(c, Emptied(Authorizations(c)))) == c
  {
    ConfigProper(rest);
    SectionsProper();
    EmptiedOmitted(Authorizations(c));
    hide Emptied, Omitted, Over, Proper, Typed, OtherSections, AUTH_SCOPE, LIST, IDENTITY, PINNING;
    AtTyped(Sections(rest), c, "API");
    OverMember(RPC_API.members, At(c, "API"), "Authorizations", Emptied(Authorizations(c)));
    OverMember(Sections(rest), c, "API", Put(At(c, "API"), "Authorizations", Emptied(Authorizations(c))));
  }

  /** A section of scalar or map type that is written as its zero value, because the
      input left it out, is read back as that, whatever the file held. */
  lemma LeftOutZeroed(rest: map<string, Member>, old_: Json, c: Json, k: string)
    requires OtherSections(rest) && Typed(ConfigOf(rest), old_) && Typed(ConfigOf(rest), c)
    requires k in rest && k !in {"Identity", "API", "Pinning"}
    requires !rest[k].omitEmpty && (rest[k].shape.Scalar? || rest[k].shape.MapOf?) && At(c, k) == Zero(rest[k].shape)
    ensures At(Over(ConfigOf(rest), old_, c), k) == Zero(rest[k].shape)
  {
    hide IDENTITY, RPC_API, PINNING;
  }

  // ---------------------------------------------------------------------------
  // Replacing

  datatype Error = DecodeFailed | PrivKeyGiven | NoPrivKey | ServicesDiffer | ApiInfoChanged

  function ServiceKey(s: Json): Json {
    At(At(s, "API"), "Key")
  }

  function Endpoint(s: Json): Json {
    At(At(s, "API"), "Endpoint")
  }

  predicate ApiUntouched(old_: Json, new_: Json) {
    ServiceKey(new_) == Leaf("") && (Endpoint(new_) == Leaf("") || Endpoint(new_) == Endpoint(old_))
  }

  /** The services in `done` have the API details of `olds`, the others are as in
      `news`. */
  function Reapplied(olds: map<string, Json>, news: map<string, Json>, done: set<string>): map<string, Json> {
    map n | n in news :: if n in done && n in olds then Put(news[n], "API", At(olds[n], "API")) else news[n]
  }

  lemma ReapplyOne(olds: map<string, Json>, news: map<string, Json>, done: set<string>, n: string)
    requires n in olds && n !in done
    ensures Reapplied(olds, news, done).Keys == news.Keys
    ensures n in news ==>
      Reapplied(olds, news, done)[n] == news[n] &&
      Reapplied(olds, news, done + {n}) == Reapplied(olds, news, done)[n := Put(news[n], "API", At(olds[n], "API"))]
  {
    hide Put, At;
  }

  lemma ReapplyNone(olds: map<string, Json>, news: map<string, Json>)
    ensures Reapplied(olds, news, {}) == news
  {
    hide Put, At;
  }

  lemma SameSizeSubset<T>(a: set<T>, b: set<T>)
    requires a <= b && |a| == |b|
    ensures a == b
  {
    assert b == a + (b - a);
  }

  /** Gives every new service the API details of the old one of that name, or fails
      when services were added, dropped or redirected. */
  method ReapplyApi(oldServices: map<string, Json>, services: map<string, Json>)
    returns (err: Option<Error>, newServices: map<string, Json>)
    ensures err.None? <==>
      services.Keys == oldServices.Keys && forall n :: n in services ==> ApiUntouched(oldServices[n], services[n])
    ensures err.None? ==> newServices == Reapplied(oldServices, services, oldServices.Keys)
  {
    hide Reapplied, At, Put;
    newServices := services;
    if |newServices| != |oldServices| {
      return Some(ServicesDiffer), newServices;
    }
    var rest := oldServices.Keys;
    assert oldServices.Keys - rest == {};
    ReapplyNone(oldServices, services);
    while rest != {}
      invariant rest <= oldServices.Keys && oldServices.Keys - rest <= services.Keys
      invariant forall n :: n in oldServices.Keys - rest ==> ApiUntouched(oldServices[n], services[n])
      invariant newServices == Reapplied(oldServices, services, oldServices.Keys - rest)
    {
      var name :| name in rest;
      ReapplyOne(oldServices, services, oldServices.Keys - rest, name);
      assert oldServices.Keys - (rest - {name}) == oldServices.Keys - rest + {name};
      if name !in newServices {
        return Some(ServicesDiffer), newServices;
      }
      var newSvc, oldSvc := newServices[name], oldServices[name];
      if ServiceKey(newSvc) != Leaf("") || (Endpoint(newSvc) != Leaf("") && Endpoint(newSvc) != Endpoint(oldSvc)) {
        return Some(ApiInfoChanged), newServices;
      }
      newServices := newServices[name := Put(newSvc, "API", At(oldSvc, "API"))];
      rest := rest - {name};
    }
    SameSizeSubset(oldServices.Keys, services.Keys);
    assert oldServices.Keys - rest == oldServices.Keys;
    return None, newServices;
  }

  /** The input may be written: it names no secret, and adds, drops or redirects no
      service. */
  predicate Acceptable(olds: map<string, Json>, input: Json) {
    && PrivKey(input) == Leaf("") && Entries(Services(input)).Keys == olds.Keys
    && forall n :: n in Entries(Services(input)) ==> ApiUntouched(olds[n], Services(input).fields[n])
  }

  /** The input with the old key and the old API details of its services. */
  function Restored(c: Json, key: Json, olds: map<string, Json>): Json {
    WithNewServices(WithKey(c, key), Reapplied(olds, Entries(Services(c)), olds.Keys))
  }

  /** A nil map of services stays nil. */
  function WithNewServices(c: Json, services: map<string, Json>): Json {
    if Services(c).Obj? then WithServices(c, Obj(services)) else c
  }

  /** The object `b` has the fields of `a`, all the same but possibly `k`. */
  predicate SameBut(k: string, a: Json, b: Json) {
    a.Obj? && b.Obj? && b.fields.Keys == a.fields.Keys
    && forall m :: m in a.fields && m != k ==> b.fields[m] == a.fields[m]
  }

  /** Field by field, what `d` may differ in from the input `c`: the private key, and
      the API details of every service, which are the old ones. */
  predicate OnlySecrets(c: Json, key: Json, olds: map<string, Json>, d: Json) {
    && c.Obj? && d.Obj? && d.fields.Keys == c.fields.Keys
    && (forall k :: k in c.fields && k !in {"Identity", "Pinning"} ==> d.fields[k] == c.fields[k])
    && SameBut("PrivKey", At(c, "Identity"), At(d, "Identity")) && PrivKey(d) == key
    && SameBut("RemoteServices", At(c, "Pinning"), At(d, "Pinning"))
    && (if Services(c).Obj? then
          && Services(d).Obj? && Services(d).fields.Keys == Services(c).fields.Keys
          && forall n :: n in Services(d).fields ==>
               var s, o := Services(d).fields[n], Services(c).fields[n];
               SameBut("API", o, s) && n in olds && At(s, "API") == At(olds[n], "API")
        else Services(d) == Services(c))
  }

  /** The restored configuration is the one and only that differs in no more. */
  lemma RestoredIff(rest: map<string, Member>, c: Json, key: Json, o: Json, d: Json)
    requires Typed(ConfigOf(rest), c) && Typed(ConfigOf(rest), o) && key.Leaf?
    requires Entries(Services(c)).Keys == Entries(Services(o)).Keys
    ensures OnlySecrets(c, key, Entries(Services(o)), d) <==> d == Restored(c, key, Entries(Services(o)))
  {
    var olds := Entries(Services(o));
    ServicesTyped(rest, c);
    MapTyped(Services(c));
    EntryTyped(Services(c));
    forall n | n in Entries(Services(c))
      ensures Services(c).fields[n].Obj? && "API" in Services(c).fields[n].fields
    {
      AtTyped(SERVICE.members, Services(c).fields[n], "API");
    }
    assert HaveApi(c, olds);
    hide Typed, SERVICES, SERVICE, SERVICE_API, POLICIES, IDENTITY, RPC_API, PINNING, Sections;
    hide OnlySecrets, Restored, Reapplied;
    var e := Restored(c, key, olds);
    RestoredOnly(c, key, olds, e);
    if OnlySecrets(c, key, olds, d) {
      OnlySecretsUnique(c, key, olds, d, e);
    }
  }

  lemma RestoredParts(c: Json, key: Json, olds: map<string, Json>, e: Json)
    requires c.Obj? && At(c, "Identity").Obj? && At(c, "Pinning").Obj?
    requires "Pinning" in c.fields && "Identity" in c.fields && "RemoteServices" in At(c, "Pinning").fields
    requires e == Restored(c, key, olds)
    ensures e.Obj? && e.fields.Keys == c.fields.Keys
    ensures forall k :: k in c.fields && k !in {"Identity", "Pinning"} ==> e.fields[k] == c.fields[k]
    ensures At(e, "Identity") == Put(At(c, "Identity"), "PrivKey", key)
    ensures var news := Reapplied(olds, Entries(Services(c)), olds.Keys);
      && Services(e) == (if Services(c).Obj? then Obj(news) else Services(c))
      && At(e, "Pinning") == Put(At(c, "Pinning"), "RemoteServices", Services(e))
  {
    hide Reapplied;
  }

  /** Every service of `c` has API details, and there are old ones for it. */
  predicate HaveApi(c: Json, olds: map<string, Json>) {
    forall n :: n in Entries(Services(c)) ==>
      Services(c).fields[n].Obj? && "API" in Services(c).fields[n].fields && n in olds
  }

  lemma RestoredOnly(c: Json, key: Json, olds: map<string, Json>, e: Json)
    requires c.Obj? && At(c, "Identity").Obj? && At(c, "Pinning").Obj?
    requires "Pinning" in c.fields && "Identity" in c.fields && "RemoteServices" in At(c, "Pinning").fields
    requires "PrivKey" in At(c, "Identity").fields && HaveApi(c, olds)
    requires e == Restored(c, key, olds)
    ensures OnlySecrets(c, key, olds, e)
  {
    RestoredParts(c, key, olds, e);
    var news := Reapplied(olds, Entries(Services(c)), olds.Keys);
    forall n | n in Entries(Services(c))
      ensures n in news && SameBut("API", Services(c).fields[n], news[n])
      ensures At(news[n], "API") == At(olds[n], "API")
    {
    }
    hide Restored, Reapplied;
  }

  lemma SameButUnique(k: string, a: Json, b: Json, d: Json)
    requires SameBut(k, a, b) && SameBut(k, a, d) && At(b, k) == At(d, k)
    ensures b == d
  {
    FieldsEqual(b, d);
  }

  lemma OnlySecretsUnique(c: Json, key: Json, olds: map<string, Json>, d: Json, e: Json)
    requires OnlySecrets(c, key, olds, d) && OnlySecrets(c, key, olds, e)
    ensures d == e
  {
    if Services(c).Obj? {
      forall n | n in Services(d).fields ensures Services(d).fields[n] == Services(e).fields[n] {
        SameButUnique("API", Services(c).fields[n], Services(d).fields[n], Services(e).fields[n]);
      }
      assert Services(d).fields == Services(e).fields;
    }
    hide SameBut;
    SameButUnique("PrivKey", At(c, "Identity"), At(d, "Identity"), At(e, "Identity"));
    SameButUnique("RemoteServices", At(c, "Pinning"), At(d, "Pinning"), At(e, "Pinning"));
    assert d.fields == e.fields;
  }

  lemma KeyTyped(rest: map<string, Member>, c: Json, key: Json)
    requires Typed(ConfigOf(rest), c) && key.Leaf?
    ensures Typed(ConfigOf(rest), WithKey(c, key)) && Services(WithKey(c, key)) == Services(c)
  {
    assert Typed(TEXT, key);
    hide Typed, TEXT, RPC_API, PINNING;
    AtTyped(Sections(rest), c, "Identity");
    PutTyped(IDENTITY.members, At(c, "Identity"), "PrivKey", key);
    PutTyped(Sections(rest), c, "Identity", Put(At(c, "Identity"), "PrivKey", key));
  }

  lemma ServicesTyped(rest: map<string, Member>, c: Json)
    requires Typed(ConfigOf(rest), c)
    ensures c.Obj? && At(c, "Identity").Obj? && At(c, "API").Obj? && At(c, "Pinning").Obj?
    ensures Typed(SERVICES, Services(c))
    ensures Typed(PINNING, At(c, "Pinning")) && "RemoteServices" in At(c, "Pinning").fields
    ensures "Pinning" in c.fields && "Identity" in c.fields && "API" in c.fields
    ensures "PrivKey" in At(c, "Identity").fields && "Authorizations" in At(c, "API").fields
  {
    hide Typed, SERVICES, TEXT, LIST, AUTHORIZATIONS;
    AtTyped(Sections(rest), c, "Pinning");
    AtTyped(Sections(rest), c, "Identity");
    AtTyped(Sections(rest), c, "API");
    AtTyped(PINNING.members, At(c, "Pinning"), "RemoteServices");
    AtTyped(IDENTITY.members, At(c, "Identity"), "PrivKey");
    AtTyped(RPC_API.members, At(c, "API"), "Authorizations");
  }

  lemma ReappliedTyped(olds: map<string, Json>, news: map<string, Json>)
    requires forall n :: n in olds ==> Typed(SERVICE, olds[n])
    requires forall n :: n in news ==> Typed(SERVICE, news[n])
    ensures Typed(SERVICES, Obj(Reapplied(olds, news, olds.Keys)))
  {
    hide SERVICE_API, POLICIES;
    forall n | n in news && n in olds ensures Typed(SERVICE, Put(news[n], "API", At(olds[n], "API"))) {
      AtTyped(SERVICE.members, olds[n], "API");
      PutTyped(SERVICE.members, news[n], "API", At(olds[n], "API"));
    }
    hide Put, At, SERVICE;
  }

  lemma EntryTyped(j: Json)
    requires Typed(SERVICES, j)
    ensures forall n :: n in Entries(j) ==> Typed(SERVICE, j.fields[n])
  {
    hide SERVICE;
  }

  lemma RestoredTyped(rest: map<string, Member>, c: Json, key: Json, o: Json)
    requires Typed(ConfigOf(rest), c) && key.Leaf? && Typed(ConfigOf(rest), o)
    ensures Typed(ConfigOf(rest), Restored(c, key, Entries(Services(o))))
  {
    var d, olds := WithKey(c, key), Entries(Services(o));
    KeyTyped(rest, c, key);
    ServicesTyped(rest, o);
    ServicesTyped(rest, d);
    EntryTyped(Services(o));
    EntryTyped(Services(d));
    var news := Reapplied(olds, Entries(Services(c)), olds.Keys);
    ReappliedTyped(olds, Entries(Services(c)));
    hide Typed, SERVICES, Reapplied, IDENTITY, RPC_API, SERVICE, WithKey;
    PutTyped(PINNING.members, At(d, "Pinning"), "RemoteServices", Obj(news));
    PutTyped(Sections(rest), d, "Pinning", Put(At(d, "Pinning"), "RemoteServices", Obj(news)));
  }

  /** What is shown may be written, and restored it lacks only the authorizations. */
  lemma ConcealedRestored(rest: map<string, Member>, c: Json)
    requires Typed(ConfigOf(rest), c)
    ensures Acceptable(Entries(Services(c)), Concealed(c))
    ensures var d := Restored(Concealed(c), PrivKey(c), Entries(Services(c)));
            d == WithAuthorizations(c, Emptied(Authorizations(c)))
  {
    hide Typed, Concealed, Restored, Acceptable, Authorizations, WithAuthorizations, Emptied;
    ServicesTyped(rest, c);
    MapTyped(Services(c));
    EntryTyped(Services(c));
    KeylessAll(Services(c));
    ConcealedFields(c);
    hide Services, KeylessService, ApiUntouched, Reapplied, Keyless;
    RestoredFields(c, Concealed(c));
  }

  lemma MapTyped(j: Json)
    requires Typed(SERVICES, j)
    ensures j.Obj? || j.Null?
  {
    hide SERVICE;
  }

  lemma KeylessAll(services: Json)
    requires services.Obj? || services.Null?
    requires forall n :: n in Entries(services) ==> Typed(SERVICE, services.fields[n])
    ensures var olds, news := Entries(services), Entries(Keyless(services));
      && news.Keys == olds.Keys && (forall n :: n in news ==> ApiUntouched(olds[n], news[n]))
      && Reapplied(olds, news, olds.Keys) == olds
  {
    var olds, news := Entries(services), Entries(Keyless(services));
    hide Typed, SERVICE;
    forall n | n in olds
      ensures ApiUntouched(olds[n], KeylessService(olds[n]))
      ensures Put(KeylessService(olds[n]), "API", At(olds[n], "API")) == olds[n]
    {
      KeylessRestored(olds[n]);
    }
    hide KeylessService, ApiUntouched, At, Put;
    assert Reapplied(olds, news, olds.Keys) == olds;
  }

  lemma ConcealedFields(c: Json)
    requires c.Obj? && At(c, "Identity").Obj? && At(c, "API").Obj? && At(c, "Pinning").Obj?
    ensures PrivKey(Concealed(c)) == Leaf("") && Services(Concealed(c)) == Keyless(Services(c))
  {
    hide Keyless, Emptied;
  }

  lemma KeylessRestored(s: Json)
    requires Typed(SERVICE, s)
    ensures ApiUntouched(s, KeylessService(s)) && Put(KeylessService(s), "API", At(s, "API")) == s
  {
    AtTyped(SERVICE.members, s, "API");
    AtTyped(SERVICE_API.members, At(s, "API"), "Key");
    AtTyped(SERVICE_API.members, At(s, "API"), "Endpoint");
    hide Typed;
    assert Put(KeylessService(s), "API", At(s, "API")).fields == s.fields;
  }

  lemma RestoredFields(c: Json, d: Json)
    requires c.Obj? && At(c, "Identity").Obj? && At(c, "API").Obj? && At(c, "Pinning").Obj? && d == Concealed(c)
    requires "PrivKey" in At(c, "Identity").fields && "RemoteServices" in At(c, "Pinning").fields
    requires Services(c).Obj? || Services(c).Null?
    requires PrivKey(d) == Leaf("") && Services(d) == Keyless(Services(c))
    requires var olds, news := Entries(Services(c)), Entries(Keyless(Services(c)));
      && news.Keys == olds.Keys && (forall n :: n in news ==> ApiUntouched(olds[n], news[n]))
      && Reapplied(olds, news, olds.Keys) == olds
    ensures Acceptable(Entries(Services(c)), d)
    ensures Restored(d, PrivKey(c), Entries(Services(c))) == WithAuthorizations(c, Emptied(Authorizations(c)))
  {
    hide Reapplied, KeylessService, ApiUntouched;
    var e, f := Restored(d, PrivKey(c), Entries(Services(c))), WithAuthorizations(c, Emptied(Authorizations(c)));
    assert Services(d).Obj? <==> Services(c).Obj?;
    assert Services(c).Obj? ==> Obj(Entries(Services(c))) == Services(c);
    assert At(e, "Identity").fields == At(f, "Identity").fields;
    assert At(e, "Pinning").fields == At(f, "Pinning").fields;
    assert e.fields == f.fields;
  }

  /** The file has a private key. */
  predicate HasKey(file: map<string, Json>) {
    PrivKey(Obj(file)).Leaf?
  }

  lemma KeyRead(rest: map<string, Member>, file: map<string, Json>)
    requires Decodable(ConfigOf(rest), Obj(file))
    ensures HasKey(file) ==> PrivKey(Decode(ConfigOf(rest), Obj(file))) == PrivKey(Obj(file))
  {
    DecodeAt(Sections(rest), Obj(file), "Identity");
    DecodeAt(IDENTITY.members, At(Obj(file), "Identity"), "PrivKey");
    hide RPC_API, PINNING;
  }

  class Repo {
    const rest: map<string, Member>  // the other sections of the typed configuration
    var file: map<string, Json>
    var config: Json                 // what the running instance uses

    constructor (rest: map<string, Member>, file: map<string, Json>)
      requires OtherSections(rest) && Decodable(ConfigOf(rest), Obj(file))
      ensures this.rest == rest && this.file == file && config == Read() && Valid()
    {
      this.rest, this.file, config := rest, file, Decode(ConfigOf(rest), Obj(file));
    }

    ghost predicate Valid()
      reads this
    {
      OtherSections(rest) && Decodable(ConfigOf(rest), Obj(file))
    }

    /** What the next reader of the file gets. */
    function Read(): Json
      reads this
    {
      Decode(ConfigOf(rest), Obj(file))
    }

    /** Writes a typed configuration over the file. */
    method SetConfig(updated: Json)
      requires Valid() && Typed(ConfigOf(rest), updated)
      modifies this
      ensures Valid() && config == updated
      ensures Read() == Over(ConfigOf(rest), old(Read()), updated)
      ensures UnknownKept(rest, old(file), file)
    {
      ConfigProper(rest);
      WrittenOver(ConfigOf(rest), Obj(file), updated);
      UnknownWritten(rest, file, updated);
      hide Decodable, Decode, Encode, Over, Typed, UnknownKept, OtherSections, MergeJson, Sections;
      file := MergeJson(Obj(file), Encode(ConfigOf(rest), updated)).fields;
      config := updated;
    }

    /** Replaces the configuration. The running instance gets the input with the old
        key and the old API details of the services; the file gets that written
        over what it held. */
    method ReplaceConfig(input: map<string, Json>) returns (res: Option<Error>)
      requires Valid()
      modifies this
      ensures Valid()
      ensures res.None? <==>
        && Decodable(ConfigOf(rest), Obj(input)) && HasKey(old(file))
        && Acceptable(Entries(Services(old(Read()))), Decode(ConfigOf(rest), Obj(input)))
      ensures res.None? ==>
        && config == Restored(Decode(ConfigOf(rest), Obj(input)), old(PrivKey(Read())), Entries(Services(old(Read()))))
        && OnlySecrets(Decode(ConfigOf(rest), Obj(input)), old(PrivKey(Read())), Entries(Services(old(Read()))), config)
        && Read() == Over(ConfigOf(rest), old(Read()), config) && UnknownKept(rest, old(file), file)
      ensures res.Some? ==> config == old(config) && file == old(file)
    {
      if !Decodable(ConfigOf(rest), Obj(input)) {
        return Some(DecodeFailed);
      }
      ConfigProper(rest);
      KeyRead(rest, file);
      hide Decodable, Decode, Over, Typed, UnknownKept, OtherSections, Reapplied, WithKey, Sections, Services;
      hide HasKey, PrivKey, ApiUntouched, OnlySecrets;
      var newCfg := Decode(ConfigOf(rest), Obj(input));
      DecodeTyped(ConfigOf(rest), Obj(input));
      DecodeTyped(ConfigOf(rest), Obj(file));
      if PrivKey(newCfg) != Leaf("") {
        return Some(PrivKeyGiven);
      }
      if !HasKey(file) {
        return Some(NoPrivKey);
      }
      var key := PrivKey(Obj(file));
      assert key.Leaf? by { KeyIsText(file); }
      var oldServices := Entries(Services(Read()));
      var err, newServices := ReapplyApi(oldServices, Entries(Services(newCfg)));
      if err.None? {
        RestoredTyped(rest, newCfg, key, Read());
        RestoredIff(rest, newCfg, key, Read(), Restored(newCfg, key, oldServices));
        SetConfig(WithNewServices(WithKey(newCfg, key), newServices));
      }
      return err;
    }

    /** Showing the file and replacing the configuration by what was shown. It fails
        only for want of a private key, or because a service is null, which is not
        shown. Otherwise the next reader of the file gets the same configuration,
        unknown fields are still there, and the running instance has all of it but
        the API authorizations. */
    method ShowThenReplace() returns (res: Option<Error>)
      requires Valid()
      modifies this
      ensures Valid()
      ensures res.None? <==> HasKey(old(file)) && NoNullService(Services(Obj(old(file))))
      ensures Read() == old(Read()) && UnknownKept(rest, old(file), file)
      ensures res.None? ==> config == WithAuthorizations(Read(), Emptied(Authorizations(Read())))
      ensures res.None? ==> (config == Read() <==> Authorizations(Read()) == Emptied(Authorizations(Read())))
    {
      var shown := Show(file);
      ConfigProper(rest);
      DecodeTyped(ConfigOf(rest), Obj(file));
      ghost var c := Read();
      ServicesTyped(rest, c);
      KeyRead(rest, file);
      ShowConceals(rest, file);
      ConcealedRestored(rest, c);
      OverWithoutAuthorizations(rest, c);
      ServiceNames(rest, file);
      AuthorizationsKept(c);
      hide Decodable, Decode, Over, Typed, OtherSections, Restored, Shown, Concealed, Emptied, Sections, OnlySecrets;
      hide NoNullService, ObjectNames, HasKey, PrivKey, ApiUntouched, WithAuthorizations, Services, Authorizations;
      res := ReplaceConfig(shown);
    }
  }

  lemma KeyIsText(file: map<string, Json>)
    requires HasKey(file)
    ensures PrivKey(Obj(file)).Leaf?
  {
  }

  /** All services of the file are read; those that are null are the difference to
      what is shown. */
  lemma ServiceNames(rest: map<string, Member>, file: map<string, Json>)
    requires Decodable(ConfigOf(rest), Obj(file))
    ensures Entries(Services(Decode(ConfigOf(rest), Obj(file)))).Keys == Entries(Services(Obj(file))).Keys
    ensures var s := Services(Obj(file)); ObjectNames(s) == Entries(s).Keys <==> NoNullService(s)
  {
    DecodeAt(Sections(rest), Obj(file), "Pinning");
    DecodeAt(PINNING.members, At(Obj(file), "Pinning"), "RemoteServices");
    hide IDENTITY, RPC_API, SERVICE;
    var s := Services(Obj(file));
    assert Decode(SERVICES, s) == Services(Decode(ConfigOf(rest), Obj(file)));
    if ObjectNames(s) == Entries(s).Keys {
      forall n | n in Entries(s) ensures s.fields[n].Obj? {
        assert n in ObjectNames(s);
      }
    }
  }

  lemma AuthorizationsKept(c: Json)
    requires c.Obj? && At(c, "API").Obj? && "API" in c.fields && "Authorizations" in At(c, "API").fields
    ensures WithAuthorizations(c, Emptied(Authorizations(c))) == c <==> Authorizations(c) == Emptied(Authorizations(c))
  {
    hide Emptied;
    var d := WithAuthorizations(c, Emptied(Authorizations(c)));
    assert Authorizations(d) == Emptied(Authorizations(c));
    if Authorizations(c) == Emptied(Authorizations(c)) {
      assert At(d, "API").fields == At(c, "API").fields;
      assert d.fields == c.fields;
    }
  }
}
