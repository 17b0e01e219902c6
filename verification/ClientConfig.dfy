/**
  The client config of an instance: the normalized view of a raw file, the
  upgrade at launch and the merge of a patch. Objects are maps, so key order does
  not count.
*/
module ClientConfig {
  import opened Wrappers

  /** A field name; the ones the program knows by name have their own constructor. */
  datatype Key =
    | Schema | Suite | Features | Macros | Personalization | Enabled
    | Theme | HudTheme | Background | ReducedMotion | Tagline
    | Other(name: string)

  /** A JSON number: its text and the double it reads as. */
  datatype Number = Number(text: string, f64: real)

  datatype Json =
    | Null | Bool(b: bool) | Num(n: Number) | Str(s: string) | Arr(items: seq<Json>) | Obj(fields: Object)

  type Object = map<Key, Json>

  /** The suite registry: schema number, suite default, and each feature's default object. */
  datatype Registry = Registry(schema: Number, suiteDefault: bool, defaults: map<Key, Object>)

  /** What the launcher mirrors into the file. */
  datatype Launcher = Launcher(accent: string, reducedMotion: bool)

  const THEME_IDS := {"oro", "carmesi", "amatista", "esmeralda", "glaciar"}
  const HUD_THEME_IDS := {"cristal", "oro", "minimo", "pixel"}
  const PERSONAL_DEFAULTS: Object :=
    map[Theme := Str("oro"), HudTheme := Str("cristal"), Background := Null,
        ReducedMotion := Bool(false), Tagline := Null]
  const OFF: Object := map[Enabled := Bool(false)]

  function Get(m: Object, k: Key): (r: Option<Json>) { if k in m then Some(m[k]) else None }

  /** The object under `k`, empty when there is none. */
  function ObjAt(m: Object, k: Key): (r: Object) { if k in m && m[k].Obj? then m[k].fields else map[] }

  /** Numbers by value, key order ignored. */
  predicate DeepEqual(a: Json, b: Json) {
    match (a, b)
    case (Num(x), Num(y)) => x.f64 == y.f64
    case (Arr(x), Arr(y)) => |x| == |y| && forall i :: 0 <= i < |x| ==> DeepEqual(x[i], y[i])
    case (Obj(x), Obj(y)) => |x| == |y| && forall k :: k in x ==> k in y && DeepEqual(x[k], y[k])
    case _ => a == b
  }

  // ---- The normalized view ----

  function Coerce(def: Object, entry: Option<Json>): (r: Object) {
    match entry
    case Some(Bool(b)) => def[Enabled := Bool(b)]
    case Some(Obj(e)) => def + e
    case _ => def
  }

  function SuiteView(reg: Registry, raw: Object): (r: Object) {
    var s := ObjAt(raw, Suite);
    s[Enabled := if Enabled in s && s[Enabled].Bool? then s[Enabled] else Bool(reg.suiteDefault)]
  }

  predicate IsEntry(e: Json) { e.Obj? || e.Bool? }

  /** Registered features over their defaults; other entries that look like features, off by default. */
  function FeaturesView(reg: Registry, raw: Object): (r: Object) { FeaturesOf(reg, ObjAt(raw, Features)) }

  function FeaturesOf(reg: Registry, rf: Object): (r: Object) {
    map id | id in reg.defaults.Keys + rf.Keys && (id in reg.defaults || IsEntry(rf[id])) ::
      Obj(Coerce(if id in reg.defaults then reg.defaults[id] else OFF, Get(rf, id)))
  }

  function MacrosView(raw: Object): (r: Json) {
    if Macros in raw && raw[Macros].Arr? then raw[Macros] else Arr([])
  }

  function PersonalView(raw: Object): (r: Object) { PERSONAL_DEFAULTS + ObjAt(raw, Personalization) }

  predicate NoSchema(raw: Object) { Schema !in raw || raw[Schema].Null? }

  function Normalized(reg: Registry, raw: Object): (r: Object) {
    (if NoSchema(raw) then raw[Schema := Num(reg.schema)] else raw)
      [Suite := Obj(SuiteView(reg, raw))]
      [Features := Obj(FeaturesView(reg, raw))]
      [Macros := MacrosView(raw)]
      [Personalization := Obj(PersonalView(raw))]
  }

  // ---- Patching ----

  /** No schema, or the first one. */
  predicate OldSchema(raw: Object) { NoSchema(raw) || (raw[Schema].Num? && raw[Schema].n.f64 == 1.0) }

  function Upgraded(reg: Registry, raw: Object): (r: Object) {
    if OldSchema(raw) then raw[Schema := Num(reg.schema)] else raw
  }

  /** A feature entry as an object: a bare boolean means `enabled`. */
  function EntryObject(e: Option<Json>): (r: Object) {
    match e
    case Some(Obj(m)) => m
    case Some(Bool(b)) => map[Enabled := Bool(b)]
    case _ => map[]
  }

  function PatchedEntry(features: Object, f: Object, id: Key): (r: Json)
    requires id in f
  {
    Obj(EntryObject(Get(features, id)) + EntryObject(Some(f[id])))
  }

  function PatchedFeatures(features: Object, f: Object): (r: Object) {
    features + map id | id in f :: PatchedEntry(features, f, id)
  }

  /** Write the patch's object under `k` over the file's, when it has one. */
  function PutObject(raw: Object, p: Object, k: Key): (r: Object) {
    if k in p && p[k].Obj? then raw[k := Obj(ObjAt(raw, k) + p[k].fields)] else raw
  }

  function PutFeatures(raw: Object, p: Object): (r: Object) {
    if Features in p && p[Features].Obj?
    then raw[Features := Obj(PatchedFeatures(ObjAt(raw, Features), p[Features].fields))] else raw
  }

  function PutMacros(raw: Object, p: Object): (r: Object) { if Macros in p then raw[Macros := p[Macros]] else raw }

  function Patched(reg: Registry, raw: Object, p: Object): (r: Object) {
    PutObject(PutMacros(PutFeatures(PutObject(Upgraded(reg, raw), p, Suite), p), p), p, Personalization)
  }

  datatype PatchError = BadPatch | BadFeatures | BadMacros | TooManyMacros | BadPersonalization

  predicate BoolOrAbsent(m: Object, k: Key) { k in m ==> m[k].Bool? }

  /** The shape a patch must have: which keys, and of what kind. */
  function CheckShape(patch: Json): (r: Option<PatchError>) {
    if !patch.Obj? then Some(BadPatch)
    else
      var p := patch.fields;
      if !(p.Keys <= {Features, Macros, Suite, Personalization}) then Some(BadPatch)
      else if Suite in p && !(p[Suite].Obj? && BoolOrAbsent(p[Suite].fields, Enabled)) then Some(BadPatch)
      else if Features in p && !(p[Features].Obj? && FeatureEntriesOk(p[Features].fields)) then Some(BadFeatures)
      else if Macros in p && !p[Macros].Arr? then Some(BadMacros)
      else if Macros in p && |p[Macros].items| > 32 then Some(TooManyMacros)
      else if Personalization in p &&
              !(p[Personalization].Obj? && p[Personalization].fields.Keys <= PERSONAL_DEFAULTS.Keys)
      then Some(BadPersonalization)
      else None
  }

  predicate FeatureEntriesOk(f: Object) {
    forall id :: id in f ==> f[id].Bool? || (f[id].Obj? && BoolOrAbsent(f[id].fields, Enabled))
  }

  // ---- Seeding ----

  function SeededSuite(reg: Registry, raw: Object): (r: Object) {
    var s := ObjAt(raw, Suite);
    if Enabled in s && s[Enabled].Bool? then s else s[Enabled := Bool(reg.suiteDefault)]
  }

  /** The entry a launch fills in, or the old one when filling changes nothing. */
  function FilledEntry(def: Object, entry: Option<Json>): (r: Json) {
    var filled := Obj(Coerce(def, entry));
    if NeedsFill(def, entry) then filled else entry.value
  }

  predicate NeedsFill(def: Object, entry: Option<Json>)
    ensures !NeedsFill(def, entry) ==> entry.Some?
  {
    match entry
    case None => true
    case Some(Bool(_)) => true
    case Some(e) => !DeepEqual(Obj(Coerce(def, entry)), e)
  }

  function SeededFeatures(reg: Registry, features: Object): (r: Object) {
    features + map id | id in reg.defaults :: FilledEntry(reg.defaults[id], Get(features, id))
  }

  function SeededPersonal(l: Launcher, p: Object): (r: Object) {
    var a := p[Theme := Str(if l.accent in THEME_IDS then l.accent else "oro")];
    var b := if HudTheme in a && a[HudTheme].Str? && a[HudTheme].s in HUD_THEME_IDS then a
             else a[HudTheme := Str("cristal")];
    var c := if Background in b then b else b[Background := Null];
    c[ReducedMotion := Bool(l.reducedMotion)]
  }

  predicate AnyNeedsFill(reg: Registry, features: Object) {
    exists id :: id in reg.defaults && NeedsFill(reg.defaults[id], Get(features, id))
  }

  /** `raw` holds an object under `k` that equals `m`. */
  predicate SameObjectAt(raw: Object, k: Key, m: Object) {
    k in raw && raw[k].Obj? && DeepEqual(raw[k], Obj(m))
  }

  function WithSuite(reg: Registry, raw: Object): (r: Object) {
    Upgraded(reg, raw)[Suite := Obj(SeededSuite(reg, raw))]
  }

  function WithMacros(raw: Object): (r: Object) {
    if Macros in raw && raw[Macros].Arr? then raw else raw[Macros := Arr([])]
  }

  function WithPersonal(l: Launcher, raw: Object): (r: Object) {
    var personal := SeededPersonal(l, ObjAt(raw, Personalization));
    if SameObjectAt(raw, Personalization, personal) then raw else raw[Personalization := Obj(personal)]
  }

  function WithFeatures(reg: Registry, raw: Object): (r: Object) {
    raw[Features := Obj(SeededFeatures(reg, ObjAt(raw, Features)))]
  }

  /** The object a launch would write. */
  function SeededFile(reg: Registry, l: Launcher, raw: Object): (r: Object) {
    WithPersonal(l, WithMacros(WithFeatures(reg, WithSuite(reg, raw))))
  }

  /** Whether it writes it. */
  predicate SeedChanges(reg: Registry, l: Launcher, raw: Object) {
    var a := WithSuite(reg, raw);
    var b := WithFeatures(reg, a);
    var c := WithMacros(b);
    || !DeepEqual(Obj(a), Obj(raw))
    || AnyNeedsFill(reg, ObjAt(a, Features))
    || !(Macros in b && b[Macros].Arr?)
    || !SameObjectAt(c, Personalization, SeededPersonal(l, ObjAt(c, Personalization)))
  }

  /** The file after a launch. */
  function AfterSeed(reg: Registry, l: Launcher, raw: Object): (r: Object) {
    if SeedChanges(reg, l, raw) then SeededFile(reg, l, raw) else raw
  }

  // ---- The loops ----

  method Merge(base: Object, over: Object) returns (out: Object)
    ensures out == base + over
  {
    out := base;
    var todo := over.Keys;
    while todo != {}
      invariant todo <= over.Keys
      invariant out == base + (over - todo)
    {
      var k :| k in todo;
      assert over - (todo - {k}) == (over - todo)[k := over[k]];
      out := out[k := over[k]];
      todo := todo - {k};
    }
    assert over - {} == over;
  }

  method CoerceEntry(def: Object, entry: Option<Json>) returns (m: Object)
    ensures m == Coerce(def, entry)
  {
    match entry
    case Some(Bool(b)) => m := def[Enabled := Bool(b)];
    case Some(Obj(e)) => m := Merge(def, e);
    case _ => m := def;
  }

  method RegisteredFeatures(reg: Registry, rf: Object) returns (features: Object)
    ensures features.Keys == reg.defaults.Keys
    ensures forall id :: id in features ==> features[id] == Obj(Coerce(reg.defaults[id], Get(rf, id)))
  {
    features := map[];
    var todo := reg.defaults.Keys;
    while todo != {}
      invariant todo <= reg.defaults.Keys && features.Keys == reg.defaults.Keys - todo
      invariant forall id :: id in features ==> features[id] == Obj(Coerce(reg.defaults[id], Get(rf, id)))
    {
      var id :| id in todo;
      var entry := CoerceEntry(reg.defaults[id], Get(rf, id));
      features := features[id := Obj(entry)];
      todo := todo - {id};
    }
  }

  /** An entry under a name that is not registered, read with everything off by default. */
  method ExtraEntry(entry: Json) returns (r: Option<Json>)
    ensures r == if IsEntry(entry) then Some(Obj(Coerce(OFF, Some(entry)))) else None
  {
    match entry {
      case Obj(e) =>
        var m := Merge(OFF, e);
        r := Some(Obj(m));
      case Bool(b) =>
        assert OFF[Enabled := Bool(b)] == map[Enabled := Bool(b)];
        r := Some(Obj(map[Enabled := Bool(b)]));
      case _ => r := None;
    }
  }

  /** The part of the view that the registered features and the looked-at entries give. */
  ghost predicate FeaturesUpTo(reg: Registry, rf: Object, todo: set<Key>, m: Object) {
    && (forall id :: id in m <==> id in reg.defaults || (id in rf && id !in todo && IsEntry(rf[id])))
    && (forall id :: id in m ==> m[id] == FeaturesOf(reg, rf)[id])
  }

  method NormalizeFeatures(reg: Registry, rf: Object) returns (features: Object)
    ensures features == FeaturesOf(reg, rf)
  {
    features := RegisteredFeatures(reg, rf);
    var todo := rf.Keys;
    while todo != {}
      invariant todo <= rf.Keys && FeaturesUpTo(reg, rf, todo, features)
    {
      var id :| id in todo;
      todo := todo - {id};
      if id in features {
        continue;
      }
      var entry := ExtraEntry(rf[id]);
      if entry.Some? {
        features := features[id := entry.value];
      }
    }
    assert features.Keys == FeaturesOf(reg, rf).Keys;
  }

  method Normalize(reg: Registry, raw: Object) returns (out: Object)
    ensures out == Normalized(reg, raw)
  {
    out := raw;
    if Schema !in raw || raw[Schema].Null? {
      out := out[Schema := Num(reg.schema)];
    }
    var suite := ObjAt(raw, Suite);
    var enabled := if Enabled in suite && suite[Enabled].Bool? then suite[Enabled].b else reg.suiteDefault;
    suite := suite[Enabled := Bool(enabled)];
    out := out[Suite := Obj(suite)];
    var features := NormalizeFeatures(reg, ObjAt(raw, Features));
    out := out[Features := Obj(features)];
    out := out[Macros := if Macros in raw && raw[Macros].Arr? then raw[Macros] else Arr([])];
    var personal := Merge(PERSONAL_DEFAULTS, ObjAt(raw, Personalization));
    out := out[Personalization := Obj(personal)];
  }

  /** `m` is `base` with the fields of `over` outside `todo` written over it. */
  ghost predicate Overlaid(base: Object, over: Object, todo: set<Key>, m: Object) {
    && m.Keys == base.Keys + (over.Keys - todo)
    && forall id :: id in m ==> m[id] == if id in over && id !in todo then over[id] else base[id]
  }

  lemma {:induction false} OverlaidStep(base: Object, over: Object, todo: set<Key>, m: Object, id: Key)
    requires Overlaid(base, over, todo, m) && id in todo && id in over
    ensures Overlaid(base, over, todo - {id}, m[id := over[id]])
    ensures Get(m, id) == Get(base, id)
    ensures Get(base, id) == Some(over[id]) ==> Overlaid(base, over, todo - {id}, m)
  {
  }

  lemma {:induction false} OverlaidAll(base: Object, over: Object, m: Object)
    requires Overlaid(base, over, {}, m)
    ensures m == base + over
  {
  }

  method PatchFeatures(file: Object, f: Object) returns (features: Object)
    ensures features == PatchedFeatures(file, f)
  {
    ghost var over := map id | id in f :: PatchedEntry(file, f, id);
    features := file;
    var todo := f.Keys;
    while todo != {}
      invariant todo <= f.Keys && Overlaid(file, over, todo, features)
    {
      var id :| id in todo;
      OverlaidStep(file, over, todo, features, id);
      var entry := Merge(EntryObject(Get(features, id)), EntryObject(Some(f[id])));
      assert over[id] == Obj(entry);
      features := features[id := Obj(entry)];
      todo := todo - {id};
    }
    OverlaidAll(file, over, features);
  }

  method Patch(reg: Registry, file: Object, p: Object) returns (raw: Object)
    requires CheckShape(Obj(p)) == None
    ensures raw == Patched(reg, file, p)
  {
    raw := file;
    if OldSchema(raw) {
      raw := raw[Schema := Num(reg.schema)];
    }
    if Suite in p && p[Suite].Obj? {
      var suite := Merge(ObjAt(raw, Suite), p[Suite].fields);
      raw := raw[Suite := Obj(suite)];
    }
    if Features in p && p[Features].Obj? {
      var features := PatchFeatures(ObjAt(raw, Features), p[Features].fields);
      raw := raw[Features := Obj(features)];
    }
    if Macros in p {
      raw := raw[Macros := p[Macros]];
    }
    if Personalization in p && p[Personalization].Obj? {
      var personal := Merge(ObjAt(raw, Personalization), p[Personalization].fields);
      raw := raw[Personalization := Obj(personal)];
    }
  }

  /** The object for one registered feature, and whether it replaces the entry. */
  method SeedEntry(def: Object, entry: Option<Json>) returns (filled: Json, replace: bool)
    ensures replace == NeedsFill(def, entry)
    ensures filled == Obj(Coerce(def, entry))
  {
    var m := CoerceEntry(def, entry);
    var base := if entry.Some? && entry.value.Bool? then Some(Obj(map[Enabled := entry.value])) else entry;
    filled := Obj(m);
    replace := !(base.Some? && DeepEqual(filled, base.value)) || (entry.Some? && entry.value.Bool?);
  }

  predicate SomeNeedFill(reg: Registry, file: Object, ids: set<Key>) {
    exists id :: id in ids && id in reg.defaults && NeedsFill(reg.defaults[id], Get(file, id))
  }

  /** Fill every registered feature; `filled` tells whether any entry changed. */
  method SeedFeatures(reg: Registry, file: Object) returns (features: Object, filled: bool)
    ensures features == SeededFeatures(reg, file)
    ensures filled == AnyNeedsFill(reg, file)
  {
    ghost var over := map id | id in reg.defaults :: FilledEntry(reg.defaults[id], Get(file, id));
    features, filled := file, false;
    ghost var done := {};
    var todo := reg.defaults.Keys;
    while todo != {}
      invariant todo <= reg.defaults.Keys && done == reg.defaults.Keys - todo
      invariant Overlaid(file, over, todo, features)
      invariant filled == SomeNeedFill(reg, file, done)
    {
      var id :| id in todo;
      OverlaidStep(file, over, todo, features, id);
      NeedFillStep(reg, file, done, id);
      var entry, replace := SeedEntry(reg.defaults[id], Get(features, id));
      if replace {
        features := features[id := entry];
        filled := true;
      }
      todo, done := todo - {id}, done + {id};
    }
    OverlaidAll(file, over, features);
    assert done == reg.defaults.Keys;
  }

  lemma {:induction false} NeedFillStep(reg: Registry, file: Object, done: set<Key>, id: Key)
    requires id in reg.defaults
    ensures SomeNeedFill(reg, file, done + {id})
      == (SomeNeedFill(reg, file, done) || NeedsFill(reg.defaults[id], Get(file, id)))
  {
  }

  method SeedPersonal(l: Launcher, file: Object) returns (personal: Object)
    ensures personal == SeededPersonal(l, file)
  {
    personal := file[Theme := Str(if l.accent in THEME_IDS then l.accent else "oro")];
    if !(HudTheme in personal && personal[HudTheme].Str? && personal[HudTheme].s in HUD_THEME_IDS) {
      personal := personal[HudTheme := Str("cristal")];
    }
    if Background !in personal {
      personal := personal[Background := Null];
    }
    personal := personal[ReducedMotion := Bool(l.reducedMotion)];
  }

  method SeedBase(reg: Registry, raw: Object) returns (merged: Object)
    ensures merged == WithSuite(reg, raw)
  {
    merged := raw;
    if OldSchema(merged) {
      merged := merged[Schema := Num(reg.schema)];
    }
    var suite := ObjAt(merged, Suite);
    if !(Enabled in suite && suite[Enabled].Bool?) {
      suite := suite[Enabled := Bool(reg.suiteDefault)];
    }
    merged := merged[Suite := Obj(suite)];
  }

  method Seed(reg: Registry, l: Launcher, raw: Object) returns (merged: Object, changed: bool)
    ensures merged == SeededFile(reg, l, raw) && changed == SeedChanges(reg, l, raw)
  {
    merged := SeedBase(reg, raw);
    changed := !DeepEqual(Obj(merged), Obj(raw));
    var features, filled := SeedFeatures(reg, ObjAt(merged, Features));
    changed := changed || filled;
    merged := merged[Features := Obj(features)];
    if !(Macros in merged && merged[Macros].Arr?) {
      merged := merged[Macros := Arr([])];
      changed := true;
    }
    var personal := SeedPersonal(l, ObjAt(merged, Personalization));
    if !SameObjectAt(merged, Personalization, personal) {
      merged := merged[Personalization := Obj(personal)];
      changed := true;
    }
  }
}
