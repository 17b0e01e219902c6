/**
  What a reader finds under each key, said of the raw file itself: the file's value where
  it has one that counts, and the default otherwise; for the view, after a patch and after
  a launch.
*/
module ClientConfigFields {
  import opened Wrappers
  import opened ClientConfig
  import opened ClientConfigLaws

  /** What a file says under `part.k`. */
  function Field(raw: Object, part: Key, k: Key): (r: Option<Json>) {
    if part in raw && raw[part].Obj? && k in raw[part].fields then Some(raw[part].fields[k]) else None
  }

  /** What a file says under `features.id.k`; a bare boolean says `enabled`. */
  function Says(raw: Object, id: Key, k: Key): (r: Option<Json>) {
    EntrySays(Field(raw, Features, id), k)
  }

  function EntrySays(e: Option<Json>, k: Key): (r: Option<Json>) {
    match e
    case Some(Obj(m)) => if k in m then Some(m[k]) else None
    case Some(Bool(b)) => if k == Enabled then Some(Bool(b)) else None
    case _ => None
  }

  /** The first, or the second when there is no first. */
  function Or(a: Option<Json>, b: Option<Json>): (r: Option<Json>) { if a.Some? then a else b }

  /** The default of `id.k`: the registry's, and off for a feature that is not registered. */
  function Default(reg: Registry, id: Key, k: Key): (r: Option<Json>) {
    if id in reg.defaults then (if k in reg.defaults[id] then Some(reg.defaults[id][k]) else None)
    else if k == Enabled then Some(Bool(false)) else None
  }

  predicate IsBool(o: Option<Json>) { o.Some? && o.value.Bool? }

  // ---- The view ----

  lemma {:induction false} CoerceAt(def: Object, raw: Object, id: Key, k: Key)
    ensures Get(Coerce(def, Field(raw, Features, id)), k) == Or(Says(raw, id, k), Get(def, k))
  {
  }

  /** The feature is in the view: registered, or an object or a boolean in the file. */
  predicate InView(reg: Registry, raw: Object, id: Key) {
    var e := Field(raw, Features, id);
    id in reg.defaults || (e.Some? && (e.value.Obj? || e.value.Bool?))
  }

  /** The view has a feature's own values, and its defaults where the file says nothing. */
  lemma {:induction false} FeatureReads(reg: Registry, raw: Object, id: Key, k: Key)
    ensures var v := FeaturesView(reg, raw);
      && (id in v <==> InView(reg, raw, id))
      && (id in v ==> v[id].Obj? && Get(v[id].fields, k) == Or(Says(raw, id, k), Default(reg, id, k)))
  {
    var def := if id in reg.defaults then reg.defaults[id] else OFF;
    CoerceAt(def, raw, id, k);
    assert Get(def, k) == Default(reg, id, k);
    ViewAt(reg, raw, id);
  }

  lemma {:induction false} ViewAt(reg: Registry, raw: Object, id: Key)
    ensures Get(FeaturesView(reg, raw), id) ==
      if InView(reg, raw, id)
      then Some(Obj(Coerce(if id in reg.defaults then reg.defaults[id] else OFF, Field(raw, Features, id)))) else None
  {
    assert Get(ObjAt(raw, Features), id) == Field(raw, Features, id);
  }

  /** The suite keeps the file's fields; `enabled` is the file's when that is a boolean, and the default otherwise. */
  lemma {:induction false} SuiteReads(reg: Registry, raw: Object, k: Key)
    ensures Get(SuiteView(reg, raw), k) ==
      if k == Enabled && !IsBool(Field(raw, Suite, k)) then Some(Bool(reg.suiteDefault)) else Field(raw, Suite, k)
  {
  }

  /** The personalization keeps the file's fields over five defaults. */
  lemma {:induction false} PersonalReads(raw: Object, k: Key)
    ensures Get(PersonalView(raw), k) == Or(Field(raw, Personalization, k), PersonalDefault(k))
  {
  }

  /** A file without a list of macros reads as an empty one, and one without a schema as the current one. */
  lemma {:induction false} TopReads(reg: Registry, raw: Object, k: Key)
    ensures MacrosView(raw) == if Macros in raw && raw[Macros].Arr? then raw[Macros] else Arr([])
    ensures var v := Normalized(reg, raw);
      && Get(v, Schema) == (if Schema !in raw || raw[Schema] == Null then Some(Num(reg.schema)) else Some(raw[Schema]))
      && Get(v, Suite) == Some(Obj(SuiteView(reg, raw))) && Get(v, Features) == Some(Obj(FeaturesView(reg, raw)))
      && Get(v, Macros) == Some(MacrosView(raw)) && Get(v, Personalization) == Some(Obj(PersonalView(raw)))
      && (k !in {Schema, Suite, Features, Macros, Personalization} ==> Get(v, k) == Get(raw, k))
  {
    NormalizedFields(reg, raw, Schema);
    NormalizedFields(reg, raw, Suite);
    NormalizedFields(reg, raw, Features);
    NormalizedFields(reg, raw, Macros);
    NormalizedFields(reg, raw, Personalization);
    NormalizedFields(reg, raw, k);
  }

  /** The default of a personalization field. */
  function PersonalDefault(k: Key): (r: Option<Json>) {
    match k
    case Theme => Some(Str("oro"))
    case HudTheme => Some(Str("cristal"))
    case Background => Some(Null)
    case ReducedMotion => Some(Bool(false))
    case Tagline => Some(Null)
    case _ => None
  }

  /**
    The normalized object, read field by field: features, suite and personalization have
    the file's values where it has any that count and the defaults otherwise, macros are
    a list, the schema is there, and every other key is the file's.
  */
  lemma {:induction false} ViewReads(reg: Registry, raw: Object, id: Key, k: Key)
    ensures var v := Normalized(reg, raw);
      && Field(v, Suite, k) == (if k == Enabled && !IsBool(Field(raw, Suite, k)) then Some(Bool(reg.suiteDefault))
                                else Field(raw, Suite, k))
      && (Field(v, Features, id).Some? <==> InView(reg, raw, id))
      && (InView(reg, raw, id) ==> Says(v, id, k) == Or(Says(raw, id, k), Default(reg, id, k)))
      && Field(v, Personalization, k) == Or(Field(raw, Personalization, k), PersonalDefault(k))
      && Get(v, Macros) == Some(if Macros in raw && raw[Macros].Arr? then raw[Macros] else Arr([]))
      && Get(v, Schema) == (if Schema !in raw || raw[Schema] == Null then Some(Num(reg.schema)) else Get(raw, Schema))
      && (k !in {Schema, Suite, Features, Macros, Personalization} ==> Get(v, k) == Get(raw, k))
  {
    TopReads(reg, raw, k);
    SuiteReads(reg, raw, k);
    PersonalReads(raw, k);
    FeatureReads(reg, raw, id, k);
    assert Field(Normalized(reg, raw), Features, id) == Get(FeaturesView(reg, raw), id);
  }

  // ---- After a patch ----

  /** No schema, a null one, or the number one. */
  predicate Outdated(raw: Object) {
    Schema !in raw || raw[Schema] == Null || (raw[Schema].Num? && raw[Schema].n.f64 == 1.0)
  }

  lemma {:induction false} SaysAt(raw: Object, id: Key, k: Key)
    ensures Says(raw, id, k) == EntrySays(Get(ObjAt(raw, Features), id), k)
  {
  }

  lemma {:induction false} PatchedFeatureAt(file: Object, f: Object, id: Key)
    ensures Get(PatchedFeatures(file, f), id) == if id in f then Some(PatchedEntry(file, f, id)) else Get(file, id)
  {
  }

  lemma {:induction false} PatchedEntrySays(file: Object, f: Object, id: Key, k: Key)
    requires id in f
    ensures EntrySays(Some(PatchedEntry(file, f, id)), k) == Or(EntrySays(Some(f[id]), k), EntrySays(Get(file, id), k))
  {
    EntryObjectSays(Some(f[id]), k);
    EntryObjectSays(Get(file, id), k);
  }

  lemma {:induction false} EntryObjectSays(e: Option<Json>, k: Key)
    ensures Get(EntryObject(e), k) == EntrySays(e, k)
  {
  }

  lemma {:induction false} PatchedFeatureSays(file: Object, f: Object, id: Key, k: Key)
    ensures EntrySays(Get(PatchedFeatures(file, f), id), k) == Or(EntrySays(Get(f, id), k), EntrySays(Get(file, id), k))
  {
    PatchedFeatureAt(file, f, id);
    if id in f {
      PatchedEntrySays(file, f, id, k);
    }
  }

  lemma {:induction false} PatchWritesFeature(reg: Registry, raw: Object, p: Object, id: Key, k: Key)
    requires CheckShape(Obj(p)) == None
    ensures Says(Patched(reg, raw, p), id, k) == Or(Says(p, id, k), Says(raw, id, k))
  {
    PatchedFeaturesAt(reg, raw, p);
    SaysAt(raw, id, k);
    SaysAt(p, id, k);
    SaysAt(Patched(reg, raw, p), id, k);
    PatchedFeatureSays(ObjAt(raw, Features), ObjAt(p, Features), id, k);
  }

  /** The patched file says what the patch says, and otherwise what it said before; an old schema is renewed. */
  lemma {:induction false} PatchWrites(reg: Registry, raw: Object, p: Object, id: Key, k: Key)
    requires CheckShape(Obj(p)) == None
    ensures var q := Patched(reg, raw, p);
      && Get(q, Schema) == (if Outdated(raw) then Some(Num(reg.schema)) else Get(raw, Schema))
      && Get(q, Macros) == Or(Get(p, Macros), Get(raw, Macros))
      && Field(q, Suite, k) == Or(Field(p, Suite, k), Field(raw, Suite, k))
      && Field(q, Personalization, k) == Or(Field(p, Personalization, k), Field(raw, Personalization, k))
      && Says(q, id, k) == Or(Says(p, id, k), Says(raw, id, k))
  {
    PatchedFieldwise(reg, raw, p, Schema);
    PatchedFieldwise(reg, raw, p, Macros);
    PatchWritesFeature(reg, raw, p, id, k);
    PatchWritesField(reg, raw, p, Suite, k);
    PatchWritesField(reg, raw, p, Personalization, k);
  }

  lemma {:induction false} PatchWritesField(reg: Registry, raw: Object, p: Object, part: Key, k: Key)
    requires CheckShape(Obj(p)) == None && (part == Suite || part == Personalization)
    ensures Field(Patched(reg, raw, p), part, k) == Or(Field(p, part, k), Field(raw, part, k))
  {
    PatchedFieldwise(reg, raw, p, part);
  }

  // ---- After a launch ----

  predicate SameMeaning(e: Option<Json>, n: Number) { e.Some? && e.value.Num? && e.value.n.f64 == n.f64 }

  const THEMES := ["oro", "carmesi", "amatista", "esmeralda", "glaciar"]
  const HUD_THEMES := ["cristal", "oro", "minimo", "pixel"]

  function ThemeFor(l: Launcher): (r: string) { if l.accent in THEMES then l.accent else "oro" }

  predicate HudOk(e: Option<Json>) { e.Some? && e.value.Str? && e.value.s in HUD_THEMES }

  /** The file lacks nothing a launch would write. */
  ghost predicate FileComplete(reg: Registry, l: Launcher, raw: Object) {
    && (Outdated(raw) ==> SameMeaning(Get(raw, Schema), reg.schema))
    && IsBool(Field(raw, Suite, Enabled))
    && (forall id :: id in reg.defaults ==> EntryComplete(reg.defaults[id], Field(raw, Features, id)))
    && Macros in raw && raw[Macros].Arr?
    && Field(raw, Personalization, Theme) == Some(Str(ThemeFor(l)))
    && HudOk(Field(raw, Personalization, HudTheme))
    && Field(raw, Personalization, Background).Some?
    && Field(raw, Personalization, ReducedMotion) == Some(Bool(l.reducedMotion))
  }

  /** An object with every key of the default. */
  predicate EntryComplete(def: Object, e: Option<Json>) {
    e.Some? && e.value.Obj? && def.Keys <= e.value.fields.Keys
  }

  lemma {:induction false} NeedsFillIff(def: Object, e: Option<Json>)
    ensures NeedsFill(def, e) <==> !EntryComplete(def, e)
  {
    if e.Some? && e.value.Obj? {
      var (m, full) := (e.value.fields, def + e.value.fields);
      if def.Keys <= m.Keys {
        assert full == m;
        DeepEqualReflexive(e.value);
      } else {
        var k :| k in def && k !in m;
        assert m.Keys < full.Keys;
        SmallerSet(m.Keys, full.Keys);
        assert |m| == |m.Keys| && |full| == |full.Keys|;
      }
    }
  }

  lemma {:induction false} SmallerSet<T>(a: set<T>, b: set<T>)
    requires a < b
    ensures |a| < |b|
  {
    assert b == a + (b - a);
    var x :| x in b - a;
    assert |b| == |a| + |b - a|;
  }

  lemma {:induction false} EqualFields(x: Object, y: Object, k: Key)
    requires DeepEqual(Obj(x), Obj(y)) && k in x
    ensures k in y && DeepEqual(x[k], y[k])
  {
  }

  lemma {:induction false} SuiteSameIff(reg: Registry, raw: Object)
    ensures DeepEqual(Obj(WithSuite(reg, raw)), Obj(raw))
      <==> (Outdated(raw) ==> SameMeaning(Get(raw, Schema), reg.schema)) && IsBool(Field(raw, Suite, Enabled))
  {
    var a := WithSuite(reg, raw);
    if DeepEqual(Obj(a), Obj(raw)) {
      EqualFields(a, raw, Suite);
      EqualFields(a[Suite].fields, raw[Suite].fields, Enabled);
      if Outdated(raw) {
        EqualFields(a, raw, Schema);
      }
    }
    if (Outdated(raw) ==> SameMeaning(Get(raw, Schema), reg.schema)) && IsBool(Field(raw, Suite, Enabled)) {
      assert a.Keys == raw.Keys;
      assert |a| == |a.Keys| && |raw| == |raw.Keys|;
      forall k | k in a
        ensures k in raw && DeepEqual(a[k], raw[k])
      {
        DeepEqualReflexive(a[k]);
      }
    }
  }

  ghost predicate PersonalComplete(l: Launcher, raw: Object) {
    && Field(raw, Personalization, Theme) == Some(Str(ThemeFor(l)))
    && HudOk(Field(raw, Personalization, HudTheme))
    && Field(raw, Personalization, Background).Some?
    && Field(raw, Personalization, ReducedMotion) == Some(Bool(l.reducedMotion))
  }

  lemma {:induction false} ThemesAgree(s: string)
    ensures s in THEMES <==> s in THEME_IDS
    ensures s in HUD_THEMES <==> s in HUD_THEME_IDS
  {
  }

  /** What a launch writes into the personalization. */
  lemma {:induction false} PersonalSeeded(l: Launcher, p: Object, k: Key)
    ensures Get(SeededPersonal(l, p), k) ==
      match k
      case Theme => Some(Str(ThemeFor(l)))
      case HudTheme => if HudOk(Get(p, k)) then Get(p, k) else Some(Str("cristal"))
      case Background => Or(Get(p, k), Some(Null))
      case ReducedMotion => Some(Bool(l.reducedMotion))
      case _ => Get(p, k)
  {
    ThemesAgree(l.accent);
    if HudTheme in p && p[HudTheme].Str? {
      ThemesAgree(p[HudTheme].s);
    }
  }

  lemma {:induction false} PersonalSameIff(l: Launcher, raw: Object)
    ensures SameObjectAt(raw, Personalization, SeededPersonal(l, ObjAt(raw, Personalization)))
      <==> PersonalComplete(l, raw)
  {
    var p := ObjAt(raw, Personalization);
    var s := SeededPersonal(l, p);
    forall k
      ensures Get(s, k) ==
        match k
        case Theme => Some(Str(ThemeFor(l)))
        case HudTheme => if HudOk(Get(p, k)) then Get(p, k) else Some(Str("cristal"))
        case Background => Or(Get(p, k), Some(Null))
        case ReducedMotion => Some(Bool(l.reducedMotion))
        case _ => Get(p, k)
    {
      PersonalSeeded(l, p, k);
    }
    if PersonalComplete(l, raw) {
      SameFields(s, p);
      DeepEqualReflexive(Obj(p));
    }
    if SameObjectAt(raw, Personalization, s) {
      EqualPersonal(l, p, s);
    }
  }

  lemma {:induction false} EqualPersonal(l: Launcher, p: Object, s: Object)
    requires DeepEqual(Obj(p), Obj(s)) && s == SeededPersonal(l, p)
    ensures Get(p, Theme) == Some(Str(ThemeFor(l))) && HudOk(Get(p, HudTheme))
    ensures Background in p && Get(p, ReducedMotion) == Some(Bool(l.reducedMotion))
  {
    PersonalSeeded(l, p, Theme);
    PersonalSeeded(l, p, HudTheme);
    PersonalSeeded(l, p, Background);
    PersonalSeeded(l, p, ReducedMotion);
    assert p.Keys <= s.Keys && |p.Keys| == |p| == |s| == |s.Keys|;
    SameSize(p.Keys, s.Keys);
    EqualFields(p, s, Theme);
    EqualFields(p, s, HudTheme);
    EqualFields(p, s, ReducedMotion);
  }

  lemma {:induction false} SameSize<T>(a: set<T>, b: set<T>)
    requires a <= b && |a| == |b|
    ensures a == b
  {
    if a != b {
      SmallerSet(a, b);
    }
  }

  /** A launch writes the file exactly when it lacks something. */
  lemma {:induction false} LaunchWritesIff(reg: Registry, l: Launcher, raw: Object)
    ensures SeedChanges(reg, l, raw) <==> !FileComplete(reg, l, raw)
  {
    SuiteSameIff(reg, raw);
    var a := WithSuite(reg, raw);
    var b := WithFeatures(reg, a);
    var c := WithMacros(b);
    assert Get(a, Features) == Get(raw, Features) && Get(b, Macros) == Get(raw, Macros);
    assert Get(c, Personalization) == Get(raw, Personalization);
    assert ObjAt(c, Personalization) == ObjAt(raw, Personalization);
    assert SameObjectAt(c, Personalization, SeededPersonal(l, ObjAt(c, Personalization)))
      == SameObjectAt(raw, Personalization, SeededPersonal(l, ObjAt(raw, Personalization)));
    PersonalSameIff(l, raw);
    forall id | id in reg.defaults
      ensures NeedsFill(reg.defaults[id], Get(ObjAt(a, Features), id))
        <==> !EntryComplete(reg.defaults[id], Field(raw, Features, id))
    {
      assert Get(ObjAt(a, Features), id) == Field(raw, Features, id);
      NeedsFillIff(reg.defaults[id], Field(raw, Features, id));
    }
  }

  lemma {:induction false} FilledAt(def: Object, raw: Object, id: Key, k: Key)
    ensures var e := FilledEntry(def, Field(raw, Features, id));
      e.Obj? && Get(e.fields, k) == Or(Says(raw, id, k), Get(def, k))
  {
    NeedsFillIff(def, Field(raw, Features, id));
    CoerceAt(def, raw, id, k);
  }

  lemma {:induction false} SeededFeatureAt(reg: Registry, l: Launcher, raw: Object, id: Key)
    requires id in reg.defaults
    ensures Field(SeededFile(reg, l, raw), Features, id)
      == Some(FilledEntry(reg.defaults[id], Field(raw, Features, id)))
  {
    SeededFieldwise(reg, l, raw, Features);
    assert Get(ObjAt(raw, Features), id) == Field(raw, Features, id);
  }

  lemma {:induction false} CompleteEntrySays(def: Object, raw: Object, id: Key, k: Key)
    requires EntryComplete(def, Field(raw, Features, id))
    ensures Get(Field(raw, Features, id).value.fields, k) == Or(Says(raw, id, k), Get(def, k))
  {
  }

  /** After a launch, every registered feature is an object with the file's values, and its defaults for the rest. */
  lemma {:induction false} LaunchFillsFeatures(reg: Registry, l: Launcher, raw: Object, id: Key, k: Key)
    requires id in reg.defaults
    ensures var e := Field(AfterSeed(reg, l, raw), Features, id);
      && e.Some? && e.value.Obj?
      && Get(e.value.fields, k) == Or(Says(raw, id, k), Default(reg, id, k))
  {
    LaunchWritesIff(reg, l, raw);
    if SeedChanges(reg, l, raw) {
      FilledAt(reg.defaults[id], raw, id, k);
      SeededFeatureAt(reg, l, raw, id);
    } else {
      CompleteEntrySays(reg.defaults[id], raw, id, k);
    }
  }

  /** What the personalization has under `k` after a launch. */
  function PersonalAfter(l: Launcher, raw: Object, k: Key): (r: Option<Json>) {
    var was := Field(raw, Personalization, k);
    match k
    case Theme => Some(Str(ThemeFor(l)))
    case HudTheme => if HudOk(was) then was else Some(Str("cristal"))
    case Background => Or(was, Some(Null))
    case ReducedMotion => Some(Bool(l.reducedMotion))
    case _ => was
  }

  /** What the suite has under `k` after a launch. */
  function SuiteAfter(reg: Registry, raw: Object, k: Key): (r: Option<Json>) {
    var was := Field(raw, Suite, k);
    if k == Enabled && !IsBool(was) then Some(Bool(reg.suiteDefault)) else was
  }

  lemma {:induction false} SeededSuiteAt(reg: Registry, l: Launcher, raw: Object, k: Key)
    ensures Field(SeededFile(reg, l, raw), Suite, k) == SuiteAfter(reg, raw, k)
  {
    SeededFieldwise(reg, l, raw, Suite);
  }

  lemma {:induction false} SeededPersonalAt(reg: Registry, l: Launcher, raw: Object, k: Key)
    ensures Field(SeededFile(reg, l, raw), Personalization, k) == PersonalAfter(l, raw, k)
  {
    SeededFieldwise(reg, l, raw, Personalization);
    PersonalSameIff(l, raw);
    PersonalSeeded(l, ObjAt(raw, Personalization), k);
    assert Get(ObjAt(raw, Personalization), k) == Field(raw, Personalization, k);
  }

  /**
    After a launch the schema is current, the suite has its switch, the macros are a list,
    and the personalization has the launcher's accent and motion, a known HUD theme and a
    background; everything else is as it was.
  */
  lemma {:induction false} LaunchFillsRest(reg: Registry, l: Launcher, raw: Object, k: Key)
    ensures var w := AfterSeed(reg, l, raw);
      && (if Outdated(raw) then SameMeaning(Get(w, Schema), reg.schema) else Get(w, Schema) == Get(raw, Schema))
      && Field(w, Suite, k) == SuiteAfter(reg, raw, k)
      && Get(w, Macros) == Some(if Macros in raw && raw[Macros].Arr? then raw[Macros] else Arr([]))
      && Field(w, Personalization, k) == PersonalAfter(l, raw, k)
  {
    LaunchWritesIff(reg, l, raw);
    if SeedChanges(reg, l, raw) {
      SeededFieldwise(reg, l, raw, Schema);
      SeededFieldwise(reg, l, raw, Macros);
      SeededSuiteAt(reg, l, raw, k);
      SeededPersonalAt(reg, l, raw, k);
    }
  }

  // ---- Which patches are taken ----

  predicate SwitchOk(o: Json) { o.Obj? && (Enabled in o.fields ==> o.fields[Enabled].Bool?) }

  /** An object with no fields but the four, and a suite with a proper switch. */
  predicate TopOk(patch: Json) {
    && patch.Obj? && (forall k :: k in patch.fields ==> k in [Features, Macros, Suite, Personalization])
    && (Suite in patch.fields ==> SwitchOk(patch.fields[Suite]))
  }

  predicate FeaturesOk(e: Option<Json>) {
    e.Some? ==> (e.value.Obj? && forall id :: id in e.value.fields ==>
                   e.value.fields[id].Bool? || SwitchOk(e.value.fields[id]))
  }

  predicate PersonalOk(e: Option<Json>) {
    e.Some? ==> (e.value.Obj? && forall k :: k in e.value.fields ==>
                   k in [Theme, HudTheme, Background, ReducedMotion, Tagline])
  }

  /** A patch is refused for the first of its parts, in this order, that has the wrong shape. */
  lemma {:induction false} PatchRefusedIff(patch: Json)
    ensures CheckShape(patch) == Some(BadPatch) <==> !TopOk(patch)
    ensures TopOk(patch) ==>
      var (f, m, p) := (Get(patch.fields, Features), Get(patch.fields, Macros), Get(patch.fields, Personalization));
      var (list, few) := (m.Some? ==> m.value.Arr?, m.Some? && m.value.Arr? ==> |m.value.items| <= 32);
      && (CheckShape(patch) == Some(BadFeatures) <==> !FeaturesOk(f))
      && (CheckShape(patch) == Some(BadMacros) <==> FeaturesOk(f) && !list)
      && (CheckShape(patch) == Some(TooManyMacros) <==> FeaturesOk(f) && list && !few)
      && (CheckShape(patch) == Some(BadPersonalization) <==> FeaturesOk(f) && list && few && !PersonalOk(p))
  {
    if patch.Obj? {
      var p := patch.fields;
      assert p.Keys <= {Features, Macros, Suite, Personalization}
        <==> forall k :: k in p ==> k in [Features, Macros, Suite, Personalization];
      if Personalization in p && p[Personalization].Obj? {
        var q := p[Personalization].fields;
        assert q.Keys <= PERSONAL_DEFAULTS.Keys
          <==> forall k :: k in q ==> k in [Theme, HudTheme, Background, ReducedMotion, Tagline];
      }
    }
  }

  // ---- When two values are the same ----

  /** Numbers are the same by value, lists element by element, objects key by key, and anything else when equal. */
  lemma {:induction false} SameValues(a: Json, b: Json)
    ensures a.Num? && b.Num? ==> (DeepEqual(a, b) <==> a.n.f64 == b.n.f64)
    ensures a.Arr? && b.Arr? ==>
      (DeepEqual(a, b) <==> |a.items| == |b.items|
                            && forall i :: 0 <= i < |a.items| ==> DeepEqual(a.items[i], b.items[i]))
    ensures a.Obj? && b.Obj? ==>
      (DeepEqual(a, b) <==> a.fields.Keys == b.fields.Keys
                            && forall k :: k in a.fields ==> DeepEqual(a.fields[k], b.fields[k]))
    ensures a.Null? || a.Bool? || a.Str? || b.Null? || b.Bool? || b.Str? ==> (DeepEqual(a, b) <==> a == b)
  {
    if a.Obj? && b.Obj? {
      var (x, y) := (a.fields, b.fields);
      assert |x| == |x.Keys| && |y| == |y.Keys|;
      if x.Keys <= y.Keys && |x| == |y| {
        SameSize(x.Keys, y.Keys);
      }
    }
  }
}
