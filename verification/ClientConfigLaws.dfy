/**
  The algebra between normalizing, patching and seeding a client config, for raw
  files of any shape.
*/
module ClientConfigLaws {
  import opened Wrappers
  import opened ClientConfig

  lemma {:induction false} DeepEqualReflexive(a: Json)
    ensures DeepEqual(a, a)
  {
    match a
    case Arr(x) =>
      forall i | 0 <= i < |x|
        ensures DeepEqual(x[i], x[i])
      {
        DeepEqualReflexive(x[i]);
      }
    case Obj(x) =>
      forall k | k in x
        ensures DeepEqual(x[k], x[k])
      {
        DeepEqualReflexive(x[k]);
      }
    case _ =>
  }

  // ---- Patch, then normalize ----

  /** Filling defaults in commutes with writing a patch entry over the file's entry. */
  lemma {:induction false} CoerceOverlay(def: Object, e: Option<Json>, o: Object)
    ensures Coerce(def, Some(Obj(EntryObject(e) + o))) == Coerce(def, e) + o
  {
  }

  /** How one feature of the view `w` comes from the view `v` and the patched features `f`. */
  ghost predicate FeatureOverlaid(v: Object, f: Object, w: Object, id: Key) {
    if id in f then
      && id in w
      && w[id] == Obj((if id in v && v[id].Obj? then v[id].fields else OFF) + EntryObject(Some(f[id])))
    else (id in w <==> id in v) && (id in v ==> w[id] == v[id])
  }

  lemma {:induction false} FeatureOverlay(reg: Registry, rf: Object, f: Object, id: Key)
    requires FeatureEntriesOk(f)
    ensures FeatureOverlaid(FeaturesOf(reg, rf), f, FeaturesOf(reg, PatchedFeatures(rf, f)), id)
  {
    if id in f {
      var def := if id in reg.defaults then reg.defaults[id] else OFF;
      CoerceOverlay(def, Get(rf, id), EntryObject(Some(f[id])));
      assert Get(PatchedFeatures(rf, f), id) == Some(Obj(EntryObject(Get(rf, id)) + EntryObject(Some(f[id]))));
    }
  }

  /** The suite view follows a suite patch exactly when `enabled` is a boolean there or absent. */
  lemma {:induction false} SuiteOverlayIff(reg: Registry, raw: Object, s: Object)
    ensures SuiteView(reg, raw[Suite := Obj(ObjAt(raw, Suite) + s)]) == SuiteView(reg, raw) + s
      <==> BoolOrAbsent(s, Enabled)
  {
  }

  ghost predicate IsKnown(k: Key) {
    k == Schema || k == Suite || k == Features || k == Macros || k == Personalization
  }

  /** What a patch makes of one top-level field. */
  ghost function PatchedField(reg: Registry, raw: Object, p: Object, k: Key): (r: Option<Json>) {
    if k == Schema && OldSchema(raw) then Some(Num(reg.schema))
    else if k == Macros && k in p then Some(p[k])
    else if k == Features && k in p && p[k].Obj? then Some(Obj(PatchedFeatures(ObjAt(raw, k), p[k].fields)))
    else if k in {Suite, Personalization} && k in p && p[k].Obj? then Some(Obj(ObjAt(raw, k) + p[k].fields))
    else Get(raw, k)
  }

  lemma {:induction false} PatchedFieldwise(reg: Registry, raw: Object, p: Object, k: Key)
    ensures Get(Patched(reg, raw, p), k) == PatchedField(reg, raw, p, k)
  {
    var a := Upgraded(reg, raw);
    var b := PutObject(a, p, Suite);
    var c := PutFeatures(b, p);
    var d := PutMacros(c, p);
    assert k != Schema ==> Get(a, k) == Get(raw, k);
    assert k != Suite ==> Get(b, k) == Get(a, k);
    assert k != Features ==> Get(c, k) == Get(b, k);
    assert k != Macros ==> Get(d, k) == Get(c, k);
  }

  /**
    Normalizing a patched file is overlaying the patch on the normalized view, for the
    suite, every feature, the macros and the personalization.
  */
  lemma {:induction false} PatchIsOverlay(reg: Registry, raw: Object, p: Object)
    requires CheckShape(Obj(p)) == None
    ensures var q := Patched(reg, raw, p);
      && SuiteView(reg, q) == SuiteView(reg, raw) + ObjAt(p, Suite)
      && MacrosView(q) == (if Macros in p then p[Macros] else MacrosView(raw))
      && PersonalView(q) == PersonalView(raw) + ObjAt(p, Personalization)
      && (forall id :: FeatureOverlaid(FeaturesView(reg, raw), ObjAt(p, Features), FeaturesView(reg, q), id))
  {
    PatchSuite(reg, raw, p);
    PatchPersonal(reg, raw, p);
    PatchedFieldwise(reg, raw, p, Macros);
    forall id
      ensures FeatureOverlaid(FeaturesView(reg, raw), ObjAt(p, Features), FeaturesView(reg, Patched(reg, raw, p)), id)
    {
      PatchFeature(reg, raw, p, id);
    }
  }

  lemma {:induction false} KeepsUnknown(reg: Registry, raw: Object, p: Object, k: Key)
    requires !IsKnown(k)
    ensures Get(Patched(reg, raw, p), k) == Get(raw, k)
  {
    PatchedFieldwise(reg, raw, p, k);
  }

  lemma {:induction false} KeepsInner(reg: Registry, raw: Object, p: Object, part: Key, k: Key)
    requires (part == Suite || part == Personalization) && k !in ObjAt(p, part)
    ensures Get(ObjAt(Patched(reg, raw, p), part), k) == Get(ObjAt(raw, part), k)
  {
    PatchedFieldwise(reg, raw, p, part);
  }

  lemma {:induction false} KeepsFeature(reg: Registry, raw: Object, p: Object, k: Key)
    requires CheckShape(Obj(p)) == None && k !in ObjAt(p, Features)
    ensures Get(ObjAt(Patched(reg, raw, p), Features), k) == Get(ObjAt(raw, Features), k)
  {
    PatchedFeaturesAt(reg, raw, p);
  }

  /** What a patch does not name stays as it was in the file, at every level. */
  lemma {:induction false} PatchKeepsTheRest(reg: Registry, raw: Object, p: Object, k: Key)
    requires CheckShape(Obj(p)) == None
    ensures var q := Patched(reg, raw, p);
      && (!IsKnown(k) ==> Get(q, k) == Get(raw, k))
      && (k !in ObjAt(p, Suite) ==> Get(ObjAt(q, Suite), k) == Get(ObjAt(raw, Suite), k))
      && (k !in ObjAt(p, Features) ==> Get(ObjAt(q, Features), k) == Get(ObjAt(raw, Features), k))
      && (k !in ObjAt(p, Personalization) ==> Get(ObjAt(q, Personalization), k) == Get(ObjAt(raw, Personalization), k))
  {
    if !IsKnown(k) {
      KeepsUnknown(reg, raw, p, k);
    }
    if k !in ObjAt(p, Suite) {
      KeepsInner(reg, raw, p, Suite, k);
    }
    if k !in ObjAt(p, Personalization) {
      KeepsInner(reg, raw, p, Personalization, k);
    }
    if k !in ObjAt(p, Features) {
      KeepsFeature(reg, raw, p, k);
    }
  }

  /** The normalized view, key by key. */
  lemma {:induction false} NormalizedFields(reg: Registry, raw: Object, k: Key)
    ensures Get(Normalized(reg, raw), k) ==
      match k
      case Schema => if NoSchema(raw) then Some(Num(reg.schema)) else Get(raw, k)
      case Suite => Some(Obj(SuiteView(reg, raw)))
      case Features => Some(Obj(FeaturesView(reg, raw)))
      case Macros => Some(MacrosView(raw))
      case Personalization => Some(Obj(PersonalView(raw)))
      case _ => Get(raw, k)
  {
  }

  lemma {:induction false} PatchSuite(reg: Registry, raw: Object, p: Object)
    requires CheckShape(Obj(p)) == None
    ensures SuiteView(reg, Patched(reg, raw, p)) == SuiteView(reg, raw) + ObjAt(p, Suite)
  {
    PatchedFieldwise(reg, raw, p, Suite);
    var s := ObjAt(p, Suite);
    SuiteOverlayIff(reg, raw, s);
    assert ObjAt(raw, Suite) + map[] == ObjAt(raw, Suite);
    assert ObjAt(raw[Suite := Obj(ObjAt(raw, Suite) + s)], Suite) == ObjAt(Patched(reg, raw, p), Suite);
  }

  lemma {:induction false} PatchPersonal(reg: Registry, raw: Object, p: Object)
    requires CheckShape(Obj(p)) == None
    ensures PersonalView(Patched(reg, raw, p)) == PersonalView(raw) + ObjAt(p, Personalization)
  {
    PatchedFieldwise(reg, raw, p, Personalization);
    var (base, o) := (ObjAt(raw, Personalization), ObjAt(p, Personalization));
    assert base + map[] == base;
    assert PERSONAL_DEFAULTS + (base + o) == (PERSONAL_DEFAULTS + base) + o;
  }

  lemma {:induction false} PatchedFeaturesAt(reg: Registry, raw: Object, p: Object)
    requires CheckShape(Obj(p)) == None
    ensures Features in p ==> FeatureEntriesOk(ObjAt(p, Features))
    ensures ObjAt(Patched(reg, raw, p), Features)
      == if Features in p then PatchedFeatures(ObjAt(raw, Features), ObjAt(p, Features)) else ObjAt(raw, Features)
  {
  }

  lemma {:induction false} PatchFeature(reg: Registry, raw: Object, p: Object, id: Key)
    requires CheckShape(Obj(p)) == None
    ensures FeatureOverlaid(FeaturesView(reg, raw), ObjAt(p, Features), FeaturesView(reg, Patched(reg, raw, p)), id)
  {
    PatchedFeaturesAt(reg, raw, p);
    if Features in p {
      FeatureOverlay(reg, ObjAt(raw, Features), ObjAt(p, Features), id);
    }
  }

  lemma {:induction false} PartsTwice(reg: Registry, raw: Object)
    ensures var v := Normalized(reg, raw);
      && SuiteView(reg, v) == SuiteView(reg, raw) && PersonalView(v) == PersonalView(raw)
      && FeaturesView(reg, v) == FeaturesView(reg, raw) && MacrosView(v) == MacrosView(raw)
  {
    NormalizedFields(reg, raw, Suite);
    NormalizedFields(reg, raw, Features);
    NormalizedFields(reg, raw, Macros);
    NormalizedFields(reg, raw, Personalization);
    FeaturesTwice(reg, ObjAt(raw, Features));
    assert PERSONAL_DEFAULTS + PersonalView(raw) == PersonalView(raw);
  }

  /** The view is already normal. */
  lemma {:induction false} NormalizedTwice(reg: Registry, raw: Object)
    ensures Normalized(reg, Normalized(reg, raw)) == Normalized(reg, raw)
  {
    var v := Normalized(reg, raw);
    PartsTwice(reg, raw);
    NormalizedFields(reg, raw, Schema);
    forall k
      ensures Get(Normalized(reg, v), k) == Get(v, k)
    {
      NormalizedFields(reg, v, k);
      NormalizedFields(reg, raw, k);
    }
    SameFields(Normalized(reg, v), v);
  }

  lemma {:induction false} CoerceTwice(def: Object, e: Option<Json>)
    ensures Coerce(def, Some(Obj(Coerce(def, e)))) == Coerce(def, e)
  {
  }

  lemma {:induction false} FeaturesTwice(reg: Registry, rf: Object)
    ensures FeaturesOf(reg, FeaturesOf(reg, rf)) == FeaturesOf(reg, rf)
  {
    var v := FeaturesOf(reg, rf);
    forall id | id in v
      ensures id in FeaturesOf(reg, v) && FeaturesOf(reg, v)[id] == v[id]
    {
      CoerceTwice(if id in reg.defaults then reg.defaults[id] else OFF, Get(rf, id));
    }
    assert FeaturesOf(reg, v).Keys == v.Keys;
  }

  // ---- Seeding ----

  /** A filled entry reads like the entry it replaces, and needs no more filling. */
  lemma {:induction false} FilledSettles(def: Object, e: Option<Json>)
    ensures Coerce(def, Some(FilledEntry(def, e))) == Coerce(def, e)
    ensures !NeedsFill(def, Some(FilledEntry(def, e)))
  {
    CoerceTwice(def, e);
    DeepEqualReflexive(Obj(Coerce(def, e)));
  }

  lemma {:induction false} SeededFeatureReads(reg: Registry, rf: Object, id: Key)
    ensures Get(FeaturesOf(reg, SeededFeatures(reg, rf)), id) == Get(FeaturesOf(reg, rf), id)
    ensures id in reg.defaults ==> !NeedsFill(reg.defaults[id], Get(SeededFeatures(reg, rf), id))
  {
    var sf := SeededFeatures(reg, rf);
    if id in reg.defaults {
      FilledSettles(reg.defaults[id], Get(rf, id));
      assert Get(sf, id) == Some(FilledEntry(reg.defaults[id], Get(rf, id)));
    } else {
      assert Get(sf, id) == Get(rf, id);
    }
  }

  lemma {:induction false} SeededFeaturesSettle(reg: Registry, rf: Object)
    ensures FeaturesOf(reg, SeededFeatures(reg, rf)) == FeaturesOf(reg, rf)
    ensures !AnyNeedsFill(reg, SeededFeatures(reg, rf))
  {
    var (a, b) := (FeaturesOf(reg, SeededFeatures(reg, rf)), FeaturesOf(reg, rf));
    forall id
      ensures Get(a, id) == Get(b, id)
      ensures id in reg.defaults ==> !NeedsFill(reg.defaults[id], Get(SeededFeatures(reg, rf), id))
    {
      SeededFeatureReads(reg, rf, id);
    }
    SameFields(a, b);
  }

  lemma {:induction false} SameFields(a: Object, b: Object)
    requires forall k :: Get(a, k) == Get(b, k)
    ensures a == b
  {
    forall k
      ensures k in a <==> k in b
    {
      assert Get(a, k) == Get(b, k);
    }
    forall k | k in a
      ensures a[k] == b[k]
    {
      assert Get(a, k) == Get(b, k);
    }
  }

  /** What a launch makes of one top-level field. */
  ghost predicate SeededField(reg: Registry, l: Launcher, raw: Object, k: Key, after: Option<Json>) {
    match k
    case Schema => after == if OldSchema(raw) then Some(Num(reg.schema)) else Get(raw, k)
    case Suite => after == Some(Obj(SeededSuite(reg, raw)))
    case Features => after == Some(Obj(SeededFeatures(reg, ObjAt(raw, k))))
    case Macros => after == Some(MacrosView(raw))
    case Personalization =>
      var personal := SeededPersonal(l, ObjAt(raw, k));
      after == if SameObjectAt(raw, k, personal) then Get(raw, k) else Some(Obj(personal))
    case _ => after == Get(raw, k)
  }

  lemma {:induction false} SeededFieldwise(reg: Registry, l: Launcher, raw: Object, k: Key)
    ensures SeededField(reg, l, raw, k, Get(SeededFile(reg, l, raw), k))
  {
  }

  lemma {:induction false} SeededPersonalTwice(l: Launcher, p: Object)
    ensures SeededPersonal(l, SeededPersonal(l, p)) == SeededPersonal(l, p)
  {
  }

  lemma {:induction false} SeededPersonalKept(l: Launcher, raw: Object, m: Object)
    requires var personal := SeededPersonal(l, ObjAt(raw, Personalization));
      Get(m, Personalization) ==
        if SameObjectAt(raw, Personalization, personal) then Get(raw, Personalization) else Some(Obj(personal))
    ensures SameObjectAt(m, Personalization, SeededPersonal(l, ObjAt(m, Personalization)))
  {
    SeededPersonalTwice(l, ObjAt(raw, Personalization));
    DeepEqualReflexive(Obj(SeededPersonal(l, ObjAt(raw, Personalization))));
  }

  /** All five fields of `m` are as a launch over `raw` makes them. */
  ghost predicate SeededFrom(reg: Registry, l: Launcher, raw: Object, m: Object) {
    && SeededField(reg, l, raw, Schema, Get(m, Schema))
    && SeededField(reg, l, raw, Suite, Get(m, Suite))
    && SeededField(reg, l, raw, Features, Get(m, Features))
    && SeededField(reg, l, raw, Macros, Get(m, Macros))
    && SeededField(reg, l, raw, Personalization, Get(m, Personalization))
  }

  lemma {:induction false} SeededFileIsSeeded(reg: Registry, l: Launcher, raw: Object)
    ensures SeededFrom(reg, l, raw, SeededFile(reg, l, raw))
  {
  }

  lemma {:induction false} FeaturesSettled(reg: Registry, l: Launcher, raw: Object, m: Object)
    requires SeededField(reg, l, raw, Features, Get(m, Features))
    ensures !AnyNeedsFill(reg, ObjAt(m, Features))
  {
    SeededFeaturesSettle(reg, ObjAt(raw, Features));
    assert ObjAt(m, Features) == SeededFeatures(reg, ObjAt(raw, Features));
  }

  lemma {:induction false} MacrosSettled(reg: Registry, l: Launcher, raw: Object, m: Object)
    requires SeededField(reg, l, raw, Macros, Get(m, Macros))
    ensures Macros in m && m[Macros].Arr?
  {
  }

  lemma {:induction false} SuiteSettled(reg: Registry, l: Launcher, raw: Object, m: Object)
    requires SeededField(reg, l, raw, Schema, Get(m, Schema)) && SeededField(reg, l, raw, Suite, Get(m, Suite))
    ensures WithSuite(reg, m) == m
  {
  }

  lemma {:induction false} SettledByFields(reg: Registry, l: Launcher, raw: Object, m: Object)
    requires SeededFrom(reg, l, raw, m)
    ensures !SeedChanges(reg, l, m)
  {
    SuiteSettled(reg, l, raw, m);
    FeaturesSettled(reg, l, raw, m);
    MacrosSettled(reg, l, raw, m);
    SeededPersonalKept(l, raw, m);
    DeepEqualReflexive(Obj(m));
    NothingToSeed(reg, l, m);
  }

  /** What a launch wrote, the next launch leaves alone. */
  lemma {:induction false} SeededIsSettled(reg: Registry, l: Launcher, raw: Object)
    ensures !SeedChanges(reg, l, SeededFile(reg, l, raw))
  {
    SeededFileIsSeeded(reg, l, raw);
    SettledByFields(reg, l, raw, SeededFile(reg, l, raw));
  }

  lemma {:induction false} NothingToSeed(reg: Registry, l: Launcher, m: Object)
    requires WithSuite(reg, m) == m && DeepEqual(Obj(m), Obj(m)) && !AnyNeedsFill(reg, ObjAt(m, Features))
    requires Macros in m && m[Macros].Arr?
    requires SameObjectAt(m, Personalization, SeededPersonal(l, ObjAt(m, Personalization)))
    ensures !SeedChanges(reg, l, m)
  {
    var b := WithFeatures(reg, m);
    assert WithMacros(b) == b && Get(b, Personalization) == Get(m, Personalization);
  }

  /** A second launch writes nothing. */
  lemma {:induction false} SeedIsIdempotent(reg: Registry, l: Launcher, raw: Object)
    ensures !SeedChanges(reg, l, AfterSeed(reg, l, raw))
    ensures AfterSeed(reg, l, AfterSeed(reg, l, raw)) == AfterSeed(reg, l, raw)
  {
    SeededIsSettled(reg, l, raw);
  }

  /** Seeding changes neither the suite nor the features nor the macros a reader sees. */
  lemma {:induction false} SeedKeepsView(reg: Registry, l: Launcher, raw: Object)
    ensures var w := AfterSeed(reg, l, raw);
      && SuiteView(reg, w) == SuiteView(reg, raw)
      && FeaturesView(reg, w) == FeaturesView(reg, raw)
      && MacrosView(w) == MacrosView(raw)
  {
    SeededFieldwise(reg, l, raw, Suite);
    SeededFieldwise(reg, l, raw, Features);
    SeededFieldwise(reg, l, raw, Macros);
    SeededFeaturesSettle(reg, ObjAt(raw, Features));
  }

  /** A top-level key the launcher does not own survives. */
  lemma {:induction false} SeedKeepsUnknownKey(reg: Registry, l: Launcher, raw: Object, k: Key)
    requires !IsKnown(k)
    ensures Get(AfterSeed(reg, l, raw), k) == Get(raw, k)
  {
    SeededFieldwise(reg, l, raw, k);
  }

  /** Inside the suite and the personalization, so does every key but those the launcher mirrors. */
  lemma {:induction false} SeedKeepsInnerKey(reg: Registry, l: Launcher, raw: Object, k: Key)
    ensures var w := AfterSeed(reg, l, raw);
      && (k in ObjAt(raw, Suite) && k != Enabled ==> Get(ObjAt(w, Suite), k) == Get(ObjAt(raw, Suite), k))
      && (k in ObjAt(raw, Personalization) && k !in {Theme, HudTheme, ReducedMotion} ==>
            Get(ObjAt(w, Personalization), k) == Get(ObjAt(raw, Personalization), k))
  {
    SeededFileIsSeeded(reg, l, raw);
    InnerKeyOfFields(reg, l, raw, SeededFile(reg, l, raw), k);
  }

  lemma {:induction false} InnerKeyOfFields(reg: Registry, l: Launcher, raw: Object, m: Object, k: Key)
    requires SeededFrom(reg, l, raw, m)
    ensures k in ObjAt(raw, Suite) && k != Enabled ==> Get(ObjAt(m, Suite), k) == Get(ObjAt(raw, Suite), k)
    ensures k in ObjAt(raw, Personalization) && k !in {Theme, HudTheme, ReducedMotion} ==>
      Get(ObjAt(m, Personalization), k) == Get(ObjAt(raw, Personalization), k)
  {
  }

  /** Inside a feature's object every key keeps its value, and an unregistered entry of any kind stays as it is. */
  lemma {:induction false} SeedKeepsFeatureKey(reg: Registry, l: Launcher, raw: Object, id: Key, k: Key)
    ensures var (was, now) := (ObjAt(raw, Features), ObjAt(AfterSeed(reg, l, raw), Features));
      && (id in was && k in ObjAt(was, id) ==> Get(ObjAt(now, id), k) == Get(ObjAt(was, id), k))
      && (id !in reg.defaults ==> Get(now, id) == Get(was, id))
  {
    SeededFieldwise(reg, l, raw, Features);
    if id in ObjAt(raw, Features) && k in ObjAt(ObjAt(raw, Features), id) {
      FeatureKeyKept(reg, ObjAt(raw, Features), id, k);
    }
  }

  lemma {:induction false} FeatureKeyKept(reg: Registry, rf: Object, id: Key, k: Key)
    requires id in rf && k in ObjAt(rf, id)
    ensures Get(ObjAt(SeededFeatures(reg, rf), id), k) == Get(ObjAt(rf, id), k)
  {
  }
}
