/**
  Cosmetic loadouts: a strict check of what a player asks for, and a lenient
  clean-up of what is stored. What the second lets through, the first accepts.
*/
module Loadout {
  import opened Wrappers

  /** `needs` is the flag an item is reserved for, empty when it is free. */
  datatype Item = Item(slot: string, needs: string)

  /** While something is worn in `slot`, the `blocked` items may not be worn elsewhere. */
  datatype Rule = Rule(slot: string, blocked: seq<string>)

  datatype Catalog = Catalog(slots: seq<string>, items: map<string, Item>, exclusive: seq<Rule>)

  /** What is worn in each slot. The order of slots carries no meaning. */
  type Worn = map<string, Option<string>>

  /** A value in a candidate loadout: null, a text, or anything else. */
  datatype Json = Null | Text(s: string) | Other

  datatype Error = BadLoadout | UnknownCosmetic | WrongSlot | FlagRequired | ExclusiveConflict

  predicate Allowed(item: Item, flags: seq<string>) { item.needs == "" || item.needs in flags }

  predicate Fits(cat: Catalog, flags: seq<string>, slot: string, id: string) {
    slot in cat.slots && id in cat.items && cat.items[id].slot == slot && Allowed(cat.items[id], flags)
  }

  /** A loadout as it is stored: slots and what is worn in them, in the file's order. */
  type Entries = seq<(string, Option<string>)>

  // ---- Validation ----

  function EntryError(cat: Catalog, flags: seq<string>, slot: string, value: Json): (r: Option<Error>) {
    if slot !in cat.slots then Some(BadLoadout)
    else
      match value
      case Null => None
      case Other => Some(BadLoadout)
      case Text(id) =>
        if id == "" then Some(BadLoadout)
        else if id !in cat.items then Some(UnknownCosmetic)
        else if cat.items[id].slot != slot then Some(WrongSlot)
        else if !Allowed(cat.items[id], flags) then Some(FlagRequired)
        else None
  }

  /** The first entry's error, in the order of the input. */
  function FirstError(cat: Catalog, flags: seq<string>, input: seq<(string, Json)>): (r: Option<Error>)
    ensures r.None? <==> forall i :: 0 <= i < |input| ==> EntryError(cat, flags, input[i].0, input[i].1).None?
  {
    if input == [] then None
    else
      var e := EntryError(cat, flags, input[0].0, input[0].1);
      if e.Some? then e else FirstError(cat, flags, input[1..])
  }

  function ItemOf(value: Json): (r: Option<string>) { if value.Text? then Some(value.s) else None }

  /** Every slot of the catalogue, empty unless the input says otherwise. */
  function Filled(cat: Catalog, input: seq<(string, Json)>): (r: Worn) {
    if input == [] then map s | s in cat.slots :: None
    else
      var (rest, last) := (Filled(cat, input[..|input| - 1]), input[|input| - 1]);
      rest[last.0 := ItemOf(last.1)]
  }

  predicate Wears(m: Worn, slot: string) { slot in m && m[slot].Some? }

  predicate Breaks(m: Worn, rule: Rule, other: string) {
    Wears(m, rule.slot) && other != rule.slot && Wears(m, other) && m[other].value in rule.blocked
  }

  predicate Conflict(cat: Catalog, m: Worn) {
    exists k, o :: 0 <= k < |cat.exclusive| && o in m && Breaks(m, cat.exclusive[k], o)
  }

  /** None for a candidate that is not an object. */
  function Validate(cat: Catalog, flags: seq<string>,
      candidate: Option<seq<(string, Json)>>): (r: Result<Worn, Error>) {
    match candidate
    case None => Err(BadLoadout)
    case Some(input) =>
      match FirstError(cat, flags, input)
      case Some(e) => Err(e)
      case None =>
        if Conflict(cat, Filled(cat, input)) then Err(ExclusiveConflict) else Ok(Filled(cat, input))
  }

  // ---- The clean-up ----

  /** What the entries grant, before the exclusivity rules. */
  function Granted(cat: Catalog, flags: seq<string>, stored: Entries): (r: Worn) {
    if stored == [] then map s | s in cat.slots :: None
    else
      var (rest, last) := (Granted(cat, flags, stored[..|stored| - 1]), stored[|stored| - 1]);
      if last.1.Some? && Fits(cat, flags, last.0, last.1.value) then rest[last.0 := last.1] else rest
  }

  function Cleared(m: Worn, rule: Rule): (r: Worn)
    ensures r.Keys == m.Keys
    ensures forall o :: o in m ==> r[o] == if Breaks(m, rule, o) then None else m[o]
  {
    map o | o in m :: if Breaks(m, rule, o) then None else m[o]
  }

  function ClearedAll(m: Worn, rules: seq<Rule>): (r: Worn)
    ensures r.Keys == m.Keys
  {
    if rules == [] then m else Cleared(ClearedAll(m, rules[..|rules| - 1]), rules[|rules| - 1])
  }

  function Sanitize(cat: Catalog, flags: seq<string>, stored: Entries): (r: Worn) {
    ClearedAll(Granted(cat, flags, stored), cat.exclusive)
  }

  // ---- As the program does it ----

  method ValidateLoadout(cat: Catalog, candidate: Option<seq<(string, Json)>>, flags: seq<string>)
      returns (r: Result<Worn, Error>)
    ensures r == Validate(cat, flags, candidate)
  {
    if candidate.None? {
      return Err(BadLoadout);
    }
    var input := candidate.value;
    var normalized: Worn := map[];
    var i := 0;
    while i < |input|
      invariant 0 <= i <= |input|
      invariant FirstError(cat, flags, input) == FirstError(cat, flags, input[i..])
      invariant normalized == Given(input[..i])
      invariant forall j :: 0 <= j < i ==> EntryError(cat, flags, input[j].0, input[j].1).None?
    {
      assert input[i..][0] == input[i] && input[i..][1..] == input[i + 1..] && input[..i + 1][..i] == input[..i];
      var (slot, value) := (input[i].0, input[i].1);
      if slot !in cat.slots {
        return Err(BadLoadout);
      }
      match value {
        case Null => normalized := normalized[slot := None];
        case Other => return Err(BadLoadout);
        case Text(id) =>
          if id == "" {
            return Err(BadLoadout);
          }
          if id !in cat.items {
            return Err(UnknownCosmetic);
          }
          if cat.items[id].slot != slot {
            return Err(WrongSlot);
          }
          if !Allowed(cat.items[id], flags) {
            return Err(FlagRequired);
          }
          normalized := normalized[slot := Some(id)];
      }
      i := i + 1;
    }
    assert input[..i] == input && FirstError(cat, flags, input).None?;
    normalized := AddMissing(cat, normalized);
    FilledIsGivenPlusMissing(cat, input);
    GivenSlots(cat, flags, input);
    assert normalized == Filled(cat, input);
    var clash := AnyConflict(cat, normalized);
    r := if clash then Err(ExclusiveConflict) else Ok(normalized);
  }

  /** The input alone, later entries over earlier ones. */
  function Given(input: seq<(string, Json)>): (r: Worn) {
    if input == [] then map[]
    else Given(input[..|input| - 1])[input[|input| - 1].0 := ItemOf(input[|input| - 1].1)]
  }

  lemma {:induction false} FilledIsGivenPlusMissing(cat: Catalog, input: seq<(string, Json)>)
    ensures Filled(cat, input) == (map s | s in cat.slots :: None) + Given(input)
  {
    if input != [] {
      FilledIsGivenPlusMissing(cat, input[..|input| - 1]);
    }
  }

  lemma {:induction false} GivenSlots(cat: Catalog, flags: seq<string>, input: seq<(string, Json)>)
    requires forall i :: 0 <= i < |input| ==> input[i].0 in cat.slots
    ensures forall s :: s in Given(input) ==> s in cat.slots
    ensures forall s :: s in Filled(cat, input) <==> s in cat.slots
  {
    if input != [] {
      GivenSlots(cat, flags, input[..|input| - 1]);
    }
  }

  method AddMissing(cat: Catalog, given: Worn) returns (m: Worn)
    ensures m == (map s | s in cat.slots :: None) + given
  {
    m := given;
    var i := 0;
    while i < |cat.slots|
      invariant 0 <= i <= |cat.slots|
      invariant forall s :: s in m <==> s in given || s in cat.slots[..i]
      invariant forall s :: s in m ==> m[s] == if s in given then given[s] else None
    {
      if cat.slots[i] !in m {
        m := m[cat.slots[i] := None];
      }
      i := i + 1;
    }
    assert cat.slots[..i] == cat.slots;
  }

  method AnyConflict(cat: Catalog, m: Worn) returns (clash: bool)
    requires forall s :: s in m <==> s in cat.slots
    ensures clash <==> Conflict(cat, m)
  {
    var k := 0;
    while k < |cat.exclusive|
      invariant 0 <= k <= |cat.exclusive|
      invariant forall j, o :: 0 <= j < k && o in m ==> !Breaks(m, cat.exclusive[j], o)
    {
      var rule := cat.exclusive[k];
      if rule.slot in m && m[rule.slot].Some? {
        var i := 0;
        while i < |cat.slots|
          invariant 0 <= i <= |cat.slots|
          invariant forall j :: 0 <= j < i ==> !Breaks(m, rule, cat.slots[j])
        {
          var other := cat.slots[i];
          if m[other].Some? && other != rule.slot && m[other].value in rule.blocked {
            assert Breaks(m, cat.exclusive[k], other);
            return true;
          }
          i := i + 1;
        }
      }
      k := k + 1;
    }
    clash := false;
  }

  method SanitizeLoadout(cat: Catalog, stored: Entries, flags: seq<string>) returns (granted: Worn)
    ensures granted == Sanitize(cat, flags, stored)
  {
    granted := map s | s in cat.slots :: None;
    var i := 0;
    while i < |stored|
      invariant 0 <= i <= |stored|
      invariant granted == Granted(cat, flags, stored[..i])
    {
      assert stored[..i + 1][..i] == stored[..i];
      var (slot, id) := (stored[i].0, stored[i].1);
      if id.Some? && slot in cat.slots && id.value in cat.items {
        var item := cat.items[id.value];
        if item.slot == slot && Allowed(item, flags) {
          granted := granted[slot := id];
        }
      }
      i := i + 1;
    }
    assert stored[..i] == stored;
    GrantedSlots(cat, flags, stored);
    ghost var before := granted;
    var k := 0;
    while k < |cat.exclusive|
      invariant 0 <= k <= |cat.exclusive|
      invariant granted == ClearedAll(before, cat.exclusive[..k])
    {
      assert cat.exclusive[..k + 1][..k] == cat.exclusive[..k];
      granted := Clear(cat, granted, cat.exclusive[k]);
      k := k + 1;
    }
    assert cat.exclusive[..k] == cat.exclusive;
  }

  method Clear(cat: Catalog, worn: Worn, rule: Rule) returns (m: Worn)
    requires forall s :: s in worn <==> s in cat.slots
    ensures m == Cleared(worn, rule)
  {
    m := worn;
    if !(rule.slot in m && m[rule.slot].Some?) {
      return;
    }
    var i := 0;
    while i < |cat.slots|
      invariant 0 <= i <= |cat.slots|
      invariant m.Keys == worn.Keys
      invariant forall s :: s in m ==> m[s] == if s in cat.slots[..i] && Breaks(worn, rule, s) then None else worn[s]
    {
      var other := cat.slots[i];
      if other != rule.slot && m[other].Some? && m[other].value in rule.blocked {
        m := m[other := None];
      }
      i := i + 1;
    }
    assert cat.slots[..i] == cat.slots;
  }

  // ---- A clean loadout ----

  /** Every slot of the catalogue and nothing else, only fitting items, no rule broken. */
  ghost predicate Clean(cat: Catalog, flags: seq<string>, m: Worn) {
    && (forall s :: s in m <==> s in cat.slots)
    && (forall s :: Wears(m, s) ==> Fits(cat, flags, s, m[s].value))
    && !Conflict(cat, m)
  }

  lemma {:induction false} GrantedSlots(cat: Catalog, flags: seq<string>, stored: Entries)
    ensures var g := Granted(cat, flags, stored);
      && (forall s :: s in g <==> s in cat.slots)
      && (forall s :: Wears(g, s) ==> Fits(cat, flags, s, g[s].value))
  {
    if stored != [] {
      GrantedSlots(cat, flags, stored[..|stored| - 1]);
    }
  }

  /** Clearing only ever takes things off. */
  lemma {:induction false} ClearedKeepsOrDrops(m: Worn, rules: seq<Rule>, o: string)
    requires o in m
    ensures ClearedAll(m, rules)[o] == m[o] || ClearedAll(m, rules)[o] == None
  {
    if rules != [] {
      ClearedKeepsOrDrops(m, rules[..|rules| - 1], o);
    }
  }

  /** A rule once applied stays respected, whatever the later ones take off. */
  lemma {:induction false} RulesHold(m: Worn, rules: seq<Rule>, k: nat, o: string)
    requires k < |rules| && o in m
    ensures !Breaks(ClearedAll(m, rules), rules[k], o)
  {
    var n := |rules| - 1;
    var before := ClearedAll(m, rules[..n]);
    if k < n {
      assert rules[..n][k] == rules[k];
      RulesHold(m, rules[..n], k, o);
    }
  }

  lemma {:induction false} SanitizedClean(cat: Catalog, flags: seq<string>, stored: Entries)
    ensures Clean(cat, flags, Sanitize(cat, flags, stored))
  {
    var (g, r) := (Granted(cat, flags, stored), Sanitize(cat, flags, stored));
    GrantedSlots(cat, flags, stored);
    forall s | Wears(r, s)
      ensures Fits(cat, flags, s, r[s].value)
    {
      ClearedKeepsOrDrops(g, cat.exclusive, s);
      assert Wears(g, s);
    }
    forall k, o | 0 <= k < |cat.exclusive| && o in r
      ensures !Breaks(r, cat.exclusive[k], o)
    {
      RulesHold(g, cat.exclusive, k, o);
    }
  }

  /** The entries of a loadout, in any order. */
  ghost predicate Lists(es: Entries, m: Worn) {
    && (forall i :: 0 <= i < |es| ==> es[i].0 in m && m[es[i].0] == es[i].1)
    && (forall s :: s in m ==> exists i :: 0 <= i < |es| && es[i].0 == s)
  }

  predicate Names(es: Entries, s: string) { exists i :: 0 <= i < |es| && es[i].0 == s }

  function ToJson(es: Entries): (r: seq<(string, Json)>)
    ensures |r| == |es|
    ensures forall i :: 0 <= i < |es| ==> r[i] == (es[i].0, if es[i].1.Some? then Text(es[i].1.value) else Null)
  {
    seq(|es|, i requires 0 <= i < |es| => (es[i].0, if es[i].1.Some? then Text(es[i].1.value) else Null))
  }

  /** The first `n` entries grant just what the loadout wears in their slots. */
  lemma {:induction false} GrantedOfListing(cat: Catalog, flags: seq<string>, es: Entries, m: Worn, s: string)
    requires Clean(cat, flags, m) && s in m
    requires forall i :: 0 <= i < |es| ==> es[i].0 in m && m[es[i].0] == es[i].1
    ensures s in Granted(cat, flags, es)
    ensures Granted(cat, flags, es)[s] == if Names(es, s) then m[s] else None
  {
    if es != [] {
      var (rest, last) := (es[..|es| - 1], es[|es| - 1]);
      GrantedOfListing(cat, flags, rest, m, s);
      if Names(rest, s) {
        var i :| 0 <= i < |rest| && rest[i].0 == s;
        assert es[i].0 == s;
      }
      assert Names(es, s) <==> last.0 == s || Names(rest, s);
      if last.1.Some? {
        assert Wears(m, last.0);
      }
    }
  }

  lemma {:induction false} NothingToClear(m: Worn, rules: seq<Rule>)
    requires forall k, o :: 0 <= k < |rules| && o in m ==> !Breaks(m, rules[k], o)
    ensures ClearedAll(m, rules) == m
  {
    if rules != [] {
      NothingToClear(m, rules[..|rules| - 1]);
    }
  }

  /** Cleaning up leaves exactly the clean loadouts alone. */
  lemma {:induction false} UnchangedIffClean(cat: Catalog, flags: seq<string>, es: Entries, m: Worn)
    requires Lists(es, m)
    ensures Sanitize(cat, flags, es) == m <==> Clean(cat, flags, m)
  {
    SanitizedClean(cat, flags, es);
    if Clean(cat, flags, m) {
      GrantedSlots(cat, flags, es);
      forall s | s in m
        ensures Granted(cat, flags, es)[s] == m[s]
      {
        GrantedOfListing(cat, flags, es, m, s);
      }
      assert Granted(cat, flags, es) == m;
      NothingToClear(m, cat.exclusive);
    }
  }

  // ---- The two together ----

  lemma {:induction false} FilledOfListing(cat: Catalog, es: Entries, m: Worn, s: string)
    requires forall i :: 0 <= i < |es| ==> es[i].0 in m && m[es[i].0] == es[i].1
    requires s in cat.slots
    ensures s in Filled(cat, ToJson(es))
    ensures Filled(cat, ToJson(es))[s] == if Names(es, s) then m[s] else None
  {
    if es != [] {
      var (rest, last) := (es[..|es| - 1], es[|es| - 1]);
      FilledOfListing(cat, rest, m, s);
      assert ToJson(es)[..|es| - 1] == ToJson(rest);
      if Names(rest, s) {
        var i :| 0 <= i < |rest| && rest[i].0 == s;
        assert es[i].0 == s;
      }
      assert Names(es, s) <==> last.0 == s || Names(rest, s);
    }
  }

  /** Nothing worn has an empty id. */
  predicate NoEmptyId(m: Worn) { forall s :: s in m ==> m[s] != Some("") }

  /** Validation accepts a loadout, unchanged, exactly when it is clean and names no empty id. */
  lemma {:induction false} AcceptedIffClean(cat: Catalog, flags: seq<string>, es: Entries, m: Worn)
    requires Lists(es, m) && forall s :: s in m <==> s in cat.slots
    ensures Validate(cat, flags, Some(ToJson(es))) == Ok(m) <==> Clean(cat, flags, m) && NoEmptyId(m)
  {
    var input := ToJson(es);
    forall s | s in m
      ensures s in Filled(cat, input) && Filled(cat, input)[s] == m[s]
    {
      FilledOfListing(cat, es, m, s);
    }
    GivenSlots(cat, flags, input);
    assert Filled(cat, input) == m;
    EntriesFineIff(cat, flags, es, m);
  }

  lemma {:induction false} EntriesFineIff(cat: Catalog, flags: seq<string>, es: Entries, m: Worn)
    requires Lists(es, m) && forall s :: s in m <==> s in cat.slots
    ensures FirstError(cat, flags, ToJson(es)).None?
      <==> (forall s :: Wears(m, s) ==> Fits(cat, flags, s, m[s].value)) && NoEmptyId(m)
  {
  }

  /** With a catalogue of non-empty ids, whatever is stored, the cleaned-up loadout passes validation unchanged. */
  lemma {:induction false} SanitizedIsAccepted(cat: Catalog, flags: seq<string>, stored: Entries, es: Entries)
    requires "" !in cat.items && Lists(es, Sanitize(cat, flags, stored))
    ensures Validate(cat, flags, Some(ToJson(es))) == Ok(Sanitize(cat, flags, stored))
  {
    var m := Sanitize(cat, flags, stored);
    SanitizedClean(cat, flags, stored);
    forall s | s in m
      ensures m[s] != Some("")
    {
      assert Wears(m, s) ==> Fits(cat, flags, s, m[s].value);
    }
    AcceptedIffClean(cat, flags, es, m);
  }

  lemma {:induction false} FilledWears(cat: Catalog, flags: seq<string>, input: seq<(string, Json)>, s: string)
    requires forall i :: 0 <= i < |input| ==> EntryError(cat, flags, input[i].0, input[i].1).None?
    requires Wears(Filled(cat, input), s)
    ensures Fits(cat, flags, s, Filled(cat, input)[s].value)
  {
    if input != [] {
      var (rest, last) := (input[..|input| - 1], input[|input| - 1]);
      assert EntryError(cat, flags, last.0, last.1).None?;
      if last.0 != s {
        FilledWears(cat, flags, rest, s);
      }
    }
  }

  /** Whatever validation accepts is left alone by the clean-up. */
  lemma {:induction false} AcceptedIsUnchanged(cat: Catalog, flags: seq<string>,
      candidate: Option<seq<(string, Json)>>, es: Entries)
    requires Validate(cat, flags, candidate).Ok? && Lists(es, Validate(cat, flags, candidate).value)
    ensures Sanitize(cat, flags, es) == Validate(cat, flags, candidate).value
  {
    var input := candidate.value;
    var m := Filled(cat, input);
    assert forall i :: 0 <= i < |input| ==> EntryError(cat, flags, input[i].0, input[i].1).None?;
    GivenSlots(cat, flags, input);
    forall s | Wears(m, s)
      ensures Fits(cat, flags, s, m[s].value)
    {
      FilledWears(cat, flags, input, s);
    }
    UnchangedIffClean(cat, flags, es, m);
  }

  /** Cleaning up twice is cleaning up once. */
  lemma {:induction false} SanitizeIsIdempotent(cat: Catalog, flags: seq<string>, stored: Entries, es: Entries)
    requires Lists(es, Sanitize(cat, flags, stored))
    ensures Sanitize(cat, flags, es) == Sanitize(cat, flags, stored)
  {
    SanitizedClean(cat, flags, stored);
    UnchangedIffClean(cat, flags, es, Sanitize(cat, flags, stored));
  }
}
