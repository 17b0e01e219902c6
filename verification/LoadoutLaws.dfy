/**
  Loadouts, said of the entries, the items and the rules themselves: what is worn after
  the check and after the clean-up, and why something is refused or taken off.
*/
module LoadoutLaws {
  import opened Wrappers
  import opened Loadout

  /** The item exists, belongs in the slot, and is free or its flag is there. */
  predicate MayWear(cat: Catalog, flags: seq<string>, slot: string, id: string) {
    && slot in cat.slots && id in cat.items && cat.items[id].slot == slot
    && (cat.items[id].needs == "" || exists k :: 0 <= k < |flags| && flags[k] == cat.items[id].needs)
  }

  lemma {:induction false} FitsIff(cat: Catalog, flags: seq<string>, slot: string, id: string)
    ensures Fits(cat, flags, slot, id) <==> MayWear(cat, flags, slot, id)
  {
  }

  // ---- What the stored entries grant ----

  predicate Grants(cat: Catalog, flags: seq<string>, e: (string, Option<string>), s: string, id: string) {
    e == (s, Some(id)) && MayWear(cat, flags, s, id)
  }

  predicate GrantsSome(cat: Catalog, flags: seq<string>, e: (string, Option<string>), s: string) {
    e.0 == s && e.1.Some? && MayWear(cat, flags, s, e.1.value)
  }

  /** Entry `i` is the last one that may be worn in its slot. */
  predicate LastGrant(cat: Catalog, flags: seq<string>, stored: Entries, s: string, id: string, i: nat) {
    && i < |stored| && Grants(cat, flags, stored[i], s, id)
    && forall j :: i < j < |stored| ==> !GrantsSome(cat, flags, stored[j], s)
  }

  lemma {:induction false} LastGrantSplits(cat: Catalog, flags: seq<string>, stored: Entries, s: string, id: string)
    requires stored != []
    ensures var (front, last) := (stored[..|stored| - 1], stored[|stored| - 1]);
      (exists i: nat :: LastGrant(cat, flags, stored, s, id, i)) <==>
        if GrantsSome(cat, flags, last, s) then last == (s, Some(id))
        else exists i: nat :: LastGrant(cat, flags, front, s, id, i)
  {
    var (n, front) := (|stored| - 1, stored[..|stored| - 1]);
    if GrantsSome(cat, flags, stored[n], s) {
      if stored[n] == (s, Some(id)) {
        assert LastGrant(cat, flags, stored, s, id, n);
      }
    } else {
      if i: nat :| LastGrant(cat, flags, stored, s, id, i) {
        assert LastGrant(cat, flags, front, s, id, i);
      }
      if i: nat :| LastGrant(cat, flags, front, s, id, i) {
        assert LastGrant(cat, flags, stored, s, id, i);
      }
    }
  }

  /** Before the rules a slot has the last item stored for it that may be worn there, and nothing when there is none. */
  lemma {:induction false} GrantedIff(cat: Catalog, flags: seq<string>, stored: Entries, s: string, id: string)
    requires s in cat.slots
    ensures s in Granted(cat, flags, stored)
    ensures Granted(cat, flags, stored)[s] == Some(id) <==> exists i: nat :: LastGrant(cat, flags, stored, s, id, i)
  {
    if stored != [] {
      var (front, last) := (stored[..|stored| - 1], stored[|stored| - 1]);
      GrantedIff(cat, flags, front, s, id);
      LastGrantSplits(cat, flags, stored, s, id);
      if last.1.Some? {
        FitsIff(cat, flags, last.0, last.1.value);
      }
    }
  }

  // ---- What the rules take off ----

  /** Something is worn in the rule's slot, and in `o`, another slot, an item that it blocks. */
  predicate Blocks(m: Worn, rule: Rule, o: string) {
    && rule.slot in m && m[rule.slot] != None
    && o in m && o != rule.slot && m[o] != None && m[o].value in rule.blocked
  }

  lemma {:induction false} OneMoreRule(m: Worn, rules: seq<Rule>, k: nat, o: string)
    requires k < |rules| && o in m
    ensures var before := ClearedAll(m, rules[..k]);
      && o in before
      && ClearedAll(m, rules[..k + 1])[o] == if Blocks(before, rules[k], o) then None else before[o]
  {
    assert rules[..k + 1][..k] == rules[..k];
  }

  predicate BlockedAt(m: Worn, rules: seq<Rule>, k: nat, o: string)
    requires k < |rules|
  {
    Blocks(ClearedAll(m, rules[..k]), rules[k], o)
  }

  /** One of the first `n` rules blocks the item when its turn comes, those before it having been applied in order. */
  ghost predicate TakenOff(m: Worn, rules: seq<Rule>, n: nat, o: string)
    requires n <= |rules|
  {
    exists k: nat :: k < n && BlockedAt(m, rules, k, o)
  }

  lemma {:induction false} TakenOffBy(m: Worn, rules: seq<Rule>, n: nat, o: string)
    requires n <= |rules| && o in m && m[o].Some?
    ensures ClearedAll(m, rules[..n])[o] == if TakenOff(m, rules, n, o) then None else m[o]
  {
    if n > 0 {
      TakenOffBy(m, rules, n - 1, o);
      OneMoreRule(m, rules, n - 1, o);
      assert TakenOff(m, rules, n, o) <==> TakenOff(m, rules, n - 1, o) || BlockedAt(m, rules, n - 1, o);
    }
  }

  /** An item granted is worn in the end unless a rule, taken first to last, blocks it when its turn comes. */
  lemma {:induction false} WornUnlessBlocked(cat: Catalog, flags: seq<string>, stored: Entries, o: string)
    requires var g := Granted(cat, flags, stored); o in g && g[o].Some?
    ensures var g := Granted(cat, flags, stored);
      Sanitize(cat, flags, stored)[o] == if TakenOff(g, cat.exclusive, |cat.exclusive|, o) then None else g[o]
  {
    TakenOffBy(Granted(cat, flags, stored), cat.exclusive, |cat.exclusive|, o);
    assert cat.exclusive[..|cat.exclusive|] == cat.exclusive;
  }

  /** Of two items that block each other the one whose rule comes first stays. */
  lemma {:induction false} FirstRuleWins(m: Worn, first: Rule, second: Rule)
    requires Blocks(m, first, second.slot) && Blocks(m, second, first.slot)
    ensures var r := ClearedAll(m, [first, second]);
      r[first.slot] == m[first.slot] && r[second.slot] == None
  {
    var rules := [first, second];
    assert rules[..0] == [] && rules[..2] == rules;
    OneMoreRule(m, rules, 0, first.slot);
    OneMoreRule(m, rules, 0, second.slot);
    OneMoreRule(m, rules, 1, first.slot);
    OneMoreRule(m, rules, 1, second.slot);
  }

  /** In the end no item is worn that a rule blocks. */
  lemma {:induction false} NothingBlocked(cat: Catalog, flags: seq<string>, stored: Entries, k: nat, o: string)
    requires k < |cat.exclusive|
    ensures !Blocks(Sanitize(cat, flags, stored), cat.exclusive[k], o)
  {
    SanitizedClean(cat, flags, stored);
    var m := Sanitize(cat, flags, stored);
    if Blocks(m, cat.exclusive[k], o) {
      assert Breaks(m, cat.exclusive[k], o);
    }
  }

  // ---- What is accepted, and as what ----

  predicate EntryFine(cat: Catalog, flags: seq<string>, e: (string, Json)) {
    e.0 in cat.slots && (e.1.Null? || (e.1.Text? && e.1.s != "" && MayWear(cat, flags, e.0, e.1.s)))
  }

  /**
    What is wrong with an entry: an unknown slot or no id, an unknown id, another slot's item,
    a flag that is missing.
  */
  predicate Offends(cat: Catalog, flags: seq<string>, e: (string, Json), error: Error) {
    var known := e.0 in cat.slots && e.1.Text? && e.1.s != "" && e.1.s in cat.items;
    match error
    case BadLoadout => e.0 !in cat.slots || e.1.Other? || e.1 == Text("")
    case UnknownCosmetic => e.0 in cat.slots && e.1.Text? && e.1.s != "" && e.1.s !in cat.items
    case WrongSlot => known && cat.items[e.1.s].slot != e.0
    case FlagRequired =>
      known && cat.items[e.1.s].slot == e.0 && cat.items[e.1.s].needs != ""
      && forall k :: 0 <= k < |flags| ==> flags[k] != cat.items[e.1.s].needs
    case ExclusiveConflict => false
  }

  lemma {:induction false} EntryErrorIff(cat: Catalog, flags: seq<string>, e: (string, Json), error: Error)
    ensures EntryError(cat, flags, e.0, e.1) == Some(error) <==> Offends(cat, flags, e, error)
    ensures EntryError(cat, flags, e.0, e.1) == None <==> EntryFine(cat, flags, e)
  {
  }

  /** Entry `i` is the first that is not fine, for this reason. */
  predicate FirstOffence(cat: Catalog, flags: seq<string>, input: seq<(string, Json)>, error: Error, i: nat) {
    && i < |input| && Offends(cat, flags, input[i], error)
    && forall j :: 0 <= j < i ==> EntryFine(cat, flags, input[j])
  }

  lemma {:induction false} FirstErrorIff(cat: Catalog, flags: seq<string>, input: seq<(string, Json)>, error: Error)
    ensures FirstError(cat, flags, input) == Some(error)
      <==> exists i: nat :: FirstOffence(cat, flags, input, error, i)
  {
    if input != [] {
      var rest := input[1..];
      FirstErrorIff(cat, flags, rest, error);
      EntryErrorIff(cat, flags, input[0], error);
      if i: nat :| FirstOffence(cat, flags, rest, error, i) {
        if EntryFine(cat, flags, input[0]) {
          assert FirstOffence(cat, flags, input, error, i + 1);
        }
      }
      if i: nat :| FirstOffence(cat, flags, input, error, i) {
        if i > 0 {
          assert FirstOffence(cat, flags, rest, error, i - 1);
        }
      }
      if Offends(cat, flags, input[0], error) {
        assert FirstOffence(cat, flags, input, error, 0);
      }
    }
  }

  /** Entry `i` is the last one for the slot. */
  predicate LastEntry(input: seq<(string, Json)>, s: string, i: nat) {
    i < |input| && input[i].0 == s && forall j :: i < j < |input| ==> input[j].0 != s
  }

  /** A slot has what the last entry for it says, and nothing when there is none. */
  lemma {:induction false} FilledSays(cat: Catalog, input: seq<(string, Json)>, s: string, i: nat)
    requires LastEntry(input, s, i)
    ensures s in Filled(cat, input)
    ensures Filled(cat, input)[s] == if input[i].1.Text? then Some(input[i].1.s) else None
  {
    if i < |input| - 1 {
      FilledSays(cat, input[..|input| - 1], s, i);
    }
  }

  lemma {:induction false} NotNamed(cat: Catalog, input: seq<(string, Json)>, s: string)
    requires s in cat.slots && forall j :: 0 <= j < |input| ==> input[j].0 != s
    ensures s in Filled(cat, input) && Filled(cat, input)[s] == None
  {
    if input != [] {
      NotNamed(cat, input[..|input| - 1], s);
    }
  }

  /** Two slots hold items that may not be worn together. */
  ghost predicate Clash(cat: Catalog, m: Worn) {
    exists k, o :: 0 <= k < |cat.exclusive| && Blocks(m, cat.exclusive[k], o)
  }

  lemma {:induction false} ConflictIff(cat: Catalog, m: Worn)
    ensures Conflict(cat, m) <==> Clash(cat, m)
  {
    if k, o :| 0 <= k < |cat.exclusive| && o in m && Breaks(m, cat.exclusive[k], o) {
      assert Blocks(m, cat.exclusive[k], o);
    }
    if k, o :| 0 <= k < |cat.exclusive| && Blocks(m, cat.exclusive[k], o) {
      assert Breaks(m, cat.exclusive[k], o);
    }
  }

  /**
    A candidate is refused for its first entry that is not fine, and only when all of them
    are for a clash; otherwise it is accepted with every slot of the catalogue.
  */
  lemma {:induction false} RefusedIff(cat: Catalog, flags: seq<string>, input: seq<(string, Json)>, error: Error)
    ensures var fine := forall j :: 0 <= j < |input| ==> EntryFine(cat, flags, input[j]);
      && (Validate(cat, flags, Some(input)) == Err(error)
          <==> (exists i: nat :: FirstOffence(cat, flags, input, error, i))
               || (fine && error == ExclusiveConflict && Clash(cat, Filled(cat, input))))
      && (Validate(cat, flags, Some(input)).Ok? <==> fine && !Clash(cat, Filled(cat, input)))
      && (Validate(cat, flags, Some(input)).Ok? ==> Validate(cat, flags, Some(input)).value == Filled(cat, input))
      && (Validate(cat, flags, None) == Err(BadLoadout))
  {
    FirstErrorIff(cat, flags, input, error);
    ConflictIff(cat, Filled(cat, input));
    forall j | 0 <= j < |input|
      ensures EntryError(cat, flags, input[j].0, input[j].1).None? <==> EntryFine(cat, flags, input[j])
    {
      EntryErrorIff(cat, flags, input[j], error);
    }
    assert forall i: nat :: FirstOffence(cat, flags, input, error, i) ==> !EntryFine(cat, flags, input[i]);
  }

  /** What is accepted has exactly the slots of the catalogue. */
  lemma {:induction false} AcceptedSlots(cat: Catalog, flags: seq<string>, input: seq<(string, Json)>)
    requires Validate(cat, flags, Some(input)).Ok?
    ensures forall s :: s in Validate(cat, flags, Some(input)).value <==> s in cat.slots
  {
    forall i | 0 <= i < |input|
      ensures input[i].0 in cat.slots
    {
      assert EntryError(cat, flags, input[i].0, input[i].1).None?;
    }
    GivenSlots(cat, flags, input);
  }
}
