/**
 * Startup: number entries get their preset as placeholder, the entries are
 * reset and updated, and the empty view is loaded. Registering the event
 * listeners is host wiring and is not part of this model.
 */
module Start {
  import opened Wrappers
  import opened ApplicationModel
  import opened ApplicationFunctions
  import opened Invariants

  /** Gives every number entry its preset as placeholder and changes nothing else. */
  function SeedPlaceholders(s: State): (r: State)
    ensures forall k :: k in r.entries && r.entries[k].control == NumberInput ==>
      r.entries[k].placeholder == Some(r.entries[k].preset)
    ensures forall k :: k in r.entries && r.entries[k].control != NumberInput ==> r.entries[k] == s.entries[k]
    ensures forall k :: k in r.entries ==> r.entries[k].(placeholder := s.entries[k].placeholder) == s.entries[k]
    ensures r == s.(entries := r.entries)
  {
    s.(entries := map k | k in s.entries ::
         var e := s.entries[k];
         if e.control == NumberInput then e.(placeholder := Some(e.preset)) else e)
  }

  /** The startup sequence applied to the registry's initial state: it ends with only the empty view active and no resident file. */
  function Init(values: map<EntryKey, Value>, accordions: seq<bool>): (r: Step)
    ensures r.Ok?
    ensures r.state.instance == Instance(None, "nul")
    ensures SingleActive(r.state) && Valid(r.state)
    ensures !r.state.disabled && r.state.accordions == accordions
  {
    StartupQuiescent(values, accordions);
    LoadViewFromQuiescent(Startup(values, accordions), "nul");
    LoadView(Startup(values, accordions), "nul")
  }

  /** The state startup reaches before loading the empty view. */
  function Startup(values: map<EntryKey, Value>, accordions: seq<bool>): State {
    Update(Reset(SeedPlaceholders(Initial(values, accordions))))
  }

  /** Before the empty view is loaded, no output is active or holds a handle, and no file is resident. */
  lemma StartupQuiescent(values: map<EntryKey, Value>, accordions: seq<bool>)
    ensures var u := Startup(values, accordions);
      && Quiescent(u) && u.instance == Instance(None, "")
      && !u.disabled && u.accordions == accordions
  {
    var s0 := Initial(values, accordions);
    var s1 := SeedPlaceholders(s0);
    var s2 := Reset(s1);
    assert Startup(values, accordions) == Update(s2);
    assert s2 == s0.(entries := s2.entries);
  }

  /** After startup every entry holds its preset, and exactly the number entries have their preset as placeholder. */
  lemma InitEntries(values: map<EntryKey, Value>, accordions: seq<bool>)
    ensures var e := Init(values, accordions).state.entries;
      forall k :: k in e ==>
        && e[k].value == Presets[k] && e[k].preset == Presets[k]
        && e[k].placeholder == if Presets[k].Num? then Some(Presets[k]) else None
  {
    var s0 := Initial(values, accordions);
    var s1 := SeedPlaceholders(s0);
    var s2 := Reset(s1);
    assert Init(values, accordions).state.entries == Update(s2).entries == s2.entries;
    forall k | k in s2.entries
      ensures s2.entries[k].value == Presets[k] && s2.entries[k].preset == Presets[k]
      ensures s2.entries[k].placeholder == if Presets[k].Num? then Some(Presets[k]) else None
    {
      assert s1.entries[k].preset == s0.entries[k].preset == Presets[k];
      assert s0.entries[k].control == ControlFor(Presets[k]);
    }
  }

  /** Startup's `update` dispatches one event per entry, in order, each after `reset` and so carrying the entry's preset. */
  lemma InitSignals(values: map<EntryKey, Value>, accordions: seq<bool>)
    ensures var g := Init(values, accordions).state.signals;
      && |g| == |EntryOrder|
      && forall i :: 0 <= i < |EntryOrder| ==> g[i].target == EntryOrder[i] && g[i].value == Presets[EntryOrder[i]]
  {
    EntryOrderInPresets();
    var s2 := Reset(SeedPlaceholders(Initial(values, accordions)));
    InitEntries(values, accordions);
    var g := Init(values, accordions).state.signals;
    assert g == Dispatches(s2.entries, EntryOrder);
    assert Init(values, accordions).state.entries == s2.entries;
    forall i | 0 <= i < |EntryOrder|
      ensures g[i].target == EntryOrder[i] && g[i].value == Presets[EntryOrder[i]]
    {
      assert EntryOrder[i] in s2.entries;
    }
  }

  /** Startup dispatches exactly one event on each entry. */
  lemma InitDispatchesOncePerEntry(values: map<EntryKey, Value>, accordions: seq<bool>, key: EntryKey)
    requires key in Presets
    ensures Count(Init(values, accordions).state.signals, key) == 1
  {
    var s := Reset(SeedPlaceholders(Initial(values, accordions)));
    UpdateOncePerEntry(s, key);
    assert Init(values, accordions).state.signals == Update(s).signals;
    assert s.signals == [];
  }
}
