/**
 * The application model of the viewer: the entities the engine works on, the
 * frozen registry of entries and outputs with their presets, and the initial
 * (sealed) instance record.
 */
module ApplicationModel {
  import opened Wrappers

  /** A form entry value: a checkbox state, a number, or a string. */
  datatype Value = Bool(b: bool) | Num(r: real) | Str(s: string)

  /** The type of an entry's form element, as far as the engine tells them apart. */
  datatype Control = Checkbox | NumberInput | OtherInput

  /** The three groups of form entries. */
  datatype Group = Core | Display | Menu

  /** The names of the registry's entries; the registry is fixed, so its names form a closed set. */
  datatype Name =
    | FontFamily | FontScale | LineHeight | Speed | WithPitch | WordWrap
    | Align | Blur | Brightness | Contrast | Hue | Invert | Justify | Saturation | Sepia
    | Controls | ForceDark | Reverse

  /**
   * The key of a form entry. The registry derives a string key from the group
   * and the entry's name; that derivation is treated as opaque, and since it
   * is injective on the registry's names, the pair stands for it.
   */
  datatype EntryKey = EntryKey(group: Group, name: Name)

  /** A form entry: its current value, its preset, its element type and its placeholder. */
  datatype Entry = Entry(value: Value, preset: Value, control: Control, placeholder: Option<Value>)

  /** A resource reference: empty, or the object URL minted as number `id`. */
  datatype Url = NoUrl | Blob(id: nat)

  /** An output surface: its `src`, its inner text and its class list (a set of words). */
  datatype Output = Output(src: Url, text: string, classes: set<string>)

  /** A file as the engine sees it: its name and its declared MIME type. */
  datatype File = File(name: string, mime: string)

  /** The two events the engine dispatches on entries. */
  datatype Event = Change | Input

  /** One event dispatched on an entry, with the value the entry held at that moment. */
  datatype Signal = Signal(target: EntryKey, event: Event, value: Value)

  /** The download anchor: its `download` name and its `href`. */
  datatype Anchor = Anchor(download: string, href: Url)

  /** The sealed instance record: exactly the resident file and the current view key. */
  datatype Instance = Instance(file: Option<File>, view: string)

  /** The class word that marks the live output. */
  const Active := "active"

  /** The alert shown when there is nothing to load. */
  const LoadEmpty := "Nothing to load."

  /** The output keys of the registry. */
  const OutputKeys: set<string> := {"audio", "frame", "image", "nul", "root", "text", "video"}

  /** The outputs that hold a `src` handle. */
  const HandleKinds: set<string> := {"audio", "frame", "image", "video"}

  /** An empty output, as every output starts. */
  const Blank := Output(NoUrl, "", {})

  /**
   * `getControl`: looks a control up by key in a registry object. A missing
   * key yields `undefined`, here `None`.
   */
  function GetControl<K, V>(controls: map<K, V>, key: K): (r: Option<V>)
    ensures r.Some? <==> key in controls
    ensures r.Some? ==> r.value == controls[key]
  {
    if key in controls then Some(controls[key]) else None
  }

  /** The outputs object is frozen: its key set is fixed. */
  type Outputs = m: map<string, Output> | m.Keys == OutputKeys
    witness map k | k in OutputKeys :: Blank

  /** The entry presets of the registry, in the core, display and menu groups. */
  const Presets: map<EntryKey, Value> := map[
    EntryKey(Core, FontFamily) := Str("monospace"),
    EntryKey(Core, FontScale) := Num(1.0),
    EntryKey(Core, LineHeight) := Num(1.2),
    EntryKey(Core, Speed) := Num(1.0),
    EntryKey(Core, WithPitch) := Bool(true),
    EntryKey(Core, WordWrap) := Bool(false),
    EntryKey(Display, Align) := Str("center"),
    EntryKey(Display, Blur) := Num(0.0),
    EntryKey(Display, Brightness) := Num(100.0),
    EntryKey(Display, Contrast) := Num(100.0),
    EntryKey(Display, Hue) := Num(0.0),
    EntryKey(Display, Invert) := Num(0.0),
    EntryKey(Display, Justify) := Str("center"),
    EntryKey(Display, Saturation) := Num(100.0),
    EntryKey(Display, Sepia) := Num(0.0),
    EntryKey(Menu, Controls) := Bool(false),
    EntryKey(Menu, ForceDark) := Bool(false),
    EntryKey(Menu, Reverse) := Bool(false)
  ]

  /** The order in which the entries object enumerates its entries (declaration order). */
  const EntryOrder: seq<EntryKey> := [
    EntryKey(Core, FontFamily), EntryKey(Core, FontScale), EntryKey(Core, LineHeight),
    EntryKey(Core, Speed), EntryKey(Core, WithPitch), EntryKey(Core, WordWrap),
    EntryKey(Display, Align), EntryKey(Display, Blur), EntryKey(Display, Brightness),
    EntryKey(Display, Contrast), EntryKey(Display, Hue), EntryKey(Display, Invert),
    EntryKey(Display, Justify), EntryKey(Display, Saturation), EntryKey(Display, Sepia),
    EntryKey(Menu, Controls), EntryKey(Menu, ForceDark), EntryKey(Menu, Reverse)
  ]

  /** The speed entry, whose input event is re-dispatched when media loads. */
  const SpeedEntry := EntryKey(Core, Speed)

  /**
   * The element type of an entry. The markup is not part of this model; a
   * boolean entry is taken to be a checkbox and a numeric one a number field.
   */
  function ControlFor(preset: Value): Control {
    match preset
    case Bool(_) => Checkbox
    case Num(_) => NumberInput
    case Str(_) => OtherInput
  }

  /** The entries object is frozen: its key set is that of the registry. */
  type Entries = m: map<EntryKey, Entry> | m.Keys == Presets.Keys
    witness map k | k in Presets :: Entry(Presets[k], Presets[k], ControlFor(Presets[k]), None)

  /** The whole mutable state the engine reads and writes. */
  datatype State = State(
    instance: Instance,
    disabled: bool,             // the source file control's `disabled` flag
    outputs: Outputs,
    subtitle: string,           // the window subtitle
    entries: Entries,
    next: nat,                  // the number the next object URL is minted with
    revocations: seq<nat>,      // every object URL revoked so far, in order
    anchor: Anchor,
    reading: Option<File>,      // the file the reader is reading, if a read is in progress
    signals: seq<Signal>,       // every event dispatched on an entry, in order
    notices: seq<string>,       // every alert shown, in order
    accordions: seq<bool>,      // the `open` flag of each collapsible fieldset
    bodyClasses: set<string>)

  /** A transition either completes, or stops at a thrown error with the writes made so far. */
  datatype Step = Ok(state: State) | Fault(state: State)

  /**
   * The state as the registry creates it. The markup supplies the entries'
   * starting values (`values`, the preset where absent) and the fieldsets'
   * `open` flags; it carries no classes on outputs or body.
   */
  function Initial(values: map<EntryKey, Value>, accordions: seq<bool>): (s: State)
    ensures s.instance == Instance(None, "")
    ensures forall k :: k in OutputKeys ==> s.outputs[k] == Blank
    ensures forall k :: k in Presets ==> s.entries[k].preset == Presets[k]
    ensures forall k :: k in Presets ==> s.entries[k].control == ControlFor(Presets[k]) && s.entries[k].placeholder == None
    ensures forall k :: k in s.entries && k !in values ==> s.entries[k].value == s.entries[k].preset
    ensures !s.disabled && s.next == 0 && s.revocations == [] && s.anchor.href == NoUrl
  {
    State(
      Instance(None, ""), false,
      map k | k in OutputKeys :: Blank,
      "",
      map k | k in Presets :: Entry(if k in values then values[k] else Presets[k], Presets[k], ControlFor(Presets[k]), None),
      0, [], Anchor("", NoUrl), None, [], [], accordions, {})
  }

  /** `getOutput` on the frozen outputs object finds exactly the registry's output keys. */
  lemma OutputLookup(outputs: Outputs, key: string)
    ensures GetControl(outputs, key).Some? <==> key in OutputKeys
    ensures GetControl(outputs, key).Some? ==> GetControl(outputs, key).value == outputs[key]
  {
  }

  /** The entry order enumerates each registry entry exactly once. */
  lemma EntryOrderEnumeratesPresets()
    ensures forall i, j :: 0 <= i < j < |EntryOrder| ==> EntryOrder[i] != EntryOrder[j]
    ensures forall k :: k in Presets <==> k in EntryOrder
  {
  }

  /** Every key of the entry order is a registry entry. */
  lemma EntryOrderInPresets()
    ensures forall k :: k in EntryOrder ==> k in Presets
  {
  }

  /** Every key of the entry order names an entry of a frozen entries object. */
  lemma EntryOrderInEntries(entries: Entries)
    ensures forall k :: k in EntryOrder ==> k in entries
  {
    EntryOrderInPresets();
  }

  /** The output keys. */
  lemma OutputRegistry()
    ensures OutputKeys == {"audio", "frame", "image", "nul", "root", "text", "video"}
    ensures HandleKinds < OutputKeys
  {
  }

  /** The presets of the core entries. */
  lemma CorePresets()
    ensures Presets[SpeedEntry] == Num(1.0) && Presets[EntryKey(Core, FontScale)] == Num(1.0)
    ensures Presets[EntryKey(Core, LineHeight)] == Num(1.2)
    ensures Presets[EntryKey(Core, WithPitch)] == Bool(true)
    ensures Presets[EntryKey(Core, WordWrap)] == Bool(false)
    ensures Presets[EntryKey(Core, FontFamily)] == Str("monospace")
  {
  }

  /** The presets of the display entries. */
  lemma DisplayPresets()
    ensures forall n :: n in {Brightness, Contrast, Saturation} ==> Presets[EntryKey(Display, n)] == Num(100.0)
    ensures forall n :: n in {Blur, Hue, Invert, Sepia} ==> Presets[EntryKey(Display, n)] == Num(0.0)
    ensures Presets[EntryKey(Display, Align)] == Str("center")
    ensures Presets[EntryKey(Display, Justify)] == Str("center")
  {
  }

  /** Every menu entry's preset is `false`. */
  lemma MenuPresets()
    ensures forall k :: k in Presets && k.group == Menu ==> Presets[k] == Bool(false)
  {
  }
}
