/**
 * Application functions: the view lifecycle (`LoadView`, `UnloadView`), file
 * ingestion (`LoadFile`, `LoadReader`), the entry operations (`Reset`,
 * `Populate`, `Update`) and the download anchor (`Download`).
 */
module ApplicationFunctions {
  import opened Wrappers
  import opened ApplicationModel
  import opened Views

  // ---------------------------------------------------------------------------
  // MIME type classification

  /** `String.prototype.indexOf` for one character: the first position of `c`, or -1. */
  function IndexOf(s: string, c: char): (i: int)
    ensures -1 <= i < |s|
    ensures 0 <= i ==> s[i] == c && c !in s[..i]
    ensures i == -1 <==> c !in s
  {
    if |s| == 0 then -1
    else if s[0] == c then 0
    else
      var j := IndexOf(s[1..], c);
      assert s == [s[0]] + s[1..];
      if j < 0 then -1
      else
        assert s[..j + 1] == [s[0]] + s[1..][..j];
        j + 1
  }

  /** `s.slice(0, end)`: a negative `end` counts back from the end of `s`. */
  function SliceTo(s: string, end: int): (r: string)
    ensures 0 <= end ==> r == s[..if end <= |s| then end else |s|]
    ensures end < 0 ==> r == s[..if |s| + end >= 0 then |s| + end else 0]
  {
    var e := if end < 0 then |s| + end else end;
    s[..if e < 0 then 0 else if e > |s| then |s| else e]
  }

  /** Lower-cases one ASCII letter; every other character is left as it is. */
  function LowerChar(c: char): char {
    if 'A' <= c <= 'Z' then (c as int - 'A' as int + 'a' as int) as char else c
  }

  /** `String.prototype.toLowerCase`, for ASCII letters. */
  function Lower(s: string): (r: string)
    ensures |r| == |s|
    ensures forall i :: 0 <= i < |s| ==> r[i] == LowerChar(s[i])
    ensures forall i :: 0 <= i < |r| ==> !('A' <= r[i] <= 'Z')
  {
    seq(|s|, i requires 0 <= i < |s| => LowerChar(s[i]))
  }

  /** The two types shown in the embedded frame. */
  predicate IsFrameType(mime: string) {
    mime == "application/pdf" || mime == "text/html"
  }

  /**
   * Classifies a declared MIME type: the frame types give "frame"; any other
   * type gives its lower-cased text before the first "/", and a type with no
   * "/" loses its last character (`slice(0, -1)`).
   */
  function Classify(mime: string): (kind: string)
    ensures IsFrameType(mime) ==> kind == "frame"
    ensures !IsFrameType(mime) ==>
      forall i :: 0 <= i < |mime| && mime[i] == '/' && '/' !in mime[..i] ==> kind == Lower(mime[..i])
    ensures !IsFrameType(mime) && '/' !in mime ==>
      kind == Lower(mime[..if |mime| == 0 then 0 else |mime| - 1])
  {
    if IsFrameType(mime) then "frame"
    else Lower(SliceTo(mime, IndexOf(mime, '/')))
  }

  /** The view a classification opens: its own for the handle kinds, "text" otherwise. */
  function ViewFor(kind: string): (view: string)
    ensures view in HandleKinds + {"text"}
    ensures view in HandleKinds <==> kind in HandleKinds
    ensures view in HandleKinds ==> view == kind
  {
    if kind in HandleKinds then kind else "text"
  }

  // ---------------------------------------------------------------------------
  // View lifecycle

  /**
   * Unloads view `key`: revokes a media or frame output's handle when it has
   * one and empties its `src`, or empties the text output; then clears the
   * subtitle, deactivates the output and drops the resident file. A key that
   * is not an output throws at the deactivation, after the subtitle is cleared.
   */
  function UnloadView(s: State, key: string): (r: Step)
    ensures r.Fault? <==> key !in OutputKeys
    ensures r.Fault? ==> r.state == s.(subtitle := "")
    ensures r.Ok? ==> var t := r.state;
      && t.instance == Instance(None, s.instance.view)
      && t.subtitle == ""
      && Active !in t.outputs[key].classes
      && t.outputs[key].classes - {Active} == s.outputs[key].classes - {Active}
      && (forall k :: k in OutputKeys && k != key ==> t.outputs[k] == s.outputs[k])
      && (key in HandleKinds ==> t.outputs[key].src == NoUrl && t.outputs[key].text == s.outputs[key].text)
      && (key in HandleKinds && s.outputs[key].src.Blob? ==> t.revocations == s.revocations + [s.outputs[key].src.id])
      && (key in HandleKinds && s.outputs[key].src == NoUrl ==> t.revocations == s.revocations)
      && (key == "text" ==> t.outputs[key].text == "" && t.outputs[key].src == s.outputs[key].src)
      && (key !in HandleKinds ==> t.revocations == s.revocations)
      && (key !in HandleKinds + {"text"} ==> t.outputs[key].src == s.outputs[key].src && t.outputs[key].text == s.outputs[key].text)
      && t == s.(instance := t.instance, subtitle := t.subtitle, outputs := t.outputs, revocations := t.revocations)
  {
    match GetControl(s.outputs, key)
    case None => Fault(s.(subtitle := ""))
    case Some(o) =>
      var cleared :=
        if key in HandleKinds then
          s.(revocations := if o.src.Blob? then s.revocations + [o.src.id] else s.revocations,
             outputs := s.outputs[key := o.(src := NoUrl)])
        else if key == "text" then s.(outputs := s.outputs[key := o.(text := "")])
        else s;
      var outputs := DeactivateView(cleared.outputs, key).value;
      Ok(cleared.(subtitle := "", outputs := outputs, instance := cleared.instance.(file := None)))
  }

  /**
   * Loads view `key`: activates its output and records it as the view. A key
   * that is not an output throws before anything is written.
   */
  function LoadView(s: State, key: string): (r: Step)
    ensures r.Fault? <==> key !in OutputKeys
    ensures r.Fault? ==> r.state == s
    ensures r.Ok? ==> var t := r.state;
      && t.instance == Instance(s.instance.file, key)
      && t.outputs[key] == s.outputs[key].(classes := s.outputs[key].classes + {Active})
      && (forall k :: k in OutputKeys && k != key ==> t.outputs[k] == s.outputs[k])
      && t == s.(instance := t.instance, outputs := t.outputs)
  {
    match ActivateView(s.outputs, key)
    case None => Fault(s)
    case Some(outputs) => Ok(s.(outputs := outputs, instance := s.instance.(view := key)))
  }

  // ---------------------------------------------------------------------------
  // File ingestion

  /** Assigns a freshly minted object URL to output `key` and re-dispatches the speed entry's input event. */
  function AttachHandle(s: State, key: string): (r: State)
    requires key in OutputKeys
    ensures r.outputs[key].src == Blob(s.next) && r.next == s.next + 1
    ensures r.signals == s.signals + [Signal(SpeedEntry, Input, s.entries[SpeedEntry].value)]
  {
    var o := s.outputs[key];
    s.(outputs := s.outputs[key := o.(src := Blob(s.next))], next := s.next + 1,
       signals := s.signals + [Signal(SpeedEntry, Input, s.entries[SpeedEntry].value)])
  }

  /** Records `file` as the resident file. */
  function Resident(s: State, file: File): State {
    s.(instance := s.instance.(file := Some(file)))
  }

  /** Whether a successful load of a file of type `mime` leaves the source control disabled. */
  predicate StaysDisabled(mime: string) {
    ViewFor(Classify(mime)) !in {"frame", "image"}
  }

  /** The source control stays disabled exactly for the audio, video and text views. */
  lemma StaysDisabledViews(mime: string)
    ensures StaysDisabled(mime) <==> ViewFor(Classify(mime)) in {"audio", "video", "text"}
  {
  }

  /**
   * Routes an accepted file once the current view is unloaded. Frame and
   * image re-enable the source control; frame, image, audio and video open
   * their view with a fresh handle and re-dispatch the speed entry's input;
   * everything else opens the text view and starts a read. The file then
   * becomes resident.
   */
  function Route(s: State, file: File): (r: Step)
    ensures r.Fault? <==> s.reading.Some? && ViewFor(Classify(file.mime)) == "text"
    ensures r.Fault? ==> r.state.disabled == s.disabled
    ensures r.Ok? ==> var t, view := r.state, ViewFor(Classify(file.mime));
      && t.instance == Instance(Some(file), view)
      && t.subtitle == s.subtitle && t.entries == s.entries
      && Active in t.outputs[view].classes
      && (view in {"frame", "image"} ==> !t.disabled)
      && (view !in {"frame", "image"} ==> t.disabled == s.disabled)
  {
    var kind := Classify(file.mime);
    if kind in HandleKinds then
      var s1 := if kind == "frame" || kind == "image" then s.(disabled := false) else s;
      match LoadView(s1, kind)
      case Fault(u) => Fault(u)
      case Ok(u) => Ok(Resident(AttachHandle(u, kind), file))
    else
      match LoadView(s, "text")
      case Fault(u) => Fault(u)
      case Ok(u) =>
        // `readAsText` throws while the reader is still busy with a read
        if u.reading.Some? then Fault(u)
        else Ok(Resident(u.(reading := Some(file)), file))
  }

  /** The accepted branch of `LoadFile`: unloads the current view, sets the subtitle to the file's name and routes the file. */
  function Ingest(s: State, file: File): (r: Step)
    ensures r.Fault? <==> s.instance.view !in OutputKeys || (s.reading.Some? && ViewFor(Classify(file.mime)) == "text")
    ensures r.Fault? ==> r.state.disabled == s.disabled
    ensures r.Ok? ==> var t, view := r.state, ViewFor(Classify(file.mime));
      && t.instance == Instance(Some(file), view)
      && t.subtitle == file.name && t.entries == s.entries
      && Active in t.outputs[view].classes
      && (view in {"frame", "image"} ==> !t.disabled)
      && (view !in {"frame", "image"} ==> t.disabled == s.disabled)
  {
    match UnloadView(s, s.instance.view)
    case Fault(t) => Fault(t)
    case Ok(t) => Route(t.(subtitle := file.name), file)
  }

  /**
   * Loads the file at `index` of `files`. The source control is disabled on
   * entry. An empty list alerts and a file `test` rejects is ignored; both
   * re-enable the control and change nothing else. An accepted file is
   * ingested, and the control stays disabled for audio, video and text.
   */
  function LoadFile(s: State, files: seq<File>, test: File -> bool, index: nat := 0): (r: Step)
    requires |files| == 0 || index < |files|
    ensures |files| == 0 ==> r == Ok(s.(notices := s.notices + [LoadEmpty], disabled := false))
    ensures |files| > 0 && !test(files[index]) ==> r == Ok(s.(disabled := false))
    ensures r.Fault? ==> r.state.disabled
    ensures r.Fault? <==> (|files| > 0 && test(files[index]) &&
      (s.instance.view !in OutputKeys || (s.reading.Some? && ViewFor(Classify(files[index].mime)) == "text")))
    ensures r.Ok? && |files| > 0 && test(files[index]) ==>
      && r.state.instance == Instance(Some(files[index]), ViewFor(Classify(files[index].mime)))
      && (r.state.disabled <==> StaysDisabled(files[index].mime))
  {
    var s1 := s.(disabled := true);
    if |files| == 0 then
      Ok(s1.(notices := s1.notices + [LoadEmpty], disabled := false))
    else if !test(files[index]) then
      Ok(s1.(disabled := false))
    else
      Ingest(s1, files[index])
  }

  /** A frame, image, audio or video file gets the next minted handle and re-dispatches the speed entry's input. */
  lemma RouteMediaEffects(s: State, file: File)
    requires Classify(file.mime) in HandleKinds
    ensures Route(s, file).Ok?
    ensures var t, view := Route(s, file).state, ViewFor(Classify(file.mime));
      && t.outputs[view].src == Blob(s.next) && t.next == s.next + 1
      && t.signals == s.signals + [Signal(SpeedEntry, Input, s.entries[SpeedEntry].value)]
      && t.reading == s.reading && t.revocations == s.revocations && t.anchor == s.anchor
  {
    var kind := Classify(file.mime);
    var s1 := if kind == "frame" || kind == "image" then s.(disabled := false) else s;
    var u := LoadView(s1, kind).state;
    assert Route(s, file) == Ok(Resident(AttachHandle(u, kind), file));
  }

  /** Any other file starts a read, mints nothing and dispatches nothing. */
  lemma RouteTextEffects(s: State, file: File)
    requires Classify(file.mime) !in HandleKinds && s.reading == None
    ensures Route(s, file).Ok?
    ensures var t := Route(s, file).state;
      && t.reading == Some(file) && t.next == s.next && t.signals == s.signals
      && t.outputs["text"].src == s.outputs["text"].src
      && t.revocations == s.revocations && t.anchor == s.anchor
  {
    var u := LoadView(s, "text").state;
    assert Route(s, file) == Ok(Resident(u.(reading := Some(file)), file));
  }

  /**
   * Where an accepted file goes: a frame, image, audio or video file gets the
   * next minted handle as its output's `src` and re-dispatches the speed
   * entry's input; any other file starts a read and mints nothing.
   */
  lemma RouteEffects(s: State, file: File)
    requires !(s.reading.Some? && ViewFor(Classify(file.mime)) == "text")
    ensures Route(s, file).Ok?
    ensures var t, view := Route(s, file).state, ViewFor(Classify(file.mime));
      && (view in HandleKinds ==>
            && t.outputs[view].src == Blob(s.next) && t.next == s.next + 1
            && t.signals == s.signals + [Signal(SpeedEntry, Input, s.entries[SpeedEntry].value)]
            && t.reading == s.reading)
      && (view == "text" ==>
            && t.reading == Some(file) && t.next == s.next && t.signals == s.signals
            && t.outputs[view].src == s.outputs[view].src)
      && t.revocations == s.revocations && t.anchor == s.anchor
  {
    if Classify(file.mime) in HandleKinds {
      RouteMediaEffects(s, file);
    } else {
      RouteTextEffects(s, file);
    }
  }

  /** How `loadFile` routes an accepted file, after unloading the current view. */
  lemma LoadFileRoutes(s: State, files: seq<File>, test: File -> bool, index: nat)
    requires |files| > 0 && index < |files| && test(files[index])
    requires s.instance.view in OutputKeys && !(s.reading.Some? && ViewFor(Classify(files[index].mime)) == "text")
    ensures LoadFile(s, files, test, index).Ok?
    ensures var t, file := LoadFile(s, files, test, index).state, files[index];
      var view := ViewFor(Classify(file.mime));
      && t.subtitle == file.name
      && (view in HandleKinds ==>
            && t.outputs[view].src == Blob(s.next) && t.next == s.next + 1
            && t.signals == s.signals + [Signal(SpeedEntry, Input, s.entries[SpeedEntry].value)]
            && t.reading == s.reading)
      && (view == "text" ==>
            && t.reading == Some(file) && t.next == s.next && t.signals == s.signals
            && t.outputs[view].src == s.outputs[view].src)
  {
    var s1 := s.(disabled := true);
    var u := UnloadView(s1, s1.instance.view).state;
    var file := files[index];
    var u1 := u.(subtitle := file.name);
    assert LoadFile(s, files, test, index) == Route(u1, file);
    assert u1.next == s.next && u1.signals == s.signals && u1.reading == s.reading && u1.entries == s.entries;
    assert u1.outputs["text"].src == s.outputs["text"].src;
    RouteEffects(u1, file);
  }

  /** The two frame types classify as "frame". */
  lemma ClassifyFrameTypes()
    ensures Classify("application/pdf") == "frame" && Classify("text/html") == "frame"
  {
  }

  /** A type whose first "/" is at `i` classifies as the lower-cased text before it. */
  lemma ClassifyAtSlash(mime: string, i: nat, category: string)
    requires !IsFrameType(mime)
    requires i < |mime| && mime[i] == '/' && '/' !in mime[..i]
    requires Lower(mime[..i]) == category
    ensures Classify(mime) == category
  {
  }

  // The examples below name each MIME type by a parameter pinned by `requires`
  // rather than writing the literal into the call. Applied to a literal,
  // `Classify` and its recursive helpers unfold all the way through the
  // string, which makes these proofs far more expensive than the
  // step-by-step argument in their bodies.

  /** `"image/png"` opens the image view and `"VIDEO/mp4"` the video view: the category is lower-cased. */
  lemma RouteMediaExamples(png: string, mp4: string)
    requires png == "image/png" && mp4 == "VIDEO/mp4"
    ensures Classify(png) == "image" && ViewFor(Classify(png)) == "image"
    ensures Classify(mp4) == "video" && ViewFor(Classify(mp4)) == "video"
  {
    assert png[..5] == "image";
    ClassifyAtSlash(png, 5, "image");
    assert mp4[..5] == "VIDEO";
    ClassifyAtSlash(mp4, 5, "video");
  }

  /** `"text/plain"` opens the text view. */
  lemma RoutePlainText(plain: string)
    requires plain == "text/plain"
    ensures Classify(plain) == "text" && ViewFor(Classify(plain)) == "text"
  {
    assert plain[..4] == "text";
    ClassifyAtSlash(plain, 4, "text");
  }

  /** An unrecognised category such as `"application/json"` opens the text view. */
  lemma RouteUnknownCategory(json: string)
    requires json == "application/json"
    ensures Classify(json) == "application" && ViewFor(Classify(json)) == "text"
  {
    assert json[..11] == "application";
    ClassifyAtSlash(json, 11, "application");
  }

  /** A type without "/" loses its last character: the empty type and a bare "audio" both open the text view. */
  lemma ClassifyWithoutSlash(empty: string, bare: string)
    requires empty == "" && bare == "audio"
    ensures Classify(empty) == "" && ViewFor(Classify(empty)) == "text"
    ensures Classify(bare) == "audi" && ViewFor(Classify(bare)) == "text"
  {
    assert '/' !in bare;
    assert bare[..4] == "audi";
    assert Lower("audi") == "audi";
  }

  /** Outside the frame types, a classification holds no "/" and no upper-case letter. */
  lemma ClassifyIsBareLowerCase(mime: string)
    requires !IsFrameType(mime)
    ensures '/' !in Classify(mime)
    ensures forall i :: 0 <= i < |Classify(mime)| ==> !('A' <= Classify(mime)[i] <= 'Z')
  {
    var i := IndexOf(mime, '/');
    var p := SliceTo(mime, i);
    assert '/' !in p by {
      if i >= 0 {
        assert p == mime[..i];
      } else {
        assert forall j :: 0 <= j < |p| ==> p[j] == mime[j];
      }
    }
    assert forall j :: 0 <= j < |p| ==> Lower(p)[j] == LowerChar(p[j]);
  }

  /** The reader's load event: the text output shows `result` and the source control is re-enabled. */
  function LoadReader(s: State, result: string): (r: State)
    ensures r.outputs["text"].text == result && !r.disabled && r.reading == None
    ensures r.outputs["text"].src == s.outputs["text"].src
    ensures r.outputs["text"].classes == s.outputs["text"].classes
    ensures forall k :: k in OutputKeys && k != "text" ==> r.outputs[k] == s.outputs[k]
    ensures r == s.(outputs := r.outputs, disabled := false, reading := None)
  {
    var o := s.outputs["text"];
    s.(outputs := s.outputs["text" := o.(text := result)], disabled := false, reading := None)
  }

  // ---------------------------------------------------------------------------
  // Entries

  /** Sets every entry's value to its preset and changes nothing else. */
  function Reset(s: State): (r: State)
    ensures forall k :: k in r.entries ==> r.entries[k].value == s.entries[k].preset
    ensures forall k :: k in r.entries ==> r.entries[k].(value := s.entries[k].value) == s.entries[k]
    ensures r == s.(entries := r.entries)
  {
    s.(entries := map k | k in s.entries :: s.entries[k].(value := s.entries[k].preset))
  }

  /** Sets every entry's value to the one in `values`, or to its preset where `values` has none. */
  function Populate(s: State, values: map<EntryKey, Value>): (r: State)
    ensures forall k :: k in r.entries && k in values ==> r.entries[k].value == values[k]
    ensures forall k :: k in r.entries && k !in values ==> r.entries[k].value == s.entries[k].preset
    ensures forall k :: k in r.entries ==> r.entries[k].(value := s.entries[k].value) == s.entries[k]
    ensures r == s.(entries := r.entries)
  {
    s.(entries := map k | k in s.entries ::
         s.entries[k].(value := if k in values then values[k] else s.entries[k].preset))
  }

  /** `populate` with no values is `reset`. */
  lemma PopulateEmptyIsReset(s: State)
    ensures Populate(s, map[]) == Reset(s)
  {
    assert Populate(s, map[]).entries == Reset(s).entries;
  }

  /** Resetting twice is resetting once. */
  lemma ResetIdempotent(s: State)
    ensures Reset(Reset(s)) == Reset(s)
  {
    assert Reset(Reset(s)).entries == Reset(s).entries;
  }

  /**
   * The event an entry's element receives on `update`: change for checkboxes,
   * input otherwise. The engine also sends change to file inputs, but the only
   * file input is the source control, which is not one of the entries.
   */
  function EventFor(control: Control): Event {
    if control == Checkbox then Change else Input
  }

  /** The events `update` dispatches on the entries `keys`, in order. */
  function Dispatches(entries: Entries, keys: seq<EntryKey>): seq<Signal>
    requires forall k :: k in keys ==> k in entries
  {
    seq(|keys|, i requires 0 <= i < |keys| =>
      Signal(keys[i], EventFor(entries[keys[i]].control), entries[keys[i]].value))
  }

  /** Dispatches a change or input event on every entry, in the entries' order. */
  function Update(s: State): (r: State)
    ensures (EntryOrderInEntries(s.entries); r.signals == s.signals + Dispatches(s.entries, EntryOrder))
    ensures r == s.(signals := r.signals)
  {
    EntryOrderInEntries(s.entries);
    s.(signals := s.signals + Dispatches(s.entries, EntryOrder))
  }

  /** The number of signals in `signals` that target entry `key`. */
  function Count(signals: seq<Signal>, key: EntryKey): nat {
    if |signals| == 0 then 0
    else (if signals[0].target == key then 1 else 0) + Count(signals[1..], key)
  }

  /** Over distinct keys, the dispatches target each key once and every other key never. */
  lemma {:induction false} DispatchesOncePerKey(entries: Entries, keys: seq<EntryKey>, key: EntryKey)
    requires forall k :: k in keys ==> k in entries
    requires forall i, j :: 0 <= i < j < |keys| ==> keys[i] != keys[j]
    ensures Count(Dispatches(entries, keys), key) == if key in keys then 1 else 0
  {
    if |keys| > 0 {
      var d := Dispatches(entries, keys);
      var rest := keys[1..];
      assert d[0].target == keys[0];
      assert d[1..] == Dispatches(entries, rest);
      assert Count(d, key) == (if keys[0] == key then 1 else 0) + Count(d[1..], key);
      assert forall i, j :: 0 <= i < j < |rest| ==> rest[i] != rest[j] by {
        forall i, j | 0 <= i < j < |rest| ensures rest[i] != rest[j] {
          assert rest[i] == keys[i + 1] && rest[j] == keys[j + 1];
        }
      }
      DispatchesOncePerKey(entries, rest, key);
      assert key in keys <==> key == keys[0] || key in rest by {
        assert keys == [keys[0]] + rest;
      }
      if key == keys[0] {
        assert key !in rest by {
          forall j | 0 <= j < |rest| ensures rest[j] != key {
            assert rest[j] == keys[j + 1];
          }
        }
      }
    }
  }

  /** `Count` distributes over concatenation. */
  lemma {:induction false} CountAppend(a: seq<Signal>, b: seq<Signal>, key: EntryKey)
    ensures Count(a + b, key) == Count(a, key) + Count(b, key)
  {
    if |a| == 0 {
      assert a + b == b;
    } else {
      assert (a + b)[1..] == a[1..] + b;
      CountAppend(a[1..], b, key);
    }
  }

  /** `update` dispatches exactly one event on each entry. */
  lemma UpdateOncePerEntry(s: State, key: EntryKey)
    requires key in s.entries
    ensures Count(Update(s).signals, key) == Count(s.signals, key) + 1
  {
    EntryOrderInPresets();
    EntryOrderEnumeratesPresets();
    var added := Dispatches(s.entries, EntryOrder);
    assert Update(s).signals == s.signals + added;
    CountAppend(s.signals, added, key);
    DispatchesOncePerKey(s.entries, EntryOrder, key);
  }

  // ---------------------------------------------------------------------------
  // Download

  /**
   * Points the download anchor at `url` under `name`. The previous `href` is
   * revoked when it is set and differs from `url`. Clicking the anchor is
   * host behaviour and is not modelled.
   */
  function Download(s: State, name: string := "", url: Url := NoUrl): (r: State)
    ensures r.anchor == Anchor(name, url)
    ensures s.revocations <= r.revocations
    ensures r == s.(anchor := r.anchor, revocations := r.revocations)
  {
    var href := s.anchor.href;
    if href != url then
      s.(anchor := Anchor(name, url),
         revocations := if href.Blob? then s.revocations + [href.id] else s.revocations)
    else s.(anchor := Anchor(name, href))
  }

  /** `download` revokes exactly when the anchor held a handle other than `url`, and then revokes that handle. */
  lemma DownloadRevokesStaleOnly(s: State, name: string, url: Url)
    ensures Download(s, name, url).revocations != s.revocations <==> s.anchor.href.Blob? && s.anchor.href != url
    ensures s.anchor.href.Blob? && s.anchor.href != url ==>
      Download(s, name, url).revocations == s.revocations + [s.anchor.href.id]
  {
  }

  /** Downloading the same URL twice revokes nothing the second time. */
  lemma DownloadTwice(s: State, name: string, url: Url)
    ensures Download(Download(s, name, url), name, url) == Download(s, name, url)
  {
  }
}
