/**
 * The invariants the view lifecycle keeps: at most one output is active, and
 * it is the current view; only the current view's output holds a handle; a
 * held handle was minted and never revoked; every handle is revoked at most
 * once.
 */
module Invariants {
  import opened Wrappers
  import opened ApplicationModel
  import opened Views
  import opened ApplicationFunctions

  /** No number occurs twice in `log`. */
  ghost predicate Distinct(log: seq<nat>) {
    forall i, j :: 0 <= i < j < |log| ==> log[i] != log[j]
  }

  /** `url` was minted and has not been revoked. */
  ghost predicate Live(s: State, url: Url) {
    url.Blob? ==> url.id < s.next && url.id !in s.revocations
  }

  /** Only the current view's output may be active. */
  ghost predicate AtMostViewActive(s: State) {
    forall k :: k in OutputKeys && Active in s.outputs[k].classes ==> k == s.instance.view
  }

  /** Exactly one output is active, and it is the current view. */
  ghost predicate SingleActive(s: State) {
    forall k :: k in OutputKeys ==> (Active in s.outputs[k].classes <==> k == s.instance.view)
  }

  /** The handle discipline: only the view's output holds a handle, held handles are live and distinct, revocations are minted and distinct. */
  ghost predicate HandlesSound(s: State) {
    && (forall k :: k in OutputKeys && k != s.instance.view ==> s.outputs[k].src == NoUrl)
    && (forall k :: k in OutputKeys && k !in HandleKinds ==> s.outputs[k].src == NoUrl)
    && (forall k :: k in OutputKeys ==> Live(s, s.outputs[k].src))
    && Live(s, s.anchor.href)
    && (forall k :: k in OutputKeys && s.outputs[k].src.Blob? ==> s.outputs[k].src != s.anchor.href)
    && (forall i :: 0 <= i < |s.revocations| ==> s.revocations[i] < s.next)
    && Distinct(s.revocations)
  }

  /** The invariant of every state reachable after startup. */
  ghost predicate Valid(s: State) {
    && s.instance.view in OutputKeys
    && AtMostViewActive(s)
    && HandlesSound(s)
  }

  /** A URL `download` may be handed without breaking the handle discipline: empty, the anchor's own, or live and not held by an output. */
  ghost predicate Available(s: State, url: Url) {
    url == NoUrl || url == s.anchor.href ||
    (Live(s, url) && forall k :: k in OutputKeys ==> s.outputs[k].src != url)
  }

  /** Unloading the current view of a valid state succeeds and leaves no output active and no handle held, the old one revoked. */
  lemma UnloadQuiesces(s: State)
    requires Valid(s)
    ensures UnloadView(s, s.instance.view).Ok?
    ensures var t := UnloadView(s, s.instance.view).state;
      && (forall k :: k in OutputKeys ==> Active !in t.outputs[k].classes && t.outputs[k].src == NoUrl)
      && (s.outputs[s.instance.view].src.Blob? ==> t.revocations == s.revocations + [s.outputs[s.instance.view].src.id])
      && (s.outputs[s.instance.view].src == NoUrl ==> t.revocations == s.revocations)
      && t.instance.file == None && t.next == s.next && t.anchor == s.anchor
      && Distinct(t.revocations)
      && (forall i :: 0 <= i < |t.revocations| ==> t.revocations[i] < t.next)
      && Live(t, t.anchor.href)
  {
    var v := s.instance.view;
    var t := UnloadView(s, v).state;
    var src := s.outputs[v].src;
    if src.Blob? {
      assert t.revocations == s.revocations + [src.id];
      forall i, j | 0 <= i < j < |t.revocations| ensures t.revocations[i] != t.revocations[j] {
        if j == |s.revocations| {
          assert t.revocations[i] == s.revocations[i];
        }
      }
    }
  }

  /** No output is active or holds a handle, and the revocation log is sound: the state between an unload and the next load. */
  ghost predicate Quiescent(s: State) {
    && (forall k :: k in OutputKeys ==> Active !in s.outputs[k].classes && s.outputs[k].src == NoUrl)
    && Live(s, s.anchor.href)
    && (forall i :: 0 <= i < |s.revocations| ==> s.revocations[i] < s.next)
    && Distinct(s.revocations)
  }

  /** Loading any view from a quiescent state makes it the single active output, and the state valid. */
  lemma LoadViewFromQuiescent(u: State, key: string)
    requires Quiescent(u) && key in OutputKeys
    ensures LoadView(u, key).Ok?
    ensures SingleActive(LoadView(u, key).state) && Valid(LoadView(u, key).state)
  {
  }

  /** Attaching a handle to the single active output of a quiescent-then-loaded state: it alone holds the new handle. */
  lemma AttachToLoaded(u: State, kind: string, file: File)
    requires Quiescent(u) && kind in HandleKinds
    ensures LoadView(u, kind).Ok?
    ensures var w := LoadView(u, kind).state;
      var t := Resident(AttachHandle(w, kind), file);
      && (forall k :: k in OutputKeys ==> t.outputs[k].classes == w.outputs[k].classes)
      && (forall k :: k in OutputKeys && k != kind ==> t.outputs[k].src == NoUrl)
      && t.outputs[kind].src == Blob(u.next) && t.next == u.next + 1
      && t.instance.view == kind && t.revocations == u.revocations && t.anchor == u.anchor
  {
    var w := LoadView(u, kind).state;
    var t := Resident(AttachHandle(w, kind), file);
    assert forall k :: k in OutputKeys && k != kind ==> t.outputs[k] == w.outputs[k];
  }

  /** Opening a handle kind from a quiescent state: that view alone is active and holds the handle just minted. */
  lemma OpenMediaFromQuiescent(u: State, kind: string, file: File)
    requires Quiescent(u) && kind in HandleKinds
    ensures LoadView(u, kind).Ok?
    ensures var t := Resident(AttachHandle(LoadView(u, kind).state, kind), file);
      && SingleActive(t)
      && t.outputs[kind].src == Blob(u.next) && t.next == u.next + 1
      && (forall k :: k in OutputKeys && k != kind ==> t.outputs[k].src == NoUrl)
      && t.revocations == u.revocations && t.anchor == u.anchor
      && Valid(t)
  {
    LoadViewFromQuiescent(u, kind);
    AttachToLoaded(u, kind, file);
  }

  /** Opening the text view from a quiescent state: it alone is active and no output holds a handle. */
  lemma OpenTextFromQuiescent(u: State, file: File)
    requires Quiescent(u)
    ensures LoadView(u, "text").Ok?
    ensures var t := Resident(LoadView(u, "text").state.(reading := Some(file)), file);
      && SingleActive(t)
      && (forall k :: k in OutputKeys ==> t.outputs[k].src == NoUrl)
      && t.next == u.next && t.revocations == u.revocations && t.anchor == u.anchor
      && Valid(t)
  {
  }

  /** Routing a file from a quiescent state activates exactly the new view, which alone holds a handle: the one just minted. */
  lemma RouteFromQuiescent(u: State, file: File)
    requires Quiescent(u)
    requires !(u.reading.Some? && ViewFor(Classify(file.mime)) == "text")
    ensures Route(u, file).Ok?
    ensures var t, view := Route(u, file).state, ViewFor(Classify(file.mime));
      && SingleActive(t)
      && (view in HandleKinds ==> t.outputs[view].src == Blob(u.next) && t.next == u.next + 1)
      && (view !in HandleKinds ==> t.outputs[view].src == NoUrl && t.next == u.next)
      && (forall k :: k in OutputKeys && k != view ==> t.outputs[k].src == NoUrl)
      && t.revocations == u.revocations && t.anchor == u.anchor
      && Valid(t)
  {
    var kind := Classify(file.mime);
    if kind in HandleKinds {
      var u1 := if kind == "frame" || kind == "image" then u.(disabled := false) else u;
      assert Quiescent(u1);
      RouteMediaUnfolds(u, file);
      OpenMediaFromQuiescent(u1, kind, file);
    } else {
      assert ViewFor(kind) == "text";
      RouteTextUnfolds(u, file);
      OpenTextFromQuiescent(u, file);
    }
  }

  /** Routing a frame, image, audio or video file loads its view and attaches a handle. */
  lemma RouteMediaUnfolds(u: State, file: File)
    requires Classify(file.mime) in HandleKinds
    ensures var kind := Classify(file.mime);
      var u1 := if kind == "frame" || kind == "image" then u.(disabled := false) else u;
      && LoadView(u1, kind).Ok?
      && Route(u, file) == Ok(Resident(AttachHandle(LoadView(u1, kind).state, kind), file))
  {
  }

  /** Routing any other file loads the text view and starts a read, when the reader is idle. */
  lemma RouteTextUnfolds(u: State, file: File)
    requires Classify(file.mime) !in HandleKinds && u.reading == None
    ensures Route(u, file) == Ok(Resident(LoadView(u, "text").state.(reading := Some(file)), file))
  {
  }

  /**
   * Loading an accepted file into a valid state: exactly one output is
   * active, the new view; the handle the old view held was revoked; the new
   * view holds the handle just minted, which was never held or revoked
   * before; no other output holds a handle.
   */
  lemma LoadFileRevokesBeforeAssign(s: State, file: File)
    requires Valid(s)
    requires !(s.reading.Some? && ViewFor(Classify(file.mime)) == "text")
    ensures Ingest(s, file).Ok?
    ensures var t, view := Ingest(s, file).state, ViewFor(Classify(file.mime));
      && SingleActive(t)
      && (s.outputs[s.instance.view].src.Blob? ==> t.revocations == s.revocations + [s.outputs[s.instance.view].src.id])
      && (s.outputs[s.instance.view].src == NoUrl ==> t.revocations == s.revocations)
      && (view in HandleKinds ==> t.outputs[view].src == Blob(s.next) && s.next !in t.revocations)
      && (view in HandleKinds ==> t.next == s.next + 1)
      && (view !in HandleKinds ==> t.outputs[view].src == NoUrl && t.next == s.next)
      && (forall k :: k in OutputKeys && k != view ==> t.outputs[k].src == NoUrl)
      && (forall k :: k in OutputKeys ==> s.outputs[k].src != Blob(s.next))
      && s.anchor.href != Blob(s.next)
      && Valid(t)
  {
    var u1 := UnloadView(s, s.instance.view).state.(subtitle := file.name);
    IngestUnloads(s, file);
    RouteFromQuiescent(u1, file);
    FreshHandle(s);
  }

  /** In a valid state the next number to mint is held by no output or anchor and has never been revoked. */
  lemma FreshHandle(s: State)
    requires Valid(s)
    ensures forall k :: k in OutputKeys ==> s.outputs[k].src != Blob(s.next)
    ensures s.anchor.href != Blob(s.next) && s.next !in s.revocations
  {
  }

  /** Ingesting into a valid state is routing from the quiescent state its unload leaves. */
  lemma IngestUnloads(s: State, file: File)
    requires Valid(s)
    ensures UnloadView(s, s.instance.view).Ok?
    ensures var u1 := UnloadView(s, s.instance.view).state.(subtitle := file.name);
      && Quiescent(u1) && Ingest(s, file) == Route(u1, file)
      && u1.next == s.next && u1.anchor == s.anchor && u1.reading == s.reading
      && (s.outputs[s.instance.view].src.Blob? ==> u1.revocations == s.revocations + [s.outputs[s.instance.view].src.id])
      && (s.outputs[s.instance.view].src == NoUrl ==> u1.revocations == s.revocations)
  {
    UnloadQuiesces(s);
  }

  /** Routing a text file from a quiescent state while a read is in progress throws after the text view is loaded. */
  lemma RouteFaultFromQuiescent(u: State, file: File)
    requires Quiescent(u)
    requires u.reading.Some? && ViewFor(Classify(file.mime)) == "text"
    ensures Route(u, file).Fault?
    ensures Route(u, file).state == LoadView(u, "text").state
    ensures SingleActive(Route(u, file).state) && Valid(Route(u, file).state)
  {
    LoadViewFromQuiescent(u, "text");
  }

  /**
   * Ingesting a file into a valid state fails only by starting a read while
   * one is in progress. Either way the state reached is valid, has exactly one
   * active output, and keeps every revocation and minted number.
   */
  lemma IngestAdvances(s: State, file: File)
    requires Valid(s)
    ensures Ingest(s, file).Fault? <==> s.reading.Some? && ViewFor(Classify(file.mime)) == "text"
    ensures var t := Ingest(s, file).state;
      && Valid(t) && SingleActive(t)
      && s.revocations <= t.revocations && s.next <= t.next
  {
    if s.reading.Some? && ViewFor(Classify(file.mime)) == "text" {
      var u1 := UnloadView(s, s.instance.view).state.(subtitle := file.name);
      IngestUnloads(s, file);
      RouteFaultFromQuiescent(u1, file);
    } else {
      LoadFileRevokesBeforeAssign(s, file);
    }
  }

  /**
   * `loadFile` keeps the invariant, even when it throws: from a valid state it
   * throws only by starting a read while one is in progress. An accepted file
   * leaves exactly one output active; otherwise the active outputs are kept.
   */
  lemma LoadFilePreservesValid(s: State, files: seq<File>, test: File -> bool, index: nat)
    requires |files| == 0 || index < |files|
    requires Valid(s)
    ensures var r := LoadFile(s, files, test, index);
      && (r.Fault? <==> |files| > 0 && test(files[index]) && s.reading.Some? && ViewFor(Classify(files[index].mime)) == "text")
      && Valid(r.state) && s.revocations <= r.state.revocations && s.next <= r.state.next
      && (|files| > 0 && test(files[index]) ==> SingleActive(r.state))
      && (SingleActive(s) ==> SingleActive(r.state))
  {
    var s1 := s.(disabled := true);
    if |files| > 0 && test(files[index]) {
      assert LoadFile(s, files, test, index) == Ingest(s1, files[index]);
      ValidFrame(s, s1);
      IngestAdvances(s1, files[index]);
    }
  }

  /**
   * Loading a text file while a read is in progress: the unload and the
   * subtitle change have happened when `readAsText` throws. The text view is
   * the single active output and no file is resident, but the subtitle names
   * the new file while the reader still reads the old one. When that read
   * completes, the text output shows the old file's text under the new file's
   * name.
   */
  lemma BusyReadFault(s: State, files: seq<File>, test: File -> bool, index: nat, result: string)
    requires Valid(s) && index < |files| && test(files[index])
    requires s.reading.Some? && ViewFor(Classify(files[index].mime)) == "text"
    ensures LoadFile(s, files, test, index).Fault?
    ensures var t := LoadFile(s, files, test, index).state;
      && t.instance == Instance(None, "text") && SingleActive(t) && Valid(t)
      && t.subtitle == files[index].name && t.reading == s.reading && t.disabled
    ensures var t := LoadReader(LoadFile(s, files, test, index).state, result);
      && t.outputs["text"].text == result && t.subtitle == files[index].name
      && t.instance == Instance(None, "text") && t.reading == None
  {
    var s1 := s.(disabled := true);
    var file := files[index];
    assert LoadFile(s, files, test, index) == Ingest(s1, file);
    ValidFrame(s, s1);
    var u1 := UnloadView(s1, s1.instance.view).state.(subtitle := file.name);
    IngestUnloads(s1, file);
    RouteFaultFromQuiescent(u1, file);
  }

  /** Unloading the current view keeps the invariant, with no output left active. */
  lemma UnloadViewPreservesValid(s: State)
    requires Valid(s)
    ensures UnloadView(s, s.instance.view).Ok? && Valid(UnloadView(s, s.instance.view).state)
  {
    UnloadQuiesces(s);
  }

  /** The reader's load event keeps the invariant and the active output. */
  lemma LoadReaderPreservesValid(s: State, result: string)
    requires Valid(s)
    ensures Valid(LoadReader(s, result))
    ensures SingleActive(s) ==> SingleActive(LoadReader(s, result))
  {
  }

  /** The invariants read only the instance, the outputs, the handle counter, the revocations and the anchor. */
  lemma ValidFrame(s: State, t: State)
    requires Valid(s)
    requires t.instance == s.instance && t.outputs == s.outputs && t.next == s.next
    requires t.revocations == s.revocations && t.anchor == s.anchor
    ensures Valid(t)
    ensures SingleActive(s) ==> SingleActive(t)
  {
  }

  /** The entry operations keep the invariant. */
  lemma EntryOperationsPreserveValid(s: State, values: map<EntryKey, Value>)
    requires Valid(s)
    ensures Valid(Reset(s)) && Valid(Populate(s, values)) && Valid(Update(s))
  {
    ValidFrame(s, Reset(s));
    ValidFrame(s, Populate(s, values));
    ValidFrame(s, Update(s));
  }

  /** The view actions keep the invariant. */
  lemma ViewActionsPreserveValid(s: State, dark: bool)
    requires Valid(s)
    ensures Valid(CollapseAll(s)) && Valid(ExpandAll(s)) && Valid(SetForceDark(s, dark))
  {
    ValidFrame(s, CollapseAll(s));
    ValidFrame(s, ExpandAll(s));
    ValidFrame(s, SetForceDark(s, dark));
  }

  /** `download` keeps the invariant when handed an available URL. */
  lemma DownloadPreservesValid(s: State, name: string, url: Url)
    requires Valid(s) && Available(s, url)
    ensures Valid(Download(s, name, url))
    ensures SingleActive(s) ==> SingleActive(Download(s, name, url))
  {
    var t := Download(s, name, url);
    var href := s.anchor.href;
    if href != url && href.Blob? {
      assert t.revocations == s.revocations + [href.id];
      forall i, j | 0 <= i < j < |t.revocations| ensures t.revocations[i] != t.revocations[j] {
        if j == |s.revocations| {
          assert t.revocations[i] == s.revocations[i];
        }
      }
    }
  }
}
