# Viewer view lifecycle and file ingestion, modelled in Dafny

This project models the core of the viewer, a single-page media and document
viewer. A user picks or drops a file. The viewer classifies the file by its
declared MIME type and shows it in one of its outputs: image, audio, video, an
embedded frame, or plain text. The model covers:

- the frozen registry of form entries and outputs, and the sealed instance
  record `{file, view}` (`res/scripts/application-model.mjs`);
- the view lifecycle `loadView` / `unloadView`, file ingestion `loadFile` /
  `loadReader`, the entry operations `reset` / `populate` / `update`, and the
  download anchor (`res/scripts/application-functions.mjs`);
- the class-list and flag updates of `res/scripts/views.mjs`;
- the startup sequence of `res/scripts/start.mjs`.

The whole mutable state is one immutable record, `ApplicationModel.State`, and
every operation is a pure function of it. The record holds:

- the instance (resident file, current view key);
- the source control's `disabled` flag;
- per output: its `src`, its text and its class set;
- the window subtitle and the entries;
- the object-URL counter and the log of revoked object URLs;
- the download anchor and the reader's in-progress file;
- a log of events dispatched on entries and a log of alerts;
- the fieldsets' `open` flags and the body classes.

An object URL is `Blob(n)`, where `n` comes from the counter; minting one is
taking the counter and incrementing it. The JavaScript can throw a
`TypeError`: looking up an output under a key that is not one yields
`undefined`. It can also throw an `InvalidStateError`, when `readAsText` is
called while the reader is busy. Both become `Step.Fault`, which carries the
writes made before the throw.

Modules follow the source files: `ApplicationModel`, `Views`,
`ApplicationFunctions` and `Start`. Two more modules hold the proofs.
`Invariants` holds the invariant, `Valid`, and a lemma per operation showing
that operation keeps it. `Valid` says:

- at most one output is active, and it is the view;
- only the view's output holds a handle;
- a held handle was minted and not revoked;
- no handle is revoked twice.

`Session` composes operations into runs. A thrown error ends only the handler
that threw, so a run goes on from the writes made before the throw. From
startup, every run keeps `Valid`, and exactly one output stays active: the
view.

Facts about the code that the model reproduces:

- `loadFile` never checks the file size. The 1 MiB constant at
  `res/scripts/constants.mjs:40` is unused.
- There is no modification guard, and `unloadView` detaches no frame node.
- Nothing re-enables the source control after an audio or video load. The
  control stays disabled until a later `loadFile` or `loadReader`.
- A type without "/" is not kept whole. `slice(0, -1)` drops its last
  character, so `"audio"` classifies as `"audi"` and opens the text view.
- The drop handler calls `loadFile` even while a read is in progress. If the
  dropped file is text, `readAsText` throws after the old view has been
  unloaded and the subtitle set to the new file's name. The text view is then
  active with no file resident. When the earlier read completes, its text
  appears under the new file's name (`Invariants.BusyReadFault`).

## Model

| member | source | states |
|---|---|---|
| `ApplicationModel.Initial` | res/scripts/application-model.mjs:19-148 | the registry's initial state: instance `{file: null, view: ""}`, every output blank, every entry carrying its registry preset, control enabled, no handle minted or revoked |
| `ApplicationModel.EntryOrderEnumeratesPresets` | res/scripts/application-functions.mjs:20-28 | the flattened entries object enumerates every registry entry exactly once, in declaration order |
| `ApplicationModel.OutputRegistry` | res/scripts/application-model.mjs:125-133 | the output keys are exactly audio, frame, image, nul, root, text and video; the handle-holding kinds are among them |
| `ApplicationModel.CorePresets` | res/scripts/application-model.mjs:43-68 | speed and fontScale are 1, lineHeight is 1.2, withPitch is true, wordWrap is false, fontFamily is "monospace" |
| `ApplicationModel.DisplayPresets` | res/scripts/application-model.mjs:70-107 | brightness, contrast, saturation are 100; blur, hue, invert, sepia are 0; align and justify are "center" |
| `ApplicationModel.MenuPresets` | res/scripts/application-model.mjs:109-122 | every menu entry's preset is false |
| `Views.CollapseAll` | res/scripts/views.mjs:10-14 | every fieldset ends closed, their number is unchanged, nothing else changes |
| `Views.ExpandAll` | res/scripts/views.mjs:17-21 | every fieldset ends open, their number is unchanged, nothing else changes |
| `Views.ActivateView` | res/scripts/views.mjs:24-26 | fails exactly for a non-output key; otherwise the output gains "active", keeps every other class word, src and text, and no other output changes |
| `Views.ActivateViewIdempotent` | res/scripts/views.mjs:24-26 | a class list is a set: activating twice equals activating once |
| `Views.DeactivateView` | res/scripts/views.mjs:29-31 | fails exactly for a non-output key; otherwise the output loses "active", keeps every other class word, src and text, and no other output changes |
| `Views.SetForceDark` | res/scripts/views.mjs:34-38 | "dark" is a body class exactly when the flag holds; no other body class and nothing else changes |
| `Views.SetForceDarkDefault` | res/scripts/views.mjs:34 | the default argument is true: called without it, the body ends with "dark" |
| `ApplicationModel.GetControl` | res/scripts/application-functions.mjs:269-271 | a lookup yields a control exactly when the key is present, and then the one stored under it |
| `ApplicationModel.OutputLookup` | res/scripts/application-functions.mjs:238-246 | on the frozen outputs object, `getOutput` finds a control exactly for the seven output keys, and it is the one stored there |
| `ApplicationFunctions.IndexOf` | res/scripts/application-functions.mjs:75 | the result is the first position of the character, or -1 exactly when the string lacks it |
| `ApplicationFunctions.SliceTo` | res/scripts/application-functions.mjs:75 | slice(0, end): a prefix clamped to the length, with a negative end counted back from the end |
| `ApplicationFunctions.Lower` | res/scripts/application-functions.mjs:75 | same length, each ASCII capital lower-cased, other characters kept; no capital remains |
| `ApplicationFunctions.Classify` | res/scripts/application-functions.mjs:71-75 | application/pdf and text/html give "frame"; otherwise the lower-cased text before the first "/"; with no "/", the type minus its last character |
| `ApplicationFunctions.ClassifyIsBareLowerCase` | res/scripts/application-functions.mjs:71-75 | outside the frame types, a classification contains no "/" and no capital letter |
| `ApplicationFunctions.ClassifyFrameTypes` | res/scripts/application-functions.mjs:73-74 | "application/pdf" and "text/html" classify as "frame" |
| `ApplicationFunctions.RouteMediaExamples` | res/scripts/application-functions.mjs:72-85 | "image/png" opens the image view and "VIDEO/mp4" the video view |
| `ApplicationFunctions.RoutePlainText` | res/scripts/application-functions.mjs:72-90 | "text/plain" opens the text view |
| `ApplicationFunctions.RouteUnknownCategory` | res/scripts/application-functions.mjs:72-90 | "application/json" classifies as "application", which no case names, so it opens the text view |
| `ApplicationFunctions.ClassifyWithoutSlash` | res/scripts/application-functions.mjs:75 | the empty type classifies as "" and a bare "audio" as "audi"; both open the text view |
| `ApplicationFunctions.ViewFor` | res/scripts/application-functions.mjs:78-91 | frame, image, audio and video open their own view; every other classification opens "text" |
| `ApplicationFunctions.UnloadView` | res/scripts/application-functions.mjs:116-135 | a handle kind's src is revoked only when set and then emptied; text is emptied; subtitle cleared, key deactivated, file nulled; nothing else changes; a non-output key throws after clearing the subtitle |
| `ApplicationFunctions.LoadView` | res/scripts/application-functions.mjs:109-113 | the output becomes active and is recorded as the view, nothing else changes; a non-output key throws before any write |
| `ApplicationFunctions.AttachHandle` | res/scripts/application-functions.mjs:85-86 | the output's src is the freshly minted handle, the counter advances, and one input event is dispatched on the speed entry |
| `ApplicationFunctions.Route` | res/scripts/application-functions.mjs:78-92 | the file becomes resident in its view, which is active; frame and image re-enable the control; throws only when a text read is started while one is in progress |
| `ApplicationFunctions.Ingest` | res/scripts/application-functions.mjs:76-92 | unload then route: resident file, view, subtitle = file name, view active; throws only for a non-output current view or a busy reader |
| `ApplicationFunctions.LoadFile` | res/scripts/application-functions.mjs:66-98 | an empty list alerts and a rejected file is ignored, both changing nothing but re-enabling the control; an accepted file is resident in its view; the control stays disabled exactly for audio, video and text; a throw leaves it disabled |
| `ApplicationFunctions.StaysDisabledViews` | res/scripts/application-functions.mjs:79-97 | the views that leave the control disabled are exactly audio, video and text |
| `ApplicationFunctions.RouteEffects` | res/scripts/application-functions.mjs:78-91 | unless a text read meets a busy reader, routing succeeds; handle kinds get the next minted handle and one speed input event; any other classification starts a read and mints and dispatches nothing |
| `ApplicationFunctions.RouteMediaEffects` | res/scripts/application-functions.mjs:84-86 | a frame, image, audio or video file gets the next minted handle as its output's src, and one speed input event is dispatched; the reader, revocations and anchor are untouched |
| `ApplicationFunctions.RouteTextEffects` | res/scripts/application-functions.mjs:89-90 | any other file starts a read of itself, mints nothing, dispatches nothing and leaves the text output's src alone |
| `ApplicationFunctions.LoadFileRoutes` | res/scripts/application-functions.mjs:76-92 | an accepted file loads whenever the current view is an output and no text read meets a busy reader; the subtitle is then the file name; a handle kind gets the next minted handle plus a speed input event; text starts a read and mints nothing |
| `ApplicationFunctions.LoadReader` | res/scripts/application-functions.mjs:101-106 | the text output shows the read result, the control is re-enabled, the read is over; nothing else changes |
| `ApplicationFunctions.Reset` | res/scripts/application-functions.mjs:156-160 | every entry's value becomes its preset; presets, element types, placeholders and the rest of the state are unchanged |
| `ApplicationFunctions.ResetIdempotent` | res/scripts/application-functions.mjs:156-160 | resetting twice equals resetting once |
| `ApplicationFunctions.Populate` | res/scripts/application-functions.mjs:140-144 | each entry takes its given value, or its preset when none is given; nothing else changes |
| `ApplicationFunctions.PopulateEmptyIsReset` | res/scripts/application-functions.mjs:140-160 | populating with no values equals resetting |
| `ApplicationFunctions.Update` | res/scripts/application-functions.mjs:163-171 | appends the dispatches for every entry in the entries' order and changes nothing else |
| `ApplicationFunctions.DispatchesOncePerKey` | res/scripts/application-functions.mjs:164-170 | over distinct keys, each key receives exactly one event and any other key none |
| `ApplicationFunctions.UpdateOncePerEntry` | res/scripts/application-functions.mjs:163-171 | update dispatches exactly one event on every entry |
| `ApplicationFunctions.Download` | res/scripts/application-functions.mjs:50-60 | afterwards the anchor's href is the url and its name the given one; revocations only grow; nothing else changes |
| `ApplicationFunctions.DownloadRevokesStaleOnly` | res/scripts/application-functions.mjs:53-57 | a revocation happens exactly when the previous href is set and differs from the url, and it revokes that href |
| `ApplicationFunctions.DownloadTwice` | res/scripts/application-functions.mjs:53-58 | downloading the same url twice equals downloading it once: the second call revokes nothing |
| `Invariants.UnloadQuiesces` | res/scripts/application-functions.mjs:116-135 | unloading the current view of a valid state succeeds and leaves no output active and no handle held; the old handle is appended to the revocations |
| `Invariants.LoadViewFromQuiescent` | res/scripts/application-functions.mjs:109-113 | loading an output key when no output is active or holds a handle succeeds, makes it the single active output and yields a valid state |
| `Invariants.OpenMediaFromQuiescent` | res/scripts/application-functions.mjs:84-86 | from a state with no active output and no held handle, opening a handle kind activates only it, and it alone holds the new handle |
| `Invariants.OpenTextFromQuiescent` | res/scripts/application-functions.mjs:89-90 | from a state with no active output and no held handle, opening text activates only it and no output holds a handle |
| `Invariants.RouteFromQuiescent` | res/scripts/application-functions.mjs:78-91 | routing from such a state activates exactly the new view, which alone may hold a handle: the one just minted |
| `Invariants.LoadFileRevokesBeforeAssign` | res/scripts/application-functions.mjs:76-92 | exactly one output is active, the new view; the old view's handle is revoked; the new handle was never held or revoked before; no other output holds one |
| `Invariants.RouteFaultFromQuiescent` | res/scripts/application-functions.mjs:88-90 | with no output active, a text file routed while a read is in progress throws after the text view is loaded; that state is valid, with text the single active output |
| `Invariants.IngestAdvances` | res/scripts/application-functions.mjs:76-92 | from a valid state the accepted branch throws exactly when a text read is started while one is in progress; thrown or not, the state is valid with exactly one active output and keeps every revocation and minted number |
| `Invariants.BusyReadFault` | res/scripts/application-functions.mjs:76-90 | loading a text file while a read is in progress throws with text active, no file resident, the subtitle naming the new file and the old read still pending; its load event then shows its text under that name |
| `Invariants.LoadFilePreservesValid` | res/scripts/application-functions.mjs:66-98 | from a valid state loadFile throws only on a text read started while one is in progress; thrown or not, the state is valid and keeps every revocation and minted number; an accepted file leaves exactly one output active, and otherwise a single active output stays single |
| `Invariants.UnloadViewPreservesValid` | res/scripts/application-functions.mjs:116-135 | unloading the current view keeps the invariant |
| `Invariants.LoadReaderPreservesValid` | res/scripts/application-functions.mjs:101-106 | the reader's load event keeps the invariant, and a single active output stays single |
| `Invariants.EntryOperationsPreserveValid` | res/scripts/application-functions.mjs:140-171 | reset, populate and update keep the invariant |
| `Invariants.ViewActionsPreserveValid` | res/scripts/views.mjs:10-38 | collapsing, expanding and forcing dark keep the invariant |
| `Invariants.DownloadPreservesValid` | res/scripts/application-functions.mjs:50-60 | download keeps the invariant when the url is empty, the anchor's own, or a live handle no output holds |
| `Session.RunPreservesValid` | res/scripts/application-functions.mjs:66-135 | any admissible run from a valid state, thrown errors included, ends valid: at most one output active, namely the view, and exactly one if so before; handles revoked at most once; no revocation forgotten or minted number reused |
| `Session.RevokedNeverHeldAgain` | res/scripts/application-functions.mjs:116-127 | a handle revoked before an admissible run is held by no output after it, whether or not an operation threw |
| `Session.SessionKeepsSingleActive` | res/scripts/start.mjs:15-23 | from startup, every admissible run ends valid with exactly one active output, the current view |
| `Start.SeedPlaceholders` | res/scripts/start.mjs:16-20 | every number entry's placeholder is its preset; other entries and the rest of the state are unchanged |
| `Start.StartupQuiescent` | res/scripts/start.mjs:15-22 | before the empty view is loaded no output is active or holds a handle, no file is resident, the view is "" and the control is enabled |
| `Start.Init` | res/scripts/start.mjs:15-23 | startup completes with view "nul", only "nul" active, no resident file, the control enabled, and the invariant established |
| `Start.InitEntries` | res/scripts/start.mjs:16-21 | after startup every entry's value is its preset, and exactly the number entries have the preset as placeholder |
| `Start.InitSignals` | res/scripts/start.mjs:21-22 | startup dispatches one event per entry, in order, each after the reset and so carrying the preset |
| `Start.InitDispatchesOncePerEntry` | res/scripts/start.mjs:22 | startup dispatches exactly one event on every entry |

## Left out

- `res/scripts/events.mjs` is not modelled. It is DOM listener registration, and it imports functions that `application-functions.mjs` does not define, so it belongs to another variant. Its binder helpers (`common/events.mjs`) are not part of this model. Two rules it states are worth noting. Seeking applies only when the view is audio or video (`res/scripts/events.mjs:111-116`). A drop loads only a non-empty list (`res/scripts/events.mjs:174-177`).
- `preserve` (`res/scripts/application-functions.mjs:147-153`) writes to an undeclared `out` and always throws; it is not modelled.
- Host effects are not modelled: `alertFileProperties`, focus, scrolling, the anchor's `click`, the document title, and the debug `console.log`. The alert on an empty list is kept, as a log entry.
- `URL.createObjectURL` is modelled only as "a fresh number". `FileReader` is modelled only as its busy state and its load event, whose result `LoadReader` takes as a parameter.
- `testFile` and `setWindowSubtitle` live in `functions.mjs`, which is not part of this model. `testFile` is a predicate parameter of `LoadFile`. `setWindowSubtitle` is a write to the `subtitle` field, and calling it without an argument clears the field. `defaultOrAsIs` is taken as "the preset when no value is given".
- The markup is not part of this model. The following are assumptions:
  - boolean entries are checkboxes, numeric ones number fields, and string ones neither;
  - outputs and body start with no classes;
  - the fieldsets' starting `open` flags and the entries' starting values are parameters of `Initial`.
- The browser's reflection of `src = ""` as the document URL is not modelled: an emptied `src` is `NoUrl`. Revoking a non-object URL is a host no-op in any case.
- `Download` assumes its `url` is empty or an object URL. `Invariants.DownloadPreservesValid` additionally requires that no output holds it.
- `LoadView` on its own is only ever called by `loadFile` and startup. A standalone `loadView` of a second key would activate two outputs, so `Session` does not offer it as an operation.
- `ApplicationFunctions.LoadFile`: requires `index < |files|` for a non-empty list. Every caller passes the default index 0. An out-of-range index would hand `undefined` to `testFile`, which is not part of this model. The default argument `getSource().valueOrPreset` is not modelled: files are always passed.
- `ApplicationFunctions.Lower`: lower-cases ASCII letters only, whereas `toLowerCase` also maps non-ASCII letters. Declared MIME types are ASCII.
- The remaining getters (`getButton`, `getCoreEntry`, `getOutput`, …) are field reads or `GetControl` lookups. `res/scripts/constants.mjs`, `res/scripts/roots.mjs` and `res/scripts/pwa-assets.js` hold constants, DOM queries and a cache list, and are not modelled.
- `Session.Op` offers no bare unload. `unloadView` is only called from inside `loadFile`, and the eject button's `close` is not defined in `application-functions.mjs`. `Invariants.UnloadViewPreservesValid` still covers a bare unload, which keeps `Valid` but leaves no output active.
- `Session.RunPreservesValid`: covers only runs in which every `download` is handed an available URL (`Admissible`), for the reason given for `Download` above.
