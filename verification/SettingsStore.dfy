/** The headless settings store: the browser-side `HeadlessStore` (`src/lib/settings.ts`) and the merging
  * server behind it (`src-tauri/src/headless_shell.rs`).
  *
  * One client, one server. Each step is the code between two awaits. A PUT lands at most once, before its
  * response; a failed PUT may have landed or not, and does not land later. Any read of the settings file may fail.
  */
module SettingsStore {
  import opened JsonValue

  /** What the application stores: values that reach the server as they are. */
  type Value = v: Json<string> | Serializable(v) witness Null

  type Doc = map<string, Value>

  /** The server holds every key of `doc` with the same value. */
  ghost predicate Agrees(server: Doc, doc: Doc) {
    forall k :: k in doc ==> k in server && server[k] == doc[k]
  }

  // ---------------------------------------------------------------------
  // The server
  // ---------------------------------------------------------------------

  /** What is on disk at the settings path. */
  datatype SettingsFile = Unreadable | NotJson | NotObject | Holds(doc: Doc)

  /** `read_settings_doc`: anything but a JSON object reads as the empty document. */
  function ReadSettingsDoc(file: SettingsFile): Doc {
    if file.Holds? then file.doc else map[]
  }

  /** What reading the file that holds `stored` gives, if it can be read at that moment. */
  function ReadStored(stored: Doc, readable: bool): Doc {
    ReadSettingsDoc(if readable then Holds(stored) else Unreadable)
  }

  lemma MergeOne<V>(base: map<string, V>, patch: map<string, V>, todo: set<string>, k: string)
    requires k in todo && todo <= patch.Keys
    ensures (base + (patch - todo))[k := patch[k]] == base + (patch - (todo - {k}))
  {}

  lemma MergeEnds<V>(base: map<string, V>, patch: map<string, V>)
    ensures base + (patch - patch.Keys) == base
    ensures base + (patch - {}) == base + patch
  {
    assert patch - patch.Keys == map[];
    assert patch - {} == patch;
  }

  /** The insertion loop of `settings_put_h`. */
  method MergePatch<V>(base: map<string, V>, patch: map<string, V>) returns (doc: map<string, V>)
    ensures doc == base + patch
  {
    doc := base;
    var todo := patch.Keys;
    MergeEnds(base, patch);
    while todo != {}
      invariant todo <= patch.Keys
      invariant doc == base + (patch - todo)
      decreases |todo|
    {
      var k :| k in todo;
      MergeOne(base, patch, todo, k);
      doc := doc[k := patch[k]];
      todo := todo - {k};
    }
  }

  /** The body of a PUT, once parsed, and the response to it. */
  datatype PutBody = Garbled | OtherJson | Patch(doc: Doc)
  datatype PutStatus = Stored | BadRequest | WriteFailed

  class SettingsServer {
    var file: SettingsFile

    constructor (file: SettingsFile)
      ensures this.file == file
    {
      this.file := file;
    }

    /** `settings_put_h`: merges an object body key by key, then rewrites the file. A body key always ends up stored;
      * a key the body does not mention keeps its value. Any other body, or a failed write, changes nothing. */
    method Put(body: PutBody, writeOk: bool) returns (status: PutStatus)
      modifies this
      ensures status == BadRequest <==> !body.Patch?
      ensures status == WriteFailed <==> body.Patch? && !writeOk
      ensures status != Stored ==> file == old(file)
      ensures status == Stored ==> file == Holds((if old(file).Holds? then old(file).doc else map[]) + body.doc)
      ensures status == Stored ==> Agrees(file.doc, body.doc)
    {
      if !body.Patch? {
        return BadRequest;
      }
      var doc := MergePatch(ReadSettingsDoc(file), body.doc);
      if !writeOk {
        return WriteFailed;
      }
      file := Holds(doc);
      return Stored;
    }
  }

  // ---------------------------------------------------------------------
  // Client and server together
  // ---------------------------------------------------------------------

  datatype Load = Unloaded | Loading | Loaded | LoadFailed

  datatype Flight = NoFlight | Flight(save: nat, body: Doc, version: nat, landed: bool)

  datatype State = State(
    load: Load,
    doc: Doc,              // the client document, once loaded
    dirty: bool,
    queue: seq<nat>,       // saves whose flush has not started, oldest first
    flight: Flight,        // the PUT in progress
    server: Doc,           // what the settings file holds
    versions: seq<Doc>,    // every value the document has had, oldest first
    calledAt: seq<nat>)    // for each save, the document version current at the call

  function Start(server: Doc): State {
    State(Unloaded, map[], false, [], NoFlight, server, [], [])
  }

  datatype Event =
    | Ensure                     // get/set/delete call: starts the GET once
    | GetOk(readable: bool)      // whether the server can read its file then
    | GetFail
    | Set(key: string, value: Value)
    | Delete(key: string)
    | Save
    | Turn                       // the chain reaches the next queued flush
    | Land(readable: bool)       // the server merges the PUT body into what it reads, and stores that
    | RespondOk
    | RespondFail

  function Edit(s: State, doc: Doc): State {
    s.(doc := doc, dirty := true, versions := s.versions + [doc])
  }

  /** The index of the current document version (0 while nothing is loaded). */
  function Current(s: State): nat {
    if s.versions == [] then 0 else |s.versions| - 1
  }

  predicate AboutToLand(s: State) { s.flight != NoFlight && !s.flight.landed }

  function Step(s: State, e: Event): State {
    match e
    case Ensure => if s.load == Unloaded then s.(load := Loading) else s
    case GetOk(readable) =>
      if s.load != Loading then s
      else
        var doc := ReadStored(s.server, readable);
        s.(load := Loaded, doc := doc, versions := [doc])
    case GetFail => if s.load == Loading then s.(load := LoadFailed) else s
    case Set(k, v) => if s.load == Loaded then Edit(s, s.doc[k := v]) else s
    case Delete(k) => if s.load == Loaded then Edit(s, s.doc - {k}) else s
    case Save => s.(queue := s.queue + [|s.calledAt|], calledAt := s.calledAt + [Current(s)])
    case Turn =>
      if s.queue == [] || s.flight != NoFlight then s
      else if !s.dirty then s.(queue := s.queue[1..])
      else s.(queue := s.queue[1..], dirty := false, flight := Flight(s.queue[0], s.doc, Current(s), false))
    case Land(readable) =>
      if !AboutToLand(s) then s
      else s.(flight := s.flight.(landed := true), server := ReadStored(s.server, readable) + s.flight.body)
    case RespondOk =>
      if s.flight == NoFlight || !s.flight.landed then s else s.(flight := NoFlight)
    case RespondFail =>
      if s.flight == NoFlight then s else s.(flight := NoFlight, dirty := true)
  }

  /** Event e resolves save `id` without error: its flush finds nothing to send, or its PUT succeeds. */
  predicate ResolvesOk(s: State, e: Event, id: nat) {
    || (e == Turn && s.queue != [] && s.flight == NoFlight && !s.dirty && s.queue[0] == id)
    || (e == RespondOk && s.flight != NoFlight && s.flight.landed && s.flight.save == id)
  }

  function Run(s: State, events: seq<Event>): State {
    if events == [] then s else Step(Run(s, events[..|events| - 1]), events[|events| - 1])
  }

  // ---------------------------------------------------------------------
  // Invariant
  // ---------------------------------------------------------------------

  /** Dirty, or the PUT in flight carries the document, or the server agrees with it. */
  ghost predicate NothingLost(s: State) {
    s.load == Loaded && !s.dirty ==>
      if s.flight == NoFlight then Agrees(s.server, s.doc) else s.flight.body == s.doc
  }

  ghost predicate ClientShape(s: State) {
    && (s.load != Loaded ==> !s.dirty && s.flight == NoFlight && s.versions == [])
    && (s.load == Loaded ==> s.versions != [] && s.versions[|s.versions| - 1] == s.doc)
  }

  ghost predicate SavesKnown(s: State) {
    && (forall i :: 0 <= i < |s.queue| ==> s.queue[i] < |s.calledAt|)
    && (forall i :: 0 <= i < |s.calledAt| ==> s.calledAt[i] <= Current(s))
  }

  ghost predicate FlightKnown(s: State) {
    s.flight != NoFlight ==>
      && s.flight.save < |s.calledAt|
      && s.calledAt[s.flight.save] <= s.flight.version < |s.versions|
      && s.versions[s.flight.version] == s.flight.body
      && (s.flight.landed ==> Agrees(s.server, s.flight.body))
  }

  ghost predicate Inv(s: State) {
    ClientShape(s) && NothingLost(s) && SavesKnown(s) && FlightKnown(s)
  }

  lemma StepKeepsClient(s: State, e: Event)
    requires Inv(s)
    ensures ClientShape(Step(s, e)) && NothingLost(Step(s, e))
  {}

  lemma StepKeepsSaves(s: State, e: Event)
    requires Inv(s)
    ensures SavesKnown(Step(s, e)) && FlightKnown(Step(s, e))
  {}

  lemma {:induction false} RunKeepsInv(server: Doc, events: seq<Event>)
    ensures Inv(Run(Start(server), events))
  {
    if events != [] {
      var front := events[..|events| - 1];
      RunKeepsInv(server, front);
      StepKeepsClient(Run(Start(server), front), events[|events| - 1]);
      StepKeepsSaves(Run(Start(server), front), events[|events| - 1]);
    }
  }

  // ---------------------------------------------------------------------
  // What a resolved save means
  // ---------------------------------------------------------------------

  /** The server agrees, on all of its keys at once, with one document version not older than the save call. */
  ghost predicate Persisted(s: State, id: nat) {
    && id < |s.calledAt|
    && (s.versions != [] ==> exists j :: s.calledAt[id] <= j < |s.versions| && Agrees(s.server, s.versions[j]))
  }

  /** Whatever happened before (sets during a flight, failed flushes, queued saves), a save that resolves
    * without error has persisted. */
  lemma SaveResolvesPersisted(server: Doc, events: seq<Event>, e: Event, id: nat)
    requires ResolvesOk(Run(Start(server), events), e, id)
    ensures Persisted(Step(Run(Start(server), events), e), id)
  {
    RunKeepsInv(server, events);
    var s := Run(Start(server), events);
    if e == RespondOk {
      assert Agrees(s.server, s.versions[s.flight.version]);
    } else if s.versions != [] {
      assert s.load == Loaded;
      assert Agrees(s.server, s.versions[|s.versions| - 1]);
    }
  }

  /** In particular a value that stood from the save call on is on the server once the save resolves. */
  lemma SavedValueIsOnServer(server: Doc, events: seq<Event>, e: Event, id: nat, k: string, v: Value)
    requires ResolvesOk(Run(Start(server), events), e, id)
    requires var s := Step(Run(Start(server), events), e);
             s.versions != [] &&
             forall j :: 0 <= j < |s.versions| && id < |s.calledAt| && s.calledAt[id] <= j ==>
               k in s.versions[j] && s.versions[j][k] == v
    ensures var s := Step(Run(Start(server), events), e); k in s.server && s.server[k] == v
  {
    SaveResolvesPersisted(server, events, e, id);
  }

  // ---------------------------------------------------------------------
  // What the document holds
  // ---------------------------------------------------------------------

  // Read off the event list alone: whether the document is loaded, what was loaded, and the last edit of a key.

  function LoadAfter(events: seq<Event>): Load {
    if events == [] then Unloaded
    else
      var before := LoadAfter(events[..|events| - 1]);
      match events[|events| - 1]
      case Ensure => if before == Unloaded then Loading else before
      case GetOk(_) => if before == Loading then Loaded else before
      case GetFail => if before == Loading then LoadFailed else before
      case _ => before
  }

  /** What the one load gave: the document on the server at the start, or nothing when it could not be read. */
  function LoadedDoc(server: Doc, events: seq<Event>): Doc {
    if events == [] then map[]
    else
      var front, last := events[..|events| - 1], events[|events| - 1];
      if last.GetOk? && LoadAfter(front) == Loading then (if last.readable then server else map[])
      else LoadedDoc(server, front)
  }

  datatype LastEdit = Untouched | SetTo(value: Value) | Deleted

  /** The last set or delete of k that found the document loaded. */
  function LastEditOf(events: seq<Event>, k: string): LastEdit {
    if events == [] then Untouched
    else
      var front, last := events[..|events| - 1], events[|events| - 1];
      if LoadAfter(front) != Loaded then LastEditOf(front, k)
      else if last.Set? && last.key == k then SetTo(last.value)
      else if last.Delete? && last.key == k then Deleted
      else LastEditOf(front, k)
  }

  /** Key k of `doc` is as the last edit left it, or else as it was loaded. */
  ghost predicate HoldsLastEdit(doc: Doc, loaded: Doc, edit: LastEdit, k: string) {
    match edit
    case Untouched => (k in doc <==> k in loaded) && (k in doc ==> doc[k] == loaded[k])
    case SetTo(v) => k in doc && doc[k] == v
    case Deleted => k !in doc
  }

  /** Nothing reaches the server before the document is loaded, and nothing is edited. */
  lemma {:induction false} BeforeLoad(server: Doc, events: seq<Event>)
    ensures var s := Run(Start(server), events);
            && s.load == LoadAfter(events)
            && (s.load != Loaded ==> s.server == server && forall k :: LastEditOf(events, k) == Untouched)
  {
    if events != [] {
      BeforeLoad(server, events[..|events| - 1]);
      RunKeepsInv(server, events[..|events| - 1]);
    }
  }

  lemma DocStep(s: State, e: Event, k: string, loaded: Doc, edit: LastEdit)
    requires s.load == Loaded && HoldsLastEdit(s.doc, loaded, edit, k)
    ensures HoldsLastEdit(Step(s, e).doc, loaded,
                          if e.Set? && e.key == k then SetTo(e.value) else if e.Delete? && e.key == k then Deleted else edit,
                          k)
  {}

  /** In every run, once loaded, each key of the document has the value of its last `set`, is absent after a later
    * `delete`, and is otherwise as it was loaded. */
  lemma {:induction false} DocIsLastEdits(server: Doc, events: seq<Event>, k: string)
    ensures var s := Run(Start(server), events);
            && s.load == LoadAfter(events)
            && (s.load == Loaded ==> HoldsLastEdit(s.doc, LoadedDoc(server, events), LastEditOf(events, k), k))
  {
    if events != [] {
      var front, e := events[..|events| - 1], events[|events| - 1];
      var s := Run(Start(server), front);
      DocIsLastEdits(server, front, k);
      BeforeLoad(server, front);
      if s.load == Loaded {
        DocStep(s, e, k, LoadedDoc(server, front), LastEditOf(front, k));
      } else {
        assert LastEditOf(front, k) == Untouched == LastEditOf(events, k);
      }
    }
  }

  /** `set` on a loaded document: that key, and no other. */
  lemma SetStores(s: State, k: string, v: Value)
    requires s.load == Loaded
    ensures var t := Step(s, Set(k, v));
            && t.dirty && k in t.doc && t.doc[k] == v
            && t.doc - {k} == s.doc - {k} && t.server == s.server
  {}

  // ---------------------------------------------------------------------
  // Sets and saves
  // ---------------------------------------------------------------------

  predicate Edits(e: Event, k: string) { (e.Set? || e.Delete?) && e.key == k }

  /** From document version `from` on, k has value v in every version. */
  ghost predicate StandsFrom(s: State, from: nat, k: string, v: Value) {
    && s.load == Loaded && from < |s.versions| && k in s.doc && s.doc[k] == v
    && (forall j :: from <= j < |s.versions| ==> k in s.versions[j] && s.versions[j][k] == v)
  }

  lemma StandsStep(s: State, e: Event, from: nat, k: string, v: Value, saves: nat)
    requires Inv(s) && StandsFrom(s, from, k, v) && !Edits(e, k) && saves <= |s.calledAt|
    requires forall i :: saves <= i < |s.calledAt| ==> from <= s.calledAt[i]
    ensures var t := Step(s, e);
            && StandsFrom(t, from, k, v) && saves <= |t.calledAt|
            && (forall i :: saves <= i < |t.calledAt| ==> from <= t.calledAt[i])
  {}

  lemma {:induction false} StandsRun(s: State, events: seq<Event>, from: nat, k: string, v: Value)
    requires Inv(s) && StandsFrom(s, from, k, v)
    requires forall i :: 0 <= i < |events| ==> !Edits(events[i], k)
    ensures var t := Run(s, events);
            && Inv(t) && StandsFrom(t, from, k, v) && |s.calledAt| <= |t.calledAt|
            && (forall i :: |s.calledAt| <= i < |t.calledAt| ==> from <= t.calledAt[i])
  {
    if events != [] {
      var front, e := events[..|events| - 1], events[|events| - 1];
      StandsRun(s, front, from, k, v);
      StandsStep(Run(s, front), e, from, k, v, |s.calledAt|);
      StepKeepsClient(Run(s, front), e);
      StepKeepsSaves(Run(s, front), e);
    }
  }

  /** A value that was set, and not edited again, is on the server when any save called after the set resolves:
    * whatever else is set or deleted, however flushes fail, and whatever the server can read. */
  lemma SetThenSave(server: Doc, before: seq<Event>, k: string, v: Value, after: seq<Event>, e: Event, id: nat)
    requires LoadAfter(before) == Loaded
    requires forall i :: 0 <= i < |after| ==> !Edits(after[i], k)
    requires var s := Step(Run(Start(server), before), Set(k, v));
             id >= |s.calledAt| && ResolvesOk(Run(s, after), e, id)
    ensures var t := Step(Run(Step(Run(Start(server), before), Set(k, v)), after), e); k in t.server && t.server[k] == v
  {
    var r := Run(Start(server), before);
    RunKeepsInv(server, before);
    BeforeLoad(server, before);
    StepKeepsClient(r, Set(k, v));
    StepKeepsSaves(r, Set(k, v));
    var s := Step(r, Set(k, v));
    StandsRun(s, after, |s.versions| - 1, k, v);
    ResolvedStands(Run(s, after), e, id, |s.versions| - 1, k, v);
  }

  lemma ResolvedStands(s: State, e: Event, id: nat, from: nat, k: string, v: Value)
    requires Inv(s) && StandsFrom(s, from, k, v) && ResolvesOk(s, e, id) && id < |s.calledAt| && from <= s.calledAt[id]
    ensures var t := Step(s, e); k in t.server && t.server[k] == v
  {
    if e == RespondOk {
      assert Agrees(s.server, s.versions[s.flight.version]);
    }
  }

  /** One undisturbed flush brings the server up to date with the document, whatever it can read. */
  lemma FlushSyncs(s: State, readable: bool)
    requires Inv(s) && s.load == Loaded && s.flight == NoFlight && s.queue != []
    ensures var t := Step(Step(Step(s, Turn), Land(readable)), RespondOk);
            && t.doc == s.doc && !t.dirty && t.flight == NoFlight && t.queue == s.queue[1..]
            && Agrees(t.server, t.doc)
  {}

  // ---------------------------------------------------------------------
  // Deletes
  // ---------------------------------------------------------------------

  /** One step takes key k off the server exactly when it merges, into a file it cannot read, a body without k. */
  lemma KeyLostExactly(s: State, e: Event, k: string)
    requires k in s.server
    ensures k !in Step(s, e).server <==> e == Land(false) && AboutToLand(s) && k !in s.flight.body
  {}

  /** Some PUT of the run was merged into a file that could not be read. */
  predicate Wiped(s: State, events: seq<Event>) {
    events != [] &&
    var front := events[..|events| - 1];
    Wiped(s, front) || (events[|events| - 1] == Land(false) && AboutToLand(Run(s, front)))
  }

  /** Over any run in which the file can be read at every merge, no key ever leaves the server. */
  lemma {:induction false} ServerKeysNeverShrink(s: State, events: seq<Event>)
    ensures !Wiped(s, events) ==> s.server.Keys <= Run(s, events).server.Keys
  {
    if events != [] {
      ServerKeysNeverShrink(s, events[..|events| - 1]);
    }
  }

  /** Neither the document nor a body still to land holds k. */
  predicate Without(s: State, k: string) {
    k !in s.doc && (AboutToLand(s) ==> k !in s.flight.body)
  }

  lemma WithoutStep(s: State, k: string, e: Event)
    requires s.load == Loaded && Without(s, k) && !(e.Set? && e.key == k)
    ensures var t := Step(s, e);
            && t.load == Loaded && Without(t, k)
            && (k in t.server <==> k in s.server && !(e == Land(false) && AboutToLand(s)))
            && (k in t.server ==> t.server[k] == s.server[k])
  {}

  /** What a local delete does to the server, in every run: as long as k is not set again, k stays on the server with
    * its value, unless some PUT was merged into a file that could not be read. */
  lemma {:induction false} DeletedKeyStays(s: State, k: string, events: seq<Event>)
    requires s.load == Loaded && Without(s, k)
    requires forall i :: 0 <= i < |events| ==> !(events[i].Set? && events[i].key == k)
    ensures var t := Run(s, events);
            && t.load == Loaded && Without(t, k)
            && (k in t.server <==> k in s.server && !Wiped(s, events))
            && (k in t.server ==> t.server[k] == s.server[k])
  {
    if events != [] {
      var front := events[..|events| - 1];
      DeletedKeyStays(s, k, front);
      WithoutStep(Run(s, front), k, events[|events| - 1]);
    }
  }

  /** A delete followed by a save that succeeds, from rest: everything resolves, the key is gone from the document, and
    * it is on the server afterwards exactly when it was there before and the file could be read. */
  lemma DeleteThenSave(s: State, k: string, readable: bool)
    requires Inv(s) && s.load == Loaded && s.queue == [] && s.flight == NoFlight
    ensures var t := Run(s, [Delete(k)] + [Save] + [Turn] + [Land(readable)] + [RespondOk]);
            && k !in t.doc && !t.dirty && t.flight == NoFlight && t.queue == []
            && Persisted(t, |s.calledAt|)
            && (k in t.server <==> k in s.server && readable)
            && (k in t.server ==> t.server[k] == s.server[k])
  {
    DeleteSteps(s, k, readable);
    RunAppend(s, [], Delete(k));
    assert [] + [Delete(k)] == [Delete(k)];
    RunAppend(s, [Delete(k)], Save);
    RunAppend(s, [Delete(k)] + [Save], Turn);
    RunAppend(s, [Delete(k)] + [Save] + [Turn], Land(readable));
    RunAppend(s, [Delete(k)] + [Save] + [Turn] + [Land(readable)], RespondOk);
  }

  lemma DeleteSteps(s: State, k: string, readable: bool)
    requires Inv(s) && s.load == Loaded && s.queue == [] && s.flight == NoFlight
    ensures var t := Step(Step(Step(Step(Step(s, Delete(k)), Save), Turn), Land(readable)), RespondOk);
            && t.doc == s.doc - {k} && t.server == ReadStored(s.server, readable) + (s.doc - {k})
            && !t.dirty && t.flight == NoFlight && t.queue == [] && Persisted(t, |s.calledAt|)
  {
    DeleteSent(s, k);
    SentLands(Step(Step(Step(s, Delete(k)), Save), Turn), readable);
  }

  lemma DeleteSent(s: State, k: string)
    requires Inv(s) && s.load == Loaded && s.queue == [] && s.flight == NoFlight
    ensures var b := Step(Step(Step(s, Delete(k)), Save), Turn);
            && b.doc == s.doc - {k} && b.server == s.server && !b.dirty && b.queue == []
            && b.flight == Flight(|s.calledAt|, s.doc - {k}, |s.versions|, false)
            && b.versions == s.versions + [s.doc - {k}] && b.calledAt == s.calledAt + [|s.versions|]
  {
    var a := Step(Step(s, Delete(k)), Save);
    assert a.queue == [|s.calledAt|];
  }

  /** A body in flight that lands and is answered is persisted. */
  lemma SentLands(b: State, readable: bool)
    requires AboutToLand(b) && FlightKnown(b)
    ensures var t := Step(Step(b, Land(readable)), RespondOk);
            && t == b.(flight := NoFlight, server := ReadStored(b.server, readable) + b.flight.body)
            && Persisted(t, b.flight.save)
  {
    var t := Step(Step(b, Land(readable)), RespondOk);
    assert Agrees(t.server, t.versions[b.flight.version]);
  }

  lemma RunAppend(s: State, x: seq<Event>, e: Event)
    ensures Run(s, x + [e]) == Step(Run(s, x), e)
  {
    assert (x + [e])[..|x|] == x;
  }

  // ---------------------------------------------------------------------
  // A failed load
  // ---------------------------------------------------------------------

  /** The rejected GET promise is cached: after it, no action loads the document or touches the server. */
  lemma {:induction false} FailedLoadIsForever(s: State, events: seq<Event>)
    requires Inv(s) && s.load == LoadFailed
    ensures var t := Run(s, events); t.load == LoadFailed && t.server == s.server && !t.dirty && t.flight == NoFlight
  {
    if events != [] {
      FailedLoadIsForever(s, events[..|events| - 1]);
    }
  }

  // ---------------------------------------------------------------------
  // The client class
  // ---------------------------------------------------------------------

  /** The source's fields, changed in place. `queue` and `inFlight` stand for the promise chain `saving`;
    * `world` records the same step on client, server and history together. */
  class HeadlessStore {
    var load: Load
    var doc: Doc
    var dirty: bool
    var queue: seq<nat>
    var calls: nat
    var inFlight: bool
    ghost var world: State

    ghost predicate Valid()
      reads this
    {
      && Inv(world)
      && load == world.load && doc == world.doc && dirty == world.dirty && queue == world.queue
      && calls == |world.calledAt| && (inFlight <==> world.flight != NoFlight)
    }

    constructor (ghost server: Doc)
      ensures Valid() && world == Start(server)
    {
      load, doc, dirty, queue, calls, inFlight := Unloaded, map[], false, [], 0, false;
      world := Start(server);
    }

    /** Records event e; every method below ends with it, and its precondition is that the fields moved alike. */
    ghost method Record(e: Event)
      requires Inv(world)
      modifies this`world
      ensures Inv(world) && world == Step(old(world), e)
    {
      StepKeepsClient(world, e);
      StepKeepsSaves(world, e);
      world := Step(world, e);
    }

    method EnsureLoading()
      requires Valid()
      modifies this
      ensures Valid() && world == Step(old(world), Ensure)
      ensures load == if old(load) == Unloaded then Loading else old(load)
    {
      if load == Unloaded {
        load := Loading;
      }
      Record(Ensure);
    }

    method OnGetOk(body: Doc, ghost readable: bool)
      requires Valid() && load == Loading && body == ReadStored(world.server, readable)
      modifies this
      ensures Valid() && world == Step(old(world), GetOk(readable))
      ensures load == Loaded && doc == if readable then old(world.server) else map[]
    {
      load, doc := Loaded, body;
      Record(GetOk(readable));
    }

    method OnGetFail()
      requires Valid() && load == Loading
      modifies this
      ensures Valid() && world == Step(old(world), GetFail) && load == LoadFailed
    {
      load := LoadFailed;
      Record(GetFail);
    }

    /** The part of `set` after `await this.ensure()`; after a failed load the await throws instead. */
    method SetKey(k: string, v: Value)
      requires Valid() && load == Loaded
      modifies this
      ensures Valid() && world == Step(old(world), Set(k, v))
      ensures dirty && k in doc && doc[k] == v && doc - {k} == old(doc) - {k}
    {
      doc := doc[k := v];
      dirty := true;
      Record(Set(k, v));
    }

    method DeleteKey(k: string)
      requires Valid() && load == Loaded
      modifies this
      ensures Valid() && world == Step(old(world), Delete(k))
      ensures dirty && doc == old(doc) - {k}
    {
      doc := doc - {k};
      dirty := true;
      Record(Delete(k));
    }

    method CallSave() returns (id: nat)
      requires Valid()
      modifies this
      ensures Valid() && world == Step(old(world), Save) && id == old(calls)
      ensures queue == old(queue) + [id] && doc == old(doc) && dirty == old(dirty)
    {
      id := calls;
      queue, calls := queue + [id], calls + 1;
      Record(Save);
    }

    /** `flush` up to its fetch, when the chain reaches it. `resolved` says the save resolved on the spot. */
    method StartFlush() returns (resolved: bool)
      requires Valid() && queue != [] && !inFlight
      modifies this
      ensures Valid() && world == Step(old(world), Turn)
      ensures queue == old(queue)[1..] && doc == old(doc) && (resolved <==> !old(dirty))
      ensures resolved ==> Persisted(world, old(queue[0]))
      ensures !resolved ==> inFlight && !dirty && world.flight.body == doc
    {
      queue := queue[1..];
      resolved := !dirty;
      if dirty {
        dirty := false;
        inFlight := true;
      }
      Record(Turn);
      assert resolved && world.versions != [] ==> Agrees(world.server, world.versions[|world.versions| - 1]);
    }

    method OnPutOk()
      requires Valid() && inFlight && world.flight.landed
      modifies this
      ensures Valid() && world == Step(old(world), RespondOk)
      ensures Persisted(world, old(world.flight.save)) && !inFlight && dirty == old(dirty) && doc == old(doc)
    {
      assert Agrees(world.server, world.versions[world.flight.version]);
      inFlight := false;
      Record(RespondOk);
    }

    method OnPutFail()
      requires Valid() && inFlight
      modifies this
      ensures Valid() && world == Step(old(world), RespondFail) && dirty && !inFlight && doc == old(doc)
    {
      inFlight := false;
      dirty := true;
      Record(RespondFail);
    }
  }
}
