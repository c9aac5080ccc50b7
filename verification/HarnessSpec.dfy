/**
 The harness store: what a state file means, what each call does to the entries, and why
 several stores that cache one file behave as one sequential map.
 */
module HarnessSpec {

  import opened Common

  datatype Json =
    | Null
    | Bool(flag: bool)
    | Int(number: int)
    | Float
    | Text(text: string)
    | List(items: seq<Json>)
    | Object(fields: map<string, Json>)

  const KINDS: set<string> := {"prompt", "memory", "skill", "subagent"}

  datatype Entry = Entry(
    id: string,
    kind: string,
    title: string,
    content: string,
    path: string,
    scope: string,
    reference: map<string, Json>,
    arguments: map<string, Json>,
    metadata: map<string, Json>,
    source: string,
    version: int)

  type Entries = map<string, map<string, Entry>>

  predicate Has(entries: Entries, kind: string, id: string) {
    kind in entries && id in entries[kind]
  }

  // ---- What a file means -------------------------------------------------------------

  function Get(json: Json, key: string): Json {
    if json.Object? && key in json.fields then json.fields[key] else Null
  }

  function TextOr(json: Json, default: string): string {
    if json.Text? then json.text else default
  }

  function FieldsOf(json: Json): map<string, Json> {
    if json.Object? then json.fields else map[]
  }

  /** A version may have been written as a number, as text, or as anything at all. */
  function Version(parseInt: string -> Option<int>, json: Json): int {
    match json
    case Int(n) => n
    case Bool(b) => if b then 1 else 0
    case Text(s) => if parseInt(s).Some? then parseInt(s).value else 1
    case _ => 1
  }

  /** A record without a title or a content is dropped; every other field is repaired. */
  function ParseEntry(parseInt: string -> Option<int>, own: string, kind: string, id: string,
                      raw: Json): Option<Entry> {
    if !raw.Object? || !Get(raw, "title").Text? || !Get(raw, "content").Text? then None
    else
      var scope := Get(raw, "scope");
      Some(Entry(
             id, kind, Get(raw, "title").text, Get(raw, "content").text,
             TextOr(Get(raw, "path"), "general"),
             if scope == Text("local") || scope == Text("global") then scope.text else own,
             FieldsOf(Get(raw, "reference")), FieldsOf(Get(raw, "arguments")), FieldsOf(Get(raw, "metadata")),
             TextOr(Get(raw, "source"), "agent"),
             Version(parseInt, Get(raw, "version"))))
  }

  function ParseKind(parseInt: string -> Option<int>, own: string, kind: string, raw: Json): map<string, Entry> {
    map id | id in FieldsOf(raw) && ParseEntry(parseInt, own, kind, id, FieldsOf(raw)[id]).Some?
      :: ParseEntry(parseInt, own, kind, id, FieldsOf(raw)[id]).value
  }

  /** Anything that is not an object, a corrupt file included, reads as empty. */
  function Parse(parseInt: string -> Option<int>, own: string, file: Json): (entries: Entries)
    ensures entries.Keys == KINDS
  {
    map kind | kind in KINDS :: ParseKind(parseInt, own, kind, Get(Get(file, "entries"), kind))
  }

  predicate IsText(fields: map<string, Json>, key: string) {
    key in fields && fields[key].Text?
  }

  /** Which records of a file are read: those with a title and a content, whatever else is missing or ill-typed. */
  lemma ReadExactlyWhen(parseInt: string -> Option<int>, own: string, fields: map<string, Json>,
                        entries: map<string, Json>, records: map<string, Json>, kind: string, id: string)
    requires "entries" in fields && fields["entries"] == Object(entries)
    requires kind in KINDS && kind in entries && entries[kind] == Object(records)
    ensures var m := Parse(parseInt, own, Object(fields));
            Has(m, kind, id) <==> id in records && records[id].Object?
                                  && IsText(records[id].fields, "title") && IsText(records[id].fields, "content")
  {
    assert Get(Get(Object(fields), "entries"), kind) == Object(records);
  }

  function DumpEntry(e: Entry): Json {
    Object(map[
             "id" := Text(e.id), "kind" := Text(e.kind), "title" := Text(e.title), "content" := Text(e.content),
             "path" := Text(e.path), "scope" := Text(e.scope), "reference" := Object(e.reference),
             "arguments" := Object(e.arguments), "metadata" := Object(e.metadata), "source" := Text(e.source),
             "version" := Int(e.version)])
  }

  function DumpKind(entries: map<string, Entry>): Json {
    Object(map id | id in entries :: DumpEntry(entries[id]))
  }

  function Dump(entries: Entries): Json {
    Object(map["schema" := Int(1), "entries" := Object(map kind | kind in entries :: DumpKind(entries[kind]))])
  }

  /** Entries stand under their own kind and id, with a known scope. */
  ghost predicate Proper(entries: Entries) {
    && entries.Keys == KINDS
    && forall kind, id :: kind in entries && id in entries[kind] ==> ProperEntry(entries[kind][id], kind, id)
  }

  predicate ProperEntry(e: Entry, kind: string, id: string) {
    e.id == id && e.kind == kind && (e.scope == "local" || e.scope == "global")
  }

  predicate Scope(s: string) { s == "local" || s == "global" }

  lemma ParsedIsProper(parseInt: string -> Option<int>, own: string, file: Json)
    requires Scope(own)
    ensures Proper(Parse(parseInt, own, file))
  {
  }

  lemma EntryRoundTrip(parseInt: string -> Option<int>, own: string, e: Entry)
    requires ProperEntry(e, e.kind, e.id)
    ensures ParseEntry(parseInt, own, e.kind, e.id, DumpEntry(e)) == Some(e)
  {
  }

  lemma KindRoundTrip(parseInt: string -> Option<int>, own: string, kind: string, entries: map<string, Entry>)
    requires forall id :: id in entries ==> ProperEntry(entries[id], kind, id)
    ensures ParseKind(parseInt, own, kind, DumpKind(entries)) == entries
  {
    forall id | id in entries
      ensures ParseEntry(parseInt, own, kind, id, DumpEntry(entries[id])) == Some(entries[id])
    {
      EntryRoundTrip(parseInt, own, entries[id]);
    }
  }

  /** Loading undoes saving, whatever the reading store's own scope. */
  lemma RoundTrip(parseInt: string -> Option<int>, own: string, entries: Entries)
    requires Proper(entries)
    ensures Parse(parseInt, own, Dump(entries)) == entries
  {
    forall kind | kind in KINDS
      ensures ParseKind(parseInt, own, kind, Get(Get(Dump(entries), "entries"), kind)) == entries[kind]
    {
      KindRoundTrip(parseInt, own, kind, entries[kind]);
    }
  }

  // ---- One call on a map ----------------------------------------------------------------

  /** What a call gives for an entry; an omitted field keeps what is there. */
  datatype Change = Change(
    title: string,
    content: string,
    path: Option<string>,
    reference: Option<map<string, Json>>,
    arguments: Option<map<string, Json>>,
    metadata: Option<map<string, Json>>,
    source: string)

  datatype Op =
    | Upsert(kind: string, id: string, change: Change)
    | Create(kind: string, id: string, change: Change)
    | Update(kind: string, id: string, change: Change)
    | Delete(kind: string, id: string)
    | Read(kind: string, id: string)

  datatype Answer = Written(entry: Entry) | Deleted(found: bool) | Found(result: Option<Entry>) | Error

  function Or<T>(given: Option<T>, default: T): T {
    if given.Some? then given.value else default
  }

  function NewEntry(kind: string, id: string, c: Change, own: string): Entry {
    Entry(id, kind, c.title, c.content, Or(c.path, "general"), own,
          Or(c.reference, map[]), Or(c.arguments, map[]), Or(c.metadata, map[]), c.source, 1)
  }

  function Changed(e: Entry, c: Change): Entry {
    e.(title := c.title, content := c.content, path := Or(c.path, e.path), reference := Or(c.reference, e.reference),
       arguments := Or(c.arguments, e.arguments), metadata := Or(c.metadata, e.metadata), source := c.source,
       version := e.version + 1)
  }

  /** The call refuses: an unknown kind, a creation over an entry, an update of none. */
  predicate Refused(entries: Entries, op: Op) {
    || op.kind !in entries
    || (op.Create? && Has(entries, op.kind, op.id))
    || (op.Update? && !Has(entries, op.kind, op.id))
  }

  function Perform(entries: Entries, op: Op, own: string): (Entries, Answer) {
    if Refused(entries, op) then (entries, Error)
    else if op.Read? then
      (entries, Found(if Has(entries, op.kind, op.id) then Some(entries[op.kind][op.id]) else None))
    else if op.Delete? then
      (entries[op.kind := entries[op.kind] - {op.id}], Deleted(Has(entries, op.kind, op.id)))
    else
      var e := if Has(entries, op.kind, op.id) then Changed(entries[op.kind][op.id], op.change)
               else NewEntry(op.kind, op.id, op.change, own);
      (entries[op.kind := entries[op.kind][op.id := e]], Written(e))
  }

  predicate Writes(entries: Entries, op: Op) {
    !Refused(entries, op) && !op.Read? && (op.Delete? ==> Has(entries, op.kind, op.id))
  }

  lemma PerformIsProper(entries: Entries, op: Op, own: string)
    requires Proper(entries) && Scope(own)
    ensures Proper(Perform(entries, op, own).0)
    ensures !Writes(entries, op) ==> Perform(entries, op, own).0 == entries
  {
    if op.kind in entries && op.Delete? && op.id !in entries[op.kind] {
      assert entries[op.kind] - {op.id} == entries[op.kind];
    }
  }

  // ---- Several stores, one file -------------------------------------------------------------

  datatype File = File(json: Json, mtime: nat)

  /** One store's copy of the entries, and the file it took them from. */
  datatype Cache = Cache(entries: Entries, loadedMtime: Option<nat>, own: string)

  function Mtime(disk: Option<File>): Option<nat> {
    if disk.Some? then Some(disk.value.mtime) else None
  }

  const NOTHING: Entries := map kind | kind in KINDS :: map[]

  function Content(disk: Option<File>): Option<Json> {
    if disk.Some? then Some(disk.value.json) else None
  }

  /** The map that the content of a file stands for, to a store of scope `own`; a missing file stands for no entries. */
  function Shared(parseInt: string -> Option<int>, own: string, content: Option<Json>): (entries: Entries)
    ensures entries.Keys == KINDS
  {
    if content.Some? then Parse(parseInt, own, content.value) else NOTHING
  }

  function Meaning(parseInt: string -> Option<int>, own: string, disk: Option<File>): (entries: Entries)
    ensures entries.Keys == KINDS
  {
    Shared(parseInt, own, Content(disk))
  }

  lemma SharedIsProper(parseInt: string -> Option<int>, own: string, content: Option<Json>)
    requires Scope(own)
    ensures Proper(Shared(parseInt, own, content))
  {
    if content.Some? {
      ParsedIsProper(parseInt, own, content.value);
    }
  }

  /** A cache that would not reload holds what the file means. */
  ghost predicate Coherent(parseInt: string -> Option<int>, c: Cache, disk: Option<File>) {
    && Scope(c.own) && c.entries.Keys == KINDS
    && (c.loadedMtime == Mtime(disk) ==> c.entries == Meaning(parseInt, c.own, disk))
  }

  /** A write is fresh when no store has seen its time, which is how a rewritten file is noticed. */
  ghost predicate Fresh(mtime: nat, stores: seq<Cache>) {
    forall k :: 0 <= k < |stores| ==> stores[k].loadedMtime != Some(mtime)
  }

  function Synced(parseInt: string -> Option<int>, c: Cache, disk: Option<File>): Cache {
    if c.loadedMtime == Mtime(disk) then c
    else if disk == None then c.(loadedMtime := None)
    else c.(entries := Parse(parseInt, c.own, disk.value.json), loadedMtime := Mtime(disk))
  }

  datatype Outcome = Outcome(cache: Cache, disk: Option<File>, answer: Answer)

  /** One public call: reload if the file was rewritten, work on the copy, write the file if anything changed. */
  function Call(parseInt: string -> Option<int>, c: Cache, disk: Option<File>, op: Op, mtime: nat): Outcome {
    var s := Synced(parseInt, c, disk);
    var (entries, answer) := Perform(s.entries, op, c.own);
    if Writes(s.entries, op)
    then Outcome(Cache(entries, Some(mtime), c.own), Some(File(Dump(entries), mtime)), answer)
    else Outcome(s, disk, answer)
  }

  /** Files do not vanish once a store has seen them. */
  predicate NotLost(c: Cache, disk: Option<File>) {
    disk == None ==> c.loadedMtime == None
  }

  /** A call behaves as on the shared map, memory equals the file after it, and no update of another store is lost. */
  lemma CallIsAtomic(parseInt: string -> Option<int>, c: Cache, disk: Option<File>, op: Op, mtime: nat)
    requires Coherent(parseInt, c, disk) && NotLost(c, disk)
    ensures var o := Call(parseInt, c, disk, op, mtime);
            var (entries, answer) := Perform(Meaning(parseInt, c.own, disk), op, c.own);
            && o.answer == answer
            && Meaning(parseInt, c.own, o.disk) == entries
            && o.cache.entries == entries
            && o.cache.loadedMtime == Mtime(o.disk)
            && Coherent(parseInt, o.cache, o.disk)
  {
    var before := Meaning(parseInt, c.own, disk);
    assert Synced(parseInt, c, disk).entries == before;
    SharedIsProper(parseInt, c.own, Content(disk));
    PerformIsProper(before, op, c.own);
    RoundTrip(parseInt, c.own, Perform(before, op, c.own).0);
  }

  /** The call answers, and leaves the file, as on the shared map. */
  ghost predicate Atomic(parseInt: string -> Option<int>, c: Cache, disk: Option<File>, op: Op, mtime: nat) {
    var o := Call(parseInt, c, disk, op, mtime);
    (Meaning(parseInt, c.own, o.disk), o.answer) == Perform(Meaning(parseInt, c.own, disk), op, c.own)
  }

  /** The stores whose calls are all atomic are exactly the coherent ones: reading an entry that differs tells. */
  lemma AtomicExactlyWhenCoherent(parseInt: string -> Option<int>, c: Cache, disk: Option<File>)
    requires Scope(c.own) && c.entries.Keys == KINDS && NotLost(c, disk)
    ensures Coherent(parseInt, c, disk) <==> forall op, mtime :: Atomic(parseInt, c, disk, op, mtime)
  {
    var shared := Meaning(parseInt, c.own, disk);
    if Coherent(parseInt, c, disk) {
      forall op, mtime ensures Atomic(parseInt, c, disk, op, mtime) {
        CallIsAtomic(parseInt, c, disk, op, mtime);
      }
    } else {
      var kind :| kind in KINDS && c.entries[kind] != shared[kind];
      var id := Difference(c.entries[kind], shared[kind]);
      assert !Atomic(parseInt, c, disk, Read(kind, id), 0);
    }
  }

  lemma Difference<V>(a: map<string, V>, b: map<string, V>) returns (id: string)
    requires a != b
    ensures (id in a) != (id in b) || (id in a && id in b && a[id] != b[id])
  {
    if a.Keys == b.Keys {
      id :| id in a && a[id] != b[id];
    } else {
      id :| id in a.Keys + b.Keys && (id in a) != (id in b);
    }
  }

  /** What a call leaves when the copy it started from was up to date. */
  ghost predicate Worked(before: Entries, disk: Option<File>, op: Op, mtime: nat, c: Cache, disk': Option<File>,
                         answer: Answer) {
    && (c.entries, answer) == Perform(before, op, c.own)
    && disk' == (if Writes(before, op) then Some(File(Dump(c.entries), mtime)) else disk)
    && c.loadedMtime == Mtime(disk')
  }

  datatype World = World(disk: Option<File>, stores: seq<Cache>)

  /** One of the stores is called, or something else rewrites the file. */
  datatype Event =
    | Calls(store: nat, op: Op)
    | Rewritten(json: Json)

  /** Every store has its scope from `owners`, and its copy is coherent. */
  ghost predicate WorldInv(parseInt: string -> Option<int>, w: World, owners: seq<string>) {
    && |w.stores| == |owners|
    && forall k :: 0 <= k < |owners| ==>
         && Scope(owners[k]) && w.stores[k].own == owners[k]
         && Coherent(parseInt, w.stores[k], w.disk) && NotLost(w.stores[k], w.disk)
  }

  ghost predicate Next(parseInt: string -> Option<int>, w: World, e: Event, mtime: nat, answer: Answer, w': World) {
    && Fresh(mtime, w.stores)
    && match e
       case Calls(k, op) =>
         && k < |w.stores|
         && var o := Call(parseInt, w.stores[k], w.disk, op, mtime);
            w' == World(o.disk, w.stores[k := o.cache]) && answer == o.answer
       case Rewritten(json) => w' == World(Some(File(json, mtime)), w.stores)
  }

  /** The content of the file after one event, had it been the only copy. */
  function Step(parseInt: string -> Option<int>, content: Option<Json>, e: Event, owners: seq<string>): Option<Json> {
    match e
    case Rewritten(json) => Some(json)
    case Calls(k, op) =>
      var own := if k < |owners| then owners[k] else "local";
      var before := Shared(parseInt, own, content);
      if Writes(before, op) then Some(Dump(Perform(before, op, own).0)) else content
  }

  /** A store that takes no part in a write with a fresh time stamp stays coherent. */
  lemma OthersStayCoherent(parseInt: string -> Option<int>, c: Cache, disk: Option<File>, mtime: nat,
                           disk': Option<File>)
    requires Coherent(parseInt, c, disk) && NotLost(c, disk) && c.loadedMtime != Some(mtime)
    requires disk' == disk || Mtime(disk') == Some(mtime)
    ensures Coherent(parseInt, c, disk') && NotLost(c, disk')
  {
  }

  /** Every step is a step of the one shared map, whichever store takes it, of whatever scope. */
  lemma StepIsSequential(parseInt: string -> Option<int>, w: World, e: Event, mtime: nat, answer: Answer, w': World,
                         owners: seq<string>)
    requires WorldInv(parseInt, w, owners) && Next(parseInt, w, e, mtime, answer, w')
    ensures WorldInv(parseInt, w', owners)
    ensures Content(w'.disk) == Step(parseInt, Content(w.disk), e, owners)
    ensures e.Calls? ==>
              var own := owners[e.store];
              && answer == Perform(Meaning(parseInt, own, w.disk), e.op, own).1
              && w'.stores[e.store].entries == Perform(Meaning(parseInt, own, w.disk), e.op, own).0
              && w'.stores[e.store].entries == Meaning(parseInt, own, w'.disk)
  {
    forall k | 0 <= k < |owners| && !(e.Calls? && e.store == k)
      ensures Coherent(parseInt, w'.stores[k], w'.disk) && NotLost(w'.stores[k], w'.disk)
    {
      OthersStayCoherent(parseInt, w.stores[k], w.disk, mtime, w'.disk);
    }
    if e.Calls? {
      CallIsAtomic(parseInt, w.stores[e.store], w.disk, e.op, mtime);
    }
  }

  /** What the one file, used by everybody in turn, would hold. */
  function Sequential(parseInt: string -> Option<int>, content: Option<Json>, es: seq<Event>,
                      owners: seq<string>): Option<Json> {
    if es == [] then content
    else Step(parseInt, Sequential(parseInt, content, es[..|es| - 1], owners), es[|es| - 1], owners)
  }

  ghost predicate IsRun(parseInt: string -> Option<int>, ws: seq<World>, es: seq<Event>, mtimes: seq<nat>,
                        answers: seq<Answer>) {
    && |ws| == |es| + 1 && |mtimes| == |answers| == |es|
    && forall k :: 0 <= k < |es| ==> Next(parseInt, ws[k], es[k], mtimes[k], answers[k], ws[k + 1])
  }

  /**
   Over any run, any number of stores, of either scope, answer as one sequential map would,
   and none of their updates is lost.
   */
  lemma {:induction false} RunIsSequential(
    parseInt: string -> Option<int>, ws: seq<World>, es: seq<Event>, mtimes: seq<nat>, answers: seq<Answer>,
    owners: seq<string>, k: nat)
    requires IsRun(parseInt, ws, es, mtimes, answers) && WorldInv(parseInt, ws[0], owners) && k <= |es|
    ensures WorldInv(parseInt, ws[k], owners)
    ensures Content(ws[k].disk) == Sequential(parseInt, Content(ws[0].disk), es[..k], owners)
    ensures k > 0 && es[k - 1].Calls? ==>
              var own := owners[es[k - 1].store];
              var before := Shared(parseInt, own, Sequential(parseInt, Content(ws[0].disk), es[..k - 1], owners));
              answers[k - 1] == Perform(before, es[k - 1].op, own).1
  {
    if k > 0 {
      RunIsSequential(parseInt, ws, es, mtimes, answers, owners, k - 1);
      StepIsSequential(parseInt, ws[k - 1], es[k - 1], mtimes[k - 1], answers[k - 1], ws[k], owners);
      assert es[..k][..k - 1] == es[..k - 1];
    } else {
      assert es[..0] == [];
    }
  }

  /** A store that sees no new time stamp works on its own copy, whatever the file holds by now. */
  lemma SameStampIsNotReloaded(parseInt: string -> Option<int>, c: Cache, disk: Option<File>, op: Op, mtime: nat)
    requires c.loadedMtime == Mtime(disk) && Proper(c.entries) && Scope(c.own) && Writes(c.entries, op)
    ensures Meaning(parseInt, c.own, Call(parseInt, c, disk, op, mtime).disk) == Perform(c.entries, op, c.own).0
  {
    PerformIsProper(c.entries, op, c.own);
    RoundTrip(parseInt, c.own, Perform(c.entries, op, c.own).0);
  }

  /** A creation by a store that knows the file with time stamp 1 as empty, whatever that file holds by now. */
  lemma StampedCreate(parseInt: string -> Option<int>, c: Change, id: string, file: File)
    requires file.mtime == 1
    ensures var o := Call(parseInt, Cache(NOTHING, Some(1), "local"), Some(file), Create("memory", id, c), 1);
            && o.answer == Written(NewEntry("memory", id, c, "local"))
            && o.disk.Some? && o.disk.value.mtime == 1
            && forall other :: Has(Meaning(parseInt, "local", o.disk), "memory", other) <==> other == id
  {
    var op := Create("memory", id, c);
    var o := Call(parseInt, Cache(NOTHING, Some(1), "local"), Some(file), op, 1);
    assert o.disk == Some(File(Dump(Perform(NOTHING, op, "local").0), 1));
    SameStampIsNotReloaded(parseInt, Cache(NOTHING, Some(1), "local"), Some(file), op, 1);
  }

  /**
   Two stores create an entry each within one time stamp. Both are told that theirs is
   written, and the first one's is gone.
   */
  lemma StaleStampLosesUpdate(parseInt: string -> Option<int>, c: Change)
    ensures var store, file := Cache(NOTHING, Some(1), "local"), Some(File(Dump(NOTHING), 1));
            var first := Call(parseInt, store, file, Create("memory", "x", c), 1);
            var second := Call(parseInt, store, first.disk, Create("memory", "y", c), 1);
            && Coherent(parseInt, store, file)
            && first.answer.Written? && Has(Meaning(parseInt, "local", first.disk), "memory", "x")
            && second.answer.Written? && !Has(Meaning(parseInt, "local", second.disk), "memory", "x")
            && !Coherent(parseInt, store, first.disk)
  {
    RoundTrip(parseInt, "local", NOTHING);
    var file := File(Dump(NOTHING), 1);
    StampedCreate(parseInt, c, "x", file);
    var first := Call(parseInt, Cache(NOTHING, Some(1), "local"), Some(file), Create("memory", "x", c), 1);
    StampedCreate(parseInt, c, "y", first.disk.value);
  }

  // ---- What a call leaves to be read -----------------------------------------------------------

  function At(entries: Entries, kind: string, id: string): Option<Entry> {
    if Has(entries, kind, id) then Some(entries[kind][id]) else None
  }

  /**
   An entry as it must be after a write: what the call gave and, where it gave nothing, what was
   there before, or the default of a new entry.
   */
  ghost predicate WrittenAs(e: Entry, before: Option<Entry>, kind: string, id: string, given: Change, own: string) {
    && e.kind == kind && e.id == id
    && e.title == given.title && e.content == given.content && e.source == given.source
    && (given.path.Some? ==> e.path == given.path.value)
    && (given.reference.Some? ==> e.reference == given.reference.value)
    && (given.arguments.Some? ==> e.arguments == given.arguments.value)
    && (given.metadata.Some? ==> e.metadata == given.metadata.value)
    && (before == None ==>
          && e.scope == own && e.version == 1
          && (given.path == None ==> e.path == "general")
          && (given.reference == None ==> e.reference == map[])
          && (given.arguments == None ==> e.arguments == map[])
          && (given.metadata == None ==> e.metadata == map[]))
    && (before.Some? ==>
          && e.scope == before.value.scope && e.version == before.value.version + 1
          && (given.path == None ==> e.path == before.value.path)
          && (given.reference == None ==> e.reference == before.value.reference)
          && (given.arguments == None ==> e.arguments == before.value.arguments)
          && (given.metadata == None ==> e.metadata == before.value.metadata))
  }

  /** A record of a title and a content alone reads as an entry created with no more than those. */
  lemma BareRecordReadsAsCreated(parseInt: string -> Option<int>, own: string, kind: string, id: string,
                                 title: string, content: string)
    ensures var record := Object(map["title" := Text(title), "content" := Text(content)]);
            var e := ParseEntry(parseInt, own, kind, id, record);
            && e.Some?
            && WrittenAs(e.value, None, kind, id, Change(title, content, None, None, None, None, "agent"), own)
  {
  }

  /** The number that a version spells: as a number, as text, or as a flag, which counts as 1 or 0. */
  predicate SpellsVersion(parseInt: string -> Option<int>, json: Json, n: int) {
    || json == Int(n)
    || (json.Text? && parseInt(json.text) == Some(n))
    || (n == 1 && json == Bool(true))
    || (n == 0 && json == Bool(false))
  }

  lemma VersionIsSpelled(parseInt: string -> Option<int>, own: string, kind: string, id: string,
                         fields: map<string, Json>, n: int)
    requires "version" in fields && SpellsVersion(parseInt, fields["version"], n)
    ensures var e := ParseEntry(parseInt, own, kind, id, Object(fields));
            e.Some? ==> e.value.version == n
  {
  }

  /** The field cannot be what the key asks for. */
  predicate IllTyped(parseInt: string -> Option<int>, key: string, field: Json) {
    if key == "path" || key == "source" then !field.Text?
    else if key == "scope" then field != Text("local") && field != Text("global")
    else if key == "version" then
      !field.Int? && !field.Bool? && (field.Text? ==> parseInt(field.text) == None)
    else key in {"reference", "arguments", "metadata"} && !field.Object?
  }

  /** Such a field is read as if it were not there. */
  lemma IllTypedIsAbsent(parseInt: string -> Option<int>, own: string, kind: string, id: string,
                         fields: map<string, Json>, key: string)
    requires key in fields && IllTyped(parseInt, key, fields[key])
    ensures ParseEntry(parseInt, own, kind, id, Object(fields))
            == ParseEntry(parseInt, own, kind, id, Object(fields - {key}))
  {
    assert forall other :: other != key ==> Get(Object(fields), other) == Get(Object(fields - {key}), other);
  }

  /** One entry is written, field by field, or deleted, and every other is left. */
  lemma PerformWrites(entries: Entries, op: Op, own: string, kind: string, id: string)
    requires Proper(entries)
    ensures var (after, answer) := Perform(entries, op, own);
            && (kind == op.kind && id == op.id && answer.Written? ==>
                  && (op.Upsert? || op.Create? || op.Update?)
                  && At(after, kind, id) == Some(answer.entry)
                  && WrittenAs(answer.entry, At(entries, kind, id), kind, id, op.change, own))
            && (kind == op.kind && id == op.id && answer.Deleted? ==> At(after, kind, id) == None)
            && (kind != op.kind || id != op.id ==> At(after, kind, id) == At(entries, kind, id))
  {
  }

  /** What a store reads under a kind and an id. */
  function ReadBy(parseInt: string -> Option<int>, c: Cache, disk: Option<File>, kind: string, id: string)
    : Option<Entry>
  {
    var answer := Call(parseInt, c, disk, Read(kind, id), 0).answer;
    if answer.Found? then answer.result else None
  }

  lemma ReadByIs(parseInt: string -> Option<int>, c: Cache, disk: Option<File>, kind: string, id: string)
    requires Coherent(parseInt, c, disk) && NotLost(c, disk)
    ensures ReadBy(parseInt, c, disk, kind, id) == At(Meaning(parseInt, c.own, disk), kind, id)
  {
    CallIsAtomic(parseInt, c, disk, Read(kind, id), 0);
  }

  /** A call fails exactly for an unknown kind, a creation of what is there, an update of what is not. */
  lemma FailsExactlyWhen(parseInt: string -> Option<int>, c: Cache, disk: Option<File>, op: Op, mtime: nat)
    requires Coherent(parseInt, c, disk) && NotLost(c, disk)
    ensures var o, found := Call(parseInt, c, disk, op, mtime), ReadBy(parseInt, c, disk, op.kind, op.id).Some?;
            && (o.answer == Error <==> op.kind !in KINDS || (op.Create? && found) || (op.Update? && !found))
            && (o.answer == Error || op.Read? ==> o.disk == disk)
            && (op.kind in KINDS && op.Delete? ==> o.answer == Deleted(found))
  {
    ReadByIs(parseInt, c, disk, op.kind, op.id);
    CallIsAtomic(parseInt, c, disk, op, mtime);
  }

  /** A file that was written means to every store, of either scope, what the call made of it. */
  lemma MeaningAfter(parseInt: string -> Option<int>, c: Cache, disk: Option<File>, op: Op, mtime: nat, o: Outcome,
                     own: string)
    requires Coherent(parseInt, c, disk) && NotLost(c, disk) && o == Call(parseInt, c, disk, op, mtime)
    requires o.disk != disk || o.answer.Written?
    ensures var before := Meaning(parseInt, c.own, disk);
            && Proper(before) && o.answer == Perform(before, op, c.own).1
            && Meaning(parseInt, own, o.disk) == Perform(before, op, c.own).0
  {
    var before := Meaning(parseInt, c.own, disk);
    CallIsAtomic(parseInt, c, disk, op, mtime);
    assert Synced(parseInt, c, disk).entries == before;
    SharedIsProper(parseInt, c.own, Content(disk));
    PerformIsProper(before, op, c.own);
    RoundTrip(parseInt, own, Perform(before, op, c.own).0);
  }

  /**
   After a call that wrote the file, any store of it reads: the entry as the call gave it, field by
   field; nothing where the call deleted one; and elsewhere what the calling store read before.
   */
  lemma WrittenIsReadBack(parseInt: string -> Option<int>, c: Cache, disk: Option<File>, op: Op, mtime: nat,
                          o: Outcome, reader: Cache, kind: string, id: string)
    requires Coherent(parseInt, c, disk) && NotLost(c, disk) && o == Call(parseInt, c, disk, op, mtime)
    requires o.answer.Written? || o.disk != disk
    requires Coherent(parseInt, reader, o.disk) && NotLost(reader, o.disk)
    ensures var before := ReadBy(parseInt, c, disk, kind, id);
            var after := ReadBy(parseInt, reader, o.disk, kind, id);
            && (kind == op.kind && id == op.id && o.answer.Written? ==>
                  && (op.Upsert? || op.Create? || op.Update?)
                  && after == Some(o.answer.entry)
                  && WrittenAs(o.answer.entry, before, kind, id, op.change, c.own))
            && (kind == op.kind && id == op.id && op.Delete? ==> after == None)
            && (kind != op.kind || id != op.id ==> after == before)
  {
    MeaningAfter(parseInt, c, disk, op, mtime, o, reader.own);
    ReadByIs(parseInt, c, disk, kind, id);
    ReadByIs(parseInt, reader, o.disk, kind, id);
    PerformWrites(Meaning(parseInt, c.own, disk), op, c.own, kind, id);
    FailsExactlyWhen(parseInt, c, disk, op, mtime);
  }

  /** Stores of either scope read `r` under the kind and id. */
  ghost predicate Holds(parseInt: string -> Option<int>, content: Option<Json>, kind: string, id: string,
                        r: Option<Entry>) {
    && At(Shared(parseInt, "local", content), kind, id) == r
    && At(Shared(parseInt, "global", content), kind, id) == r
  }

  /** The event may change what is read there. */
  predicate Touches(e: Event, kind: string, id: string) {
    e.Rewritten? || (!e.op.Read? && e.op.kind == kind && e.op.id == id)
  }

  /** After a write the scope of the reader does not matter any more. */
  lemma WriteHolds(parseInt: string -> Option<int>, before: Entries, op: Op, own: string, kind: string, id: string)
    requires Scope(own) && Proper(before)
    ensures var after := Perform(before, op, own).0;
            Holds(parseInt, Some(Dump(after)), kind, id, At(after, kind, id))
  {
    PerformIsProper(before, op, own);
    var after := Perform(before, op, own).0;
    RoundTrip(parseInt, "local", after);
    RoundTrip(parseInt, "global", after);
  }

  lemma StepHolds(parseInt: string -> Option<int>, content: Option<Json>, e: Event, owners: seq<string>,
                  kind: string, id: string, r: Option<Entry>)
    requires forall k :: 0 <= k < |owners| ==> Scope(owners[k])
    requires Holds(parseInt, content, kind, id, r) && !Touches(e, kind, id)
    ensures Holds(parseInt, Step(parseInt, content, e, owners), kind, id, r)
  {
    var own := if e.store < |owners| then owners[e.store] else "local";
    var before := Shared(parseInt, own, content);
    assert At(before, kind, id) == r;
    if Writes(before, e.op) {
      SharedIsProper(parseInt, own, content);
      WriteHolds(parseInt, before, e.op, own, kind, id);
      StaysAt(before, e.op, own, kind, id);
    }
  }

  lemma StaysAt(entries: Entries, op: Op, own: string, kind: string, id: string)
    requires Proper(entries) && (op.Read? || kind != op.kind || id != op.id)
    ensures At(Perform(entries, op, own).0, kind, id) == At(entries, kind, id)
  {
  }

  lemma ReadHolds(parseInt: string -> Option<int>, content: Option<Json>, own: string, kind: string, id: string,
                  r: Option<Entry>)
    requires Scope(own) && kind in KINDS && Holds(parseInt, content, kind, id, r)
    ensures Perform(Shared(parseInt, own, content), Read(kind, id), own).1 == Found(r)
  {
  }

  lemma {:induction false} HoldsOn(
    parseInt: string -> Option<int>, ws: seq<World>, es: seq<Event>, mtimes: seq<nat>, answers: seq<Answer>,
    owners: seq<string>, i: nat, j: nat, kind: string, id: string, r: Option<Entry>)
    requires IsRun(parseInt, ws, es, mtimes, answers) && WorldInv(parseInt, ws[0], owners) && i <= j <= |es|
    requires Holds(parseInt, Content(ws[i].disk), kind, id, r)
    requires forall k :: i <= k < j ==> !Touches(es[k], kind, id)
    ensures Holds(parseInt, Content(ws[j].disk), kind, id, r)
  {
    if i < j {
      HoldsOn(parseInt, ws, es, mtimes, answers, owners, i, j - 1, kind, id, r);
      RunSteps(parseInt, ws, es, mtimes, answers, owners, j - 1);
      StepHolds(parseInt, Content(ws[j - 1].disk), es[j - 1], owners, kind, id, r);
    }
  }

  /** One event of a run. */
  lemma RunSteps(
    parseInt: string -> Option<int>, ws: seq<World>, es: seq<Event>, mtimes: seq<nat>, answers: seq<Answer>,
    owners: seq<string>, k: nat)
    requires IsRun(parseInt, ws, es, mtimes, answers) && WorldInv(parseInt, ws[0], owners) && k < |es|
    ensures forall n :: 0 <= n < |owners| ==> Scope(owners[n])
    ensures Content(ws[k + 1].disk) == Step(parseInt, Content(ws[k].disk), es[k], owners)
    ensures es[k].Calls? ==>
              && es[k].store < |owners|
              && var own := owners[es[k].store];
                 answers[k] == Perform(Shared(parseInt, own, Content(ws[k].disk)), es[k].op, own).1
  {
    RunIsSequential(parseInt, ws, es, mtimes, answers, owners, k);
    assert Next(parseInt, ws[k], es[k], mtimes[k], answers[k], ws[k + 1]);
    StepIsSequential(parseInt, ws[k], es[k], mtimes[k], answers[k], ws[k + 1], owners);
  }

  /** A call that answers that it wrote or deleted an entry leaves that to every reader. */
  lemma CallHolds(parseInt: string -> Option<int>, content: Option<Json>, op: Op, own: string, answer: Answer)
    requires Scope(own) && answer == Perform(Shared(parseInt, own, content), op, own).1
    requires answer.Written? || answer == Deleted(true)
    ensures var before := Shared(parseInt, own, content);
            && op.kind in KINDS && Writes(before, op)
            && Holds(parseInt, Some(Dump(Perform(before, op, own).0)), op.kind, op.id,
                     if answer.Written? then Some(answer.entry) else None)
  {
    var before := Shared(parseInt, own, content);
    SharedIsProper(parseInt, own, content);
    WriteHolds(parseInt, before, op, own, op.kind, op.id);
    PerformWrites(before, op, own, op.kind, op.id);
  }

  /**
   Over any run, a read by any store finds what the last write there answered, whichever store made
   it, as long as nothing else rewrote the file since; and nothing after a deletion.
   */
  lemma ReadFindsLastWrite(
    parseInt: string -> Option<int>, ws: seq<World>, es: seq<Event>, mtimes: seq<nat>, answers: seq<Answer>,
    owners: seq<string>, i: nat, j: nat)
    requires IsRun(parseInt, ws, es, mtimes, answers) && WorldInv(parseInt, ws[0], owners) && i < j < |es|
    requires es[i].Calls? && es[j].Calls? && es[j].op == Read(es[i].op.kind, es[i].op.id)
    requires answers[i].Written? || answers[i] == Deleted(true)
    requires forall k :: i < k < j ==> !Touches(es[k], es[i].op.kind, es[i].op.id)
    ensures answers[j] == Found(if answers[i].Written? then Some(answers[i].entry) else None)
  {
    var op, r := es[i].op, if answers[i].Written? then Some(answers[i].entry) else None;
    RunSteps(parseInt, ws, es, mtimes, answers, owners, i);
    CallHolds(parseInt, Content(ws[i].disk), op, owners[es[i].store], answers[i]);
    HoldsOn(parseInt, ws, es, mtimes, answers, owners, i + 1, j, op.kind, op.id, r);
    RunSteps(parseInt, ws, es, mtimes, answers, owners, j);
    ReadHolds(parseInt, Content(ws[j].disk), owners[es[j].store], op.kind, op.id, r);
  }

  // ---- Versions -----------------------------------------------------------------------------

  function VersionOf(entries: Entries, kind: string, id: string): Option<int> {
    if Has(entries, kind, id) then Some(entries[kind][id].version) else None
  }

  /** The version a file gives an entry, if it has one; scopes do not matter to it. */
  function VersionIn(parseInt: string -> Option<int>, content: Option<Json>, kind: string, id: string): Option<int> {
    VersionOf(Shared(parseInt, "local", content), kind, id)
  }

  lemma VersionOfAnyScope(parseInt: string -> Option<int>, own: string, content: Option<Json>, kind: string, id: string)
    ensures VersionIn(parseInt, content, kind, id) == VersionOf(Shared(parseInt, own, content), kind, id)
  {
  }

  /** How a call counts: 1 at the creation of the entry, one more at each write, nothing after its deletion. */
  function CountCall(n: Option<int>, op: Op, kind: string, id: string): Option<int> {
    if op.Read? || op.kind != kind || op.id != id || kind !in KINDS then n
    else if op.Delete? then None
    else if (op.Create? && n.Some?) || (op.Update? && n.None?) then n
    else Some(if n.Some? then n.value + 1 else 1)
  }

  lemma PerformCounts(entries: Entries, op: Op, own: string, kind: string, id: string)
    requires entries.Keys == KINDS
    ensures VersionOf(Perform(entries, op, own).0, kind, id) == CountCall(VersionOf(entries, kind, id), op, kind, id)
  {
  }

  /**
   The version an entry should have, from the events alone: what a file brought along, 1 at
   its creation, one more at each write, by whichever store.
   */
  function Counted(parseInt: string -> Option<int>, content: Option<Json>, es: seq<Event>, kind: string,
                   id: string): Option<int> {
    if es == [] then VersionIn(parseInt, content, kind, id)
    else
      match es[|es| - 1]
      case Rewritten(json) => VersionIn(parseInt, Some(json), kind, id)
      case Calls(_, op) => CountCall(Counted(parseInt, content, es[..|es| - 1], kind, id), op, kind, id)
  }

  lemma CallCounts(parseInt: string -> Option<int>, content: Option<Json>, own: string, op: Op, kind: string,
                   id: string)
    requires Scope(own)
    ensures var before := Shared(parseInt, own, content);
            var after := if Writes(before, op) then Some(Dump(Perform(before, op, own).0)) else content;
            VersionIn(parseInt, after, kind, id) == CountCall(VersionIn(parseInt, content, kind, id), op, kind, id)
  {
    var before := Shared(parseInt, own, content);
    VersionOfAnyScope(parseInt, own, content, kind, id);
    PerformCounts(before, op, own, kind, id);
    SharedIsProper(parseInt, own, content);
    PerformIsProper(before, op, own);
    RoundTrip(parseInt, "local", Perform(before, op, own).0);
  }

  lemma StepCounts(parseInt: string -> Option<int>, content: Option<Json>, e: Event, owners: seq<string>,
                   kind: string, id: string)
    requires forall k :: 0 <= k < |owners| ==> Scope(owners[k])
    ensures VersionIn(parseInt, Step(parseInt, content, e, owners), kind, id)
         == match e
            case Rewritten(json) => VersionIn(parseInt, Some(json), kind, id)
            case Calls(_, op) => CountCall(VersionIn(parseInt, content, kind, id), op, kind, id)
  {
    if e.Calls? {
      CallCounts(parseInt, content, if e.store < |owners| then owners[e.store] else "local", e.op, kind, id);
    }
  }

  lemma {:induction false} VersionsAreCounted(
    parseInt: string -> Option<int>, content: Option<Json>, es: seq<Event>, owners: seq<string>, kind: string,
    id: string)
    requires forall k :: 0 <= k < |owners| ==> Scope(owners[k])
    ensures VersionIn(parseInt, Sequential(parseInt, content, es, owners), kind, id)
            == Counted(parseInt, content, es, kind, id)
    decreases |es|
  {
    if es != [] {
      var init := es[..|es| - 1];
      VersionsAreCounted(parseInt, content, init, owners, kind, id);
      StepCounts(parseInt, Sequential(parseInt, content, init, owners), es[|es| - 1], owners, kind, id);
    }
  }

  /** From any file and over any events: an entry's version is the one it came with, or 1, plus its updates since. */
  lemma VersionCountsWritings(
    parseInt: string -> Option<int>, content: Option<Json>, es: seq<Event>, owners: seq<string>, own: string,
    kind: string, id: string)
    requires forall k :: 0 <= k < |owners| ==> Scope(owners[k])
    ensures VersionOf(Shared(parseInt, own, Sequential(parseInt, content, es, owners)), kind, id)
         == Counted(parseInt, content, es, kind, id)
  {
    VersionsAreCounted(parseInt, content, es, owners, kind, id);
    VersionOfAnyScope(parseInt, own, Sequential(parseInt, content, es, owners), kind, id);
  }

  // ---- Ids as they are displayed --------------------------------------------------------------

  /** The part of an id before its first colon, if it has one. */
  function BeforeColon(id: string): Option<nat> {
    if id == "" then None
    else if id[0] == ':' then Some(0)
    else if BeforeColon(id[1..]).Some? then Some(BeforeColon(id[1..]).value + 1)
    else None
  }

  lemma {:induction false} BeforeColonIsAColon(id: string)
    ensures BeforeColon(id).Some? ==> BeforeColon(id).value < |id| && id[BeforeColon(id).value] == ':'
  {
    if id != "" && id[0] != ':' {
      BeforeColonIsAColon(id[1..]);
    }
  }

  /** A displayed id names its scope; a global one goes to the global store. */
  function StripScopePrefix(id: string, global: bool): (string, bool) {
    var n := BeforeColon(id);
    if n.Some? && n.value < |id| && id[n.value + 1..] != "" && Scope(id[..n.value])
    then (id[n.value + 1..], global || id[..n.value] == "global")
    else (id, global)
  }

  /** Displayed ids are understood. */
  lemma DisplayedIds(scope: string, id: string, global: bool)
    requires Scope(scope) && id != ""
    ensures StripScopePrefix(scope + ":" + id, global) == (id, global || scope == "global")
  {
    ColonAfterScope(scope, id);
    var whole := scope + ":" + id;
    assert whole[..|scope|] == scope;
    assert whole[|scope| + 1..] == id;
  }

  lemma {:induction false} ColonAfterScope(scope: string, id: string)
    requires ':' !in scope
    ensures BeforeColon(scope + ":" + id) == Some(|scope|)
  {
    var whole := scope + ":" + id;
    if scope != "" {
      ColonAfterScope(scope[1..], id);
      assert whole[1..] == scope[1..] + ":" + id;
    }
  }

  /** Other ids are left alone. */
  lemma PlainIds(id: string, global: bool)
    requires !("local:" <= id) && !("global:" <= id)
    ensures StripScopePrefix(id, global) == (id, global)
  {
    BeforeColonIsAColon(id);
  }
}
