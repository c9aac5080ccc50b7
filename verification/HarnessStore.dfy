/** The harness store as it is: one store's fields, and the file it shares with others. */
module HarnessStore {

  import opened Common
  import opened HarnessSpec

  /** The state file. Every write gives it a time stamp; the clock is the caller's. */
  class StateFile {
    var content: Option<File>

    constructor (content: Option<File>)
      ensures this.content == content
    {
      this.content := content;
    }
  }

  class HarnessState {
    const file: StateFile
    const own: string
    const parseInt: string -> Option<int>
    var entries: Entries
    var loadedMtime: Option<nat>

    function TheCache(): Cache
      reads this
    {
      Cache(entries, loadedMtime, own)
    }

    ghost predicate Valid()
      reads this, file
    {
      && Coherent(parseInt, TheCache(), file.content) && NotLost(TheCache(), file.content)
      && Proper(Meaning(parseInt, own, file.content))
    }

    constructor (file: StateFile, own: string, parseInt: string -> Option<int>)
      requires Scope(own)
      ensures Valid() && this.file == file && this.own == own && this.parseInt == parseInt
      ensures entries == Meaning(parseInt, own, file.content)
    {
      this.file, this.own, this.parseInt := file, own, parseInt;
      entries, loadedMtime := NOTHING, None;
      new;
      if file.content.Some? {
        ParsedIsProper(parseInt, own, file.content.value.json);
      }
      Load();
    }

    /** Reads the file; one that is missing is left alone. */
    method Load()
      requires Scope(own) && entries.Keys == KINDS
      modifies this
      ensures loadedMtime == Mtime(file.content)
      ensures entries == if file.content.Some? then Meaning(parseInt, own, file.content) else old(entries)
    {
      match file.content
      case None => loadedMtime := None;
      case Some(f) =>
        entries := Parse(parseInt, own, f.json);
        loadedMtime := Some(f.mtime);
    }

    /** Reloads when the file was rewritten since this store last touched it. */
    method SyncFromDisk()
      requires Valid()
      modifies this
      ensures Valid() && TheCache() == Synced(parseInt, old(TheCache()), file.content)
      ensures entries == Meaning(parseInt, own, file.content)
    {
      if Mtime(file.content) != loadedMtime {
        Load();
      }
    }

    method Save(mtime: nat)
      requires Proper(entries) && Scope(own)
      modifies this, file
      ensures Valid() && entries == old(entries) == Meaning(parseInt, own, file.content)
      ensures file.content == Some(File(Dump(entries), mtime)) && loadedMtime == Some(mtime)
    {
      file.content := Some(File(Dump(entries), mtime));
      loadedMtime := Some(mtime);
      RoundTrip(parseInt, own, entries);
    }

    /** The copy is up to date. */
    ghost predicate Current()
      reads this, file
    {
      Valid() && entries == Meaning(parseInt, own, file.content) && loadedMtime == Mtime(file.content)
    }

    /** The entry after a write: the one that is there changed, or a new one. */
    method NextEntry(kind: string, id: string, c: Change) returns (e: Entry)
      requires kind in entries
      requires id in entries[kind] ==> ProperEntry(entries[kind][id], kind, id)
      ensures WrittenAs(e, At(entries, kind, id), kind, id, c, own)
      ensures e == if Has(entries, kind, id) then Changed(entries[kind][id], c) else NewEntry(kind, id, c, own)
    {
      if id !in entries[kind] {
        return NewEntry(kind, id, c, own);
      }
      var existing := entries[kind][id];
      e := existing.(title := c.title, content := c.content, source := c.source, version := existing.version + 1);
      if c.path.Some? {
        e := e.(path := c.path.value);
      }
      if c.reference.Some? {
        e := e.(reference := c.reference.value);
      }
      if c.arguments.Some? {
        e := e.(arguments := c.arguments.value);
      }
      if c.metadata.Some? {
        e := e.(metadata := c.metadata.value);
      }
    }

    /** Writes an entry; the caller has synced and checked. */
    method Put(kind: string, id: string, c: Change, mtime: nat, ghost op: Op) returns (answer: Answer)
      requires Current()
      requires op == Upsert(kind, id, c) || op == Create(kind, id, c) || op == Update(kind, id, c)
      requires kind in entries ==> !Refused(entries, op)
      modifies this, file
      ensures Valid() && Worked(old(entries), old(file.content), op, mtime, TheCache(), file.content, answer)
    {
      if kind !in entries {
        return Error;
      }
      PerformIsProper(entries, op, own);
      var e := NextEntry(kind, id, c);
      entries := entries[kind := entries[kind][id := e]];
      Save(mtime);
      answer := Written(e);
    }

    method Remove(kind: string, id: string, mtime: nat) returns (answer: Answer)
      requires Current()
      modifies this, file
      ensures Valid()
              && Worked(old(entries), old(file.content), Delete(kind, id), mtime, TheCache(), file.content, answer)
    {
      PerformIsProper(entries, Delete(kind, id), own);
      if kind !in entries {
        return Error;
      }
      if id !in entries[kind] {
        return Deleted(false);
      }
      entries := entries[kind := entries[kind] - {id}];
      Save(mtime);
      answer := Deleted(true);
    }

    method Lookup(kind: string, id: string) returns (answer: Answer)
      requires Current()
      ensures Worked(entries, file.content, Read(kind, id), 0, TheCache(), file.content, answer)
    {
      if kind !in entries {
        return Error;
      }
      answer := Found(if id in entries[kind] then Some(entries[kind][id]) else None);
    }

    /** Creation over an entry and an update of none are errors. */
    method Work(op: Op, mtime: nat) returns (answer: Answer)
      requires Current()
      modifies this, file
      ensures Valid() && Worked(old(entries), old(file.content), op, mtime, TheCache(), file.content, answer)
    {
      match op {
        case Upsert(kind, id, c) => answer := Put(kind, id, c, mtime, op);
        case Delete(kind, id) => answer := Remove(kind, id, mtime);
        case Read(kind, id) => answer := Lookup(kind, id);
        case Create(kind, id, c) =>
          if kind in entries && id in entries[kind] {
            return Error;
          }
          answer := Put(kind, id, c, mtime, op);
        case Update(kind, id, c) =>
          if kind !in entries || id !in entries[kind] {
            return Error;
          }
          answer := Put(kind, id, c, mtime, op);
      }
    }

    /** The public calls; each is one step of the map that all stores of the file share. */
    method Do(op: Op, mtime: nat) returns (answer: Answer)
      requires Valid()
      modifies this, file
      ensures Valid()
      ensures Outcome(TheCache(), file.content, answer) == old(Call(parseInt, TheCache(), file.content, op, mtime))
      ensures (entries, answer) == Perform(old(Meaning(parseInt, own, file.content)), op, own)
      ensures entries == Meaning(parseInt, own, file.content)
      ensures answer.Written? ==>
                && (op.Upsert? || op.Create? || op.Update?)
                && WrittenAs(answer.entry, old(At(Meaning(parseInt, own, file.content), op.kind, op.id)),
                             op.kind, op.id, op.change, own)
    {
      PerformWrites(Meaning(parseInt, own, file.content), op, own, op.kind, op.id);
      CallIsAtomic(parseInt, TheCache(), file.content, op, mtime);
      SyncFromDisk();
      answer := Work(op, mtime);
    }
  }
}
