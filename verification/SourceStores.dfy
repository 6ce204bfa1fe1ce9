/**
 The stores shared by source preparation, source deletion and the delayed sweep
 (internal/application/sourcejob/source/prepare.go, internal/application/shared/cleanup/sweeper.go,
 internal/application/notelm/source/deletesource.go), and the operations of those handlers run
 alone. SourceProtocol interleaves them.
 */
module SourceStores {
  import opened Wrappers

  type Id = nat
  type Key = nat

  /** One index document of a source. */
  datatype Doc = Doc(source: Id, n: nat)

  datatype SourceRef = SourceRef(id: Id, keys: seq<string>)

  /** The errors a sweep joins into its result. */
  datatype SweepError = RowNotChecked | DocsNotDeleted | ObjectsNotDeleted

  /** Which deletions of a sweep fail, and what a failing one leaves of what it was to delete. */
  datatype PurgeFailures = PurgeFailures(docs: bool, missedDocs: set<Doc>, objects: bool, missedKeys: set<Key>)

  function DocsOf(docs: set<Doc>, ids: set<Id>): set<Doc> {
    set d | d in docs && d.source in ids
  }

  function DocsWithout(docs: set<Doc>, ids: set<Id>): (r: set<Doc>)
    ensures forall d :: d in r <==> d in docs && d.source !in ids
  {
    set d | d in docs && d.source !in ids
  }

  /** The keys a list of references decodes to; empty and undecodable ones are skipped. */
  ghost function DecodedKeys(refs: seq<SourceRef>, decode: string -> Option<Key>): iset<Key> {
    iset r, e | r in refs && e in r.keys && e != "" && decode(e).Some? :: decode(e).value
  }

  /** How IndexSource ends; some documents may have been written in any case. */
  datatype IndexOutcome = Indexed | IndexFailed | IndexPanicked

  /** How the upload and the steps after it end; publishing comes after the last update. */
  datatype Finish = Finished | UploadFailed | Panicked(uploaded: bool) | PublishPanicked

  /** Which store calls of one Handle fail: those that clear a retry's leftovers, that remove the documents of
      a failed index, that update the row, and that roll back. */
  datatype Failures = Failures(clearDocs: bool, clearObject: bool, cleanup: bool, update: bool, rollbackDocs: bool,
                               rollbackObject: bool)

  class Stores {
    var rows: map<Id, bool>  // existing source rows; true once the source is Ready
    var docs: set<Doc>
    var objects: set<Key>

    constructor ()
      ensures rows == map[] && docs == {} && objects == {}
    {
      rows, docs, objects := map[], {}, {};
    }

    /** UpdateExisting: never inserts. */
    method UpdateExisting(id: Id, ready: bool) returns (affected: nat)
      modifies this`rows
      ensures affected == if id in old(rows) then 1 else 0
      ensures rows.Keys == old(rows).Keys
      ensures rows == if id in old(rows) then old(rows)[id := ready] else old(rows)
    {
      if id in rows {
        rows := rows[id := ready];
        affected := 1;
      } else {
        affected := 0;
      }
    }

    /** A failed delete is only logged. */
    method DeleteIndexDocs(id: Id, fails: bool)
      modifies this`docs
      ensures docs == if fails then old(docs) else DocsWithout(old(docs), {id})
    {
      if !fails {
        docs := DocsWithout(docs, {id});
      }
    }

    method DeleteObject(key: Option<Key>, fails: bool)
      modifies this`objects
      ensures objects == if fails || key.None? then old(objects) else old(objects) - {key.value}
    {
      if key.Some? && !fails {
        objects := objects - {key.value};
      }
    }

    method Rollback(id: Id, parsed: Option<Key>, f: Failures)
      modifies this`docs, this`objects
      ensures docs == if f.rollbackDocs then old(docs) else DocsWithout(old(docs), {id})
      ensures objects == if f.rollbackObject || parsed.None? then old(objects) else old(objects) - {parsed.value}
    {
      DeleteIndexDocs(id, f.rollbackDocs);
      DeleteObject(parsed, f.rollbackObject);
    }

    /** `notebookExists` is the answer of the notebook check (a failed query counts as true). Only when the
        notebook or the row is gone are documents and object rolled back. */
    method PersistUnlessObsolete(id: Id, ready: bool, parsed: Option<Key>, notebookExists: bool, f: Failures)
      returns (kept: bool)
      modifies this
      ensures kept <==> notebookExists && !f.update && id in old(rows)
      ensures rows == if kept then old(rows)[id := ready] else old(rows)
      ensures var gone := !notebookExists || (!f.update && id !in old(rows));
        && docs == (if gone && !f.rollbackDocs then DocsWithout(old(docs), {id}) else old(docs))
        && objects
           == (if gone && !f.rollbackObject && parsed.Some? then old(objects) - {parsed.value} else old(objects))
    {
      if !notebookExists {
        Rollback(id, parsed, f);
        return false;
      }
      if f.update {
        return false;
      }
      var affected := UpdateExisting(id, ready);
      if affected == 0 {
        Rollback(id, parsed, f);
        return false;
      }
      return true;
    }

    /** Handle from the retry check on, run alone: `alive` is the answer of the last notebook check, `written`
        the documents IndexSource saves and `parsed` the key of the object it uploads. */
    method Prepare(id: Id, alive: bool, retry: bool, oldParsed: Option<Key>, index: IndexOutcome,
                   written: set<Doc>, parsed: Key, finish: Finish, f: Failures)
      requires id in rows && !rows[id]
      modifies this
      ensures rows == old(rows)[id := index.Indexed? && finish.Finished? && alive && !f.update]
      ensures var kept := (if retry && !f.clearDocs then DocsWithout(old(docs), {id}) else old(docs)) + written;
        var removed := (index.IndexFailed? && !f.cleanup) || (!alive && !f.rollbackDocs);
        docs == if removed then DocsWithout(kept, {id}) else kept
      ensures rows[id] ==> parsed in objects
    {
      if retry {
        DeleteIndexDocs(id, f.clearDocs);
        DeleteObject(oldParsed, f.clearObject);
      }
      docs := docs + written;
      if index.IndexFailed? {
        DeleteIndexDocs(id, f.cleanup);
      }
      if !index.Indexed? {
        var _ := PersistUnlessObsolete(id, false, oldParsed, alive, f);
        return;
      }
      if !finish.UploadFailed? && (finish.Panicked? ==> finish.uploaded) {
        objects := objects + {parsed};
      }
      var ready := finish.Finished? || finish.PublishPanicked?;
      var kept := PersistUnlessObsolete(id, ready, Some(parsed), alive, f);
      if kept && finish.PublishPanicked? {
        var _ := PersistUnlessObsolete(id, false, Some(parsed), alive, f);
      }
    }

    /** Handle, run alone: `alive` are the answers of the two notebook checks. */
    method Handle(id: Id, alive: (bool, bool), retry: bool, oldParsed: Option<Key>, index: IndexOutcome,
                  written: set<Doc>, parsed: Key, finish: Finish, f: Failures)
      requires forall d :: d in written ==> d.source == id
      modifies this
      ensures rows.Keys == old(rows).Keys
      ensures forall x :: x in rows && x != id ==> rows[x] == old(rows)[x]
      ensures DocsWithout(docs, {id}) == DocsWithout(old(docs), {id})
      // a missing or Ready source, or a deleted notebook, is left alone
      ensures !alive.0 || id !in old(rows) || old(rows)[id] ==>
                rows == old(rows) && docs == old(docs) && objects == old(objects)
      // otherwise the source becomes Ready exactly when every step and the last update succeed
      ensures alive.0 && id in old(rows) && !old(rows)[id] ==>
                (rows[id] <==> index.Indexed? && finish.Finished? && alive.1 && !f.update)
      ensures alive.0 && id in old(rows) && rows[id] && !old(rows)[id] ==>
                && parsed in objects
                && docs == (if retry && !f.clearDocs then DocsWithout(old(docs), {id}) else old(docs)) + written
      // what was written is removed exactly by a failed index's cleanup or a rollback that do not fail
      ensures alive.0 && id in old(rows) && !old(rows)[id] ==>
                if (index.IndexFailed? && !f.cleanup) || (!alive.1 && !f.rollbackDocs)
                then docs == DocsWithout(old(docs), {id}) else written <= docs
    {
      if !alive.0 {
        return;
      }
      if id !in rows {
        return;
      }
      if rows[id] {
        return;
      }
      Prepare(id, alive.1, retry, oldParsed, index, written, parsed, finish, f);
    }

    /** purgeSources: collect the ids and the decodable keys, then delete documents and objects, whether or not
        the first deletion fails. The result joins the errors, in this order. */
    method PurgeSources(refs: seq<SourceRef>, decode: string -> Option<Key>, f: PurgeFailures)
      returns (errors: seq<SweepError>)
      modifies this`docs, this`objects
      ensures forall d :: d in docs <==>
        d in old(docs) && ((exists r :: r in refs && r.id == d.source) ==> f.docs && d in f.missedDocs)
      ensures forall k :: k in objects <==>
        k in old(objects) && (k in DecodedKeys(refs, decode) ==> f.objects && k in f.missedKeys)
      ensures refs == [] ==> errors == []
      ensures refs != [] ==>
        errors == (if f.docs then [DocsNotDeleted] else []) + (if f.objects then [ObjectsNotDeleted] else [])
    {
      errors := [];
      if |refs| == 0 {
        return;
      }
      var ids, keys := Collect(refs, decode);
      docs := docs - (DocsOf(docs, ids) - if f.docs then f.missedDocs else {});
      if f.docs {
        errors := errors + [DocsNotDeleted];
      }
      objects := objects - (keys - if f.objects then f.missedKeys else {});
      if f.objects {
        errors := errors + [ObjectsNotDeleted];
      }
    }

    /** The loop of purgeSources. */
    static method Collect(refs: seq<SourceRef>, decode: string -> Option<Key>) returns (ids: set<Id>, keys: set<Key>)
      ensures forall x :: x in ids <==> exists r :: r in refs && r.id == x
      ensures forall k :: k in keys <==> k in DecodedKeys(refs, decode)
    {
      ids, keys := {}, {};
      for i := 0 to |refs|
        invariant forall x :: x in ids <==> exists r :: r in refs[..i] && r.id == x
        invariant forall k :: k in keys <==> k in DecodedKeys(refs[..i], decode)
      {
        var ref := refs[i];
        assert refs[..i + 1] == refs[..i] + [ref];
        ids := ids + {ref.id};
        var more := DecodeKeys(ref.keys, decode);
        keys := keys + more;
      }
      assert refs[..|refs|] == refs;
    }

    static method DecodeKeys(encoded: seq<string>, decode: string -> Option<Key>) returns (keys: set<Key>)
      ensures forall k :: k in keys <==> exists e :: e in encoded && e != "" && decode(e) == Some(k)
    {
      keys := {};
      for i := 0 to |encoded|
        invariant forall k :: k in keys <==> exists e :: e in encoded[..i] && e != "" && decode(e) == Some(k)
      {
        var e := encoded[i];
        assert encoded[..i + 1] == encoded[..i] + [e];
        if e != "" && decode(e).Some? {
          keys := keys + {decode(e).value};
        }
      }
      assert encoded[..|encoded|] == encoded;
    }

    /** SweepSource, run alone: a source whose row exists, or whose row could not be looked up, is skipped. */
    method SweepSource(id: Id, keys: seq<string>, decode: string -> Option<Key>, lookupFails: bool, f: PurgeFailures)
      returns (errors: seq<SweepError>)
      modifies this`docs, this`objects
      ensures lookupFails ==> errors == [RowNotChecked]
      ensures lookupFails || id in rows ==> docs == old(docs) && objects == old(objects)
      ensures !lookupFails && id in rows ==> errors == []
      ensures !lookupFails && id !in rows ==>
        && errors == (if f.docs then [DocsNotDeleted] else []) + (if f.objects then [ObjectsNotDeleted] else [])
        && (forall d :: d in docs <==> d in old(docs) && (d.source == id ==> f.docs && d in f.missedDocs))
        && (forall k :: k in objects <==>
              && k in old(objects)
              && ((exists e :: e in keys && e != "" && decode(e) == Some(k)) ==> f.objects && k in f.missedKeys))
    {
      if lookupFails {
        return [RowNotChecked];
      }
      if id in rows {
        return [];
      }
      var refs := [SourceRef(id, keys)];
      errors := PurgeSources(refs, decode, f);
      assert refs[0] in refs;
    }
  }
}
