/**
 Source deletion against source preparation, with the delayed sweep: every interleaving of any
 number of creations, preparers, deletions and sweeps over any number of sources. One action is
 one store call or one scheduler call, and each may fail. `faults` records the failures of the five
 calls that matter once the source's row is gone, until the source's documents are next deleted.
 */
module SourceProtocol {
  import opened SourceStores

  /** Where one run of PrepareSourceHandler.Handle stands. */
  datatype PrepAt =
    | Finding(retry: bool)       // the first notebook check passed
    | Clearing                   // a retry deletes the documents of the previous attempt
    | Indexing                   // IndexSource is writing documents
    | IndexCleanup               // IndexSource failed: deleteIndexDocs
    | Preparing                  // upload, abstract and title
    | Checking(ready: bool)      // persistUnlessObsolete: the notebook check
    | Updating(ready: bool)      // ... then UpdateExisting
    | RollingBack
    | Publishing                 // persisted; events go out
    | Over

  datatype Prep = Prep(source: Id, at: PrepAt)

  /** One run of deleteSource after the access check. */
  datatype DelAt = DeletingRow | Scheduling | Deleted

  datatype Del = Del(source: Id, at: DelAt)

  /** One run of SweepSource: registered by a deletion, or triggered by the event or by mistake. */
  datatype SweepAt = Due | Purging | Swept

  datatype Sweep = Sweep(source: Id, at: SweepAt)

  /** The calls whose failure after the row is gone can leave documents behind. */
  datatype Call = Update | RollbackDocs | Schedule | SweepLookup | SweepDelete

  datatype Fault = Fault(source: Id, call: Call)

  datatype State = State(
    used: set<Id>,
    rows: map<Id, bool>,
    docs: set<Doc>,
    preps: seq<Prep>,
    dels: seq<Del>,
    sweeps: seq<Sweep>,
    faults: set<Fault>)

  datatype Action =
    | Create(id: Id)
    | PrepBegin(id: Id, retry: bool)
    | PrepFind(p: nat)
    | PrepClear(p: nat, ok: bool)
    | PrepWrite(p: nat, n: nat)
    | PrepIndexed(p: nat, ok: bool)
    | PrepCleanup(p: nat, ok: bool)
    | PrepPrepared(p: nat, ok: bool)
    | PrepPanic(p: nat)
    | PrepCheck(p: nat, notebookExists: bool)
    | PrepUpdate(p: nat, ok: bool)
    | PrepRollback(p: nat, ok: bool)
    | PrepPublished(p: nat)
    | DelBegin(id: Id)
    | DelRow(d: nat, ok: bool)
    | DelSchedule(d: nat, ok: bool)
    | SweepBegin(id: Id)
    | SweepFind(k: nat, ok: bool)
    | SweepPurge(k: nat, ok: bool)

  const START := State({}, map[], {}, [], [], [], {})

  predicate PrepIs(s: State, p: nat, at: PrepAt) {
    p < |s.preps| && s.preps[p].at == at
  }

  predicate DelIs(s: State, d: nat, at: DelAt) {
    d < |s.dels| && s.dels[d].at == at
  }

  predicate SweepIs(s: State, k: nat, at: SweepAt) {
    k < |s.sweeps| && s.sweeps[k].at == at
  }

  predicate Enabled(s: State, a: Action) {
    match a
    case Create(id) => id !in s.used
    case PrepBegin(_, _) => true
    case PrepFind(p) => p < |s.preps| && s.preps[p].at.Finding?
    case PrepClear(p, _) => PrepIs(s, p, Clearing)
    case PrepWrite(p, _) => PrepIs(s, p, Indexing)
    case PrepIndexed(p, _) => PrepIs(s, p, Indexing)
    case PrepCleanup(p, _) => PrepIs(s, p, IndexCleanup)
    case PrepPrepared(p, _) => PrepIs(s, p, Preparing)
    case PrepPanic(p) => PrepIs(s, p, Indexing) || PrepIs(s, p, Preparing) || PrepIs(s, p, Publishing)
    case PrepCheck(p, _) => p < |s.preps| && s.preps[p].at.Checking?
    case PrepUpdate(p, _) => p < |s.preps| && s.preps[p].at.Updating?
    case PrepRollback(p, _) => PrepIs(s, p, RollingBack)
    case PrepPublished(p) => PrepIs(s, p, Publishing)
    case DelBegin(id) => id in s.rows
    case DelRow(d, _) => DelIs(s, d, DeletingRow)
    case DelSchedule(d, _) => DelIs(s, d, Scheduling)
    case SweepBegin(id) => id in s.used
    case SweepFind(k, _) => SweepIs(s, k, Due)
    case SweepPurge(k, _) => SweepIs(s, k, Purging)
  }

  function MovePrep(s: State, p: nat, at: PrepAt): State
    requires p < |s.preps|
  {
    s.(preps := s.preps[p := s.preps[p].(at := at)])
  }

  function Failing(s: State, id: Id, call: Call, ok: bool): State {
    if ok || id in s.rows then s else s.(faults := s.faults + {Fault(id, call)})
  }

  /** BatchDeleteBySourceId: removes the source's documents, which makes up for earlier failures, or fails and
      is only logged. */
  function Purge(s: State, id: Id, ok: bool): State {
    if ok then s.(docs := DocsWithout(s.docs, {id}), faults := set f | f in s.faults && f.source != id) else s
  }

  predicate IsPrepStep(a: Action) {
    || a.PrepFind? || a.PrepClear? || a.PrepWrite? || a.PrepIndexed? || a.PrepCleanup? || a.PrepPrepared?
    || a.PrepPanic? || a.PrepCheck? || a.PrepUpdate? || a.PrepRollback? || a.PrepPublished?
  }

  function NextPrep(s: State, p: nat, a: Action): State
    requires Enabled(s, a) && IsPrepStep(a) && a.p == p < |s.preps|
  {
    var id := s.preps[p].source;
    match a
    case PrepFind(_) =>
      if id !in s.rows || s.rows[id] then MovePrep(s, p, Over)
      else MovePrep(s, p, if s.preps[p].at.retry then Clearing else Indexing)
    case PrepClear(_, ok) => MovePrep(Purge(s, id, ok), p, Indexing)
    case PrepWrite(_, n) => s.(docs := s.docs + {Doc(id, n)})
    case PrepIndexed(_, ok) => MovePrep(s, p, if ok then Preparing else IndexCleanup)
    case PrepCleanup(_, ok) => MovePrep(Purge(s, id, ok), p, Checking(false))
    case PrepPrepared(_, ok) => MovePrep(s, p, Checking(ok))
    case PrepPanic(_) => MovePrep(s, p, Checking(false))
    case PrepCheck(_, exists_) => MovePrep(s, p, if exists_ then Updating(s.preps[p].at.ready) else RollingBack)
    case PrepUpdate(_, ok) =>
      if !ok then MovePrep(Failing(s, id, Update, false), p, Over)
      else if id !in s.rows then MovePrep(s, p, RollingBack)
      else MovePrep(s.(rows := s.rows[id := s.preps[p].at.ready]), p, if s.preps[p].at.ready then Publishing else Over)
    case PrepRollback(_, ok) => MovePrep(Failing(Purge(s, id, ok), id, RollbackDocs, ok), p, Over)
    case PrepPublished(_) => MovePrep(s, p, Over)
  }

  function Next(s: State, a: Action): State
    requires Enabled(s, a)
  {
    match a
    case Create(id) => s.(used := s.used + {id}, rows := s.rows[id := false])
    case PrepBegin(id, retry) => s.(preps := s.preps + [Prep(id, Finding(retry))])
    case DelBegin(id) => s.(dels := s.dels + [Del(id, DeletingRow)])
    case DelRow(d, ok) =>
      var id := s.dels[d].source;
      if ok then s.(rows := s.rows - {id}, dels := s.dels[d := Del(id, Scheduling)])
      else s.(dels := s.dels[d := Del(id, Deleted)])
    case DelSchedule(d, ok) =>
      var id := s.dels[d].source;
      Failing(s, id, Schedule, ok).(dels := s.dels[d := Del(id, Deleted)],
                                    sweeps := if ok then s.sweeps + [Sweep(id, Due)] else s.sweeps)
    case SweepBegin(id) => s.(sweeps := s.sweeps + [Sweep(id, Due)])
    case SweepFind(k, ok) =>
      var id := s.sweeps[k].source;
      Failing(s, id, SweepLookup, ok).(
        sweeps := s.sweeps[k := Sweep(id, if ok && id !in s.rows then Purging else Swept)])
    case SweepPurge(k, ok) =>
      var id := s.sweeps[k].source;
      Failing(Purge(s, id, ok), id, SweepDelete, ok).(sweeps := s.sweeps[k := Sweep(id, Swept)])
    case _ => NextPrep(s, a.p, a)
  }

  // ----- the invariant -----

  /** A preparer past FindById that has not yet persisted or rolled back will still do so. */
  predicate WillSettle(p: Prep, id: Id) {
    p.source == id && !p.at.Finding? && !p.at.Over? && !p.at.Publishing?
  }

  /** Somebody is still going to look after the documents of a deleted source. */
  ghost predicate Attended(s: State, id: Id) {
    || (exists p :: 0 <= p < |s.preps| && WillSettle(s.preps[p], id))
    || (exists d :: 0 <= d < |s.dels| && s.dels[d] == Del(id, Scheduling))
    || (exists k :: 0 <= k < |s.sweeps| && s.sweeps[k].source == id && s.sweeps[k].at != Swept)
  }

  ghost predicate HasDocs(s: State, id: Id) {
    exists d :: d in s.docs && d.source == id
  }

  /** Everything in flight refers to a source that was created, and a sweep that decided to purge
      has seen the row gone for good. */
  ghost predicate Grounded(s: State) {
    && s.rows.Keys <= s.used
    && (forall p :: 0 <= p < |s.preps| ==> s.preps[p].at.Finding? || s.preps[p].at.Over? || s.preps[p].source in s.used)
    && (forall d :: 0 <= d < |s.dels| ==> s.dels[d].source in s.used)
    && (forall d :: d in s.docs ==> d.source in s.used)
    && (forall k :: 0 <= k < |s.sweeps| ==> s.sweeps[k].source in s.used)
    && (forall k :: 0 <= k < |s.sweeps| && s.sweeps[k].at == Purging ==> s.sweeps[k].source !in s.rows)
  }

  /** No failure of the five calls, for the source after its row was gone, that a later deletion of its
      documents has not made up for. */
  predicate Served(s: State, id: Id) {
    forall f :: f in s.faults ==> f.source != id
  }

  ghost predicate NoneForgotten(s: State) {
    forall id :: id !in s.rows && Served(s, id) && HasDocs(s, id) ==> Attended(s, id)
  }

  ghost predicate Inv(s: State) {
    Grounded(s) && NoneForgotten(s)
  }

  /** The steps of a preparer that delete documents. */
  predicate IsPurge(a: Action) {
    a.PrepClear? || a.PrepCleanup? || a.PrepRollback?
  }

  lemma PurgeGrounded(s: State, a: Action)
    requires Grounded(s) && Enabled(s, a) && IsPurge(a)
    ensures Grounded(Next(s, a))
  {
  }

  lemma PrepGrounded(s: State, a: Action)
    requires Grounded(s) && Enabled(s, a) && IsPrepStep(a)
    ensures Grounded(Next(s, a))
  {
    if IsPurge(a) {
      PurgeGrounded(s, a);
    }
  }

  lemma OtherGrounded(s: State, a: Action)
    requires Grounded(s) && Enabled(s, a) && !IsPrepStep(a)
    ensures Grounded(Next(s, a))
  {
  }

  /** Whoever attends to a source in s still does so in s' if the three lists only changed at the
      given entry, and that entry was not the one attending. */
  lemma StillAttended(s: State, s': State, id: Id)
    requires Attended(s, id)
    requires |s.preps| <= |s'.preps| && |s.dels| <= |s'.dels| && |s.sweeps| <= |s'.sweeps|
    requires forall p :: 0 <= p < |s.preps| && WillSettle(s.preps[p], id) ==> WillSettle(s'.preps[p], id)
    requires forall d :: 0 <= d < |s.dels| && s.dels[d] == Del(id, Scheduling) ==> s'.dels[d] == s.dels[d]
    requires forall k :: 0 <= k < |s.sweeps| && s.sweeps[k].source == id && s.sweeps[k].at != Swept
                         ==> s'.sweeps[k].source == id && s'.sweeps[k].at != Swept
    ensures Attended(s', id)
  {
    if p :| 0 <= p < |s.preps| && WillSettle(s.preps[p], id) {
      assert WillSettle(s'.preps[p], id);
    } else if d :| 0 <= d < |s.dels| && s.dels[d] == Del(id, Scheduling) {
      assert s'.dels[d] == Del(id, Scheduling);
    } else {
      var k :| 0 <= k < |s.sweeps| && s.sweeps[k].source == id && s.sweeps[k].at != Swept;
      assert s'.sweeps[k].source == id;
    }
  }

  lemma PurgeKeeps(s: State, a: Action)
    requires Inv(s) && Enabled(s, a) && IsPurge(a)
    ensures NoneForgotten(Next(s, a))
  {
    var s' := Next(s, a);
    forall id | id !in s'.rows && Served(s', id) && HasDocs(s', id)
      ensures Attended(s', id)
    {
      if !WillSettle(s'.preps[a.p], id) {
        assert HasDocs(s, id);
        StillAttended(s, s', id);
      }
    }
  }

  lemma PrepKeeps(s: State, a: Action)
    requires Inv(s) && Enabled(s, a) && IsPrepStep(a) && !IsPurge(a)
    ensures NoneForgotten(Next(s, a))
  {
    var s' := Next(s, a);
    forall id | id !in s'.rows && Served(s', id) && HasDocs(s', id)
      ensures Attended(s', id)
    {
      if WillSettle(s'.preps[a.p], id) {
      } else {
        assert HasDocs(s, id);
        StillAttended(s, s', id);
      }
    }
  }

  lemma DelKeeps(s: State, a: Action)
    requires Inv(s) && Enabled(s, a) && (a.DelBegin? || a.DelRow? || a.DelSchedule?)
    ensures NoneForgotten(Next(s, a))
  {
    var s' := Next(s, a);
    forall id | id !in s'.rows && Served(s', id) && HasDocs(s', id)
      ensures Attended(s', id)
    {
      if a.DelRow? && id == s.dels[a.d].source && a.ok {
        assert s'.dels[a.d] == Del(id, Scheduling);
      } else if a.DelSchedule? && id == s.dels[a.d].source && a.ok {
        assert s'.sweeps[|s.sweeps|] == Sweep(id, Due);
      } else {
        assert HasDocs(s, id);
        StillAttended(s, s', id);
      }
    }
  }

  lemma SweepKeeps(s: State, a: Action)
    requires Inv(s) && Enabled(s, a) && (a.SweepBegin? || a.SweepFind? || a.SweepPurge?)
    ensures NoneForgotten(Next(s, a))
  {
    var s' := Next(s, a);
    forall id | id !in s'.rows && Served(s', id) && HasDocs(s', id)
      ensures Attended(s', id)
    {
      assert HasDocs(s, id);
      StillAttended(s, s', id);
    }
  }

  lemma StepKeeps(s: State, a: Action)
    requires Inv(s) && Enabled(s, a)
    ensures Inv(Next(s, a))
  {
    if IsPrepStep(a) {
      PrepGrounded(s, a);
      if IsPurge(a) {
        PurgeKeeps(s, a);
      } else {
        PrepKeeps(s, a);
      }
      return;
    }
    OtherGrounded(s, a);
    if a.DelBegin? || a.DelRow? || a.DelSchedule? {
      DelKeeps(s, a);
    } else if a.SweepBegin? || a.SweepFind? || a.SweepPurge? {
      SweepKeeps(s, a);
    } else {
      var s' := Next(s, a);
      forall id | id !in s'.rows && Served(s', id) && HasDocs(s', id)
        ensures Attended(s', id)
      {
        assert HasDocs(s, id);
        StillAttended(s, s', id);
      }
    }
  }

  // ----- runs -----

  ghost predicate Runs(s: State, acts: seq<Action>, s': State)
    decreases |acts|
  {
    if acts == [] then s == s'
    else Enabled(s, acts[0]) && Runs(Next(s, acts[0]), acts[1..], s')
  }

  lemma {:induction false} RunKeeps(s: State, acts: seq<Action>, s': State)
    requires Inv(s) && Runs(s, acts, s')
    ensures Inv(s')
    decreases |acts|
  {
    if acts != [] {
      StepKeeps(s, acts[0]);
      RunKeeps(Next(s, acts[0]), acts[1..], s');
    }
  }

  /** Everything that concerns a deleted source has finished. */
  ghost predicate Settled(s: State, id: Id) {
    && (forall p :: 0 <= p < |s.preps| && s.preps[p].source == id ==> s.preps[p].at == Over)
    && (forall d :: 0 <= d < |s.dels| && s.dels[d].source == id ==> s.dels[d].at == Deleted)
    && (forall k :: 0 <= k < |s.sweeps| && s.sweeps[k].source == id ==> s.sweeps[k].at == Swept)
  }

  /** No orphans: in every interleaving in which none of the five calls failed for the source after its row
      was gone, or a later deletion of its documents succeeded, once its preparers, deletions and sweeps are
      over none of its documents is left. Failures of every other call are harmless. */
  lemma NoOrphanDocuments(acts: seq<Action>, s: State, id: Id)
    requires Runs(START, acts, s)
    requires id !in s.rows && Served(s, id) && Settled(s, id)
    ensures forall d :: d in s.docs ==> d.source != id
  {
    RunKeeps(START, acts, s);
    assert !Attended(s, id);
    assert !HasDocs(s, id);
  }

  /** A deleted row never comes back, so no preparer can resurrect a source. */
  lemma {:induction false} DeletedStaysDeleted(s: State, acts: seq<Action>, s': State, id: Id)
    requires Runs(s, acts, s') && id in s.used && id !in s.rows
    ensures id in s'.used && id !in s'.rows
    decreases |acts|
  {
    if acts != [] {
      DeletedStaysDeleted(Next(s, acts[0]), acts[1..], s', id);
    }
  }

  /** No sweep ever takes a document of a source whose row exists, failures or not. */
  lemma SweepSparesLiveSources(acts: seq<Action>, s: State, a: Action)
    requires Runs(START, acts, s) && Enabled(s, a)
    requires a.SweepBegin? || a.SweepFind? || a.SweepPurge?
    ensures forall d :: d in s.docs && d.source in s.rows ==> d in Next(s, a).docs
    ensures Next(s, a).rows == s.rows
  {
    RunKeeps(START, acts, s);
  }

  /** Every preparer of the source is over or has yet to look at the row. */
  ghost predicate NoneAtWork(s: State, id: Id) {
    forall p :: 0 <= p < |s.preps| && s.preps[p].source == id ==> s.preps[p].at.Finding? || s.preps[p].at.Over?
  }

  ghost predicate SameDocs(s: State, s': State, id: Id) {
    forall d: Doc :: d.source == id ==> (d in s'.docs <==> d in s.docs)
  }

  lemma ReadyStep(s: State, a: Action, id: Id)
    requires Inv(s) && Enabled(s, a) && id in s.rows && s.rows[id] && NoneAtWork(s, id) && id in Next(s, a).rows
    ensures Next(s, a).rows[id] && NoneAtWork(Next(s, a), id) && SameDocs(s, Next(s, a), id)
  {
    if IsPrepStep(a) {
      ReadyPrepStep(s, a, id);
    }
  }

  lemma ReadyPrepStep(s: State, a: Action, id: Id)
    requires Enabled(s, a) && IsPrepStep(a) && id in s.rows && s.rows[id] && NoneAtWork(s, id)
    ensures id in Next(s, a).rows && Next(s, a).rows[id] && NoneAtWork(Next(s, a), id) && SameDocs(s, Next(s, a), id)
  {
  }

  /** A source that is Ready and on which no preparer is at work is left alone: whatever events, preparers and sweeps
      come, as long as its row is not deleted it stays Ready and keeps its documents. */
  lemma {:induction false} ReadyLeftAlone(s: State, acts: seq<Action>, s': State, id: Id)
    requires Inv(s) && Runs(s, acts, s') && id in s.rows && s.rows[id] && NoneAtWork(s, id) && id in s'.rows
    ensures s'.rows[id] && SameDocs(s, s', id)
    decreases |acts|
  {
    if acts != [] {
      var t := Next(s, acts[0]);
      StepKeeps(s, acts[0]);
      if id !in t.rows {
        DeletedStaysDeleted(t, acts[1..], s', id);
      }
      ReadyStep(s, acts[0], id);
      ReadyLeftAlone(t, acts[1..], s', id);
    }
  }

  // ----- the order of one handler's calls -----

  predicate WritesOrEnds(b: Action) {
    b.PrepWrite? || b.PrepIndexed? || b.PrepPanic?
  }

  /** Two calls of one preparer, a and then b, whatever others do between them. */
  ghost predicate Consecutive(s: State, a: Action, s': State, b: Action) {
    && Enabled(s, a) && IsPrepStep(a) && Enabled(s', b) && IsPrepStep(b) && a.p == b.p
    && a.p < |s.preps| && a.p < |s'.preps| && s'.preps[a.p] == Next(s, a).preps[a.p]
  }

  /** While it prepares: a missing or Ready row ends it; a retry clears first; a failed index is cleaned up, and
      after that, a panic or the preparation itself comes the last check. */
  lemma PreparingOrder(s: State, a: Action, s': State, b: Action)
    requires Consecutive(s, a, s', b)
    ensures a.PrepFind? ==>
              && s.preps[a.p].source in s.rows && !s.rows[s.preps[a.p].source]
              && if s.preps[a.p].at.retry then b.PrepClear? else WritesOrEnds(b)
    ensures a.PrepClear? || a.PrepWrite? ==> WritesOrEnds(b)
    ensures a.PrepIndexed? ==> if a.ok then b.PrepPrepared? || b.PrepPanic? else b.PrepCleanup?
    ensures a.PrepCleanup? || a.PrepPrepared? || a.PrepPanic? ==> b.PrepCheck?
  {
  }

  /** When it settles: after the check the update or, if the notebook is gone, the rollback; an update that finds no
      row is rolled back; and nothing follows a failed update, a rollback or the published events. */
  lemma SettlingOrder(s: State, a: Action, s': State, b: Action)
    requires Consecutive(s, a, s', b)
    ensures a.PrepCheck? ==> if a.notebookExists then b.PrepUpdate? else b.PrepRollback?
    ensures a.PrepUpdate? ==>
              a.ok && if s.preps[a.p].source in s.rows then b.PrepPublished? || b.PrepPanic? else b.PrepRollback?
    ensures !a.PrepRollback? && !a.PrepPublished?
  {
  }

  // ----- what the calls do to the documents -----

  /** The call deletes the source's documents: a retry's clearing, the cleanup of a failed index, a rollback, or a
      sweep's purge, that does not fail. */
  predicate Deletes(s: State, a: Action, id: Id) {
    match a
    case PrepClear(p, ok) => ok && p < |s.preps| && s.preps[p].source == id
    case PrepCleanup(p, ok) => ok && p < |s.preps| && s.preps[p].source == id
    case PrepRollback(p, ok) => ok && p < |s.preps| && s.preps[p].source == id
    case SweepPurge(k, ok) => ok && k < |s.sweeps| && s.sweeps[k].source == id
    case _ => false
  }

  predicate Writes(s: State, a: Action, d: Doc) {
    a.PrepWrite? && a.p < |s.preps| && d == Doc(s.preps[a.p].source, a.n)
  }

  /** After any call a document is there exactly if it was and its source's documents were not deleted, or if it was
      written. */
  lemma DocumentsAfter(s: State, a: Action, d: Doc)
    requires Enabled(s, a)
    ensures d in Next(s, a).docs <==> (d in s.docs && !Deletes(s, a, d.source)) || Writes(s, a, d)
  {
    if IsPrepStep(a) {
      PrepDocuments(s, a, d);
    }
  }

  lemma PrepDocuments(s: State, a: Action, d: Doc)
    requires Enabled(s, a) && IsPrepStep(a)
    ensures d in Next(s, a).docs <==> (d in s.docs && !Deletes(s, a, d.source)) || Writes(s, a, d)
  {
  }

  // ----- how a source becomes ready -----

  /** The preparer has indexed the source. */
  predicate HasIndexed(acts: seq<Action>, p: nat) {
    PrepIndexed(p, true) in acts
  }

  /** ... and done all the steps up to its last update. */
  predicate HasPrepared(acts: seq<Action>, p: nat) {
    HasIndexed(acts, p) && PrepPrepared(p, true) in acts
  }

  predicate ClaimsReady(at: PrepAt) {
    at == Checking(true) || at == Updating(true) || at == Publishing
  }

  /** A preparer that is past a step has done it. */
  predicate PlaceJustified(acts: seq<Action>, at: PrepAt, p: nat) {
    (at == Preparing ==> HasIndexed(acts, p)) && (ClaimsReady(at) ==> HasPrepared(acts, p))
  }

  ghost predicate PlacesJustified(acts: seq<Action>, s: State) {
    forall p :: 0 <= p < |s.preps| ==> PlaceJustified(acts, s.preps[p].at, p)
  }

  ghost predicate WasPrepared(acts: seq<Action>, s: State, id: Id) {
    exists p: nat :: p < |s.preps| && s.preps[p].source == id && HasPrepared(acts, p)
  }

  ghost predicate Justified(acts: seq<Action>, s: State) {
    PlacesJustified(acts, s) && forall id :: id in s.rows && s.rows[id] ==> WasPrepared(acts, s, id)
  }

  lemma HistoryGrows(acts: seq<Action>, a: Action, at: PrepAt, p: nat)
    ensures HasPrepared(acts, p) ==> HasPrepared(acts + [a], p)
    ensures PlaceJustified(acts, at, p) ==> PlaceJustified(acts + [a], at, p)
  {
  }

  /** Where a preparer's step takes it. */
  lemma PrepMoves(s: State, a: Action)
    requires Enabled(s, a) && IsPrepStep(a)
    ensures a.p < |s.preps| == |Next(s, a).preps|
    ensures forall p :: 0 <= p < |s.preps| ==> Next(s, a).preps[p].source == s.preps[p].source
    ensures forall p :: 0 <= p < |s.preps| && p != a.p ==> Next(s, a).preps[p] == s.preps[p]
    ensures var at, at' := s.preps[a.p].at, Next(s, a).preps[a.p].at;
            && (at' == Preparing ==> a == PrepIndexed(a.p, true))
            && (ClaimsReady(at') ==> ClaimsReady(at) || (at == Preparing && a == PrepPrepared(a.p, true)))
  {
  }

  lemma PlacesStep(acts: seq<Action>, s: State, a: Action)
    requires PlacesJustified(acts, s) && Enabled(s, a)
    ensures PlacesJustified(acts + [a], Next(s, a))
  {
    var s' := Next(s, a);
    if IsPrepStep(a) {
      PrepMoves(s, a);
      HistoryGrows(acts, a, s.preps[a.p].at, a.p);
    }
    forall p | 0 <= p < |s'.preps| ensures PlaceJustified(acts + [a], s'.preps[p].at, p) {
      if p < |s.preps| && !(IsPrepStep(a) && p == a.p) {
        HistoryGrows(acts, a, s.preps[p].at, p);
      } else if IsPrepStep(a) {
        assert PlaceJustified(acts, s.preps[a.p].at, a.p);
      }
    }
  }

  /** A row turns Ready only in the last update of a preparer that claims so, and preparers keep their sources. */
  lemma RowTurnsReady(s: State, a: Action, id: Id)
    requires Enabled(s, a) && id in Next(s, a).rows && Next(s, a).rows[id]
    ensures (id in s.rows && s.rows[id])
         || (a.PrepUpdate? && s.preps[a.p].source == id && s.preps[a.p].at == Updating(true))
    ensures |s.preps| <= |Next(s, a).preps|
    ensures forall p :: 0 <= p < |s.preps| ==> Next(s, a).preps[p].source == s.preps[p].source
  {
  }

  lemma JustifiedStep(acts: seq<Action>, s: State, a: Action)
    requires Justified(acts, s) && Enabled(s, a)
    ensures Justified(acts + [a], Next(s, a))
  {
    var s' := Next(s, a);
    PlacesStep(acts, s, a);
    forall id | id in s'.rows && s'.rows[id] ensures WasPrepared(acts + [a], s', id) {
      RowTurnsReady(s, a, id);
      var p: nat;
      if id in s.rows && s.rows[id] {
        p :| p < |s.preps| && s.preps[p].source == id && HasPrepared(acts, p);
      } else {
        p := a.p;
        assert PlaceJustified(acts, s.preps[p].at, p);
      }
      HistoryGrows(acts, a, s.preps[p].at, p);
      assert s'.preps[p].source == id && HasPrepared(acts + [a], p);
    }
  }

  lemma {:induction false} JustifiedRun(before: seq<Action>, s: State, acts: seq<Action>, s': State)
    requires Justified(before, s) && Runs(s, acts, s')
    ensures Justified(before + acts, s')
    decreases |acts|
  {
    if acts == [] {
      assert before + acts == before;
    } else {
      JustifiedStep(before, s, acts[0]);
      JustifiedRun(before + [acts[0]], Next(s, acts[0]), acts[1..], s');
      assert before + [acts[0]] + acts[1..] == before + acts;
    }
  }

  /** In every interleaving a source is Ready only if some preparer of it has indexed it and done all its steps. */
  lemma ReadyWasPrepared(acts: seq<Action>, s: State, id: Id)
    requires Runs(START, acts, s) && id in s.rows && s.rows[id]
    ensures exists p: nat ::
              && p < |s.preps| && s.preps[p].source == id
              && PrepIndexed(p, true) in acts && PrepPrepared(p, true) in acts
  {
    JustifiedRun([], START, acts, s);
    assert [] + acts == acts;
    assert WasPrepared(acts, s, id);
    var p: nat :| p < |s.preps| && s.preps[p].source == id && HasPrepared(acts, p);
  }

  lemma {:induction false} Concatenate(s: State, acts: seq<Action>, t: State, more: seq<Action>, u: State)
    requires Runs(s, acts, t) && Runs(t, more, u)
    ensures Runs(s, acts + more, u)
    decreases |acts|
  {
    if acts == [] {
      assert acts + more == more;
    } else {
      Concatenate(Next(s, acts[0]), acts[1..], t, more, u);
      assert (acts + more)[1..] == acts[1..] + more;
    }
  }

  /** One more step at the end of a run. */
  lemma Extend(s: State, acts: seq<Action>, t: State, a: Action) returns (acts': seq<Action>, t': State)
    requires Runs(s, acts, t) && Enabled(t, a)
    ensures t' == Next(t, a) && Runs(s, acts', t')
  {
    acts', t' := acts + [a], Next(t, a);
    assert [a][1..] == [];
    Concatenate(s, acts, t, [a], t');
  }

  /** A source is deleted while one preparer is indexing it. */
  lemma DeletedWhileIndexed() returns (acts: seq<Action>, s: State)
    ensures Runs(START, acts, s)
    ensures s == State({1}, map[], {}, [Prep(1, Indexing)], [Del(1, Scheduling)], [], {})
  {
    acts, s := [], START;
    acts, s := Extend(START, acts, s, Create(1));
    acts, s := Extend(START, acts, s, PrepBegin(1, false));
    acts, s := Extend(START, acts, s, PrepFind(0));
    acts, s := Extend(START, acts, s, DelBegin(1));
    acts, s := Extend(START, acts, s, DelRow(0, true));
    assert s.rows == map[];
  }

  /** ... and the sweep is over before the preparer writes. */
  lemma SweptBeforeIndexed() returns (acts: seq<Action>, s: State)
    ensures Runs(START, acts, s)
    ensures s == State({1}, map[], {}, [Prep(1, Indexing)], [Del(1, Deleted)], [Sweep(1, Swept)], {})
  {
    acts, s := DeletedWhileIndexed();
    acts, s := Extend(START, acts, s, DelSchedule(0, true));
    acts, s := Extend(START, acts, s, SweepFind(0, true));
    acts, s := Extend(START, acts, s, SweepPurge(0, true));
  }

  lemma IndexedAfterSweep() returns (acts: seq<Action>, s: State)
    ensures Runs(START, acts, s)
    ensures s == State({1}, map[], {Doc(1, 0)}, [Prep(1, Preparing)], [Del(1, Deleted)], [Sweep(1, Swept)], {})
  {
    acts, s := SweptBeforeIndexed();
    acts, s := Extend(START, acts, s, PrepWrite(0, 0));
    acts, s := Extend(START, acts, s, PrepIndexed(0, true));
  }

  /** ... whose result is then to be persisted. */
  lemma WrittenAfterSweep() returns (acts: seq<Action>, s: State)
    ensures Runs(START, acts, s)
    ensures s == State({1}, map[], {Doc(1, 0)}, [Prep(1, Updating(true))], [Del(1, Deleted)], [Sweep(1, Swept)], {})
  {
    acts, s := IndexedAfterSweep();
    acts, s := Extend(START, acts, s, PrepPrepared(0, true));
    acts, s := Extend(START, acts, s, PrepCheck(0, true));
  }

  /** A source is prepared: its document is written and its row ready. */
  lemma BeingPrepared() returns (acts: seq<Action>, s: State)
    ensures Runs(START, acts, s)
    ensures s == State({1}, map[1 := false], {Doc(1, 0)}, [Prep(1, Preparing)], [], [], {})
  {
    acts, s := [], START;
    acts, s := Extend(START, acts, s, Create(1));
    acts, s := Extend(START, acts, s, PrepBegin(1, false));
    acts, s := Extend(START, acts, s, PrepFind(0));
    acts, s := Extend(START, acts, s, PrepWrite(0, 0));
    acts, s := Extend(START, acts, s, PrepIndexed(0, true));
  }

  lemma AboutToPersist() returns (acts: seq<Action>, s: State)
    ensures Runs(START, acts, s)
    ensures s == State({1}, map[1 := false], {Doc(1, 0)}, [Prep(1, Updating(true))], [], [], {})
  {
    acts, s := BeingPrepared();
    acts, s := Extend(START, acts, s, PrepPrepared(0, true));
    acts, s := Extend(START, acts, s, PrepCheck(0, true));
  }

  lemma Persisted() returns (acts: seq<Action>, s: State)
    ensures Runs(START, acts, s)
    ensures s == State({1}, map[1 := true], {Doc(1, 0)}, [Prep(1, Publishing)], [], [], {})
  {
    acts, s := AboutToPersist();
    acts, s := Extend(START, acts, s, PrepUpdate(0, true));
  }

  lemma Prepared() returns (acts: seq<Action>, s: State)
    ensures Runs(START, acts, s)
    ensures s == State({1}, map[1 := true], {Doc(1, 0)}, [Prep(1, Over)], [], [], {})
  {
    acts, s := Persisted();
    acts, s := Extend(START, acts, s, PrepPublished(0));
  }

  /** ... and then deleted. */
  lemma PreparedAndDeleted() returns (acts: seq<Action>, s: State)
    ensures Runs(START, acts, s)
    ensures s == State({1}, map[], {Doc(1, 0)}, [Prep(1, Over)], [Del(1, Scheduling)], [], {})
  {
    acts, s := Prepared();
    acts, s := Extend(START, acts, s, DelBegin(1));
    acts, s := Extend(START, acts, s, DelRow(0, true));
    assert s.rows == map[];
  }

  lemma SweepIsDue() returns (acts: seq<Action>, s: State)
    ensures Runs(START, acts, s)
    ensures s == State({1}, map[], {Doc(1, 0)}, [Prep(1, Over)], [Del(1, Deleted)], [Sweep(1, Due)], {})
  {
    acts, s := PreparedAndDeleted();
    acts, s := Extend(START, acts, s, DelSchedule(0, true));
  }

  lemma PreparerFaultLeavesOrphan(call: Call) returns (acts: seq<Action>, s: State)
    requires call in {Update, RollbackDocs}
    ensures Runs(START, acts, s) && s.faults == {Fault(1, call)}
    ensures 1 !in s.rows && Settled(s, 1) && Doc(1, 0) in s.docs
  {
    acts, s := WrittenAfterSweep();
    acts, s := Extend(START, acts, s, PrepUpdate(0, call == RollbackDocs));
    if call == RollbackDocs {
      acts, s := Extend(START, acts, s, PrepRollback(0, false));
    }
  }

  lemma SweepFaultLeavesOrphan(call: Call) returns (acts: seq<Action>, s: State)
    requires call in {SweepLookup, SweepDelete}
    ensures Runs(START, acts, s) && s.faults == {Fault(1, call)}
    ensures 1 !in s.rows && Settled(s, 1) && Doc(1, 0) in s.docs
  {
    acts, s := SweepIsDue();
    acts, s := Extend(START, acts, s, SweepFind(0, call == SweepDelete));
    if call == SweepDelete {
      acts, s := Extend(START, acts, s, SweepPurge(0, false));
    }
  }

  /** Each of the five calls is needed: for each there is a run in which only it fails, once, and which ends
      with an orphan. */
  lemma OneFaultLeavesOrphan(call: Call) returns (acts: seq<Action>, s: State)
    ensures Runs(START, acts, s) && s.faults == {Fault(1, call)}
    ensures 1 !in s.rows && Settled(s, 1) && Doc(1, 0) in s.docs
  {
    if call in {Update, RollbackDocs} {
      acts, s := PreparerFaultLeavesOrphan(call);
    } else if call in {SweepLookup, SweepDelete} {
      acts, s := SweepFaultLeavesOrphan(call);
    } else {
      acts, s := PreparedAndDeleted();
      acts, s := Extend(START, acts, s, DelSchedule(0, false));
    }
  }

  /** Once everything is over, no deleted source has a document left, if of the five calls only those allowed
      to fail have failed for it without being made up for. */
  ghost predicate OrphanFree(allowed: set<Call>) {
    forall acts: seq<Action>, s: State, id: Id ::
      Runs(START, acts, s) && id !in s.rows && Settled(s, id) && FaultsIn(s, id, allowed) ==> !HasDocs(s, id)
  }

  predicate FaultsIn(s: State, id: Id, allowed: set<Call>) {
    forall f :: f in s.faults && f.source == id ==> f.call in allowed
  }

  /** Every interleaving leaves nothing behind exactly if none of the five calls may fail. */
  lemma OrphanFreeIff(allowed: set<Call>)
    ensures OrphanFree(allowed) <==> allowed == {}
  {
    if allowed == {} {
      forall acts: seq<Action>, s: State, id: Id
        | Runs(START, acts, s) && id !in s.rows && Settled(s, id) && FaultsIn(s, id, allowed)
        ensures !HasDocs(s, id)
      {
        NoOrphanDocuments(acts, s, id);
      }
    } else {
      var call :| call in allowed;
      var acts, s := OneFaultLeavesOrphan(call);
      assert FaultsIn(s, 1, allowed) && HasDocs(s, 1);
    }
  }
}
