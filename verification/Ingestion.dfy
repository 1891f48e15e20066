/** One ingestion job under redelivery: what is durable after each delivery, whatever fails where. */
module Ingestion {
  import opened Common
  import opened KeyText

  datatype JobStatus = JobPending | Running | Completed | Retrying | DeadLettered

  datatype DocumentStatus = DocumentPending | DocumentProcessing | DocumentCompleted | DocumentFailed

  datatype VersionStatus = VersionPending | VersionProcessing | VersionFailed | Promoted

  /** The rows one job touches. `chunks` says whether the document's chunks are stored, `facts` whether
      its version's facts are; `version` is absent for a document without one. */
  datatype Rows = Rows(
    job: JobStatus, attempts: nat, deadLetters: nat,
    document: DocumentStatus, chunks: bool,
    version: Option<VersionStatus>, facts: bool)

  datatype Fault = Fine | Raises | Crashes

  /** What happens to one delivery: a fault before its first commit, while the file is ingested, after
      that but before the last commit, and while a failure is recorded. `triaged` says whether the
      triage step gets to its own commit. `final` marks the last retry. */
  datatype Fate = Fate(start: Fault, ingest: Fault, triaged: bool, finish: Fault, record: Fault, final: bool)

  /** `mark_job_started` and `mark_processing`. */
  function Started(r: Rows): Rows {
    r.(job := Running, attempts := r.attempts + 1,
       version := if r.version == Some(VersionPending) then Some(VersionProcessing) else r.version)
  }

  /** Inserting chunks collides with chunks already stored: their indices are unique per document. */
  predicate IngestRaises(r: Rows, fate: Fate) {
    fate.ingest.Raises? || (!r.document.DocumentCompleted? && r.chunks)
  }

  /** The session after `ingest_file`: a document already completed is left alone. */
  function Processed(r: Rows): Rows {
    if r.document.DocumentCompleted? then r else r.(document := DocumentCompleted, chunks := true)
  }

  /** What of that is durable: the triage step commits the session's work. */
  function Ingested(r: Rows, fate: Fate): Rows {
    if fate.triaged then Processed(r) else r
  }

  /** The last commit: chunks, promotion, facts and completion. */
  function Finished(r: Rows): Rows {
    Processed(r).(job := Completed,
       version := if r.version.Some? then Some(Promoted) else None, facts := r.version.Some?)
  }

  /** A failure is recorded after a rollback. */
  function Recorded(r: Rows, fate: Fate): Rows {
    if !fate.record.Fine? then r
    else
      r.(job := if fate.final then DeadLettered else Retrying,
         deadLetters := r.deadLetters + if fate.final then 1 else 0,
         version := if r.version.Some? && !r.version.value.Promoted? then Some(VersionFailed) else r.version,
         document := DocumentFailed)
  }

  /** The durable rows after one delivery. */
  function Deliver(r: Rows, fate: Fate): Rows {
    if r.job.Completed? || !fate.start.Fine? then r
    else
      var started := Started(r);
      if fate.ingest.Crashes? then started
      else if IngestRaises(started, fate) then Recorded(started, fate)
      else
        var ingested := Ingested(started, fate);
        match fate.finish
        case Crashes => ingested
        case Raises => Recorded(ingested, fate)
        case Fine => Finished(ingested)
  }

  /** The rows before any delivery. */
  predicate Fresh(r: Rows) {
    && r.job.JobPending? && r.attempts == 0 && r.deadLetters == 0
    && r.document.DocumentPending? && !r.chunks && !r.facts
    && (r.version.Some? ==> r.version.value.VersionPending?)
  }

  function Run(r: Rows, fates: seq<Fate>): Rows {
    if fates == [] then r else Deliver(Run(r, fates[..|fates| - 1]), fates[|fates| - 1])
  }

  /** What one delivery leaves, on the fields. It does nothing for a completed job, or if it fails before
      its first commit. Else the attempt is counted, and the job ends as completed, as retrying or
      dead-lettered, or, if the worker died or the failure could not be recorded, as running. */
  lemma DeliveryOutcome(r: Rows, fate: Fate)
    ensures var d := Deliver(r, fate);
            var begins := r.job != Completed && fate.start == Fine;
            var collides := r.chunks && r.document != DocumentCompleted;
            var through := begins && fate.ingest == Fine && !collides;
            var refused := begins && (fate.ingest == Raises || (fate.ingest == Fine && collides));
            var recorded := (refused || (through && fate.finish == Raises)) && fate.record == Fine;
            && (!begins ==> d == r)
            && (begins ==> d.attempts == r.attempts + 1)
            && (begins && !recorded && !(through && fate.finish == Fine) ==>
                  && d.job == JobStatus.Running && d.facts == r.facts
                  && d.version == (if r.version == Some(VersionPending) then Some(VersionProcessing) else r.version))
            && (through && fate.finish == Fine ==>
                  && d.job == Completed && d.document == DocumentCompleted && d.facts == r.version.Some?
                  && d.version == (if r.version.Some? then Some(Promoted) else None)
                  && d.chunks == (r.document != DocumentCompleted || r.chunks))
            && (recorded ==>
                  && d.job == (if fate.final then DeadLettered else Retrying)
                  && d.document == DocumentFailed && d.facts == r.facts
                  && d.version == (if r.version.Some? && r.version != Some(Promoted) then Some(VersionFailed) else r.version))
            && d.deadLetters == r.deadLetters + (if recorded && fate.final then 1 else 0)
            && (!(through && fate.finish == Fine) ==>
                  d.chunks == (r.chunks || (through && fate.triaged && r.document != DocumentCompleted)))
            && (begins && !recorded && !(through && fate.finish == Fine) ==>
                  d.document == if through && fate.triaged then DocumentCompleted else r.document)
  {
  }

  // Safety

  predicate Consistent(r: Rows) {
    && (r.job.Completed? ==> r.chunks && r.document.DocumentCompleted? && (r.version.Some? ==> r.version.value.Promoted?))
    && (r.document.DocumentCompleted? ==> r.chunks)
    && (r.version.Some? ==> (r.version.value.Promoted? <==> r.job.Completed?))
    && (r.facts <==> r.version.Some? && r.version.value.Promoted?)
  }

  /** In every reachable state promotion, facts and completion are durable together or not at all. */
  lemma {:induction false} RunConsistent(r: Rows, fates: seq<Fate>)
    requires Fresh(r)
    ensures Consistent(Run(r, fates)) && (Run(r, fates).version.Some? <==> r.version.Some?)
  {
    if fates != [] {
      RunConsistent(r, fates[..|fates| - 1]);
    }
  }

  /** A completed job absorbs every later delivery. */
  lemma {:induction false} CompletedAbsorbs(r: Rows, fates: seq<Fate>)
    requires r.job.Completed?
    ensures Run(r, fates) == r
  {
    if fates != [] {
      CompletedAbsorbs(r, fates[..|fates| - 1]);
    }
  }

  /** The deliveries whose first commit took effect. */
  function Starts(r: Rows, fates: seq<Fate>): nat {
    if fates == [] then 0
    else
      var n := |fates| - 1;
      Starts(r, fates[..n]) + if fates[n].start.Fine? && !Run(r, fates[..n]).job.Completed? then 1 else 0
  }

  lemma {:induction false} AttemptsCountStarts(r: Rows, fates: seq<Fate>)
    requires Fresh(r)
    ensures Run(r, fates).attempts == Starts(r, fates)
  {
    if fates != [] {
      AttemptsCountStarts(r, fates[..|fates| - 1]);
    }
  }

  /** At most one delivery completes the job. */
  lemma CompletesOnce(r: Rows, fates: seq<Fate>, i: nat, j: nat)
    requires i < j < |fates|
    requires Run(r, fates[..i + 1]).job.Completed? && !Run(r, fates[..i]).job.Completed?
    ensures Run(r, fates[..j]).job.Completed?
  {
    RunSplit(r, fates[..j], i + 1);
    assert fates[..j][..i + 1] == fates[..i + 1];
    CompletedAbsorbs(Run(r, fates[..i + 1]), fates[..j][i + 1..]);
  }

  lemma {:induction false} RunSplit(r: Rows, fates: seq<Fate>, i: nat)
    requires i <= |fates|
    ensures Run(r, fates) == Run(Run(r, fates[..i]), fates[i..])
    decreases |fates|
  {
    if i < |fates| {
      var n := |fates| - 1;
      RunSplit(r, fates[..n], i);
      assert fates[..n][..i] == fates[..i] && fates[i..][..n - i] == fates[..n][i..];
    } else {
      assert fates[..i] == fates;
    }
  }

  // The chunks are not part of that

  /** The chunks can be durable without the completion: triage commits, then the worker dies. */
  lemma ChunksBeforeCompletion()
    ensures var r := Rows(JobPending, 0, 0, DocumentPending, false, Some(VersionPending), false);
            var fate := Fate(Fine, Fine, true, Crashes, Fine, false);
            Fresh(r) && Run(r, [fate]).chunks && !Run(r, [fate]).job.Completed?
  {
  }

  /** A delivery that gets through triage but not to the end. */
  predicate LeavesChunks(fate: Fate) {
    fate.start.Fine? && fate.ingest.Fine? && fate.triaged && !fate.finish.Fine?
  }

  /** The chunks are durable together with the completion in every state of a run exactly when no
      delivery before the completion got through triage but not to the end. */
  lemma {:induction false} ChunksWithCompletion(r: Rows, fates: seq<Fate>)
    requires Fresh(r)
    ensures (forall n :: 0 <= n <= |fates| ==> (Run(r, fates[..n]).chunks <==> Run(r, fates[..n]).job.Completed?))
              <==> (forall n :: 0 <= n < |fates| && LeavesChunks(fates[n]) ==> Run(r, fates[..n]).job.Completed?)
  {
    var together := forall n :: 0 <= n <= |fates| ==> (Run(r, fates[..n]).chunks <==> Run(r, fates[..n]).job.Completed?);
    forall n | together && 0 <= n < |fates| && LeavesChunks(fates[n])
      ensures Run(r, fates[..n]).job.Completed?
    {
      ChunkStep(r, fates, n);
    }
    if forall n :: 0 <= n < |fates| && LeavesChunks(fates[n]) ==> Run(r, fates[..n]).job.Completed? {
      forall n | 0 <= n <= |fates|
        ensures Run(r, fates[..n]).chunks <==> Run(r, fates[..n]).job.Completed?
      {
        TogetherUpTo(r, fates, n);
      }
    }
  }

  /** While chunks and completion agree, delivery `n` breaks the agreement exactly when it leaves
      chunks behind. */
  lemma ChunkStep(r: Rows, fates: seq<Fate>, n: nat)
    requires Fresh(r) && n < |fates|
    requires Run(r, fates[..n]).chunks <==> Run(r, fates[..n]).job.Completed?
    ensures (Run(r, fates[..n + 1]).chunks <==> Run(r, fates[..n + 1]).job.Completed?)
              <==> (LeavesChunks(fates[n]) ==> Run(r, fates[..n]).job.Completed?)
  {
    assert fates[..n + 1][..n] == fates[..n];
    RunConsistent(r, fates[..n]);
  }

  lemma {:induction false} TogetherUpTo(r: Rows, fates: seq<Fate>, n: nat)
    requires Fresh(r) && n <= |fates|
    requires forall m :: 0 <= m < |fates| && LeavesChunks(fates[m]) ==> Run(r, fates[..m]).job.Completed?
    ensures Run(r, fates[..n]).chunks <==> Run(r, fates[..n]).job.Completed?
  {
    if n > 0 {
      TogetherUpTo(r, fates, n - 1);
      ChunkStep(r, fates, n - 1);
    }
  }

  /** A delivery that stores chunks if there are none: it gets through triage, or to the end. */
  predicate Stores(fate: Fate) {
    fate.start.Fine? && fate.ingest.Fine? && (fate.triaged || fate.finish.Fine?)
  }

  predicate IsFirstStoring(fates: seq<Fate>, n: int) {
    0 <= n < |fates| && Stores(fates[n]) && forall m :: 0 <= m < n ==> !Stores(fates[m])
  }

  /** Without such a delivery nothing is stored. */
  lemma {:induction false} NothingStored(r: Rows, fates: seq<Fate>)
    requires Fresh(r) && forall m :: 0 <= m < |fates| ==> !Stores(fates[m])
    ensures var s := Run(r, fates); !s.chunks && !s.document.DocumentCompleted? && !s.job.Completed?
  {
    if fates != [] {
      NothingStored(r, fates[..|fates| - 1]);
    }
  }

  lemma {:induction false} FirstStoring(fates: seq<Fate>, n: nat) returns (k: nat)
    requires n < |fates| && Stores(fates[n])
    ensures k <= n && IsFirstStoring(fates, k)
  {
    if m :| 0 <= m < n && Stores(fates[m]) {
      k := FirstStoring(fates, m);
    } else {
      k := n;
    }
  }

  /** The first delivery that stores chunks completes the job exactly when it gets to the end. */
  lemma FirstStoringDecides(r: Rows, fates: seq<Fate>, k: nat)
    requires Fresh(r) && IsFirstStoring(fates, k)
    ensures !Run(r, fates[..k]).job.Completed?
    ensures Run(r, fates[..k + 1]).job.Completed? <==> fates[k].finish.Fine?
  {
    assert fates[..k + 1][..k] == fates[..k];
    NothingStored(r, fates[..k]);
  }

  /** The same read off the deliveries alone: chunks and completion are durable together in every state
      of a run exactly when the first delivery that stores chunks gets to the end. */
  lemma ChunksWithFates(r: Rows, fates: seq<Fate>)
    requires Fresh(r)
    ensures (forall n :: 0 <= n <= |fates| ==> (Run(r, fates[..n]).chunks <==> Run(r, fates[..n]).job.Completed?))
              <==> (forall n :: IsFirstStoring(fates, n) ==> fates[n].finish.Fine?)
  {
    hide Run, Fresh;
    ChunksWithCompletion(r, fates);
    forall n | IsFirstStoring(fates, n) && !fates[n].finish.Fine?
      ensures LeavesChunks(fates[n]) && !Run(r, fates[..n]).job.Completed?
    {
      FirstStoringDecides(r, fates, n);
    }
    if forall n :: IsFirstStoring(fates, n) ==> fates[n].finish.Fine? {
      forall n | 0 <= n < |fates| && LeavesChunks(fates[n])
        ensures Run(r, fates[..n]).job.Completed?
      {
        var k := FirstStoring(fates, n);
        FirstStoringDecides(r, fates, k);
        RunSplit(r, fates[..n], k + 1);
        assert fates[..n][..k + 1] == fates[..k + 1];
        CompletedAbsorbs(Run(r, fates[..k + 1]), fates[..n][k + 1..]);
      }
    }
  }

  // Progress

  const FINE := Fate(Fine, Fine, true, Fine, Fine, false)

  /** Chunks of an earlier delivery are stored under a document whose ingestion was recorded as failed. */
  predicate Stuck(r: Rows) {
    !r.job.Completed? && r.chunks && !r.document.DocumentCompleted?
  }

  /** A delivery without faults completes the job exactly when it is not stuck. */
  lemma FineDeliveryCompletes(r: Rows, triaged: bool)
    ensures Deliver(r, FINE.(triaged := triaged)).job.Completed? <==> !Stuck(r)
  {
  }

  /** A stuck job never completes, whatever is delivered later. */
  lemma {:induction false} StuckForever(r: Rows, fates: seq<Fate>)
    requires Stuck(r)
    ensures Stuck(Run(r, fates))
  {
    if fates != [] {
      StuckForever(r, fates[..|fates| - 1]);
    }
  }

  /** A job gets stuck in exactly one way: a delivery that gets through triage, or starts from a
      document an earlier one got through it, fails and the failure is recorded. */
  lemma BecomesStuck(r: Rows, fate: Fate)
    requires Consistent(r) && !Stuck(r)
    ensures Stuck(Deliver(r, fate)) <==>
              && !r.job.Completed? && fate.start.Fine? && fate.record.Fine?
              && ((fate.ingest.Raises? && r.document.DocumentCompleted?)
                  || (fate.ingest.Fine? && fate.finish.Raises? && (fate.triaged || r.document.DocumentCompleted?)))
  {
  }

  /** One delivery that fails after triage, and is recorded, is enough. */
  lemma StuckExample()
    ensures var r := Rows(JobPending, 0, 0, DocumentPending, false, Some(VersionPending), false);
            Fresh(r) && Stuck(Run(r, [Fate(Fine, Fine, true, Raises, Fine, false)]))
  {
    var r := Rows(JobPending, 0, 0, DocumentPending, false, Some(VersionPending), false);
    var fates := [Fate(Fine, Fine, true, Raises, Fine, false)];
    assert fates[..|fates| - 1] == [];
    assert Run(r, []) == r;
  }

  /** As long as triage does not commit, a job can always still complete. */
  lemma {:induction false} NeverStuckWithoutTriage(r: Rows, fates: seq<Fate>)
    requires Fresh(r) && forall i :: 0 <= i < |fates| ==> !fates[i].triaged
    ensures !Stuck(Run(r, fates))
  {
    if fates != [] {
      var n := |fates| - 1;
      NeverStuckWithoutTriage(r, fates[..n]);
      NoChunksWithoutTriage(r, fates[..n]);
      RunConsistent(r, fates[..n]);
    }
  }

  lemma {:induction false} NoChunksWithoutTriage(r: Rows, fates: seq<Fate>)
    requires Fresh(r) && forall i :: 0 <= i < |fates| ==> !fates[i].triaged
    ensures Run(r, fates).chunks <==> Run(r, fates).job.Completed?
  {
    if fates != [] {
      NoChunksWithoutTriage(r, fates[..|fates| - 1]);
      RunConsistent(r, fates[..|fates| - 1]);
    }
  }

  /** A worker's view: `stored` is durable, `session` its open transaction. */
  class IngestionWorker {
    var stored: Rows

    constructor (r: Rows)
      ensures stored == r
    {
      stored := r;
    }

    /** `ingest_document_task` */
    method IngestDocument(fate: Fate) returns (raised: bool)
      modifies this
      ensures stored == Deliver(old(stored), fate)
      ensures raised && fate.start.Fine? && fate.record.Fine? ==> stored.job == if fate.final then DeadLettered else Retrying
    {
      hide Recorded;
      raised := false;
      var session := stored;
      if session.job == Completed {
        return;
      }
      session := session.(job := Running, attempts := session.attempts + 1);
      if session.version == Some(VersionPending) {
        session := session.(version := Some(VersionProcessing));
      }
      if fate.start != Fine {
        return fate.start == Raises;
      }
      stored := session;
      if fate.ingest == Crashes {
        return;
      }
      var failed := fate.ingest == Raises;
      if !failed && session.document != DocumentCompleted {
        session := session.(document := DocumentProcessing);
        if session.chunks {
          failed := true;
        } else {
          session := session.(chunks := true, document := DocumentCompleted);
          if fate.triaged {
            stored := session;
          }
        }
      }
      if !failed {
        if fate.finish == Crashes {
          return;
        } else if fate.finish == Raises {
          failed := true;
        } else {
          if session.version.Some? {
            session := session.(version := Some(Promoted), facts := true);
          } else {
            session := session.(facts := false);
          }
          session := session.(job := Completed);
          stored := session;
          return;
        }
      }
      raised := RecordFailure(fate);
    }

    /** The handler: roll back, record the failure, commit. */
    method RecordFailure(fate: Fate) returns (raised: bool)
      modifies this
      ensures stored == Recorded(old(stored), fate)
      ensures fate.record.Fine? ==> stored.job == if fate.final then DeadLettered else Retrying
      ensures raised <==> !fate.record.Crashes?
    {
      var session := stored;
      session := session.(job := if fate.final then DeadLettered else Retrying);
      if fate.final {
        session := session.(deadLetters := session.deadLetters + 1);
      }
      if session.version.Some? && session.version.value != Promoted {
        session := session.(version := Some(VersionFailed));
      }
      session := session.(document := DocumentFailed);
      if fate.record == Fine {
        stored := session;
      }
      raised := fate.record != Crashes;
    }
  }

  // Creating jobs

  /** `idempotency_key`, for some rendering of document ids; the hash may be any text. */
  function JobKey(idText: nat -> string, document: nat, hash: string): string {
    "ingest:v3:" + idText(document) + ":" + hash
  }

  /** Two requests share a job exactly when they name the same document and the same file hash. */
  lemma JobKeyInjective(idText: nat -> string, d1: nat, h1: string, d2: nat, h2: string)
    requires forall x :: ':' !in idText(x)
    requires forall x, y :: idText(x) == idText(y) ==> x == y
    ensures JobKey(idText, d1, h1) == JobKey(idText, d2, h2) <==> d1 == d2 && h1 == h2
  {
    if JobKey(idText, d1, h1) == JobKey(idText, d2, h2) {
      var prefix := "ingest:v3:";
      var a, b := idText(d1) + ":" + h1, idText(d2) + ":" + h2;
      assert JobKey(idText, d1, h1)[|prefix|..] == a && JobKey(idText, d2, h2)[|prefix|..] == b;
      FirstColon(idText(d1), h1, idText(d2), h2);
    }
  }

  class JobStore {
    const idText: nat -> string
    var keys: map<nat, string>
    var outbox: seq<nat>

    /** One job per key, and exactly one outbox event per job. */
    ghost predicate Valid()
      reads this
    {
      && (forall j, k :: j in keys && k in keys && keys[j] == keys[k] ==> j == k)
      && Lists(outbox, keys.Keys)
    }

    constructor (idText: nat -> string)
      ensures Valid() && keys == map[] && this.idText == idText
    {
      this.idText := idText;
      keys, outbox := map[], [];
    }

    /** `create_ingestion_job`: `newId` is the id a new job gets. */
    method CreateIngestionJob(document: nat, hash: string, newId: nat) returns (job: nat)
      requires Valid() && newId !in keys
      modifies this
      ensures Valid()
      ensures job in keys && keys[job] == JobKey(idText, document, hash)
      ensures if exists j :: j in old(keys) && old(keys)[j] == keys[job]
              then keys == old(keys) && outbox == old(outbox)
              else job == newId && keys == old(keys)[newId := keys[newId]] && outbox == old(outbox) + [newId]
    {
      var key := JobKey(idText, document, hash);
      if j :| j in keys && keys[j] == key {
        return j;
      }
      job := newId;
      keys := keys[job := key];
      outbox := outbox + [job];
    }
  }
}
