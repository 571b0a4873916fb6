/**
 * The persistent ledger: the `batch_jobs` and `batch_job_images` tables, each a map from row id
 * to record plus the ids in table order (the order in which `.all()` returns rows).
 */
module Ledger {
  import opened Wrappers
  import opened Models

  predicate Distinct(ids: seq<string>) {
    forall i, j :: 0 <= i < j < |ids| ==> ids[i] != ids[j]
  }

  /** A table: every id listed once, and exactly the listed ids have rows whose `id` is their key. */
  ghost predicate JobTable(rows: map<string, BatchJob>, ids: seq<string>) {
    && Distinct(ids)
    && (forall id :: id in rows <==> id in ids)
    && (forall id :: id in rows ==> rows[id].id == id)
  }

  /** The image table: every id listed once, and exactly the listed ids have rows. */
  ghost predicate ImageTable(rows: map<string, BatchJobImage>, ids: seq<string>) {
    && Distinct(ids)
    && (forall id :: id in rows <==> id in ids)
  }

  /** The image rows in table order. */
  function Rows(rows: map<string, BatchJobImage>, ids: seq<string>): (r: seq<BatchJobImage>)
    requires forall id :: id in ids ==> id in rows
    ensures |r| == |ids|
    ensures forall i :: 0 <= i < |ids| ==> r[i] == rows[ids[i]]
  {
    if ids == [] then [] else Rows(rows, ids[..|ids| - 1]) + [rows[ids[|ids| - 1]]]
  }

  /** Rewriting existing rows keeps the table. */
  lemma SameKeysKeepsTable(before: map<string, BatchJobImage>, after: map<string, BatchJobImage>, ids: seq<string>)
    requires ImageTable(before, ids) && after.Keys == before.Keys
    ensures ImageTable(after, ids)
  {
    assert forall id :: id in after <==> id in before;
  }

  /** Appending a row under a fresh id keeps the table. */
  lemma AppendKeepsTable(rows: map<string, BatchJobImage>, ids: seq<string>, id: string, row: BatchJobImage)
    requires ImageTable(rows, ids) && id !in rows
    ensures ImageTable(rows[id := row], ids + [id])
  {
  }

  /** Appending a job under a fresh id keeps the job table. */
  lemma AppendKeepsJobTable(rows: map<string, BatchJob>, ids: seq<string>, job: BatchJob)
    requires JobTable(rows, ids) && job.id !in rows
    ensures JobTable(rows[job.id := job], ids + [job.id])
  {
  }

  class Ledger {
    var jobs: map<string, BatchJob>
    var jobIds: seq<string>
    var images: map<string, BatchJobImage>
    var imageIds: seq<string>

    ghost predicate Valid()
      reads this
    {
      JobTable(jobs, jobIds) && ImageTable(images, imageIds)
    }

    /** An empty database. */
    constructor ()
      ensures Valid()
      ensures jobs == map[] && jobIds == [] && images == map[] && imageIds == []
    {
      jobs, jobIds := map[], [];
      images, imageIds := map[], [];
    }

    /** The image rows in table order. */
    function ImageRows(): (r: seq<BatchJobImage>)
      reads this
      requires Valid()
      ensures |r| == |imageIds|
    {
      Rows(images, imageIds)
    }
  }
}
