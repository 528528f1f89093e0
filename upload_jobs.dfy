/**
 * Stage 1: one import job per input record (upload_and_assemble.py,
 * lines 57-80) and the count check that guards the polling stage
 * (lines 148-154). The execution service's reply to each `run_job` call is
 * an input of the model.
 */
module UploadJobs {
  import opened ReadsInputs

  /** The opaque handle the execution service returns for a job. */
  type JobId = string

  /** The reply to one `run_job` call: a job id, or an exception. */
  datatype Submission = Accepted(jobId: JobId) | Rejected

  /** The job ids the submit loop collects from `replies`, one per accepted submission. */
  function SubmittedIds(replies: seq<Submission>): (ids: seq<JobId>)
    ensures |ids| <= |replies|
  {
    if replies == [] then []
    else
      var n := |replies| - 1;
      match replies[n]
      case Accepted(id) => SubmittedIds(replies[..n]) + [id]
      case Rejected => SubmittedIds(replies[..n])
  }

  /** The list holds an id exactly when some submission returned it. */
  lemma {:induction false} SubmittedIdsMembers(replies: seq<Submission>)
    ensures forall id :: id in SubmittedIds(replies) <==> Accepted(id) in replies
  {
    if replies != [] {
      var n := |replies| - 1;
      assert replies == replies[..n] + [replies[n]];
      SubmittedIdsMembers(replies[..n]);
    }
  }

  /** The number of submissions that raised. */
  function Failures(replies: seq<Submission>): (m: nat)
    ensures m <= |replies|
  {
    if replies == [] then 0
    else
      var n := |replies| - 1;
      Failures(replies[..n]) + if replies[n].Rejected? then 1 else 0
  }

  /** Submitting in two batches yields the ids of the first batch followed by those of the second: input order is kept. */
  lemma {:induction false} SubmittedIdsAppend(a: seq<Submission>, b: seq<Submission>)
    ensures SubmittedIds(a + b) == SubmittedIds(a) + SubmittedIds(b)
    decreases |b|
  {
    if b == [] {
      assert a + b == a;
    } else {
      var n := |b| - 1;
      assert (a + b)[..|a + b| - 1] == a + b[..n];
      SubmittedIdsAppend(a, b[..n]);
    }
  }

  /** With M of K submissions raising, the loop returns K - M job ids. */
  lemma {:induction false} SubmittedCount(replies: seq<Submission>)
    ensures |SubmittedIds(replies)| == |replies| - Failures(replies)
  {
    if replies != [] {
      SubmittedCount(replies[..|replies| - 1]);
    }
  }

  /** At least one submission raised exactly when the count check fails. */
  lemma {:induction false} ShortfallIffSomeSubmitFailed(replies: seq<Submission>)
    ensures |SubmittedIds(replies)| != |replies| <==> exists i :: 0 <= i < |replies| && replies[i] == Rejected
  {
    SubmittedCount(replies);
    if replies != [] {
      var n := |replies| - 1;
      ShortfallIffSomeSubmitFailed(replies[..n]);
      if exists i :: 0 <= i < n && replies[..n][i] == Rejected {
        var i :| 0 <= i < n && replies[..n][i] == Rejected;
        assert replies[i] == Rejected;
      }
      if exists i :: 0 <= i < |replies| && replies[i] == Rejected {
        var i :| 0 <= i < |replies| && replies[i] == Rejected;
        if i < n {
          assert replies[..n][i] == Rejected;
        }
      }
    }
  }

  /**
   * `upload_job_filenames` after the submit loop: each accepted submission
   * maps its job id to the name of its input record.
   */
  function RecordNames(names: map<JobId, string>, inputs: seq<ReadsInput>, replies: seq<Submission>): (m: map<JobId, string>)
    requires |inputs| == |replies|
  {
    if replies == [] then names
    else
      var n := |replies| - 1;
      var prefix := RecordNames(names, inputs[..n], replies[..n]);
      match replies[n]
      case Accepted(id) => prefix[id := inputs[n].name]
      case Rejected => prefix
  }

  /** Extending the submitted prefix by submission `i`: what it adds to the id list and to the name map. */
  lemma SubmitStep(names: map<JobId, string>, inputs: seq<ReadsInput>, replies: seq<Submission>, i: nat)
    requires |inputs| == |replies| && i < |replies|
    ensures SubmittedIds(replies[..i + 1]) ==
      SubmittedIds(replies[..i]) + if replies[i].Accepted? then [replies[i].jobId] else []
    ensures RecordNames(names, inputs[..i + 1], replies[..i + 1]) ==
      if replies[i].Accepted?
      then RecordNames(names, inputs[..i], replies[..i])[replies[i].jobId := inputs[i].name]
      else RecordNames(names, inputs[..i], replies[..i])
  {
    assert replies[..i + 1][..i] == replies[..i];
    assert inputs[..i + 1][..i] == inputs[..i];
  }

  /** The map gains exactly the returned ids as keys. */
  lemma {:induction false} RecordNamesKeys(names: map<JobId, string>, inputs: seq<ReadsInput>, replies: seq<Submission>)
    requires |inputs| == |replies|
    ensures forall id :: id in RecordNames(names, inputs, replies) <==> id in names || id in SubmittedIds(replies)
  {
    if replies != [] {
      var n := |replies| - 1;
      RecordNamesKeys(names, inputs[..n], replies[..n]);
    }
  }

  /**
   * The name recorded for a returned id is the name of the input whose
   * submission returned it (the last such input, should the service ever
   * hand out an id twice).
   */
  lemma {:induction false} RecordedNameIsSubmitters(names: map<JobId, string>, inputs: seq<ReadsInput>, replies: seq<Submission>, k: nat)
    requires |inputs| == |replies| && k < |replies| && replies[k].Accepted?
    requires forall j :: k < j < |replies| ==> replies[j] != replies[k]
    ensures replies[k].jobId in RecordNames(names, inputs, replies)
    ensures RecordNames(names, inputs, replies)[replies[k].jobId] == inputs[k].name
  {
    var n := |replies| - 1;
    if k < n {
      RecordedNameIsSubmitters(names, inputs[..n], replies[..n], k);
    }
  }

  /** Ids no submission returned keep whatever entry they had: a failed submission changes nothing. */
  lemma {:induction false} RecordNamesKeepsOthers(names: map<JobId, string>, inputs: seq<ReadsInput>, replies: seq<Submission>, id: JobId)
    requires |inputs| == |replies| && id !in SubmittedIds(replies)
    ensures id in RecordNames(names, inputs, replies) <==> id in names
    ensures id in names ==> RecordNames(names, inputs, replies)[id] == names[id]
  {
    if replies != [] {
      var n := |replies| - 1;
      RecordNamesKeepsOthers(names, inputs[..n], replies[..n], id);
    }
  }
}
