/**
 * One run of the upload-and-assemble script (upload_and_assemble.py): the
 * module-level `upload_job_filenames` dictionary, the calls made to the
 * execution service, and the script's functions as methods over them.
 */
module UploadAndAssemble {
  import opened Wrappers
  import opened ReadsInputs
  import opened UploadJobs
  import opened AssemblyPolling

  /** How `begin_upload` ends. */
  datatype RunOutcome =
    | InputError(column: string)       // `KeyError` while reading the table
    | Aborted(expected: nat, got: nat)  // `sys.exit(1)`: fewer job ids than inputs
    | Polled(status: PollStatus)        // the polling loop ran

  /**
   * After the submit loop every returned job id has a recorded name, so in
   * the polling that follows only a `del` can raise.
   */
  lemma {:induction false} SubmittedJobsAreNamed(names: map<JobId, string>, inputs: seq<ReadsInput>, replies: seq<Submission>)
    requires |inputs| == |replies|
    ensures Start(SubmittedIds(replies)).working <= RecordNames(names, inputs, replies).Keys
  {
    RecordNamesKeys(names, inputs, replies);
  }

  /** The working dictionary the polling loop starts from: one entry per given job id. */
  method AwaitAll(uploaderJobIds: seq<JobId>) returns (uploaderJobs: set<JobId>)
    ensures forall id :: id in uploaderJobs <==> id in uploaderJobIds
  {
    uploaderJobs := {};
    for i := 0 to |uploaderJobIds|
      invariant forall id :: id in uploaderJobs <==> id in uploaderJobIds[..i]
    {
      assert uploaderJobIds[..i + 1] == uploaderJobIds[..i] + [uploaderJobIds[i]];
      uploaderJobs := uploaderJobs + {uploaderJobIds[i]};
    }
    assert uploaderJobIds[..|uploaderJobIds|] == uploaderJobIds;
  }

  class Session {
    /** The module-level map from import job id to the name of its input. */
    var uploadJobFilenames: map<JobId, string>
    /** Every import job submitted with `run_job`, in call order. */
    var importRequests: seq<ReadsInput>
    /** The job ids of every `check_jobs` call, in call order. */
    var statusQueries: seq<set<JobId>>
    /** Every assembly job submitted with `run_job`, in call order. */
    var spadesRequests: seq<SpadesRequest>

    /** The state at module load: nothing recorded, nothing submitted. */
    constructor ()
      ensures uploadJobFilenames == map[]
      ensures importRequests == [] && statusQueries == [] && spadesRequests == []
    {
      uploadJobFilenames := map[];
      importRequests := [];
      statusQueries := [];
      spadesRequests := [];
    }

    /**
     * Submits one import job per input, in order; `replies[i]` is the
     * service's answer to the i-th submission. Accepted ids are collected
     * and their names recorded; a rejected submission is skipped.
     */
    method SubmitFastqToReadsJobs(uploaderInputs: seq<ReadsInput>, replies: seq<Submission>) returns (jobIds: seq<JobId>)
      requires |replies| == |uploaderInputs|
      modifies this`uploadJobFilenames, this`importRequests
      ensures importRequests == old(importRequests) + uploaderInputs
      ensures jobIds == SubmittedIds(replies)
      ensures uploadJobFilenames == RecordNames(old(uploadJobFilenames), uploaderInputs, replies)
    {
      jobIds := [];
      for i := 0 to |uploaderInputs|
        invariant importRequests == old(importRequests) + uploaderInputs[..i]
        invariant jobIds == SubmittedIds(replies[..i])
        invariant uploadJobFilenames == RecordNames(old(uploadJobFilenames), uploaderInputs[..i], replies[..i])
      {
        SubmitStep(old(uploadJobFilenames), uploaderInputs, replies, i);
        assert uploaderInputs[..i + 1] == uploaderInputs[..i] + [uploaderInputs[i]];
        var uploaderInput := uploaderInputs[i];
        importRequests := importRequests + [uploaderInput];
        match replies[i]
        case Accepted(jobId) =>
          jobIds := jobIds + [jobId];
          uploadJobFilenames := uploadJobFilenames[jobId := uploaderInput.name];
        case Rejected =>
      }
      assert replies[..|replies|] == replies;
      assert uploaderInputs[..|uploaderInputs|] == uploaderInputs;
    }

    /** Submits an assembly of `readsUpa` writing `{name}.out`; its reply is ignored. */
    method SubmitSpadesJob(readsUpa: string, name: string)
      modifies this`spadesRequests
      ensures spadesRequests == old(spadesRequests) + [SpadesRequest(readsUpa, name + ".out")]
    {
      spadesRequests := spadesRequests + [SpadesJob(readsUpa, name)];
    }

    /**
     * Awaits the given import jobs, polling with `check_jobs` while any is
     * awaited; `replies[r]` is the service's answer to the r-th poll. Each
     * completed job triggers one assembly. Returns when nothing is awaited,
     * when the replies run out, or when a `KeyError` escapes.
     */
    method SubmitAssembleReadsJobs(uploaderJobIds: seq<JobId>, replies: seq<seq<JobState>>) returns (outcome: PollStatus)
      modifies this`statusQueries, this`spadesRequests
      ensures var t := Poll(Start(uploaderJobIds), uploadJobFilenames, replies);
        && statusQueries == old(statusQueries) + t.queries
        && spadesRequests == old(spadesRequests) + t.requests
        && outcome == StatusOf(t)
    {
      var uploaderJobs := AwaitAll(uploaderJobIds);

      ghost var t0 := Start(uploaderJobIds);
      ghost var queries: seq<set<JobId>> := [];
      ghost var resolved: seq<JobId> := [];
      ghost var assembled: seq<JobId> := [];
      ghost var requests: seq<SpadesRequest> := [];
      var round := 0;
      while uploaderJobs != {} && round < |replies|
        invariant round <= |replies|
        invariant Poll(t0, uploadJobFilenames, replies[..round]) == Tracker(uploaderJobs, queries, resolved, assembled, requests, false)
        invariant statusQueries == old(statusQueries) + queries
        invariant spadesRequests == old(spadesRequests) + requests
        decreases |replies| - round
      {
        var jobIds := uploaderJobs;
        statusQueries := statusQueries + [jobIds];
        queries := queries + [jobIds];
        var jobStates := replies[round];
        ghost var start := Tracker(uploaderJobs, queries, resolved, assembled, requests, false);
        assert replies[..round + 1][..round] == replies[..round];
        assert Poll(t0, uploadJobFilenames, replies[..round + 1]) == Round(start, uploadJobFilenames, jobStates);
        for k := 0 to |jobStates|
          invariant Round(start, uploadJobFilenames, jobStates[..k]) == Tracker(uploaderJobs, queries, resolved, assembled, requests, false)
          invariant statusQueries == old(statusQueries) + queries
          invariant spadesRequests == old(spadesRequests) + requests
        {
          assert jobStates[..k + 1][..k] == jobStates[..k];
          var jobState := jobStates[k];
          var jobId := jobState.jobId;
          var status := jobState.status;
          if status == COMPLETED {
            var readsUpa := jobState.objRef;
            if jobId !in uploaderJobs {
              PollEndsAtKeyError(t0, uploadJobFilenames, replies, round, start, k);
              return KeyError;
            }
            uploaderJobs := uploaderJobs - {jobId};
            resolved := resolved + [jobId];
            if jobId !in uploadJobFilenames {
              PollEndsAtKeyError(t0, uploadJobFilenames, replies, round, start, k);
              return KeyError;
            }
            SubmitSpadesJob(readsUpa, uploadJobFilenames[jobId]);
            assembled := assembled + [jobId];
            requests := requests + [SpadesJob(readsUpa, uploadJobFilenames[jobId])];
          } else if status == TERMINATED || status == ERROR {
            if jobId !in uploaderJobs {
              PollEndsAtKeyError(t0, uploadJobFilenames, replies, round, start, k);
              return KeyError;
            }
            uploaderJobs := uploaderJobs - {jobId};
            resolved := resolved + [jobId];
          }
        }
        assert jobStates[..|jobStates|] == jobStates;
        round := round + 1;
      }
      if uploaderJobs == {} {
        PollStopsWhenDone(t0, uploadJobFilenames, replies, round);
      } else {
        assert replies[..round] == replies;
      }
      outcome := if uploaderJobs == {} then AllResolved else StillPolling;
    }

    /**
     * The script's entry point: load the table, submit one import per row,
     * exit with status 1 unless every submission returned a job id, then
     * poll. `submitReplies` answers the import submissions in order and
     * `pollReplies` the status queries.
     */
    method BeginUpload(rows: seq<Row>, submitReplies: seq<Submission>, pollReplies: seq<seq<JobState>>) returns (outcome: RunOutcome)
      requires |submitReplies| == |rows|
      modifies this
      ensures outcome.Aborted? <==>
        ReadsInputsFrom(rows).Success? && exists i :: 0 <= i < |rows| && submitReplies[i] == Rejected
      ensures ReadsInputsFrom(rows).Failure? ==>
        outcome == InputError(ReadsInputsFrom(rows).error) && unchanged(this)
      ensures ReadsInputsFrom(rows).Success? ==>
        var inputs := ReadsInputsFrom(rows).value;
        var jobIds := SubmittedIds(submitReplies);
        && importRequests == old(importRequests) + inputs
        && uploadJobFilenames == RecordNames(old(uploadJobFilenames), inputs, submitReplies)
        && (|jobIds| != |rows| ==>
              && outcome == Aborted(|rows|, |jobIds|)
              && statusQueries == old(statusQueries)
              && spadesRequests == old(spadesRequests))
        && (|jobIds| == |rows| ==>
              var t := Poll(Start(jobIds), uploadJobFilenames, pollReplies);
              && outcome == Polled(StatusOf(t))
              && statusQueries == old(statusQueries) + t.queries
              && spadesRequests == old(spadesRequests) + t.requests)
    {
      var loaded := GetFastqToReadsInputs(rows);
      if loaded.Failure? {
        return InputError(loaded.error);
      }
      var uploaderInputs := loaded.value;
      var uploaderJobIds := SubmitFastqToReadsJobs(uploaderInputs, submitReplies);
      ShortfallIffSomeSubmitFailed(submitReplies);
      if |uploaderJobIds| != |uploaderInputs| {
        return Aborted(|uploaderInputs|, |uploaderJobIds|);
      }
      var status := SubmitAssembleReadsJobs(uploaderJobIds, pollReplies);
      outcome := Polled(status);
    }
  }
}
