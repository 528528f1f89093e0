# Upload-and-assemble job orchestration, modelled in Dafny

`upload_and_assemble.py` is a client script for the KBase execution
service. It reads a table of FASTQ file pairs and submits one
"import reads" job per row. It then polls the service until every import
job has resolved, and for each import that completed it submits a SPAdes
assembly job on the imported reads object.

This project models the bookkeeping around those service calls. The
service's answers are inputs to the model: one reply per `run_job` import
submission (`Accepted(jobId)` or `Rejected`), and one reply per
`check_jobs` poll (a sequence of `JobState(jobId, status, objRef)`
reports). The calls the script makes are recorded as sequences on a
`Session` object, so they can be stated and reasoned about.

Modules (one per component of the script):

- `Wrappers` holds `Option` and `Result`.
- `ReadsInputs` holds the `FASTQ_or_SRA_to_READS_input` dataclass
  (`ReadsInput`) and the table loader. It is specified by `ReadsInputsFrom`
  and implemented by the loop in `GetFastqToReadsInputs`.
- `UploadJobs` holds the stage-1 specification functions: `SubmittedIds`
  (the returned job-id list), `RecordNames` (the `upload_job_filenames`
  dictionary after the loop) and `Failures`, with lemmas on order, counts,
  names and the abort condition.
- `AssemblyPolling` holds the polling loop as a state machine over a
  `Tracker`. It has three steps:
  - `Observe` handles one report.
  - `Round` handles one `check_jobs` reply.
  - `Poll` is the `while` loop.

  Reference definitions for one round are `TerminalIds`, `Accountable`,
  `CompletedIds` and `CompletedRequests`. The loop invariant `Sound` says:
  - every submitted job is either awaited or resolved, never both and never twice;
  - each completed job got exactly one assembly request, named after it;
  - status queries only ever shrink.
- `UploadAndAssemble` holds the `Session` class. Its fields are the
  module-level `upload_job_filenames` plus logs of the import submissions,
  the status queries and the assembly submissions. Its methods mirror the
  script's functions, loop for loop, and each is proved against the
  specification functions above.

The model follows the code, not its comments:
- the fields commented `0/1 Boolean` (upload_and_assemble.py:37-39) stay ints;
- `sequencing_tech` and `import_type` are plain strings (the comments at :33-34 list their values);
- the workspace name is the constant at :52;
- a missing column raises `KeyError` (the model's `InputError(column)`).

## Model

| member | source | states |
|---|---|---|
| ReadsInputs.NewReadsInput | upload_and_assemble.py:27-40 | definition: the dataclass built from the three row fields and a workspace, every other field at its declared default; properties in the rows below |
| ReadsInputs.ReadsInputsFrom | upload_and_assemble.py:43-54 | loading succeeds iff every row has the three required columns. Then there is one record per row, in row order, with forward file, reverse file and name copied from the row, the workspace fixed, and every other field at its default. |
| ReadsInputs.LoadErrorIsFirstMissingColumn | upload_and_assemble.py:47-51 | a failed load names a column missing from the first row that lacks one, the first of the three in the order the loader reads them |
| ReadsInputs.GetFastqToReadsInputs | upload_and_assemble.py:43-54 | the row-by-row append loop returns exactly what `ReadsInputsFrom` specifies, including the `KeyError` at the first bad row |
| ReadsInputs.LoadStopsAtFirstError | upload_and_assemble.py:47-53 | once a prefix of the rows raises, later rows are never read and the load raises that same error |
| UploadJobs.SubmittedIds | upload_and_assemble.py:58-80 | the returned list is no longer than the input; membership, order and count in the rows below |
| UploadJobs.SubmittedIdsMembers | upload_and_assemble.py:70-72 | the list holds an id iff some submission returned it |
| UploadJobs.SubmittedIdsAppend | upload_and_assemble.py:59-72 | ids come back in submission order: submitting `a` then `b` returns the ids of `a` followed by those of `b` |
| UploadJobs.SubmittedCount | upload_and_assemble.py:70-77 | with M of K submissions raising, K - M ids are returned: a failed submission adds nothing and does not stop the loop |
| UploadJobs.ShortfallIffSomeSubmitFailed | upload_and_assemble.py:151-154 | fewer ids than inputs iff at least one submission raised |
| UploadJobs.RecordNames | upload_and_assemble.py:70-73 | definition: `upload_job_filenames` after the loop, each accepted submission setting its id to its input's name; properties in the rows below |
| UploadJobs.SubmitStep | upload_and_assemble.py:70-77 | one loop iteration: an accepted submission appends its id and records its name, a rejected one changes neither |
| UploadJobs.RecordNamesKeys | upload_and_assemble.py:70-77 | after the loop the name map's keys are its old keys plus exactly the returned ids |
| UploadJobs.RecordedNameIsSubmitters | upload_and_assemble.py:71-73 | the name recorded for a returned id is the `name` of the input whose submission returned it (the last such, should an id repeat) |
| UploadJobs.RecordNamesKeepsOthers | upload_and_assemble.py:74-77 | an id no submission returned keeps its old entry, or stays absent: rejected submissions leave the map unchanged |
| UploadAndAssemble.SubmittedJobsAreNamed | upload_and_assemble.py:86-104 | every job the polling loop starts with has a recorded name, so the name lookup on completion cannot raise |
| AssemblyPolling.SpadesJob | upload_and_assemble.py:119-132 | definition: the assembly request's reads reference and `output_contigset_name` (`name + ".out"`); properties in the rows below |
| AssemblyPolling.Start | upload_and_assemble.py:86-88 | definition: the loop's state before the first poll, awaiting exactly the submitted ids; properties in the rows below |
| AssemblyPolling.Observe | upload_and_assemble.py:98-109 | definition: handling one report of a `check_jobs` reply; properties in the rows below |
| AssemblyPolling.Round | upload_and_assemble.py:96-109 | definition: handling one `check_jobs` reply in order, stopping at a `KeyError`; properties in the rows below |
| AssemblyPolling.Poll | upload_and_assemble.py:92-109 | definition: the `while` loop over successive `check_jobs` replies; properties in the rows below |
| AssemblyPolling.OutputNameInjective | upload_and_assemble.py:129 | two assemblies write the same `output_contigset_name` iff their reads were imported under the same name |
| AssemblyPolling.StartSound | upload_and_assemble.py:86-88 | the initial state awaits exactly the submitted ids, with nothing resolved, queried or submitted, and satisfies the loop invariant |
| AssemblyPolling.ObserveSound | upload_and_assemble.py:98-109 | handling one report keeps the loop invariant: a terminal status moves the job from awaited to resolved, and `completed` adds one request named after the job |
| AssemblyPolling.RoundFrame | upload_and_assemble.py:96-109 | a round never adds an awaited job and never touches the query log, and after a `KeyError` nothing changes |
| AssemblyPolling.RoundStopsAtKeyError | upload_and_assemble.py:101-109 | once a report raises, the rest of that reply is not handled |
| AssemblyPolling.RoundRemovesTerminal | upload_and_assemble.py:101-109 | a round that does not raise removes exactly the jobs reported `completed`, `terminated` or `error`; jobs with any other status stay |
| AssemblyPolling.RoundRaisesIff | upload_and_assemble.py:103-109 | with every awaited job named, a round raises iff some terminal report names a job no longer awaited or already resolved in the same reply |
| AssemblyPolling.RoundEmitsCompleted | upload_and_assemble.py:101-104 | a round that does not raise submits one assembly per `completed` report, in report order, with that report's `obj_ref` and the job's recorded name plus `.out`; `terminated` and `error` submit nothing |
| AssemblyPolling.RoundSound | upload_and_assemble.py:96-109 | a whole reply keeps the loop invariant |
| AssemblyPolling.PollSound | upload_and_assemble.py:92-109 | the loop invariant holds throughout polling. Each job is awaited or resolved once, and each completed job gets exactly one assembly request. Every query is a subset of the previous one and contains every job still awaited. |
| AssemblyPolling.PollStopsWhenDone | upload_and_assemble.py:92 | once nothing is awaited, or a `KeyError` has escaped, no further poll happens |
| AssemblyPolling.PollEndsAtKeyError | upload_and_assemble.py:103-109 | a `KeyError` at some report of some poll is the final state of the whole loop |
| AssemblyPolling.PollExtends | upload_and_assemble.py:92-96 | polling further only appends to the query log, each later query lies within the jobs awaited earlier, and the awaited set never grows |
| AssemblyPolling.ResolvedNeverQueriedAgain | upload_and_assemble.py:92-109 | a job once seen in a terminal status is in no later `check_jobs` query |
| AssemblyPolling.TwoUploadsScenario | upload_and_assemble.py:83-109 | uploads A (completes with `ws/1/1` on the second poll) and B (`error` on the first) give exactly one assembly, for A, writing `A.out`, two queries, and nothing awaited at the end |
| UploadAndAssemble.AwaitAll | upload_and_assemble.py:86-88 | the working dictionary built by the loop holds a job iff it is among the given ids |
| UploadAndAssemble.Session.constructor | upload_and_assemble.py:23 | the run starts with an empty name map and no calls made |
| UploadAndAssemble.Session.SubmitFastqToReadsJobs | upload_and_assemble.py:57-80 | every input is submitted once, in order. The result is `SubmittedIds` of the replies, and the name map becomes `RecordNames` of its old value. |
| UploadAndAssemble.Session.SubmitSpadesJob | upload_and_assemble.py:113-138 | exactly one assembly request is appended, with reads reference `reads_upa` and output name `name + ".out"` |
| UploadAndAssemble.Session.SubmitAssembleReadsJobs | upload_and_assemble.py:83-109 | the working dictionary starts as the given ids, and the queries and assembly submissions made are exactly those of `Poll` from `Start`. The result says whether everything resolved, the replies ran out, or a `KeyError` escaped. |
| UploadAndAssemble.Session.BeginUpload | upload_and_assemble.py:148-156 | aborts iff loading succeeded and some submission raised; then it makes no query and no assembly. A load error changes nothing. Otherwise it submits every record, records the names, and polls the returned ids. |

## Left out

- The execution-service client (`EE2`, built from `KB_AUTH_TOKEN` and a URL) is not modelled. The model takes its replies to `run_job` and `check_jobs` as input sequences.
- `time.sleep(10)` between polls is wall-clock waiting and is left out.
- The source polls forever while a job never reaches a terminal status. The model's loop also stops when the supplied `check_jobs` replies run out, reporting `StillPolling`. Termination of the real loop depends on the service and is not claimed.
- Opening `inputs.csv` and `csv.DictReader` are not modelled. Rows arrive parsed, as maps from column name to string. The `None` that `DictReader` puts in a short row's missing cells is not modelled.
- The fixed job-parameter dictionaries are not modelled: tag, method, `service_ver`, `app_id`, `wsid`, `source_ws_objects`, `dna_source`, `kmer_sizes`, `min_contig_length`, `skip_error_correction` and the assembly's workspace name. They are constant payloads. An import request is recorded as its `ReadsInput`. An assembly request is recorded as its reads reference and output contig-set name.
- Line 124 keys the assembly parameters with the integer `wsid` rather than the string `'wsid'`. This is not modelled because the payload is left out.
- A completed job's `job_output['result'][0]['obj_ref']` is taken as given in the report. The `KeyError`/`IndexError` a malformed result would raise is not modelled.
- `submit_spades_job` swallows submission exceptions. The model records every attempted assembly submission, whatever the service answered, and its job id is not tracked, as in the source.
- `print`/`pprint` output is not modelled. `sys.exit(1)` is the `Aborted` outcome. The module-level `begin_upload()` call is the `BeginUpload` method on a fresh `Session`. The commented-out command-line block is not modelled.
- The `uploader_jobs` dictionary maps every key to `0` and its values are never read, so it is modelled as a set of job ids.
- The list of keys sent to `check_jobs` is recorded as a set, without the dictionary's key order.
- The unused `completed_jobs` counter and the unused `assemble_reads` result are not modelled.
- UploadAndAssemble.Session.SubmitAssembleReadsJobs: does not report which job id a `KeyError` was raised for, only that one was.
