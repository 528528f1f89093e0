/**
 * Stage 2: the polling loop over the submitted import jobs and the assembly
 * request built for each completed one (upload_and_assemble.py, lines
 * 83-138). The execution service's reply to each `check_jobs` call is an
 * input of the model; one reply holds one report per job.
 */
module AssemblyPolling {
  import opened UploadJobs

  const COMPLETED: string := "completed"
  const TERMINATED: string := "terminated"
  const ERROR: string := "error"

  /** One entry of a `check_jobs` reply: the job, its status, and the `obj_ref` of its first result. */
  datatype JobState = JobState(jobId: JobId, status: string, objRef: string)

  /** The parts of an assembly job's parameters that depend on the import job. */
  datatype SpadesRequest = SpadesRequest(readsRef: string, outputContigsetName: string)

  /** The name of the contig set an assembly of reads called `name` writes. */
  function OutputName(name: string): string
  {
    name + ".out"
  }

  /** The assembly request for the reads object `readsUpa` imported under `name`. */
  function SpadesJob(readsUpa: string, name: string): SpadesRequest
  {
    SpadesRequest(readsUpa, OutputName(name))
  }

  /** Two assemblies write the same contig set exactly when their reads were imported under the same name. */
  lemma OutputNameInjective(a: string, b: string)
    ensures OutputName(a) == OutputName(b) <==> a == b
  {
    if OutputName(a) == OutputName(b) {
      assert |a| == |b|;
      assert a == OutputName(a)[..|a|];
    }
  }

  /** The statuses that end the tracking of a job. */
  predicate IsTerminal(status: string)
  {
    status == COMPLETED || status == TERMINATED || status == ERROR
  }

  /** How polling ended: every job resolved, the replies ran out first, or a `KeyError` escaped. */
  datatype PollStatus = AllResolved | StillPolling | KeyError

  /**
   * The state of the polling loop. `working` is the dictionary of jobs
   * still awaited; `queries` the job sets sent to `check_jobs`;
   * `resolved` the jobs seen in a terminal status and `assembled` the
   * completed ones, in order; `requests` the assembly jobs submitted;
   * `crashed` whether a `KeyError` has ended the loop.
   */
  datatype Tracker = Tracker(
    working: set<JobId>,
    queries: seq<set<JobId>>,
    resolved: seq<JobId>,
    assembled: seq<JobId>,
    requests: seq<SpadesRequest>,
    crashed: bool)

  /** The loop's state before the first poll: every submitted job is awaited. */
  function Start(ids: seq<JobId>): Tracker
  {
    Tracker(set id | id in ids, [], [], [], [], false)
  }

  /**
   * Handling one report. A terminal status deletes the job (`KeyError` if
   * it is no longer there); `completed` then submits an assembly under the
   * job's recorded name (`KeyError` if none was recorded). Any other status
   * changes nothing.
   */
  function Observe(t: Tracker, names: map<JobId, string>, s: JobState): Tracker
  {
    if !IsTerminal(s.status) then t
    else if s.jobId !in t.working then t.(crashed := true)
    else
      var rest := t.(working := t.working - {s.jobId}, resolved := t.resolved + [s.jobId]);
      if s.status != COMPLETED then rest
      else if s.jobId !in names then rest.(crashed := true)
      else rest.(assembled := t.assembled + [s.jobId], requests := t.requests + [SpadesJob(s.objRef, names[s.jobId])])
  }

  /** Handling the reports of one `check_jobs` reply in order, stopping at a `KeyError`. */
  function Round(t: Tracker, names: map<JobId, string>, reports: seq<JobState>): Tracker
  {
    if reports == [] then t
    else
      var p := Round(t, names, reports[..|reports| - 1]);
      if p.crashed then p else Observe(p, names, reports[|reports| - 1])
  }

  /**
   * The `while` loop: while jobs are awaited and nothing has raised, query
   * the awaited jobs and handle the next reply.
   */
  function Poll(t: Tracker, names: map<JobId, string>, replies: seq<seq<JobState>>): Tracker
  {
    if replies == [] then t
    else
      var p := Poll(t, names, replies[..|replies| - 1]);
      if p.crashed || p.working == {} then p
      else Round(p.(queries := p.queries + [p.working]), names, replies[|replies| - 1])
  }

  /** How a loop that reached state `t` ends. */
  function StatusOf(t: Tracker): PollStatus
  {
    if t.crashed then KeyError else if t.working == {} then AllResolved else StillPolling
  }

  // ----- Reference definitions for one round -----

  /** The jobs reported in a terminal status. */
  function TerminalIds(reports: seq<JobState>): set<JobId>
  {
    set k | 0 <= k < |reports| && IsTerminal(reports[k].status) :: reports[k].jobId
  }

  /**
   * Every terminal report names a job that is awaited and was not already
   * reported terminal earlier in the same reply.
   */
  predicate Accountable(working: set<JobId>, reports: seq<JobState>)
  {
    forall k :: 0 <= k < |reports| && IsTerminal(reports[k].status) ==>
      reports[k].jobId in working && reports[k].jobId !in TerminalIds(reports[..k])
  }

  /** The jobs reported `completed`, in report order. */
  function CompletedIds(reports: seq<JobState>): seq<JobId>
  {
    if reports == [] then []
    else
      var n := |reports| - 1;
      CompletedIds(reports[..n]) + if reports[n].status == COMPLETED then [reports[n].jobId] else []
  }

  /** Every job reported `completed` has a recorded name. */
  predicate CompletedNamed(names: map<JobId, string>, reports: seq<JobState>)
  {
    forall k :: 0 <= k < |reports| && reports[k].status == COMPLETED ==> reports[k].jobId in names
  }

  /** One assembly request per `completed` report, in report order. */
  function CompletedRequests(names: map<JobId, string>, reports: seq<JobState>): seq<SpadesRequest>
    requires CompletedNamed(names, reports)
  {
    if reports == [] then []
    else
      var n := |reports| - 1;
      var s := reports[n];
      CompletedRequests(names, reports[..n]) + if s.status == COMPLETED then [SpadesJob(s.objRef, names[s.jobId])] else []
  }

  // ----- Properties of one round -----

  /** A round never adds a job, never touches the query log, and once it raises it stops. */
  lemma {:induction false} RoundFrame(t: Tracker, names: map<JobId, string>, reports: seq<JobState>)
    ensures Round(t, names, reports).working <= t.working
    ensures Round(t, names, reports).queries == t.queries
    ensures t.crashed ==> Round(t, names, reports) == t
  {
    if reports != [] {
      RoundFrame(t, names, reports[..|reports| - 1]);
    }
  }

  /** Once a prefix of the reports raises, the rest of the reply is not handled. */
  lemma {:induction false} RoundStopsAtKeyError(t: Tracker, names: map<JobId, string>, reports: seq<JobState>, i: nat)
    requires i <= |reports| && Round(t, names, reports[..i]).crashed
    ensures Round(t, names, reports) == Round(t, names, reports[..i])
    decreases |reports| - i
  {
    if i < |reports| {
      assert reports[..i + 1][..i] == reports[..i];
      RoundStopsAtKeyError(t, names, reports, i + 1);
    } else {
      assert reports[..i] == reports;
    }
  }

  /** The terminal ids of a reply are those of its prefix plus the last report's job, when that report is terminal. */
  lemma TerminalIdsSnoc(reports: seq<JobState>, n: nat)
    requires n == |reports| - 1
    ensures TerminalIds(reports) ==
      TerminalIds(reports[..n]) + if IsTerminal(reports[n].status) then {reports[n].jobId} else {}
  {
    var prefix := reports[..n];
    forall id | id in TerminalIds(reports)
      ensures id in TerminalIds(prefix) || (IsTerminal(reports[n].status) && id == reports[n].jobId)
    {
      var k :| 0 <= k < |reports| && IsTerminal(reports[k].status) && reports[k].jobId == id;
      if k < n {
        assert prefix[k] == reports[k];
      }
    }
    forall id | id in TerminalIds(prefix) ensures id in TerminalIds(reports) {
      var k :| 0 <= k < |prefix| && IsTerminal(prefix[k].status) && prefix[k].jobId == id;
      assert reports[k] == prefix[k];
    }
  }

  /** A round that does not raise removes exactly the jobs reported in a terminal status; the others stay. */
  lemma {:induction false} RoundRemovesTerminal(t: Tracker, names: map<JobId, string>, reports: seq<JobState>)
    requires !Round(t, names, reports).crashed
    ensures Round(t, names, reports).working == t.working - TerminalIds(reports)
  {
    if reports == [] {
      assert TerminalIds(reports) == {};
    } else {
      var n := |reports| - 1;
      RoundFrame(t, names, reports[..n]);
      RoundRemovesTerminal(t, names, reports[..n]);
      TerminalIdsSnoc(reports, n);
    }
  }

  /**
   * With every awaited job named, a round raises exactly when some terminal
   * report is not accountable: its job is no longer awaited, or the same
   * reply already resolved it.
   */
  lemma {:induction false} RoundRaisesIff(t: Tracker, names: map<JobId, string>, reports: seq<JobState>)
    requires !t.crashed && t.working <= names.Keys
    ensures Round(t, names, reports).crashed <==> !Accountable(t.working, reports)
  {
    if reports != [] {
      var n := |reports| - 1;
      var prefix := reports[..n];
      var s := reports[n];
      RoundRaisesIff(t, names, prefix);
      forall k | 0 <= k < n ensures prefix[..k] == reports[..k] && prefix[k] == reports[k] { }
      assert reports[..n] == prefix;
      var p := Round(t, names, prefix);
      if !p.crashed {
        RoundRemovesTerminal(t, names, prefix);
        RoundFrame(t, names, prefix);
      }
    }
  }

  /**
   * A round that does not raise submits one assembly per `completed`
   * report, in report order, with that report's reads reference and the
   * job's recorded name; `terminated` and `error` submit nothing.
   */
  lemma {:induction false} RoundEmitsCompleted(t: Tracker, names: map<JobId, string>, reports: seq<JobState>)
    requires !Round(t, names, reports).crashed
    ensures CompletedNamed(names, reports)
    ensures Round(t, names, reports).assembled == t.assembled + CompletedIds(reports)
    ensures Round(t, names, reports).requests == t.requests + CompletedRequests(names, reports)
  {
    if reports != [] {
      var n := |reports| - 1;
      var prefix := reports[..n];
      RoundFrame(t, names, prefix);
      assert !Round(t, names, prefix).crashed;
      RoundEmitsCompleted(t, names, prefix);
      forall k | 0 <= k < n ensures prefix[k] == reports[k] { }
    }
  }

  // ----- Invariant of the whole loop -----

  /**
   * Every job of `w0` is either awaited or resolved, never both and never
   * resolved twice; each completed job got one assembly request, named after
   * it; every query asked about a subset of the previous one and included
   * all jobs still awaited.
   */
  ghost predicate Sound(t: Tracker, w0: set<JobId>, names: map<JobId, string>)
  {
    && (forall id :: id in w0 <==> id in t.working || id in t.resolved)
    && (forall k :: 0 <= k < |t.resolved| ==> t.resolved[k] !in t.working)
    && (forall i, j :: 0 <= i < j < |t.resolved| ==> t.resolved[i] != t.resolved[j])
    && |t.requests| == |t.assembled|
    && (forall k :: 0 <= k < |t.assembled| ==>
          t.assembled[k] in t.resolved && t.assembled[k] in names &&
          t.requests[k].outputContigsetName == OutputName(names[t.assembled[k]]))
    && (forall i, j :: 0 <= i < j < |t.assembled| ==> t.assembled[i] != t.assembled[j])
    && (forall i :: 0 <= i < |t.queries| ==> t.working <= t.queries[i] <= w0)
    && (forall i, j :: 0 <= i <= j < |t.queries| ==> t.queries[j] <= t.queries[i])
  }

  /** The state before the first poll satisfies the loop invariant. */
  lemma StartSound(ids: seq<JobId>, names: map<JobId, string>)
    ensures Sound(Start(ids), Start(ids).working, names)
  {
  }

  /** Handling one report, of any status, keeps the loop invariant. */
  lemma ObserveSound(t: Tracker, w0: set<JobId>, names: map<JobId, string>, s: JobState)
    requires Sound(t, w0, names)
    ensures Sound(Observe(t, names, s), w0, names)
  {
    var u := Observe(t, names, s);
    if IsTerminal(s.status) && s.jobId in t.working {
      // the resolved log only grows at its end
      assert forall k :: 0 <= k < |t.resolved| ==> u.resolved[k] == t.resolved[k];
      assert u.resolved[|t.resolved|] == s.jobId;
    }
  }

  /** Handling a whole reply keeps the loop invariant. */
  lemma {:induction false} RoundSound(t: Tracker, w0: set<JobId>, names: map<JobId, string>, reports: seq<JobState>)
    requires Sound(t, w0, names)
    ensures Sound(Round(t, names, reports), w0, names)
  {
    if reports != [] {
      var n := |reports| - 1;
      RoundSound(t, w0, names, reports[..n]);
      ObserveSound(Round(t, names, reports[..n]), w0, names, reports[n]);
    }
  }

  /** The loop keeps `Sound` from any sound state, in particular from `Start`. */
  lemma {:induction false} PollSound(t: Tracker, w0: set<JobId>, names: map<JobId, string>, replies: seq<seq<JobState>>)
    requires Sound(t, w0, names)
    ensures Sound(Poll(t, names, replies), w0, names)
  {
    if replies != [] {
      var n := |replies| - 1;
      PollSound(t, w0, names, replies[..n]);
      var p := Poll(t, names, replies[..n]);
      if !p.crashed && p.working != {} {
        var q := p.(queries := p.queries + [p.working]);
        assert Sound(q, w0, names);
        RoundSound(q, w0, names, replies[n]);
      }
    }
  }

  /** Once the loop has stopped (everything resolved, or a `KeyError`), further replies are never read. */
  lemma {:induction false} PollStopsWhenDone(t: Tracker, names: map<JobId, string>, replies: seq<seq<JobState>>, i: nat)
    requires i <= |replies|
    requires Poll(t, names, replies[..i]).crashed || Poll(t, names, replies[..i]).working == {}
    ensures Poll(t, names, replies) == Poll(t, names, replies[..i])
    decreases |replies| - i
  {
    if i < |replies| {
      assert replies[..i + 1][..i] == replies[..i];
      PollStopsWhenDone(t, names, replies, i + 1);
    } else {
      assert replies[..i] == replies;
    }
  }

  /** A `KeyError` at report `k` of poll `round` is where the whole loop ends. */
  lemma PollEndsAtKeyError(t: Tracker, names: map<JobId, string>, replies: seq<seq<JobState>>, round: nat, start: Tracker, k: nat)
    requires round < |replies| && k < |replies[round]|
    requires Poll(t, names, replies[..round + 1]) == Round(start, names, replies[round])
    requires Round(start, names, replies[round][..k + 1]).crashed
    ensures Poll(t, names, replies) == Round(start, names, replies[round][..k + 1])
  {
    RoundStopsAtKeyError(start, names, replies[round], k + 1);
    PollStopsWhenDone(t, names, replies, round + 1);
  }

  /**
   * Polling further only extends the query log, and every later query asks
   * about jobs that were still awaited: the awaited set never grows.
   */
  lemma {:induction false} PollExtends(t: Tracker, names: map<JobId, string>, replies: seq<seq<JobState>>, a: nat)
    requires a <= |replies|
    ensures var t1, t2 := Poll(t, names, replies[..a]), Poll(t, names, replies);
      && |t1.queries| <= |t2.queries|
      && t2.queries[..|t1.queries|] == t1.queries
      && t2.working <= t1.working
      && forall i :: |t1.queries| <= i < |t2.queries| ==> t2.queries[i] <= t1.working
  {
    if a == |replies| {
      assert replies[..a] == replies;
    } else {
      var n := |replies| - 1;
      assert replies[..n][..a] == replies[..a];
      PollExtends(t, names, replies[..n], a);
      var p := Poll(t, names, replies[..n]);
      if !p.crashed && p.working != {} {
        RoundFrame(p.(queries := p.queries + [p.working]), names, replies[n]);
      }
    }
  }

  /** A job seen in a terminal status is never queried again, whatever the later replies. */
  lemma ResolvedNeverQueriedAgain(ids: seq<JobId>, names: map<JobId, string>, replies: seq<seq<JobState>>, a: nat, id: JobId)
    requires a <= |replies| && id in Poll(Start(ids), names, replies[..a]).resolved
    ensures forall i :: |Poll(Start(ids), names, replies[..a]).queries| <= i < |Poll(Start(ids), names, replies).queries| ==>
      id !in Poll(Start(ids), names, replies).queries[i]
  {
    StartSound(ids, names);
    PollSound(Start(ids), Start(ids).working, names, replies[..a]);
    PollExtends(Start(ids), names, replies, a);
  }

  /**
   * Two uploads: A completes with reads `ws/1/1` on the second poll, B
   * reports `error` on the first. Exactly one assembly is submitted, for A,
   * writing `A.out`; nothing is awaited at the end.
   */
  lemma TwoUploadsScenario()
    ensures var names := map["jobA" := "A", "jobB" := "B"];
      var replies := [[JobState("jobA", "running", ""), JobState("jobB", ERROR, "")],
                      [JobState("jobA", COMPLETED, "ws/1/1")]];
      var t := Poll(Start(["jobA", "jobB"]), names, replies);
      && t.working == {}
      && t.queries == [{"jobA", "jobB"}, {"jobA"}]
      && t.requests == [SpadesRequest("ws/1/1", "A.out")]
      && StatusOf(t) == AllResolved
  {
    var names := map["jobA" := "A", "jobB" := "B"];
    var r1 := [JobState("jobA", "running", ""), JobState("jobB", ERROR, "")];
    var r2 := [JobState("jobA", COMPLETED, "ws/1/1")];
    var replies := [r1, r2];
    var t0 := Start(["jobA", "jobB"]);
    assert t0.working == {"jobA", "jobB"};
    // first poll: A still running, B fails
    assert replies[..1] == [r1] && replies[..|replies| - 1] == [r1];
    assert r1[..1] == [r1[0]];
    var noReplies: seq<seq<JobState>> := [];
    assert [r1][..0] == noReplies;
    var q1 := t0.(queries := t0.queries + [t0.working]);
    assert Poll(t0, names, [r1]) == Round(q1, names, r1);
    var noReports: seq<JobState> := [];
    assert [r1[0]][..0] == noReports;
    assert Round(q1, names, [r1[0]]) == q1;
    var t1 := Poll(t0, names, [r1]);
    assert t1 == Observe(q1, names, r1[1]);
    assert t1.working == {"jobA"};
    // second poll: A completes
    var q2 := t1.(queries := t1.queries + [{"jobA"}]);
    assert Poll(t0, names, replies) == Round(q2, names, r2);
    assert Round(q2, names, r2) == Observe(q2, names, r2[0]);
    assert OutputName("A") == "A.out";
  }
}
