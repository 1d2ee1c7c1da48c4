/** The job markers in the bucket and the upload handler's protocol over
    them: check the processing flag, set it, run the pipeline, write the
    result or the error record, and always clear the flag. */
module Markers {
  import opened Paths
  import opened Inputs

  /** How the pipeline after the empty-input check ended: the STL upload
      returned, or something on the way raised an exception. */
  datatype Outcome = Success | Failure(message: string)

  /** One call the handler makes on a marker object. */
  datatype MarkerOp =
    | Checked(name: string)   // `blob.exists()`
    | Wrote(name: string)     // `blob.upload_from_string(...)` / `upload_from_filename(...)`
    | Removed(name: string)   // `blob.delete()`

  /** What one invocation of the handler did. */
  datatype Report =
    | Ignored(reason: IgnoreReason)
    | AlreadyInProgress
    | NoInputs
    | Completed
    | Errored(message: string)

  /** The effect of one call on the set of object names. Deleting an absent
      name changes nothing. */
  function Step(objects: set<string>, op: MarkerOp): (after: set<string>) {
    match op
    case Checked(_) => objects
    case Wrote(n) => objects + {n}
    case Removed(n) => objects - {n}
  }

  /** The effect of a sequence of calls, applied in order. */
  function Apply(objects: set<string>, ops: seq<MarkerOp>): (after: set<string>)
    decreases |ops|
  {
    if ops == [] then objects
    else Step(Apply(objects, ops[..|ops| - 1]), ops[|ops| - 1])
  }

  /** The calls made between acquiring and releasing the flag: with no input,
      the early delete before `return`; otherwise the output on success or
      the error record on an exception. */
  function PipelineOps(job: Job, listing: seq<string>, outcome: Outcome): (ops: seq<MarkerOp>) {
    if SelectInputs(listing) == [] then [Removed(job.leasePath)]
    else
      match outcome
      case Success => [Wrote(job.outputPath)]
      case Failure(_) => [Wrote(job.errorPath)]
  }

  /** The marker calls a run of `job` makes: check the flag and stop if it
      is there; otherwise set it, run the pipeline, and delete the flag in
      `finally`. */
  function RunOps(objects: set<string>, job: Job, listing: seq<string>, outcome: Outcome): (ops: seq<MarkerOp>) {
    if job.leasePath in objects then [Checked(job.leasePath)]
    else [Checked(job.leasePath), Wrote(job.leasePath)]
         + PipelineOps(job, listing, outcome)
         + [Removed(job.leasePath)]
  }

  /** The marker calls one invocation makes, given the store it starts from,
      the uploaded path, what listing the input prefix returns and how the
      pipeline ends. */
  function Protocol(objects: set<string>, path: string, listing: seq<string>, outcome: Outcome): (ops: seq<MarkerOp>) {
    match Classify(path)
    case Ignore(_) => []
    case Run(job) => RunOps(objects, job, listing, outcome)
  }

  /** The object named in a call. */
  function Target(op: MarkerOp): (name: string) {
    match op
    case Checked(n) => n
    case Wrote(n) => n
    case Removed(n) => n
  }

  /** A name that no call touches keeps its presence. */
  lemma {:induction false} ApplyFrame(objects: set<string>, ops: seq<MarkerOp>, n: string)
    requires forall k :: 0 <= k < |ops| ==> Target(ops[k]) != n
    ensures n in Apply(objects, ops) <==> n in objects
    decreases |ops|
  {
    if ops != [] {
      ApplyFrame(objects, ops[..|ops| - 1], n);
    }
  }

  /** Applying one more call after a sequence of calls. */
  lemma ApplySnoc(objects: set<string>, ops: seq<MarkerOp>, op: MarkerOp)
    ensures Apply(objects, ops + [op]) == Step(Apply(objects, ops), op)
  {
    assert (ops + [op])[..|ops|] == ops;
  }

  /** An ignored upload makes no marker call at all. */
  lemma IgnoredUploadTouchesNoMarker(objects: set<string>, path: string, listing: seq<string>, outcome: Outcome)
    requires Classify(path).Ignore?
    ensures Protocol(objects, path, listing, outcome) == []
    ensures Apply(objects, Protocol(objects, path, listing, outcome)) == objects
  {
  }

  /** When the flag is already set the run only looks at it and leaves the
      store as it was. */
  lemma LeaseHeldLeavesStoreUnchanged(objects: set<string>, job: Job, listing: seq<string>, outcome: Outcome)
    requires job.leasePath in objects
    ensures RunOps(objects, job, listing, outcome) == [Checked(job.leasePath)]
    ensures Apply(objects, RunOps(objects, job, listing, outcome)) == objects
  {
    ApplySnoc(objects, [], Checked(job.leasePath));
    assert [] + [Checked(job.leasePath)] == [Checked(job.leasePath)];
  }

  /** A run that sets the flag sets it right after checking it and ends by
      deleting it, so the flag is gone afterwards. */
  lemma AcquiredLeaseIsReleased(objects: set<string>, job: Job, listing: seq<string>, outcome: Outcome)
    requires job.leasePath !in objects
    ensures var ops := RunOps(objects, job, listing, outcome);
      && |ops| >= 4
      && ops[0] == Checked(job.leasePath)
      && ops[1] == Wrote(job.leasePath)
      && ops[|ops| - 1] == Removed(job.leasePath)
      && job.leasePath !in Apply(objects, ops)
  {
    var ops := RunOps(objects, job, listing, outcome);
    var init := [Checked(job.leasePath), Wrote(job.leasePath)] + PipelineOps(job, listing, outcome);
    assert ops == init + [Removed(job.leasePath)];
    ApplySnoc(objects, init, Removed(job.leasePath));
  }

  /** One run of a job writes at most one of the output and the error
      record: the output on success, the error record on an exception,
      neither when there is no input. Nothing else in the store changes, and
      the flag is absent again. */
  lemma OneResultMarkerPerRun(objects: set<string>, job: Job, listing: seq<string>, outcome: Outcome)
    requires job == JobPaths(job.uploadId)
    requires job.leasePath !in objects
    ensures var ops := RunOps(objects, job, listing, outcome);
      && !(Wrote(job.outputPath) in ops && Wrote(job.errorPath) in ops)
      && Apply(objects, ops) ==
           if SelectInputs(listing) == [] then objects
           else if outcome.Success? then objects + {job.outputPath}
           else objects + {job.errorPath}
  {
    DerivedPathsDistinct(job.uploadId);
    ApplyRunOps(objects, job, listing, outcome);
    var mid := PipelineOps(job, listing, outcome);
    assert RunOps(objects, job, listing, outcome) ==
             [Checked(job.leasePath), Wrote(job.leasePath), mid[0], Removed(job.leasePath)];
  }

  /** Any other object keeps its presence across a run. */
  lemma RunTouchesOnlyItsMarkers(objects: set<string>, job: Job, listing: seq<string>, outcome: Outcome, n: string)
    requires n != job.leasePath && n != job.outputPath && n != job.errorPath
    ensures n in Apply(objects, RunOps(objects, job, listing, outcome)) <==> n in objects
  {
    var ops := RunOps(objects, job, listing, outcome);
    forall k | 0 <= k < |ops| ensures Target(ops[k]) != n {
    }
    ApplyFrame(objects, ops, n);
  }

  /** No flag is left behind by a run that set it: the next run of the same
      job takes the flag again. */
  lemma NextRunAcquiresLease(objects: set<string>, job: Job, listing: seq<string>, outcome: Outcome,
                             listing': seq<string>, outcome': Outcome)
    requires job.leasePath !in objects
    ensures var after := Apply(objects, RunOps(objects, job, listing, outcome));
      RunOps(after, job, listing', outcome')[..2] == [Checked(job.leasePath), Wrote(job.leasePath)]
  {
    AcquiredLeaseIsReleased(objects, job, listing, outcome);
  }

  /** What a run does to the store, in one formula: nothing when the flag is
      already set; otherwise the pipeline's one call applied to the store
      with the flag added, and the flag removed at the end. */
  lemma ApplyRunOps(objects: set<string>, job: Job, listing: seq<string>, outcome: Outcome)
    ensures |PipelineOps(job, listing, outcome)| == 1
    ensures Apply(objects, RunOps(objects, job, listing, outcome)) ==
              if job.leasePath in objects then objects
              else Step(objects + {job.leasePath}, PipelineOps(job, listing, outcome)[0]) - {job.leasePath}
  {
    var l := job.leasePath;
    var first := [Checked(l)];
    ApplySnoc(objects, [], Checked(l));
    assert [] + [Checked(l)] == first;
    if l !in objects {
      var ops := RunOps(objects, job, listing, outcome);
      var head := first + [Wrote(l)];
      var mid := PipelineOps(job, listing, outcome);
      assert mid == [mid[0]];
      assert ops == head + [mid[0]] + [Removed(l)];
      ApplySnoc(objects, first, Wrote(l));
      ApplySnoc(objects, head, mid[0]);
      ApplySnoc(objects, head + [mid[0]], Removed(l));
    }
  }

  /** The bucket, reduced to the names of the objects in it, with a record of
      the marker calls made on it. */
  class MarkerStore {
    var objects: set<string>
    ghost var log: seq<MarkerOp>

    constructor (initial: set<string>)
      ensures objects == initial && log == []
    {
      objects := initial;
      log := [];
    }

    /** `blob.exists()` */
    method Exists(name: string) returns (present: bool)
      modifies this
      ensures present == (name in old(objects))
      ensures objects == old(objects) && log == old(log) + [Checked(name)]
    {
      present := name in objects;
      log := log + [Checked(name)];
    }

    /** `blob.upload_from_string(...)` or `blob.upload_from_filename(...)` */
    method Upload(name: string)
      modifies this
      ensures objects == old(objects) + {name} && log == old(log) + [Wrote(name)]
    {
      objects := objects + {name};
      log := log + [Wrote(name)];
    }

    /** `blob.delete()`, taken to do nothing when the object is gone. */
    method Delete(name: string)
      modifies this
      ensures objects == old(objects) - {name} && log == old(log) + [Removed(name)]
    {
      objects := objects - {name};
      log := log + [Removed(name)];
    }

    /** One run of `job` once the trigger has accepted the upload: the lease
        check and everything after it. */
    method RunJob(job: Job, listing: seq<string>, outcome: Outcome) returns (report: Report)
      modifies this
      ensures log == old(log) + RunOps(old(objects), job, listing, outcome)
      ensures objects == Apply(old(objects), RunOps(old(objects), job, listing, outcome))
      ensures report ==
                if job.leasePath in old(objects) then AlreadyInProgress
                else if SelectInputs(listing) == [] then NoInputs
                else if outcome.Success? then Completed
                else Errored(outcome.message)
    {
      ApplyRunOps(objects, job, listing, outcome);
      var held := Exists(job.leasePath);
      if held {
        return AlreadyInProgress;
      }
      Upload(job.leasePath);
      // try:
      var inputs := SelectInputs(listing);
      if inputs == [] {
        Delete(job.leasePath);
        report := NoInputs;
      } else {
        match outcome {
          case Success =>
            Upload(job.outputPath);
            report := Completed;
          case Failure(message) =>
            // except: record the error
            Upload(job.errorPath);
            report := Errored(message);
        }
      }
      // finally:
      Delete(job.leasePath);
    }

    /** The upload handler. `listing` is what listing the job's input prefix
        returns; `outcome` is how download, parsing, volume assembly,
        surface extraction, STL writing and upload ended. */
    method HandleUpload(path: string, listing: seq<string>, outcome: Outcome) returns (report: Report)
      modifies this
      ensures log == old(log) + Protocol(old(objects), path, listing, outcome)
      ensures objects == Apply(old(objects), Protocol(old(objects), path, listing, outcome))
      ensures Classify(path).Ignore? ==> report == Ignored(Classify(path).reason)
      ensures Classify(path).Run? ==>
                (report == AlreadyInProgress <==> Classify(path).job.leasePath in old(objects))
      ensures Classify(path).Run? && Classify(path).job.leasePath !in old(objects) ==>
                report == if SelectInputs(listing) == [] then NoInputs
                          else if outcome.Success? then Completed
                          else Errored(outcome.message)
    {
      var trigger := Classify(path);
      if trigger.Ignore? {
        return Ignored(trigger.reason);
      }
      report := RunJob(trigger.job, listing, outcome);
    }
  }
}
