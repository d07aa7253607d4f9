/** The session controller: the six pieces of state of the `App` component
    and the handlers that update them.

    Training and authentication each wait on a timer before finishing; here
    each runs as one atomic step, and the statuses a training run assigns are
    returned as its trace.  Random ids are a parameter and the random choices
    of authentication are the `Draw` oracle of `Evaluation`. */
module Controller {
  import opened Records
  import Speaker
  import Roster
  import opened Evaluation

  /** How a call of `authenticate` ends: skipped by its guard, completed, or
      aborted by the exception its misprediction branch throws when no
      enrollment file is left (its promise then rejects). */
  datatype AuthOutcome = Skipped | Completed | Crashed

  /** The guard at the top of `authenticate`. */
  predicate AuthGuard(status: ModelStatus, testCount: nat)
    ensures AuthGuard(status, testCount) <==>
      StatusText(status) == "Model Trained Successfully" && testCount > 0
  {
    status == Trained && testCount > 0
  }

  /** The train button is enabled (the negation of its `disabled` expression). */
  predicate TrainEnabled(enrollCount: nat, status: ModelStatus)
    ensures TrainEnabled(enrollCount, status) ==> enrollCount >= 2 && status != Training
    ensures enrollCount >= 2 && StatusText(status) != "Training Model..." ==> TrainEnabled(enrollCount, status)
  {
    !(enrollCount < 2 || status == Training)
  }

  /** The authenticate button is enabled. */
  predicate AuthenticateEnabled(status: ModelStatus, testCount: nat, busy: bool)
    ensures AuthenticateEnabled(status, testCount, busy) ==> AuthGuard(status, testCount) && !busy
    ensures AuthenticateEnabled(status, testCount, busy) ==> StatusText(status) == "Model Trained Successfully"
  {
    !(status != Trained || testCount == 0 || busy)
  }

  /** Away from a running training, the train button is enabled exactly when
      pressing it would pass through `Training`; while training it is off. */
  lemma TrainEnabledStartsTraining(files: seq<AudioFile>, status: ModelStatus)
    ensures status == Training ==> !TrainEnabled(|files|, status)
    ensures status != Training ==>
      (TrainEnabled(|files|, status) <==> Roster.TrainTrace(files)[0] == Training)
  {
    Roster.TrainTraceOutcome(files);
  }

  /** The authenticate button is enabled exactly when the handler's guard
      holds and no authentication is running. */
  lemma AuthenticateEnabledMeansGuard(status: ModelStatus, testCount: nat, busy: bool)
    ensures AuthenticateEnabled(status, testCount, busy) <==> AuthGuard(status, testCount) && !busy
  {
  }

  /** Files that all carry their derived labels, as `Valid` demands of the
      two collections together, are labelled one by one. */
  lemma LabelledPrefix(enrolled: seq<AudioFile>, tests: seq<AudioFile>)
    requires forall f :: f in enrolled + tests ==> f.speaker == Speaker.ExtractSpeakerName(f.name)
    ensures Roster.Labelled(enrolled)
  {
    forall i | 0 <= i < |enrolled|
      ensures enrolled[i].speaker == Speaker.ExtractSpeakerName(enrolled[i].name)
    {
      assert enrolled[i] in enrolled + tests;
    }
  }

  class Session {
    var enrollmentFiles: seq<AudioFile>
    var testFiles: seq<AudioFile>
    var modelStatus: ModelStatus
    var classifierType: ClassifierType
    var authResults: seq<AuthResult>
    var isAuthenticating: bool

    /** Every file carries the label derived from its name and status
        `Uploaded`, and every result is marked correct exactly when its true
        and predicted speakers agree. */
    ghost predicate Valid()
      reads this
    {
      && (forall f :: f in enrollmentFiles + testFiles ==>
            f.speaker == Speaker.ExtractSpeakerName(f.name) && f.status == Uploaded)
      && (forall r :: r in authResults ==> (r.isCorrect <==> r.trueSpeaker == r.predictedSpeaker))
    }

    /** The collection an upload or removal targets. */
    function Files(kind: Collection): seq<AudioFile>
      reads this
    {
      if kind == Enrollment then enrollmentFiles else testFiles
    }

    constructor ()
      ensures Valid()
      ensures enrollmentFiles == [] && testFiles == [] && modelStatus == NotTrained
      ensures classifierType == SVM && authResults == [] && !isAuthenticating
    {
      enrollmentFiles, testFiles := [], [];
      modelStatus, classifierType := NotTrained, SVM;
      authResults, isAuthenticating := [], false;
    }

    /** `handleFileUpload`: a missing file list changes nothing; otherwise one
        entry per file name is appended to the chosen collection. */
    method HandleFileUpload(files: Option<seq<string>>, kind: Collection, ids: seq<string>)
      requires Valid()
      requires files.Some? ==> |ids| == |files.value|
      modifies this
      ensures Valid()
      ensures files.Some? ==> Files(kind) == old(Files(kind)) + Roster.NewEntries(files.value, ids)
      ensures files.None? ==> Files(kind) == old(Files(kind))
      ensures Files(kind.Other()) == old(Files(kind.Other()))
      ensures modelStatus == old(modelStatus) && classifierType == old(classifierType)
      ensures authResults == old(authResults) && isAuthenticating == old(isAuthenticating)
    {
      if files.None? {
        return;
      }
      var added := Roster.NewEntries(files.value, ids);
      if kind == Enrollment {
        enrollmentFiles := enrollmentFiles + added;
      } else {
        testFiles := testFiles + added;
      }
    }

    /** `removeFile`: the chosen collection keeps the entries with another id;
        the model status is left as it was. */
    method RemoveFile(id: string, kind: Collection)
      requires Valid()
      modifies this
      ensures Valid()
      ensures Files(kind) == Roster.WithoutId(old(Files(kind)), id)
      ensures Files(kind.Other()) == old(Files(kind.Other()))
      ensures modelStatus == old(modelStatus) && classifierType == old(classifierType)
      ensures authResults == old(authResults) && isAuthenticating == old(isAuthenticating)
    {
      if kind == Enrollment {
        enrollmentFiles := Roster.WithoutId(enrollmentFiles, id);
      } else {
        testFiles := Roster.WithoutId(testFiles, id);
      }
    }

    /** `trainModel`, run to completion: `trace` lists the statuses it
        assigns, and the status ends as the last of them. */
    method TrainModel() returns (trace: seq<ModelStatus>)
      requires Valid()
      modifies this
      ensures Valid()
      ensures trace == Roster.TrainTrace(old(enrollmentFiles))
      ensures modelStatus == trace[|trace| - 1]
      ensures modelStatus == Trained <==> Roster.NamesDiffer(enrollmentFiles)
      ensures enrollmentFiles == old(enrollmentFiles) && testFiles == old(testFiles)
      ensures classifierType == old(classifierType)
      ensures authResults == old(authResults) && isAuthenticating == old(isAuthenticating)
    {
      LabelledPrefix(enrollmentFiles, testFiles);
      Roster.TrainTraceByNames(enrollmentFiles);
      if |enrollmentFiles| < 2 {
        modelStatus := Error;
        trace := [Error];
        return;
      }
      modelStatus := Training;
      trace := [Training];
      var uniqueSpeakers := Roster.Speakers(enrollmentFiles);
      if |uniqueSpeakers| < 2 {
        modelStatus := Error;
        trace := trace + [Error];
        return;
      }
      modelStatus := Trained;
      trace := trace + [Trained];
    }

    /** `authenticate`, run to completion.  Outside its guard nothing changes.
        Otherwise it marks itself running and clears the results; a completed
        pass stores one result per test file and clears the flag, while a pass
        that throws leaves the flag set and the results empty. */
    method Authenticate(draws: seq<Draw>) returns (outcome: AuthOutcome)
      requires Valid()
      requires |draws| == |testFiles| && DrawsFit(draws, |enrollmentFiles|)
      modifies this
      ensures Valid()
      ensures enrollmentFiles == old(enrollmentFiles) && testFiles == old(testFiles)
      ensures modelStatus == old(modelStatus) && classifierType == old(classifierType)
      ensures !AuthGuard(modelStatus, |testFiles|) ==>
        outcome == Skipped && authResults == old(authResults) && isAuthenticating == old(isAuthenticating)
      ensures AuthGuard(modelStatus, |testFiles|) && Evaluate(testFiles, enrollmentFiles, draws).None? ==>
        outcome == Crashed && authResults == [] && isAuthenticating
      ensures AuthGuard(modelStatus, |testFiles|) && Evaluate(testFiles, enrollmentFiles, draws).Some? ==>
        outcome == Completed && authResults == Evaluate(testFiles, enrollmentFiles, draws).value
        && !isAuthenticating
    {
      if modelStatus != Trained || |testFiles| == 0 {
        return Skipped;
      }
      isAuthenticating := true;
      authResults := [];
      var results := Evaluate(testFiles, enrollmentFiles, draws);
      if results.None? {
        return Crashed;
      }
      authResults := results.value;
      isAuthenticating := false;
      outcome := Completed;
    }

    /** `authenticate` with the guard it needs: it also refuses to run when no
        enrollment file is left, and then it never throws. */
    method AuthenticateChecked(draws: seq<Draw>) returns (outcome: AuthOutcome)
      requires Valid()
      requires |draws| == |testFiles| && DrawsFit(draws, |enrollmentFiles|)
      modifies this
      ensures Valid()
      ensures outcome != Crashed
      ensures enrollmentFiles == old(enrollmentFiles) && testFiles == old(testFiles)
      ensures modelStatus == old(modelStatus) && classifierType == old(classifierType)
      ensures !(AuthGuard(modelStatus, |testFiles|) && |enrollmentFiles| > 0) ==>
        outcome == Skipped && authResults == old(authResults) && isAuthenticating == old(isAuthenticating)
      ensures AuthGuard(modelStatus, |testFiles|) && |enrollmentFiles| > 0 ==>
        && outcome == Completed && !isAuthenticating
        && Evaluate(testFiles, enrollmentFiles, draws).Some?
        && authResults == Evaluate(testFiles, enrollmentFiles, draws).value
    {
      if modelStatus != Trained || |testFiles| == 0 || |enrollmentFiles| == 0 {
        return Skipped;
      }
      EvaluateCompletesIff(testFiles, enrollmentFiles, draws);
      isAuthenticating := true;
      authResults := [];
      var results := Evaluate(testFiles, enrollmentFiles, draws);
      authResults := results.value;
      isAuthenticating := false;
      outcome := Completed;
    }

    /** `reset`: both collections and the results are emptied, the status is
        `NotTrained` and no authentication is running; the classifier choice
        is kept. */
    method Reset()
      requires Valid()
      modifies this
      ensures Valid()
      ensures enrollmentFiles == [] && testFiles == [] && authResults == []
      ensures modelStatus == NotTrained && !isAuthenticating
      ensures classifierType == old(classifierType)
    {
      enrollmentFiles := [];
      testFiles := [];
      modelStatus := NotTrained;
      authResults := [];
      isAuthenticating := false;
    }

    /** The classifier select: it changes the choice and nothing else. */
    method SelectClassifier(choice: ClassifierType)
      requires Valid()
      modifies this
      ensures Valid()
      ensures classifierType == choice
      ensures enrollmentFiles == old(enrollmentFiles) && testFiles == old(testFiles)
      ensures modelStatus == old(modelStatus)
      ensures authResults == old(authResults) && isAuthenticating == old(isAuthenticating)
    {
      classifierType := choice;
    }
  }

  /** Enroll two files with different speakers, train, upload a test file
      and remove both enrollment files: the status still reads `Trained`
      while no enrollment file is left. */
  method StaleSession(nameA: string, nameB: string, testName: string, idA: string, idB: string, idT: string)
    returns (s: Session)
    requires Speaker.ExtractSpeakerName(nameA) != Speaker.ExtractSpeakerName(nameB)
    requires idA != idB
    ensures fresh(s) && s.Valid()
    ensures s.modelStatus == Trained && s.enrollmentFiles == []
    ensures |s.testFiles| == 1 && !s.isAuthenticating
  {
    s := new Session();
    s.HandleFileUpload(Some([nameA, nameB]), Enrollment, [idA, idB]);
    assert s.enrollmentFiles == Roster.NewEntries([nameA, nameB], [idA, idB]);
    var a, b := s.enrollmentFiles[0], s.enrollmentFiles[1];
    assert s.enrollmentFiles == [a, b] && a.id == idA && b.id == idB;
    Roster.TrainTwoFiles(nameA, nameB, idA, idB);
    var trace := s.TrainModel();
    s.HandleFileUpload(Some([testName]), Test, [idT]);
    assert |s.testFiles| == 1 && s.enrollmentFiles == [a, b];
    Roster.WithoutBothIds(a, b);
    s.RemoveFile(idA, Enrollment);
    s.RemoveFile(idB, Enrollment);
  }

  /** On such a stale session, with a misprediction draw: the authenticate
      button is enabled, the pass throws, and afterwards the button stays
      disabled because the running flag is never cleared. */
  method StaleModelScenario(nameA: string, nameB: string, testName: string, idA: string, idB: string, idT: string)
    returns (status: ModelStatus, enrolled: nat, enabledBefore: bool, outcome: AuthOutcome, enabled: bool)
    requires Speaker.ExtractSpeakerName(nameA) != Speaker.ExtractSpeakerName(nameB)
    requires idA != idB
    ensures status == Trained && enrolled == 0
    ensures enabledBefore
    ensures outcome == Crashed && !enabled
  {
    var s := StaleSession(nameA, nameB, testName, idA, idB, idT);
    assert Evaluate(s.testFiles, [], [Mispredict(0)]).None?;
    enabledBefore := AuthenticateEnabled(s.modelStatus, |s.testFiles|, s.isAuthenticating);
    outcome := s.Authenticate([Mispredict(0)]);
    status, enrolled := s.modelStatus, |s.enrollmentFiles|;
    enabled := AuthenticateEnabled(s.modelStatus, |s.testFiles|, s.isAuthenticating);
  }

  /** The scenario happens with the names `alice_1.wav`, `bob_1.wav` and
      `alice_2.wav`. */
  lemma StaleModelScenarioApplies()
    ensures Speaker.ExtractSpeakerName("alice_1.wav") != Speaker.ExtractSpeakerName("bob_1.wav")
  {
    Speaker.SpeakerExampleAlice1();
    Speaker.SpeakerExampleBob1();
  }
}
