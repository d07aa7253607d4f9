/** The two file collections and what training makes of the enrollment one:
    the entries an upload appends, the filter a removal applies, the set of
    distinct speakers and the statuses a training run goes through. */
module Roster {
  import opened Records
  import Speaker

  /** The entries an upload creates, one per file name in arrival order, each
      with the id drawn for it, its derived speaker and status `Uploaded`. */
  function NewEntries(names: seq<string>, ids: seq<string>): (entries: seq<AudioFile>)
    requires |ids| == |names|
    ensures |entries| == |names|
    ensures forall i :: 0 <= i < |names| ==>
      entries[i] == AudioFile(ids[i], names[i], Speaker.ExtractSpeakerName(names[i]), Uploaded)
  {
    if names == [] then []
    else [AudioFile(ids[0], names[0], Speaker.ExtractSpeakerName(names[0]), Uploaded)]
         + NewEntries(names[1..], ids[1..])
  }

  /** `files.filter(f => f.id !== id)`. */
  function WithoutId(files: seq<AudioFile>, id: string): (kept: seq<AudioFile>)
    ensures |kept| <= |files|
    ensures forall f :: f in kept <==> f in files && f.id != id
  {
    if files == [] then []
    else (if files[0].id == id then [] else [files[0]]) + WithoutId(files[1..], id)
  }

  /** The filter works piecewise, so the kept entries stay in their order. */
  lemma {:induction false} WithoutIdAppend(a: seq<AudioFile>, b: seq<AudioFile>, id: string)
    ensures WithoutId(a + b, id) == WithoutId(a, id) + WithoutId(b, id)
  {
    if a != [] {
      assert (a + b)[1..] == a[1..] + b;
      WithoutIdAppend(a[1..], b, id);
    } else {
      assert a + b == b;
    }
  }

  /** Removing an id that no entry carries changes nothing; in particular a
      second removal of the same id is a no-op. */
  lemma {:induction false} WithoutAbsentId(files: seq<AudioFile>, id: string)
    requires forall i :: 0 <= i < |files| ==> files[i].id != id
    ensures WithoutId(files, id) == files
  {
    if files != [] {
      WithoutAbsentId(files[1..], id);
      assert [files[0]] + files[1..] == files;
    }
  }

  lemma WithoutIdIdempotent(files: seq<AudioFile>, id: string)
    ensures WithoutId(WithoutId(files, id), id) == WithoutId(files, id)
  {
    var kept := WithoutId(files, id);
    forall i | 0 <= i < |kept| ensures kept[i].id != id {
      assert kept[i] in kept;
    }
    WithoutAbsentId(kept, id);
  }

  /** Removing the ids of a two-entry collection one after the other empties it. */
  lemma WithoutBothIds(a: AudioFile, b: AudioFile)
    requires a.id != b.id
    ensures WithoutId([a, b], a.id) == [b]
    ensures WithoutId([b], b.id) == []
  {
    assert [a, b][1..] == [b];
  }

  /** `new Set(files.map(f => f.speaker))`. */
  function Speakers(files: seq<AudioFile>): (s: set<string>)
    ensures forall i :: 0 <= i < |files| ==> files[i].speaker in s
    ensures forall x :: x in s ==> exists i :: 0 <= i < |files| && files[i].speaker == x
  {
    set i | 0 <= i < |files| :: files[i].speaker
  }

  /** Two speakers are distinct exactly when two files carry different labels. */
  lemma TwoSpeakersIff(files: seq<AudioFile>)
    ensures |Speakers(files)| >= 2 <==>
      exists i, j :: 0 <= i < |files| && 0 <= j < |files| && files[i].speaker != files[j].speaker
  {
    var s := Speakers(files);
    if exists i, j :: 0 <= i < |files| && 0 <= j < |files| && files[i].speaker != files[j].speaker {
      var i, j :| 0 <= i < |files| && 0 <= j < |files| && files[i].speaker != files[j].speaker;
      var pair := {files[i].speaker, files[j].speaker};
      assert pair <= s;
      assert |pair| == 2;
      assert |pair| <= |s| by { SubsetCard(pair, s); }
    } else if files == [] {
      assert s == {};
    } else {
      assert s <= {files[0].speaker};
      SubsetCard(s, {files[0].speaker});
    }
  }

  lemma SubsetCard<T>(a: set<T>, b: set<T>)
    requires a <= b
    ensures |a| <= |b|
  {
    assert b == a + (b - a);
  }

  /** The statuses a training run assigns, in order, for the enrollment files
      it reads when it starts. */
  function TrainTrace(files: seq<AudioFile>): (trace: seq<ModelStatus>)
    ensures 1 <= |trace| <= 2
    ensures trace[0] == Training <==> |files| >= 2
    ensures trace[|trace| - 1] in {Trained, Error}
    ensures trace[|trace| - 1] == Trained ==> |files| >= 2
  {
    if |files| < 2 then [Error]
    else if |Speakers(files)| < 2 then [Training, Error]
    else [Training, Trained]
  }

  /** Fewer than two files fail at once without showing `Training`; otherwise
      `Training` comes first and the run ends `Trained` exactly when two files
      carry different speakers. */
  lemma TrainTraceOutcome(files: seq<AudioFile>)
    ensures |files| < 2 ==> TrainTrace(files) == [Error]
    ensures |files| >= 2 ==> |TrainTrace(files)| == 2 && TrainTrace(files)[0] == Training
    ensures TrainTrace(files)[|TrainTrace(files)| - 1] in {Trained, Error}
    ensures TrainTrace(files)[|TrainTrace(files)| - 1] == Trained <==>
      exists i, j :: 0 <= i < |files| && 0 <= j < |files| && files[i].speaker != files[j].speaker
  {
    TwoSpeakersIff(files);
  }

  /** Two uploaded files train exactly when their names yield different speakers. */
  lemma TrainTwoFiles(n1: string, n2: string, id1: string, id2: string)
    ensures TrainTrace(NewEntries([n1, n2], [id1, id2])) ==
      [Training, if Speaker.ExtractSpeakerName(n1) != Speaker.ExtractSpeakerName(n2) then Trained else Error]
  {
    var files := NewEntries([n1, n2], [id1, id2]);
    TrainTraceOutcome(files);
    if Speaker.ExtractSpeakerName(n1) == Speaker.ExtractSpeakerName(n2) {
      assert forall i :: 0 <= i < |files| ==> files[i].speaker == Speaker.ExtractSpeakerName(n1);
    } else {
      assert files[0].speaker != files[1].speaker;
    }
  }

  /** Every file carries the label derived from its name. */
  predicate Labelled(files: seq<AudioFile>)
  {
    forall i :: 0 <= i < |files| ==> files[i].speaker == Speaker.ExtractSpeakerName(files[i].name)
  }

  /** Two of the file names yield different labels; that takes two files. */
  predicate NamesDiffer(files: seq<AudioFile>)
    ensures NamesDiffer(files) ==> |files| >= 2
  {
    exists i, j :: 0 <= i < |files| && 0 <= j < |files| &&
      Speaker.ExtractSpeakerName(files[i].name) != Speaker.ExtractSpeakerName(files[j].name)
  }

  /** For labelled files, training succeeds exactly when two of the names
      yield different labels: the outcome depends on the file names alone. */
  lemma TrainTraceByNames(files: seq<AudioFile>)
    requires Labelled(files)
    ensures TrainTrace(files)[|TrainTrace(files)| - 1] == Trained <==> NamesDiffer(files)
  {
    TrainTraceOutcome(files);
  }

  /** Enrollment `alice_1.wav`, `bob_1.wav` trains. */
  lemma TrainExampleTwoSpeakers()
    ensures TrainTrace(NewEntries(["alice_1.wav", "bob_1.wav"], ["a", "b"])) == [Training, Trained]
  {
    Speaker.SpeakerExampleAlice1();
    Speaker.SpeakerExampleBob1();
    TrainTwoFiles("alice_1.wav", "bob_1.wav", "a", "b");
  }

  /** Enrollment `alice_1.wav`, `alice_2.wav` fails after `Training`. */
  lemma TrainExampleOneSpeaker()
    ensures TrainTrace(NewEntries(["alice_1.wav", "alice_2.wav"], ["a", "b"])) == [Training, Error]
  {
    Speaker.SpeakerExampleAlice1();
    Speaker.SpeakerExampleAlice2();
    TrainTwoFiles("alice_1.wav", "alice_2.wav", "a", "b");
  }
}
