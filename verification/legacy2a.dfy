/** The older stand-alone BCI Competition IV 2a script (preprocess_BCI_IV_2a.py):
    for each folder S.. of the data directory it reads the training session
    A..T.gdf and the evaluation session A..E.gdf and writes PA..T.fif and PA..E.fif
    straight into the save directory, which it neither clears nor subdivides.

    The script is modelled twice. The AsWritten members follow the code line by
    line, including three defects: a missing file makes the loop reuse the
    recording of an earlier subject, only the first epoch of each set is saved,
    and the event table names codes 1 and 2 rather than the codes reported for
    the cues 769 and 770. The members without the suffix are the corrected
    behaviour, and lemmas on both sides show the difference. */
module Legacy2a {
  import opened Outcome
  import opened FileSys
  import opened PyStr
  import opened Mne

  /** Entries of the data directory whose name starts with "S" are subjects. */
  predicate IsSubjectFolder(name: string)
  {
    StartsWith(name, "S")
  }

  /** [f for f in os.listdir(dirPath) if f.startswith("S")] */
  function SubjectFolders(names: seq<string>): (r: seq<string>)
    ensures forall f :: f in r <==> f in names && |f| > 0 && f[0] == 'S'
    ensures |r| <= |names|
  {
    Filter(names, IsSubjectFolder)
  }

  /** f"A{subject[1:3]}T.gdf", the training session. */
  function TrainInput(s: string): string
  {
    "A" + Slice(s, 1, 3) + "T.gdf"
  }

  /** f"A{subject[1:3]}E.gdf", the evaluation session. */
  function TestInput(s: string): string
  {
    "A" + Slice(s, 1, 3) + "E.gdf"
  }

  /** f"PA{subject[1:3]}T.fif" */
  function TrainOutput(s: string): string
  {
    "PA" + Slice(s, 1, 3) + "T.fif"
  }

  /** f"PA{subject[1:3]}E.fif" */
  function TestOutput(s: string): string
  {
    "PA" + Slice(s, 1, 3) + "E.fif"
  }

  /** The training and the evaluation input are never the same file, whichever two
      subject folders they are formed from; the same holds for the outputs. */
  lemma TrainAndTestNeverCollide(s: string, t: string)
    ensures TrainInput(s) != TestInput(t)
    ensures TrainOutput(s) != TestOutput(t)
  {
    var a, b := TrainInput(s), TestInput(t);
    if |a| == |b| {
      assert a[|a| - 5] != b[|b| - 5];
    }
    var c, d := TrainOutput(s), TestOutput(t);
    if |c| == |d| {
      assert c[|c| - 5] != d[|d| - 5];
    }
  }

  /** Outputs are named by subject[1:3] alone: two folders with the same two
      characters after the leading S write to the same file. */
  lemma OutputsKeyedBySubject(s: string, t: string)
    ensures TrainOutput(s) == TrainOutput(t) <==> Slice(s, 1, 3) == Slice(t, 1, 3)
    ensures TestOutput(s) == TestOutput(t) <==> Slice(s, 1, 3) == Slice(t, 1, 3)
  {
    if TrainOutput(s) == TrainOutput(t) {
      ConcatSplit("PA" + Slice(s, 1, 3), "T.fif", "PA" + Slice(t, 1, 3), "T.fif");
      ConcatSplit("PA", Slice(s, 1, 3), "PA", Slice(t, 1, 3));
    }
    if TestOutput(s) == TestOutput(t) {
      ConcatSplit("PA" + Slice(s, 1, 3), "E.fif", "PA" + Slice(t, 1, 3), "E.fif");
      ConcatSplit("PA", Slice(s, 1, 3), "PA", Slice(t, 1, 3));
    }
  }

  /** An output name is never an input name, so saving never creates a file the
      loop will later read. */
  lemma OutputsAreNotInputs(s: string, t: string)
    ensures TrainOutput(s) != TrainInput(t) && TrainOutput(s) != TestInput(t)
    ensures TestOutput(s) != TrainInput(t) && TestOutput(s) != TestInput(t)
  {
    assert TrainOutput(s)[0] == 'P' && TestOutput(s)[0] == 'P';
    assert TrainInput(t)[0] == 'A' && TestInput(t)[0] == 'A';
  }

  /** selected_event_id: annotation description to event code. */
  const SelectedIds: EventId := map["769" := 1, "770" := 2]

  /** Events the script's mne.Epochs call accepts: both codes occur, and no two
      events of code 1 or 2 share an onset sample. */
  predicate Cuttable(events: seq<Event>)
  {
    HasCode(events, 1) && HasCode(events, 2) && !SharedOnset(KeptEvents(events, SelectedIds))
  }

  /** tmin, tmax = 1., 4. */
  const EpochWindow: Window := Window(1000, 4000)

  /** What preprocess_dataset_BCI_IV_2a leaves behind: the recording object, whose
      info["bads"] it has extended in place, and the epochs it returns. */
  datatype Prepared = Prepared(raw: Recording, epochs: Epochs)

  /** preprocess_dataset_BCI_IV_2a as written: the three EOG channels are appended
      to the bad channels of the recording itself, and the epochs select the events
      whose code is 1 or 2. */
  function PreprocessAsWritten(source: Path, rec: Recording): (r: Result<Prepared>)
    ensures r.Success? <==> HasCode(rec.events, 1) && HasCode(rec.events, 2) && !SharedOnset(KeptEvents(rec.events, SelectedIds))
    ensures !(HasCode(rec.events, 1) && HasCode(rec.events, 2)) ==> r == Failure(NoMatchingEvents)
    ensures HasCode(rec.events, 1) && HasCode(rec.events, 2) && r.Failure? ==> r == Failure(RepeatedEvents)
    ensures r.Success? ==> && r.value.raw.bads == rec.bads + ["EOG-left", "EOG-central", "EOG-right"]
                           && r.value.raw.channels == rec.channels
                           && r.value.raw.events == rec.events
                           && r.value.epochs.source == source
                           && r.value.epochs.eventId == map["769" := 1, "770" := 2]
                           && r.value.epochs.window == Window(1000, 4000)
                           && r.value.epochs.repeated == RaiseOnRepeat
                           && r.value.epochs.events == rec.events
                           && forall i :: i in r.value.epochs.picks ==>
                                i < |rec.channels| && rec.channels[i].kind == Eeg && rec.channels[i].name !in BciIvEogChannels
  {
    var raw := AppendBads(rec, BciIvEogChannels);
    assert SelectedIds.Values == {1, 2} by {
      assert SelectedIds["769"] == 1 && SelectedIds["770"] == 2;
    }
    var epochs :- MakeEpochs(source, raw, SelectedIds, EpochWindow, RaiseOnRepeat);
    EogByTypeOrByBads(rec, BciIvEogChannels);
    Success(Prepared(raw, epochs))
  }

  /** The value of a local of read_dataset_BCI_IV_2a that holds a recording: not yet
      assigned, or the object read from source (with whatever bads were appended
      to it since). */
  datatype Slot = Unset | Held(source: Path, raw: Recording)

  /** The state the subject loop carries from one iteration to the next: the
      filesystem and the locals raw_train and raw_test. */
  datatype State = State(fs: Fs<Content>, train: Slot, test: Slot)

  /** `if os.path.exists(p): raw = read_raw_gdf(p)`: a missing file leaves the
      local as it was. */
  function Load(fs: Fs<Content>, p: Path, slot: Slot): (r: Result<Slot>)
    ensures Exists(fs, p) ==> (r.Success? <==> IsFile(fs, p) && fs[p].content.Raw?)
    ensures Exists(fs, p) && r.Success? ==> r.value.Held? && r.value.source == p
                                            && r.value.raw.bads == fs[p].content.rec.bads
                                            && r.value.raw.events == fs[p].content.rec.events
                                            && r.value.raw.eventIds == fs[p].content.rec.eventIds
    ensures !Exists(fs, p) ==> r == Success(slot)
  {
    if Exists(fs, p) then
      var rec :- ReadRaw(fs, p, []);
      Success(Held(p, rec))
    else Success(slot)
  }

  /** Lines 53-65 as written: both preprocessing calls, then both saves of the
      first epoch. A local that was never assigned raises UnboundLocalError. */
  function ProcessAsWritten(fs: Fs<Content>, saveDir: Path, s: string, train: Slot, test: Slot): (r: Result<State>)
    ensures train.Unset? || test.Unset? ==> r.Failure?
    ensures r.Success? ==> Extends(fs, r.value.fs)
    ensures r.Success? ==> forall q :: q in r.value.fs && q !in fs ==>
                             q == saveDir + [TrainOutput(s)] || q == saveDir + [TestOutput(s)]
    ensures r.Success? ==> && r.value.train.Held? && r.value.train.source == train.source
                           && r.value.train.raw.bads == train.raw.bads + BciIvEogChannels
                           && r.value.test.Held? && r.value.test.source == test.source
                           && r.value.test.raw.bads == test.raw.bads + BciIvEogChannels
    ensures r.Success? ==> && IsFile(r.value.fs, saveDir + [TrainOutput(s)])
                           && r.value.fs[saveDir + [TrainOutput(s)]].content.Saved?
                           && r.value.fs[saveDir + [TrainOutput(s)]].content.trials == FirstTrial
                           && r.value.fs[saveDir + [TrainOutput(s)]].content.epochs.source == train.source
                           && r.value.fs[saveDir + [TrainOutput(s)]].content.epochs.eventId == SelectedIds
                           && IsFile(r.value.fs, saveDir + [TestOutput(s)])
                           && r.value.fs[saveDir + [TestOutput(s)]].content.Saved?
                           && r.value.fs[saveDir + [TestOutput(s)]].content.trials == FirstTrial
                           && r.value.fs[saveDir + [TestOutput(s)]].content.epochs.source == test.source
                           && r.value.fs[saveDir + [TestOutput(s)]].content.epochs.eventId == SelectedIds
  {
    if train.Unset? then Failure(UnboundLocal("raw_train"))
    else
      var trainPrep :- PreprocessAsWritten(train.source, train.raw);
      if test.Unset? then Failure(UnboundLocal("raw_test"))
      else
        var testPrep :- PreprocessAsWritten(test.source, test.raw);
        var saved :- SaveFirstEpochs(fs, saveDir, s, trainPrep.epochs, testPrep.epochs);
        Success(State(saved, Held(train.source, trainPrep.raw), Held(test.source, testPrep.raw)))
  }

  /** train_data[0].save(...) then test_data[0].save(...): the first epoch of
      each set, under the subject's two names. */
  function SaveFirstEpochs(fs: Fs<Content>, saveDir: Path, s: string, train: Epochs, test: Epochs): (r: Result<Fs<Content>>)
    ensures r.Success? ==> Extends(fs, r.value)
    ensures r.Success? ==> forall q :: q in r.value && q !in fs ==>
                             q == saveDir + [TrainOutput(s)] || q == saveDir + [TestOutput(s)]
    ensures r.Success? ==> && IsFile(r.value, saveDir + [TrainOutput(s)])
                           && r.value[saveDir + [TrainOutput(s)]].content == Saved(train, FirstTrial)
                           && IsFile(r.value, saveDir + [TestOutput(s)])
                           && r.value[saveDir + [TestOutput(s)]].content == Saved(test, FirstTrial)
  {
    var fs1 :- Save(fs, saveDir + [TrainOutput(s)], Saved(train, FirstTrial));
    TrainAndTestNeverCollide(s, s);
    Save(fs1, saveDir + [TestOutput(s)], Saved(test, FirstTrial))
  }

  /** One iteration of the subject loop as written: both reads (lines 37-50), a
      missing file keeping the recording of an earlier iteration, then lines 53-65. */
  function SubjectAsWritten(st: State, dir: Path, saveDir: Path, s: string): (r: Result<State>)
    ensures r.Success? ==> Extends(st.fs, r.value.fs)
    ensures r.Success? ==> forall q :: q in r.value.fs && q !in st.fs ==>
                             q == saveDir + [TrainOutput(s)] || q == saveDir + [TestOutput(s)]
    ensures st.train.Unset? && !Exists(st.fs, dir + [s, TrainInput(s)]) ==> r.Failure?
    ensures st.test.Unset? && !Exists(st.fs, dir + [s, TestInput(s)]) ==> r.Failure?
    ensures r.Success? ==> r.value.train.Held? && r.value.test.Held?
    ensures r.Success? && Exists(st.fs, dir + [s, TrainInput(s)]) ==>
              && IsFile(st.fs, dir + [s, TrainInput(s)]) && st.fs[dir + [s, TrainInput(s)]].content.Raw?
              && r.value.train.source == dir + [s, TrainInput(s)]
              && r.value.train.raw.bads == st.fs[dir + [s, TrainInput(s)]].content.rec.bads + BciIvEogChannels
    ensures r.Success? && !Exists(st.fs, dir + [s, TrainInput(s)]) ==>
              r.value.train.source == st.train.source &&
              r.value.train.raw.bads == st.train.raw.bads + BciIvEogChannels
    ensures r.Success? ==> && IsFile(r.value.fs, saveDir + [TrainOutput(s)])
                           && r.value.fs[saveDir + [TrainOutput(s)]].content.Saved?
                           && r.value.fs[saveDir + [TrainOutput(s)]].content.trials == FirstTrial
                           && r.value.fs[saveDir + [TrainOutput(s)]].content.epochs.source == r.value.train.source
                           && IsFile(r.value.fs, saveDir + [TestOutput(s)])
                           && r.value.fs[saveDir + [TestOutput(s)]].content.Saved?
                           && r.value.fs[saveDir + [TestOutput(s)]].content.trials == FirstTrial
                           && r.value.fs[saveDir + [TestOutput(s)]].content.epochs.source == r.value.test.source
  {
    var train :- Load(st.fs, dir + [s, TrainInput(s)], st.train);
    var test :- Load(st.fs, dir + [s, TestInput(s)], st.test);
    ProcessAsWritten(st.fs, saveDir, s, train, test)
  }

  /** The subject loop as written. */
  function LoopAsWritten(st: State, dir: Path, saveDir: Path, subjects: seq<string>): (r: Result<State>)
    ensures r.Success? ==> Extends(st.fs, r.value.fs)
    ensures r.Success? ==> forall q :: q in r.value.fs && q !in st.fs ==>
                             |q| == |saveDir| + 1 && q[..|saveDir|] == saveDir
    decreases |subjects|
  {
    if |subjects| == 0 then Success(st)
    else
      var next :- SubjectAsWritten(st, dir, saveDir, subjects[0]);
      LoopAsWritten(next, dir, saveDir, subjects[1..])
  }

  /** read_dataset_BCI_IV_2a(dirPath, saveDir) as written. It only adds files
      directly inside saveDir. */
  function ReadDatasetAsWritten(fs: Fs<Content>, dir: Path, saveDir: Path, listing: Path -> seq<string>): (r: Result<Fs<Content>>)
    ensures !IsDir(fs, dir) ==> r.Failure?
    ensures r.Success? ==> Extends(fs, r.value)
    ensures r.Success? ==> forall q :: q in r.value && q !in fs ==> |q| == |saveDir| + 1 && q[..|saveDir|] == saveDir
  {
    var names :- Listdir(fs, dir, listing);
    var fin :- LoopAsWritten(State(fs, Unset, Unset), dir, saveDir, SubjectFolders(names));
    Success(fin.fs)
  }

  /** If the first subject folder lacks its training file, raw_train is read before
      it was ever assigned: the script stops with UnboundLocalError (or an earlier
      read error) and writes nothing. */
  lemma FirstSubjectMissingFileRaises(fs: Fs<Content>, dir: Path, saveDir: Path, listing: Path -> seq<string>)
    requires IsDir(fs, dir)
    requires |SubjectFolders(listing(dir))| > 0
    requires !Exists(fs, dir + [SubjectFolders(listing(dir))[0], TrainInput(SubjectFolders(listing(dir))[0])])
    ensures ReadDatasetAsWritten(fs, dir, saveDir, listing).Failure?
  {
    var subjects := SubjectFolders(listing(dir));
    assert SubjectAsWritten(State(fs, Unset, Unset), dir, saveDir, subjects[0]).Failure?;
  }

  /** One iteration gets through lines 53-65 when both locals hold recordings that
      mne.Epochs accepts and neither output exists yet; the recordings carried
      to the next iteration keep their events. */
  lemma ProcessSucceeds(fs: Fs<Content>, saveDir: Path, s: string, train: Slot, test: Slot)
    requires train.Held? && Cuttable(train.raw.events)
    requires test.Held? && Cuttable(test.raw.events)
    requires IsDir(fs, saveDir)
    requires saveDir + [TrainOutput(s)] !in fs && saveDir + [TestOutput(s)] !in fs
    ensures ProcessAsWritten(fs, saveDir, s, train, test).Success?
    ensures ProcessAsWritten(fs, saveDir, s, train, test).value.train.raw.events == train.raw.events
    ensures ProcessAsWritten(fs, saveDir, s, train, test).value.test.raw.events == test.raw.events
  {
    var a, b := saveDir + [TrainOutput(s)], saveDir + [TestOutput(s)];
    assert a[..|a| - 1] == saveDir && b[..|b| - 1] == saveDir;
    TrainAndTestNeverCollide(s, s);
    assert a[|saveDir|] != b[|saveDir|];
    var trainPrep := PreprocessAsWritten(train.source, train.raw).value;
    var fs1 := fs[a := File(Saved(trainPrep.epochs, FirstTrial))];
    assert IsDir(fs1, saveDir) && b !in fs1;
  }

  /** The stale-recording defect. Take a folder s whose two sessions read and can
      be cut, followed by a folder t with a different key and no recordings,
      none of their outputs existing yet. The run gets through both folders, and
      the file written for t holds epochs cut from s's training recording, whose
      bads list the EOG channels twice. */
  lemma StaleRecordingReused(fs: Fs<Content>, dir: Path, saveDir: Path, s: string, t: string)
    requires IsFile(fs, dir + [s, TrainInput(s)]) && fs[dir + [s, TrainInput(s)]].content.Raw?
    requires Cuttable(fs[dir + [s, TrainInput(s)]].content.rec.events)
    requires IsFile(fs, dir + [s, TestInput(s)]) && fs[dir + [s, TestInput(s)]].content.Raw?
    requires Cuttable(fs[dir + [s, TestInput(s)]].content.rec.events)
    requires !Exists(fs, dir + [t, TrainInput(t)]) && !Exists(fs, dir + [t, TestInput(t)])
    requires Slice(s, 1, 3) != Slice(t, 1, 3)
    requires IsDir(fs, saveDir)
    requires saveDir + [TrainOutput(s)] !in fs && saveDir + [TestOutput(s)] !in fs
    requires saveDir + [TrainOutput(t)] !in fs && saveDir + [TestOutput(t)] !in fs
    ensures LoopAsWritten(State(fs, Unset, Unset), dir, saveDir, [s, t]).Success?
    ensures var fin := LoopAsWritten(State(fs, Unset, Unset), dir, saveDir, [s, t]).value;
            && IsFile(fin.fs, saveDir + [TrainOutput(t)])
            && fin.fs[saveDir + [TrainOutput(t)]].content.Saved?
            && fin.fs[saveDir + [TrainOutput(t)]].content.epochs.source == dir + [s, TrainInput(s)]
            && fin.train.Held?
            && fin.train.raw.bads == fs[dir + [s, TrainInput(s)]].content.rec.bads + BciIvEogChannels + BciIvEogChannels
  {
    var st0 := State(fs, Unset, Unset);
    var p, q := dir + [s, TrainInput(s)], dir + [s, TestInput(s)];
    var tr, te := Load(fs, p, Unset).value, Load(fs, q, Unset).value;
    ProcessSucceeds(fs, saveDir, s, tr, te);
    var st1 := SubjectAsWritten(st0, dir, saveDir, s).value;
    assert st1 == ProcessAsWritten(fs, saveDir, s, tr, te).value;
    assert st1.train.source == p && st1.train.raw.bads == fs[p].content.rec.bads + BciIvEogChannels;
    NotAnOutput(dir, saveDir, s, t);
    assert !Exists(st1.fs, dir + [t, TrainInput(t)]) && !Exists(st1.fs, dir + [t, TestInput(t)]);
    OutputsKeyedBySubject(s, t);
    TrainAndTestNeverCollide(s, t);
    TrainAndTestNeverCollide(t, s);
    NewOutputs(fs, st1.fs, saveDir, s, t);
    ProcessSucceeds(st1.fs, saveDir, t, st1.train, st1.test);
    var fin := SubjectAsWritten(st1, dir, saveDir, t).value;
    assert fin == ProcessAsWritten(st1.fs, saveDir, t, st1.train, st1.test).value;
    LoopOfTwo(st0, dir, saveDir, s, t);
    assert fin.train.source == p && fin.train.raw.bads == st1.train.raw.bads + BciIvEogChannels;
  }

  /** After folder s's outputs are written, folder t's outputs are still absent
      when t has a different key. */
  lemma NewOutputs(fs: Fs<Content>, fs1: Fs<Content>, saveDir: Path, s: string, t: string)
    requires IsDir(fs, saveDir) && Extends(fs, fs1)
    requires forall q :: q in fs1 && q !in fs ==> q == saveDir + [TrainOutput(s)] || q == saveDir + [TestOutput(s)]
    requires TrainOutput(t) != TrainOutput(s) && TrainOutput(t) != TestOutput(s)
    requires TestOutput(t) != TrainOutput(s) && TestOutput(t) != TestOutput(s)
    requires saveDir + [TrainOutput(t)] !in fs && saveDir + [TestOutput(t)] !in fs
    ensures IsDir(fs1, saveDir)
    ensures saveDir + [TrainOutput(t)] !in fs1 && saveDir + [TestOutput(t)] !in fs1
  {
    var n := |saveDir|;
    assert (saveDir + [TrainOutput(t)])[n] == TrainOutput(t) && (saveDir + [TestOutput(t)])[n] == TestOutput(t);
    assert (saveDir + [TrainOutput(s)])[n] == TrainOutput(s) && (saveDir + [TestOutput(s)])[n] == TestOutput(s);
  }

  /** The loop over two folders is two subject steps. */
  lemma LoopOfTwo(st: State, dir: Path, saveDir: Path, s: string, t: string)
    ensures SubjectAsWritten(st, dir, saveDir, s).Success? ==>
              LoopAsWritten(st, dir, saveDir, [s, t]) ==
              SubjectAsWritten(SubjectAsWritten(st, dir, saveDir, s).value, dir, saveDir, t)
  {
    assert [s, t][1..] == [t] && [t][1..] == [];
    var first := SubjectAsWritten(st, dir, saveDir, s);
    if first.Success? {
      var mid := first.value;
      assert LoopAsWritten(st, dir, saveDir, [s, t]) == LoopAsWritten(mid, dir, saveDir, [t]);
      var last := SubjectAsWritten(mid, dir, saveDir, t);
      if last.Success? {
        assert LoopAsWritten(last.value, dir, saveDir, []) == Success(last.value);
      }
    }
  }

  /** A folder's input path is never the path of a file the loop saves. */
  lemma NotAnOutput(dir: Path, saveDir: Path, s: string, t: string)
    ensures dir + [t, TrainInput(t)] != saveDir + [TrainOutput(s)]
    ensures dir + [t, TrainInput(t)] != saveDir + [TestOutput(s)]
    ensures dir + [t, TestInput(t)] != saveDir + [TrainOutput(s)]
    ensures dir + [t, TestInput(t)] != saveDir + [TestOutput(s)]
  {
    OutputsAreNotInputs(s, t);
    var p, q := dir + [t, TrainInput(t)], dir + [t, TestInput(t)];
    assert p[|p| - 1] == TrainInput(t) && q[|q| - 1] == TestInput(t);
    assert (saveDir + [TrainOutput(s)])[|saveDir|] == TrainOutput(s);
    assert (saveDir + [TestOutput(s)])[|saveDir|] == TestOutput(s);
  }

  /** Only the first epoch is saved: as soon as the epochs keep two trials, the
      labels read back from a file saved as written are not the labels of the
      epochs. */
  lemma OnlyFirstEpochSaved(epochs: Epochs)
    requires |KeptEvents(epochs.events, epochs.eventId)| >= 2
    ensures |SavedLabels(Saved(epochs, FirstTrial))| == 1
    ensures SavedLabels(Saved(epochs, FirstTrial)) != SavedLabels(Saved(epochs, AllTrials))
  {
  }

  /** The event-code defect. events_from_annotations numbers the descriptions of a
      BCI IV 2a training file itself; where it gives the cues 769 and 770 codes
      other than 1 and 2 (7 and 8 for this dataset, with 1 and 2 going to 1023,
      rejected trial, and 1072, eye movements), none of the epochs kept as written
      is a cue. */
  lemma FixedCodesMissTheCues(source: Path, rec: Recording)
    requires "769" in rec.eventIds && "770" in rec.eventIds
    requires rec.eventIds["769"] !in {1, 2} && rec.eventIds["770"] !in {1, 2}
    requires PreprocessAsWritten(source, rec).Success?
    ensures var ep := PreprocessAsWritten(source, rec).value.epochs;
            forall e :: e in KeptEvents(ep.events, ep.eventId) ==>
              e.code != rec.eventIds["769"] && e.code != rec.eventIds["770"]
  {
    assert SelectedIds.Values == {1, 2} by {
      assert SelectedIds["769"] == 1 && SelectedIds["770"] == 2;
    }
  }

  /** The cue events, renumbered as the script's table expects: an event with the
      code reported for 769 becomes code 1, one with the code reported for 770
      becomes code 2, and every other event is dropped. */
  function CueEvents(events: seq<Event>, left: int, right: int): (r: seq<Event>)
    ensures forall x :: x in r ==> || (x.code == 1 && Event(x.sample, left) in events)
                                   || (x.code == 2 && Event(x.sample, right) in events)
    ensures forall e :: e in events && e.code == left ==> Event(e.sample, 1) in r
    ensures forall e :: e in events && e.code == right && right != left ==> Event(e.sample, 2) in r
    ensures |r| <= |events|
  {
    if |events| == 0 then []
    else
      var e := events[0];
      var rest := CueEvents(events[1..], left, right);
      assert events == [e] + events[1..];
      if e.code == left then [Event(e.sample, 1)] + rest
      else if e.code == right then [Event(e.sample, 2)] + rest
      else rest
  }

  /** What the corrected preprocessing step yields: nothing, for a recording with
      no labelled cues (an evaluation session), or the epochs to save. */
  datatype Cut = NoCues | Cut(epochs: Epochs)

  /** preprocess_dataset_BCI_IV_2a corrected: the cue events are selected by the
      codes reported for 769 and 770 and renumbered 1 and 2, so the saved labels
      keep the values the script intends; a recording that does not report both
      cues yields nothing, which the `is not None` tests of the caller expect. */
  function Preprocess(source: Path, rec: Recording): (r: Result<Cut>)
    ensures !("769" in rec.eventIds && "770" in rec.eventIds) ==> r == Success(NoCues)
    ensures r.Success? && r.value.Cut? ==>
              && r.value.epochs.source == source
              && r.value.epochs.eventId == map["769" := 1, "770" := 2]
              && r.value.epochs.window == Window(1000, 4000)
              && r.value.epochs.repeated == RaiseOnRepeat
              && (forall i :: i in r.value.epochs.picks ==>
                    i < |rec.channels| && rec.channels[i].kind == Eeg && rec.channels[i].name !in BciIvEogChannels)
              && (forall x :: x in KeptEvents(r.value.epochs.events, r.value.epochs.eventId) ==>
                    || (x.code == 1 && Event(x.sample, rec.eventIds["769"]) in rec.events)
                    || (x.code == 2 && Event(x.sample, rec.eventIds["770"]) in rec.events))
              && (forall e :: e in rec.events && e.code == rec.eventIds["769"] ==>
                    Event(e.sample, 1) in KeptEvents(r.value.epochs.events, r.value.epochs.eventId))
              && (forall e :: e in rec.events && e.code == rec.eventIds["770"] && rec.eventIds["770"] != rec.eventIds["769"] ==>
                    Event(e.sample, 2) in KeptEvents(r.value.epochs.events, r.value.epochs.eventId))
    ensures "769" in rec.eventIds && "770" in rec.eventIds ==>
              && (r.Success? <==> Cuttable(CueEvents(rec.events, rec.eventIds["769"], rec.eventIds["770"])))
              && (r.Success? ==> r.value.Cut?)
              && (r.Failure? ==> r.error == NoMatchingEvents || r.error == RepeatedEvents)
  {
    if !("769" in rec.eventIds && "770" in rec.eventIds) then Success(NoCues)
    else
      var cues := CueEvents(rec.events, rec.eventIds["769"], rec.eventIds["770"]);
      var raw := AppendBads(rec.(events := cues), BciIvEogChannels);
      assert SelectedIds.Values == {1, 2} by {
        assert SelectedIds["769"] == 1 && SelectedIds["770"] == 2;
      }
      var epochs :- MakeEpochs(source, raw, SelectedIds, EpochWindow, RaiseOnRepeat);
      EogByTypeOrByBads(rec, BciIvEogChannels);
      assert PickEeg(raw) == PickEeg(AppendBads(rec, BciIvEogChannels));
      Success(Cut(epochs))
  }

  /** The corrected version keeps exactly the cue events: whatever codes the
      recording reports for 769 and 770, each kept event is a renumbered cue. */
  lemma CuesSelected(source: Path, rec: Recording)
    requires "769" in rec.eventIds && "770" in rec.eventIds
    requires Preprocess(source, rec).Success? && Preprocess(source, rec).value.Cut?
    ensures var ep := Preprocess(source, rec).value.epochs;
            forall x :: x in KeptEvents(ep.events, ep.eventId) ==>
              Event(x.sample, if x.code == 1 then rec.eventIds["769"] else rec.eventIds["770"]) in rec.events
  {
  }

  /** What the corrected script may leave in saveDir: a file named for the subject
      folder and session of the recording its epochs were cut from, holding all of
      them. */
  predicate Written(dir: Path, n: string, c: Content)
  {
    && c.Saved? && c.trials == AllTrials
    && var src := c.epochs.source;
    && |src| == |dir| + 2 && src[..|dir|] == dir && IsSubjectFolder(src[|dir|])
    && ((src[|dir| + 1] == TrainInput(src[|dir|]) && n == TrainOutput(src[|dir|])) ||
        (src[|dir| + 1] == TestInput(src[|dir|]) && n == TestOutput(src[|dir|])))
    && c.epochs.eventId == SelectedIds && c.epochs.window == EpochWindow
  }

  /** Files new in b are directly inside saveDir and were written for their own
      subject and session. */
  ghost predicate OwnFiles(a: Fs<Content>, b: Fs<Content>, dir: Path, saveDir: Path)
  {
    && Extends(a, b)
    && forall q :: q in b && q !in a ==>
         && |q| == |saveDir| + 1 && q[..|saveDir|] == saveDir
         && b[q].File? && Written(dir, q[|saveDir|], b[q].content)
  }

  lemma OwnFilesTransitive(a: Fs<Content>, b: Fs<Content>, c: Fs<Content>, dir: Path, saveDir: Path)
    requires OwnFiles(a, b, dir, saveDir) && OwnFiles(b, c, dir, saveDir)
    ensures OwnFiles(a, c, dir, saveDir)
  {
  }

  /** One session of one subject, corrected: a missing file or a recording without
      cues is skipped, never replaced by an earlier subject's recording. */
  function Session(fs: Fs<Content>, dir: Path, saveDir: Path, s: string, input: string, output: string): (r: Result<Fs<Content>>)
    requires IsSubjectFolder(s)
    requires (input == TrainInput(s) && output == TrainOutput(s)) || (input == TestInput(s) && output == TestOutput(s))
    ensures r.Success? ==> OwnFiles(fs, r.value, dir, saveDir)
    ensures !Exists(fs, dir + [s, input]) ==> r == Success(fs)
    ensures r.Success? && IsFile(fs, dir + [s, input]) && fs[dir + [s, input]].content.Raw?
            && "769" in fs[dir + [s, input]].content.rec.eventIds
            && "770" in fs[dir + [s, input]].content.rec.eventIds ==>
              IsFile(r.value, saveDir + [output])
  {
    var src := dir + [s, input];
    if !Exists(fs, src) then Success(fs)
    else
      var rec :- ReadRaw(fs, src, []);
      var cut :- Preprocess(src, rec);
      if cut.NoCues? then Success(fs)
      else
        var content := Saved(cut.epochs, AllTrials);
        var saved :- Save(fs, saveDir + [output], content);
        SavedOwnFile(fs, dir, saveDir, s, input, output, cut.epochs);
        Success(saved)
  }

  /** Saving the cut of a subject's session under the session's output name adds
      a file the corrected script may write. */
  lemma SavedOwnFile(fs: Fs<Content>, dir: Path, saveDir: Path, s: string, input: string, output: string, epochs: Epochs)
    requires IsSubjectFolder(s)
    requires (input == TrainInput(s) && output == TrainOutput(s)) || (input == TestInput(s) && output == TestOutput(s))
    requires epochs.source == dir + [s, input] && epochs.eventId == SelectedIds && epochs.window == EpochWindow
    requires saveDir + [output] !in fs
    ensures OwnFiles(fs, fs[saveDir + [output] := File(Saved(epochs, AllTrials))], dir, saveDir)
  {
    assert epochs.source[..|dir|] == dir && epochs.source[|dir|] == s;
    assert (saveDir + [output])[..|saveDir|] == saveDir;
  }

  /** The corrected session saves the whole epoch set: the file it writes reads
      back one label per kept trial, in order, where the script as written reads
      back one label in all. */
  lemma SessionSavesEveryLabel(fs: Fs<Content>, dir: Path, saveDir: Path, s: string, input: string, output: string)
    requires IsSubjectFolder(s)
    requires (input == TrainInput(s) && output == TrainOutput(s)) || (input == TestInput(s) && output == TestOutput(s))
    requires saveDir + [output] !in fs
    ensures var r := Session(fs, dir, saveDir, s, input, output);
            r.Success? && saveDir + [output] in r.value ==>
              var c := r.value[saveDir + [output]].content;
              && c.Saved?
              && |SavedLabels(c)| == |KeptEvents(c.epochs.events, c.epochs.eventId)|
              && forall i :: 0 <= i < |SavedLabels(c)| ==> SavedLabels(c)[i] == KeptEvents(c.epochs.events, c.epochs.eventId)[i].code
  {
  }

  /** One subject folder, corrected. */
  function Subject(fs: Fs<Content>, dir: Path, saveDir: Path, s: string): (r: Result<Fs<Content>>)
    requires IsSubjectFolder(s)
    ensures r.Success? ==> OwnFiles(fs, r.value, dir, saveDir)
    ensures r.Success? && IsFile(fs, dir + [s, TrainInput(s)]) && fs[dir + [s, TrainInput(s)]].content.Raw?
            && "769" in fs[dir + [s, TrainInput(s)]].content.rec.eventIds
            && "770" in fs[dir + [s, TrainInput(s)]].content.rec.eventIds ==>
              IsFile(r.value, saveDir + [TrainOutput(s)])
  {
    var afterTrain :- Session(fs, dir, saveDir, s, TrainInput(s), TrainOutput(s));
    var afterTest :- Session(afterTrain, dir, saveDir, s, TestInput(s), TestOutput(s));
    OwnFilesTransitive(fs, afterTrain, afterTest, dir, saveDir);
    Success(afterTest)
  }

  /** A recording in the data tree with both cues reported: training input of s. */
  ghost predicate CuedTrainInput(fs: Fs<Content>, dir: Path, s: string)
  {
    && IsFile(fs, dir + [s, TrainInput(s)]) && fs[dir + [s, TrainInput(s)]].content.Raw?
    && "769" in fs[dir + [s, TrainInput(s)]].content.rec.eventIds
    && "770" in fs[dir + [s, TrainInput(s)]].content.rec.eventIds
  }

  /** The subject loop, corrected: nothing is carried from one subject to the next
      but the filesystem. */
  function Subjects(fs: Fs<Content>, dir: Path, saveDir: Path, subjects: seq<string>): (r: Result<Fs<Content>>)
    requires forall s :: s in subjects ==> IsSubjectFolder(s)
    ensures r.Success? ==> OwnFiles(fs, r.value, dir, saveDir)
    ensures r.Success? ==> forall s :: s in subjects && CuedTrainInput(fs, dir, s) ==> IsFile(r.value, saveDir + [TrainOutput(s)])
    decreases |subjects|
  {
    if |subjects| == 0 then Success(fs)
    else
      var next :- Subject(fs, dir, saveDir, subjects[0]);
      assert forall s :: s in subjects[1..] ==> s in subjects;
      var fin :- Subjects(next, dir, saveDir, subjects[1..]);
      OwnFilesTransitive(fs, next, fin, dir, saveDir);
      SubjectsStep(fs, next, fin, dir, saveDir, subjects);
      Success(fin)
  }

  /** The training-file promise carried over one subject of the loop. */
  lemma SubjectsStep(fs: Fs<Content>, next: Fs<Content>, fin: Fs<Content>, dir: Path, saveDir: Path, subjects: seq<string>)
    requires |subjects| > 0
    requires Extends(fs, next) && Extends(next, fin)
    requires CuedTrainInput(fs, dir, subjects[0]) ==> IsFile(next, saveDir + [TrainOutput(subjects[0])])
    requires forall s :: s in subjects[1..] && CuedTrainInput(next, dir, s) ==> IsFile(fin, saveDir + [TrainOutput(s)])
    ensures forall s :: s in subjects && CuedTrainInput(fs, dir, s) ==> IsFile(fin, saveDir + [TrainOutput(s)])
  {
    forall s | s in subjects && CuedTrainInput(fs, dir, s)
      ensures IsFile(fin, saveDir + [TrainOutput(s)])
    {
      assert CuedTrainInput(next, dir, s);
      if s == subjects[0] {
        assert IsFile(next, saveDir + [TrainOutput(s)]);
      } else {
        assert subjects == [subjects[0]] + subjects[1..];
      }
    }
  }

  /** read_dataset_BCI_IV_2a corrected. Every file it adds lies directly in saveDir
      and holds all epochs of the session and subject folder its name gives; every
      subject whose training session reports both cues gets its training file. */
  function ReadDataset(fs: Fs<Content>, dir: Path, saveDir: Path, listing: Path -> seq<string>): (r: Result<Fs<Content>>)
    ensures !IsDir(fs, dir) ==> r.Failure?
    ensures r.Success? ==> OwnFiles(fs, r.value, dir, saveDir)
    ensures r.Success? ==> forall s :: s in listing(dir) && IsSubjectFolder(s) && CuedTrainInput(fs, dir, s) ==>
                                       IsFile(r.value, saveDir + [TrainOutput(s)])
  {
    var names :- Listdir(fs, dir, listing);
    Subjects(fs, dir, saveDir, SubjectFolders(names))
  }
}
