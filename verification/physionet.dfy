/** The Physionet EEG Motor Movement/Imagery adapter
    (scripts/preprocessing/physionet.py): the three imagery runs 4, 8 and 12 of
    every subject folder, cut into rest/left/right epochs from 1 s to 4 s, each run
    saved on its own. Four listing positions are skipped. */
module Physionet {
  import opened Outcome
  import opened FileSys
  import opened PyStr
  import opened Mne

  /** bad_subjects: 1-based positions in the directory listing, not subject ids. */
  const BadPositions: seq<int> := [88, 92, 100, 104]

  /** The event_id passed to mne.Epochs. */
  const EventIds: EventId := map["rest" := 1, "left_hand" := 2, "right_hand" := 3]

  const EpochWindow: Window := Window(1000, 4000)

  /** The motor imagery runs read for every subject. */
  datatype Run = R04 | R08 | R12

  /** The run number as it appears in the file names. */
  function RunCode(run: Run): (c: string)
    ensures |c| == 2
  {
    match run
    case R04 => "04"
    case R08 => "08"
    case R12 => "12"
  }

  /** The directory __create_save_directory owns: f"{save_path_root}/Physionet". */
  const DirName := "Physionet"

  function SaveDir(root: Path): Path
  {
    DatasetDir(root, DirName)
  }

  /** subject[1:4]: the three digits of a folder named like S001. */
  function Key(subject: string): string
  {
    Slice(subject, 1, 4)
  }

  /** f"S{subject[1:4]}R04.edf" and its R08, R12 siblings. */
  function InputName(subject: string, run: Run): string
  {
    "S" + Key(subject) + "R" + RunCode(run) + ".edf"
  }

  /** f"PA{subject[1:4]}R04-epo.fif" and its R08, R12 siblings. */
  function OutputName(subject: string, run: Run): string
  {
    "PA" + Key(subject) + "R" + RunCode(run) + "-epo.fif"
  }

  /** The key and the run can be read back from either name: two names coincide
      exactly when key and run do. So the three files of one subject, read or
      written, are pairwise distinct, and no output name is an input name. */
  lemma NamesKeyedBySubjectAndRun(s: string, t: string, a: Run, b: Run)
    ensures InputName(s, a) == InputName(t, b) <==> Key(s) == Key(t) && a == b
    ensures OutputName(s, a) == OutputName(t, b) <==> Key(s) == Key(t) && a == b
    ensures InputName(s, a) != OutputName(t, b)
  {
    InputNamesKeyed(s, t, a, b);
    OutputNamesKeyed(s, t, a, b);
    assert InputName(s, a)[0] != OutputName(t, b)[0];
  }

  lemma InputNamesKeyed(s: string, t: string, a: Run, b: Run)
    ensures InputName(s, a) == InputName(t, b) ==> Key(s) == Key(t) && a == b
  {
    assert InputName(s, a) == "S" + Key(s) + ("R" + RunCode(a) + ".edf");
    assert InputName(t, b) == "S" + Key(t) + ("R" + RunCode(b) + ".edf");
    if InputName(s, a) == InputName(t, b) {
      ConcatSplit("S" + Key(s), "R" + RunCode(a) + ".edf", "S" + Key(t), "R" + RunCode(b) + ".edf");
      ConcatSplit("S", Key(s), "S", Key(t));
      RunCodeInjective(a, b, "R", ".edf");
    }
  }

  lemma OutputNamesKeyed(s: string, t: string, a: Run, b: Run)
    ensures OutputName(s, a) == OutputName(t, b) ==> Key(s) == Key(t) && a == b
  {
    assert OutputName(s, a) == "PA" + Key(s) + ("R" + RunCode(a) + "-epo.fif");
    assert OutputName(t, b) == "PA" + Key(t) + ("R" + RunCode(b) + "-epo.fif");
    if OutputName(s, a) == OutputName(t, b) {
      ConcatSplit("PA" + Key(s), "R" + RunCode(a) + "-epo.fif", "PA" + Key(t), "R" + RunCode(b) + "-epo.fif");
      ConcatSplit("PA", Key(s), "PA", Key(t));
      RunCodeInjective(a, b, "R", "-epo.fif");
    }
  }

  /** The run codes, framed the same way, tell the runs apart. */
  lemma RunCodeInjective(a: Run, b: Run, before: string, after: string)
    requires before + RunCode(a) + after == before + RunCode(b) + after
    ensures a == b
  {
    ConcatSplit(before + RunCode(a), after, before + RunCode(b), after);
    ConcatSplit(before, RunCode(a), before, RunCode(b));
  }

  /** The folders the loop processes, in listing order, when the first of them
      sits at 1-based position idx: every folder at a position outside
      BadPositions, whatever its name. */
  function Processed(subjects: seq<string>, idx: int): (r: seq<string>)
    ensures forall i :: 0 <= i < |subjects| && idx + i !in BadPositions ==> subjects[i] in r
    ensures forall s :: s in r ==> exists i :: 0 <= i < |subjects| && idx + i !in BadPositions && subjects[i] == s
    decreases |subjects|
  {
    if |subjects| == 0 then []
    else
      var rest := Processed(subjects[1..], idx + 1);
      assert forall i :: 1 <= i < |subjects| && idx + i !in BadPositions ==> subjects[i] in rest by {
        forall i | 1 <= i < |subjects| && idx + i !in BadPositions ensures subjects[i] in rest {
          assert subjects[1..][i - 1] == subjects[i];
        }
      }
      assert forall s :: s in rest ==> exists i :: 0 <= i < |subjects| && idx + i !in BadPositions && subjects[i] == s by {
        forall s | s in rest ensures exists i :: 0 <= i < |subjects| && idx + i !in BadPositions && subjects[i] == s {
          var j :| 0 <= j < |subjects[1..]| && idx + 1 + j !in BadPositions && subjects[1..][j] == s;
          assert subjects[j + 1] == s;
        }
      }
      if idx in BadPositions then rest else [subjects[0]] + rest
  }

  /** In a listing without repeated names, the folder at a bad position is not
      processed, and every other folder is. */
  lemma ProcessedByPosition(subjects: seq<string>, i: int)
    requires forall a, b :: 0 <= a < b < |subjects| ==> subjects[a] != subjects[b]
    requires 0 <= i < |subjects|
    ensures subjects[i] in Processed(subjects, 1) <==> i + 1 !in BadPositions
  {
  }

  /** __extract: rest, left hand and right hand are event codes 1, 2 and 3, window
      (1.0 s, 4.0 s), default event_repeated="error"; fails when a run lacks one of
      the codes, or when two of its code-1/2/3 events share an onset sample. */
  function Extract(rec: Recording, source: Path): (r: Result<Epochs>)
    ensures r.Success? <==> && HasCode(rec.events, 1) && HasCode(rec.events, 2) && HasCode(rec.events, 3)
                            && !SharedOnset(KeptEvents(rec.events, EventIds))
    ensures !(HasCode(rec.events, 1) && HasCode(rec.events, 2) && HasCode(rec.events, 3)) ==> r == Failure(NoMatchingEvents)
    ensures HasCode(rec.events, 1) && HasCode(rec.events, 2) && HasCode(rec.events, 3) && r.Failure? ==> r == Failure(RepeatedEvents)
    ensures r.Success? ==> && r.value.source == source
                           && r.value.eventId == map["rest" := 1, "left_hand" := 2, "right_hand" := 3]
                           && r.value.window == Window(1000, 4000)
                           && r.value.window.tminMs < r.value.window.tmaxMs
                           && r.value.repeated == RaiseOnRepeat
                           && r.value.events == rec.events
                           && r.value.picks == PickEeg(rec)
  {
    assert EventIds.Values == {1, 2, 3} by {
      assert EventIds["rest"] == 1 && EventIds["left_hand"] == 2 && EventIds["right_hand"] == 3;
    }
    MakeEpochs(source, rec, EventIds, EpochWindow, RaiseOnRepeat)
  }

  /** No two class names share an event code. */
  lemma EventIdsDistinct()
    ensures forall a, b :: a in EventIds && b in EventIds && a != b ==> EventIds[a] != EventIds[b]
    ensures EventIds.Keys == {"rest", "left_hand", "right_hand"}
  {
  }

  /** The epochs extract_epochs cuts from the recording at src: read, then
      __extract. */
  function CutFrom(fs: Fs<Content>, src: Path): (r: Result<Epochs>)
    ensures r.Success? ==> IsFile(fs, src) && fs[src].content.Raw? && r.value.source == src
  {
    var rec :- ReadRaw(fs, src, []);
    Extract(rec, src)
  }

  /** Adding entries changes no cut that succeeded. */
  lemma CutFromKept(a: Fs<Content>, b: Fs<Content>, src: Path)
    requires Extends(a, b) && CutFrom(a, src).Success?
    ensures CutFrom(b, src) == CutFrom(a, src)
  {
  }

  /** Every file new in b holds all the epochs that cutting its own source in b
      gives. */
  ghost predicate Recomputed(a: Fs<Content>, b: Fs<Content>)
  {
    forall q :: q in b && q !in a && b[q].File? ==>
      && b[q].content.Saved? && b[q].content.trials == AllTrials
      && CutFrom(b, b[q].content.epochs.source) == Success(b[q].content.epochs)
  }

  lemma RecomputedTransitive(a: Fs<Content>, b: Fs<Content>, c: Fs<Content>)
    requires Extends(a, b) && Extends(b, c) && Recomputed(a, b) && Recomputed(b, c)
    ensures Recomputed(a, c)
  {
    forall q | q in c && q !in a && c[q].File? && q in b
      ensures CutFrom(c, c[q].content.epochs.source) == Success(c[q].content.epochs)
    {
      CutFromKept(b, c, b[q].content.epochs.source);
    }
  }

  /** After clearing d and a loop that only adds entries, the files inside d hold
      what cutting their sources in the input tree gives: no source lies inside d,
      since everything there is new and saved epochs are not recordings. */
  lemma CutsFromInput(fs: Fs<Content>, cleared: Fs<Content>, fin: Fs<Content>, d: Path)
    requires WellFormed(fs) ==> EmptyDir(cleared, d)
    requires Extends(cleared, fin) && Recomputed(cleared, fin) && SameOutside(fs, fin, d)
    ensures WellFormed(fs) ==> forall q :: q in fin && d < q && fin[q].File? ==>
              && fin[q].content.Saved? && fin[q].content.trials == AllTrials
              && CutFrom(fs, fin[q].content.epochs.source) == Success(fin[q].content.epochs)
  {
    forall q | WellFormed(fs) && q in fin && d < q && fin[q].File?
      ensures fin[q].content.Saved? && fin[q].content.trials == AllTrials
      ensures CutFrom(fs, fin[q].content.epochs.source) == Success(fin[q].content.epochs)
    {
      assert q !in cleared;
      SourceOutside(fs, cleared, fin, d, fin[q].content.epochs.source);
    }
  }

  /** A recording the loop could read after clearing d lies outside d, where the
      input tree has the same file. */
  lemma SourceOutside(fs: Fs<Content>, cleared: Fs<Content>, fin: Fs<Content>, d: Path, src: Path)
    requires EmptyDir(cleared, d)
    requires Extends(cleared, fin) && Recomputed(cleared, fin) && SameOutside(fs, fin, d)
    requires CutFrom(fin, src).Success?
    ensures CutFrom(fs, src) == CutFrom(fin, src)
  {
    if !(d <= src) {
      FileOutsideKept(fs, fin, d, src);
    }
  }

  /** The file of one run that the adapter may leave in subject folder s. */
  predicate WrittenRun(data: Path, s: string, n: string, c: Content, run: Run)
  {
    && n == OutputName(s, run)
    && c.Saved? && c.trials == AllTrials
    && c.epochs.source == data + [s, InputName(s, run)]
    && c.epochs.eventId == EventIds
    && c.epochs.window == EpochWindow
    && c.epochs.repeated == RaiseOnRepeat
  }

  predicate Written(data: Path, s: string, n: string, c: Content)
  {
    WrittenRun(data, s, n, c, R04) || WrittenRun(data, s, n, c, R08) || WrittenRun(data, s, n, c, R12)
  }

  function OkFor(data: Path): (string, string, Content) -> bool
  {
    (s, n, c) => Written(data, s, n, c)
  }

  /** Save the epochs of one run into the subject folder. */
  function SaveRun(fs: Fs<Content>, data: Path, d: Path, s: string, run: Run, epochs: Epochs): (r: Result<Fs<Content>>)
    requires epochs.source == data + [s, InputName(s, run)] && epochs.eventId == EventIds
    requires epochs.window == EpochWindow && epochs.repeated == RaiseOnRepeat
    ensures r.Success? ==> GrownUnder(fs, r.value, d, OkFor(data))
    ensures r.Success? && WellFormed(fs) ==> WellFormed(r.value)
    ensures r.Success? ==> IsFile(r.value, d + [s, OutputName(s, run)])
    ensures r.Success? ==> OnlyFor(fs, r.value, d, s)
    ensures r.Success? ==> forall q :: q in r.value && q !in fs && r.value[q].File? ==> r.value[q].content == Saved(epochs, AllTrials)
  {
    var content := Saved(epochs, AllTrials);
    var saved :- Save(fs, d + [s, OutputName(s, run)], content);
    assert WrittenRun(data, s, OutputName(s, run), content, run);
    assert OkFor(data)(s, OutputName(s, run), content);
    SaveSubjectFile(fs, d, s, OutputName(s, run), content, OkFor(data));
    Success(saved)
  }

  /** One pass of the subject loop: read the three runs, cut them, make the subject
      folder (which must not exist yet), save the three files. */
  function Subject(fs: Fs<Content>, data: Path, d: Path, s: string): (r: Result<Fs<Content>>)
    ensures r.Success? ==> GrownUnder(fs, r.value, d, OkFor(data)) && Recomputed(fs, r.value)
    ensures r.Success? && WellFormed(fs) ==> WellFormed(r.value)
    ensures r.Success? ==> forall run :: IsFile(r.value, d + [s, OutputName(s, run)])
    ensures r.Success? ==> OnlyFor(fs, r.value, d, s)
    ensures !Exists(fs, data + [s, InputName(s, R04)]) ==> r == Failure(FileNotFound(data + [s, InputName(s, R04)]))
  {
    var raw4 :- ReadRaw(fs, data + [s, InputName(s, R04)], []);
    var raw8 :- ReadRaw(fs, data + [s, InputName(s, R08)], []);
    var raw12 :- ReadRaw(fs, data + [s, InputName(s, R12)], []);
    var ep4 :- Extract(raw4, data + [s, InputName(s, R04)]);
    var ep8 :- Extract(raw8, data + [s, InputName(s, R08)]);
    var ep12 :- Extract(raw12, data + [s, InputName(s, R12)]);
    var made :- MakeDirs(fs, d + [s], false);
    MakeSubjectDir(fs, d, s, false, OkFor(data));
    var fin :- SaveRuns(made, data, d, s, ep4, ep8, ep12);
    OnlyForTransitive(fs, made, fin, d, s);
    GrownUnderTransitive(fs, made, fin, d, OkFor(data));
    RunsRecomputed(fs, fin, ep4, ep8, ep12);
    Success(fin)
  }

  /** Files saved from the three cuts of the input tree hold what cutting their
      sources again would give. */
  lemma RunsRecomputed(fs: Fs<Content>, fin: Fs<Content>, ep4: Epochs, ep8: Epochs, ep12: Epochs)
    requires Extends(fs, fin)
    requires CutFrom(fs, ep4.source) == Success(ep4)
    requires CutFrom(fs, ep8.source) == Success(ep8)
    requires CutFrom(fs, ep12.source) == Success(ep12)
    requires forall q :: q in fin && q !in fs && fin[q].File? ==>
                         fin[q].content in {Saved(ep4, AllTrials), Saved(ep8, AllTrials), Saved(ep12, AllTrials)}
    ensures Recomputed(fs, fin)
  {
    CutFromKept(fs, fin, ep4.source);
    CutFromKept(fs, fin, ep8.source);
    CutFromKept(fs, fin, ep12.source);
  }

  /** The three saves of one subject, in run order. */
  function SaveRuns(fs: Fs<Content>, data: Path, d: Path, s: string, ep4: Epochs, ep8: Epochs, ep12: Epochs): (r: Result<Fs<Content>>)
    requires ep4.source == data + [s, InputName(s, R04)] && ep4.eventId == EventIds
    requires ep8.source == data + [s, InputName(s, R08)] && ep8.eventId == EventIds
    requires ep12.source == data + [s, InputName(s, R12)] && ep12.eventId == EventIds
    requires ep4.window == EpochWindow && ep4.repeated == RaiseOnRepeat
    requires ep8.window == EpochWindow && ep8.repeated == RaiseOnRepeat
    requires ep12.window == EpochWindow && ep12.repeated == RaiseOnRepeat
    ensures r.Success? ==> GrownUnder(fs, r.value, d, OkFor(data))
    ensures r.Success? && WellFormed(fs) ==> WellFormed(r.value)
    ensures r.Success? ==> forall run :: IsFile(r.value, d + [s, OutputName(s, run)])
    ensures r.Success? ==> OnlyFor(fs, r.value, d, s)
    ensures r.Success? ==> forall q :: q in r.value && q !in fs && r.value[q].File? ==>
                             r.value[q].content in {Saved(ep4, AllTrials), Saved(ep8, AllTrials), Saved(ep12, AllTrials)}
  {
    var fs4 :- SaveRun(fs, data, d, s, R04, ep4);
    var fs8 :- SaveRun(fs4, data, d, s, R08, ep8);
    var fs12 :- SaveRun(fs8, data, d, s, R12, ep12);
    OnlyForTransitive(fs, fs4, fs8, d, s);
    OnlyForTransitive(fs, fs8, fs12, d, s);
    GrownUnderTransitive(fs, fs4, fs8, d, OkFor(data));
    GrownUnderTransitive(fs, fs8, fs12, d, OkFor(data));
    assert forall run :: IsFile(fs12, d + [s, OutputName(s, run)]) by {
      forall run ensures IsFile(fs12, d + [s, OutputName(s, run)]) {
        assert run == R04 || run == R08 || run == R12;
      }
    }
    Success(fs12)
  }

  /** One pass of the subject loop for the folder at 1-based position idx: a
      folder at a bad position is skipped, any other is processed. */
  function Visit(fs: Fs<Content>, data: Path, d: Path, s: string, idx: int): (r: Result<Fs<Content>>)
    ensures r.Success? ==> GrownUnder(fs, r.value, d, OkFor(data)) && Recomputed(fs, r.value)
    ensures r.Success? ==> OnlyFor(fs, r.value, d, s)
    ensures r.Success? && WellFormed(fs) ==> WellFormed(r.value)
    ensures idx in BadPositions ==> r == Success(fs)
    ensures r.Success? && idx !in BadPositions ==> forall run :: IsFile(r.value, d + [s, OutputName(s, run)])
  {
    if idx in BadPositions then
      GrownUnderReflexive(fs, d, OkFor(data));
      Success(fs)
    else
      Subject(fs, data, d, s)
  }

  /** The subject loop, in listing order, with idx the 1-based position of the
      first folder of `subjects`; a folder at a bad position is skipped, and an
      exception ends the run. */
  function Subjects(fs: Fs<Content>, data: Path, d: Path, subjects: seq<string>, idx: int): (r: Result<Fs<Content>>)
    ensures r.Success? ==> GrownUnder(fs, r.value, d, OkFor(data)) && Recomputed(fs, r.value)
    ensures r.Success? && WellFormed(fs) ==> WellFormed(r.value)
    ensures r.Success? ==> forall i, run :: 0 <= i < |subjects| && idx + i !in BadPositions ==>
                                             IsFile(r.value, d + [subjects[i], OutputName(subjects[i], run)])
    ensures r.Success? ==> forall q :: q in r.value && q !in fs && d < q ==> q[|d|] in Processed(subjects, idx)
    decreases |subjects|, 1
  {
    if |subjects| == 0 then
      GrownUnderReflexive(fs, d, OkFor(data));
      Success(fs)
    else
      var next :- Visit(fs, data, d, subjects[0], idx);
      var fin :- Subjects(next, data, d, subjects[1..], idx + 1);
      VisitStep(fs, next, fin, data, d, subjects, idx);
      Success(fin)
  }

  /** The loop invariants carried over one folder, skipped or processed. */
  lemma VisitStep(fs: Fs<Content>, next: Fs<Content>, fin: Fs<Content>, data: Path, d: Path, subjects: seq<string>, idx: int)
    requires |subjects| > 0
    requires Visit(fs, data, d, subjects[0], idx) == Success(next)
    requires Subjects(next, data, d, subjects[1..], idx + 1) == Success(fin)
    ensures GrownUnder(fs, fin, d, OkFor(data)) && Recomputed(fs, fin)
    ensures forall i, run :: 0 <= i < |subjects| && idx + i !in BadPositions ==>
                               IsFile(fin, d + [subjects[i], OutputName(subjects[i], run)])
    ensures forall q :: q in fin && q !in fs && d < q ==> q[|d|] in Processed(subjects, idx)
    decreases |subjects|, 0
  {
    GrownUnderTransitive(fs, next, fin, d, OkFor(data));
    RecomputedTransitive(fs, next, fin);
    forall i, run | 0 <= i < |subjects| && idx + i !in BadPositions
      ensures IsFile(fin, d + [subjects[i], OutputName(subjects[i], run)])
    {
      if i > 0 {
        assert subjects[i] == subjects[1..][i - 1];
      }
    }
  }

  /** extract_epochs(data_path, save_path_root). A missing data path leaves the
      filesystem untouched. On success, the folder at every 1-based listing
      position outside BadPositions has its three run files, the save directory
      holds nothing but what this run wrote, for processed folders only, and
      nothing outside it has changed. */
  function ExtractEpochs(fs: Fs<Content>, data: Path, root: Path, listing: Path -> seq<string>): (r: Result<Fs<Content>>)
    ensures !Exists(fs, data) ==> r == Success(fs)
    ensures r.Success? && Exists(fs, data) ==>
              forall i, run :: 0 <= i < |listing(data)| && i + 1 !in BadPositions ==>
                IsFile(r.value, SaveDir(root) + [listing(data)[i], OutputName(listing(data)[i], run)])
    ensures r.Success? && Exists(fs, data) && WellFormed(fs) ==>
              && WellFormed(r.value)
              && IsDir(r.value, SaveDir(root))
              && (forall q :: q in r.value && SaveDir(root) < q ==>
                               Made(SaveDir(root), q, r.value[q], OkFor(data))
                               && q[|SaveDir(root)|] in Processed(listing(data), 1))
              && (forall q :: q in r.value && SaveDir(root) < q && r.value[q].File? ==>
                    CutFrom(fs, r.value[q].content.epochs.source) == Success(r.value[q].content.epochs))
              && SameOutside(fs, r.value, SaveDir(root))
  {
    if !Exists(fs, data) then Success(fs)
    else
      var d := SaveDir(root);
      var cleared :- CreateSaveDirectory(fs, root, DirName);
      var subjects :- Listdir(cleared, data, listing);
      var fin :- Subjects(cleared, data, d, subjects, 1);
      RecreateThenGrow(fs, cleared, fin, d, OkFor(data));
      CutsFromInput(fs, cleared, fin, d);
      Success(fin)
  }

  /** With a listing that names each folder once, a successful run gives the folder
      at a bad position no output directory at all. */
  lemma BadPositionLeavesNoTrace(fs: Fs<Content>, data: Path, root: Path, listing: Path -> seq<string>, i: int)
    requires WellFormed(fs) && Exists(fs, data)
    requires forall a, b :: 0 <= a < b < |listing(data)| ==> listing(data)[a] != listing(data)[b]
    requires 0 <= i < |listing(data)| && i + 1 in BadPositions
    ensures ExtractEpochs(fs, data, root, listing).Success? ==>
              SaveDir(root) + [listing(data)[i]] !in ExtractEpochs(fs, data, root, listing).value
  {
    var q := SaveDir(root) + [listing(data)[i]];
    ProcessedByPosition(listing(data), i);
    assert q[|SaveDir(root)|] == listing(data)[i];
  }

  /** Running extract_epochs again on what a successful run left ends in the same
      state: the save directory is cleared first, which removes exactly what the
      first run wrote, and the second run then repeats the first from there. */
  lemma RunTwice(fs: Fs<Content>, data: Path, root: Path, listing: Path -> seq<string>)
    requires WellFormed(fs)
    ensures ExtractEpochs(fs, data, root, listing).Success? ==>
              ExtractEpochs(ExtractEpochs(fs, data, root, listing).value, data, root, listing) == ExtractEpochs(fs, data, root, listing)
  {
    if ExtractEpochs(fs, data, root, listing).Success? && Exists(fs, data) {
      var cleared := CreateSaveDirectory(fs, root, DirName).value;
      var fin := ExtractEpochs(fs, data, root, listing).value;
      var names := Listdir(cleared, data, listing).value;
      assert Subjects(cleared, data, SaveDir(root), names, 1) == Success(fin);
      RecreateAfterGrow(fs, cleared, fin, SaveDir(root), OkFor(data));
      assert Exists(fin, data);
    }
  }
}
