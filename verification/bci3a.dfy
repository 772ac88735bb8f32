/** The BCI Competition III 3a adapter (scripts/preprocessing/bci3a.py): one
    recording {xx}.gdf per subject directory, cut into left/right hand epochs
    over the whole 0 s to 7 s trial, merging repeated events. A subject without
    its recording is skipped and the loop goes on. */
module Bci3a {
  import opened Outcome
  import opened FileSys
  import opened PyStr
  import opened Mne

  /** The event_id passed to mne.Epochs. */
  const EventIds: EventId := map["left_hand" := 3, "right_hand" := 4]

  const EpochWindow: Window := Window(0, 7000)

  /** The directory __create_save_directory owns: f"{save_path_root}/BCI_III_3a". */
  const DirName := "BCI_III_3a"

  function SaveDir(root: Path): Path
  {
    DatasetDir(root, DirName)
  }

  /** f"{subject[1:3]}.gdf" */
  function InputName(subject: string): string
  {
    Slice(subject, 1, 3) + ".gdf"
  }

  /** f"{subject[1:3]}-epo.fif" */
  function OutputName(subject: string): string
  {
    Slice(subject, 1, 3) + "-epo.fif"
  }

  /** Both names carry subject[1:3] in front of a fixed suffix, so two folders
      share them exactly when they share that key; the two names never coincide. */
  lemma NamesKeyedBySubject(s: string, t: string)
    ensures InputName(s) == InputName(t) <==> Slice(s, 1, 3) == Slice(t, 1, 3)
    ensures OutputName(s) == OutputName(t) <==> Slice(s, 1, 3) == Slice(t, 1, 3)
    ensures InputName(s) != OutputName(t)
  {
    var a := Slice(s, 1, 3);
    if InputName(s) == InputName(t) {
      assert a == InputName(s)[..|InputName(s)| - 4];
    }
    if OutputName(s) == OutputName(t) {
      assert a == OutputName(s)[..|OutputName(s)| - 8];
    }
    assert InputName(s)[|InputName(s)| - 2] != OutputName(t)[|OutputName(t)| - 2];
  }

  /** The subject folders: the entries of the listing that are directories, in
      listing order. */
  function SubjectFolders(fs: Fs<Content>, data: Path, names: seq<string>): (r: seq<string>)
    ensures forall s :: s in r <==> s in names && IsDir(fs, data + [s])
    ensures |r| <= |names|
  {
    Filter(names, f => IsDir(fs, data + [f]))
  }


  /** __extract: left hand is event code 3, right hand 4, window (0.0 s, 7.0 s),
      repeated events merged; fails when a recording lacks either code. */
  function Extract(rec: Recording, source: Path): (r: Result<Epochs>)
    ensures r.Success? <==> HasCode(rec.events, 3) && HasCode(rec.events, 4)
    ensures r.Failure? ==> r == Failure(NoMatchingEvents)
    ensures r.Success? ==> && r.value.source == source
                           && r.value.eventId == map["left_hand" := 3, "right_hand" := 4]
                           && r.value.window == Window(0, 7000)
                           && r.value.window.tminMs < r.value.window.tmaxMs
                           && r.value.repeated == MergeRepeats
                           && r.value.events == rec.events
                           && r.value.picks == PickEeg(rec)
  {
    assert EventIds.Values == {3, 4} by {
      assert EventIds["left_hand"] == 3 && EventIds["right_hand"] == 4;
    }
    MakeEpochs(source, rec, EventIds, EpochWindow, MergeRepeats)
  }

  /** The epochs extract_epochs cuts from the recording at src: read, then
      __extract. */
  function CutFrom(fs: Fs<Content>, src: Path): (r: Result<Epochs>)
    ensures r.Success? ==> IsFile(fs, src) && fs[src].content.Raw? && r.value.source == src
  {
    var rec :- ReadRaw(fs, src, []);
    Extract(rec, src)
  }

  /** Adding entries changes no cut that succeeded. */
  lemma CutFromKept(a: Fs<Content>, b: Fs<Content>, src: Path)
    requires Extends(a, b) && CutFrom(a, src).Success?
    ensures CutFrom(b, src) == CutFrom(a, src)
  {
  }

  /** Every file new in b holds all the epochs that cutting its own source in b
      gives. */
  ghost predicate Recomputed(a: Fs<Content>, b: Fs<Content>)
  {
    forall q :: q in b && q !in a && b[q].File? ==>
      && b[q].content.Saved? && b[q].content.trials == AllTrials
      && CutFrom(b, b[q].content.epochs.source) == Success(b[q].content.epochs)
  }

  lemma RecomputedTransitive(a: Fs<Content>, b: Fs<Content>, c: Fs<Content>)
    requires Extends(a, b) && Extends(b, c) && Recomputed(a, b) && Recomputed(b, c)
    ensures Recomputed(a, c)
  {
    forall q | q in c && q !in a && c[q].File? && q in b
      ensures CutFrom(c, c[q].content.epochs.source) == Success(c[q].content.epochs)
    {
      CutFromKept(b, c, b[q].content.epochs.source);
    }
  }

  /** After clearing d and a loop that only adds entries, the files inside d hold
      what cutting their sources in the input tree gives: no source lies inside d,
      since everything there is new and saved epochs are not recordings. */
  lemma CutsFromInput(fs: Fs<Content>, cleared: Fs<Content>, fin: Fs<Content>, d: Path)
    requires WellFormed(fs) ==> EmptyDir(cleared, d)
    requires Extends(cleared, fin) && Recomputed(cleared, fin) && SameOutside(fs, fin, d)
    ensures WellFormed(fs) ==> forall q :: q in fin && d < q && fin[q].File? ==>
              && fin[q].content.Saved? && fin[q].content.trials == AllTrials
              && CutFrom(fs, fin[q].content.epochs.source) == Success(fin[q].content.epochs)
  {
    forall q | WellFormed(fs) && q in fin && d < q && fin[q].File?
      ensures fin[q].content.Saved? && fin[q].content.trials == AllTrials
      ensures CutFrom(fs, fin[q].content.epochs.source) == Success(fin[q].content.epochs)
    {
      assert q !in cleared;
      SourceOutside(fs, cleared, fin, d, fin[q].content.epochs.source);
    }
  }

  /** A recording the loop could read after clearing d lies outside d, where the
      input tree has the same file. */
  lemma SourceOutside(fs: Fs<Content>, cleared: Fs<Content>, fin: Fs<Content>, d: Path, src: Path)
    requires EmptyDir(cleared, d)
    requires Extends(cleared, fin) && Recomputed(cleared, fin) && SameOutside(fs, fin, d)
    requires CutFrom(fin, src).Success?
    ensures CutFrom(fs, src) == CutFrom(fin, src)
  {
    if !(d <= src) {
      FileOutsideKept(fs, fin, d, src);
    }
  }

  /** What the adapter may leave in its save directory: in subject folder s, the
      file OutputName(s), holding all epochs cut from data/s/InputName(s) with this
      dataset's event_id, window and merge policy. */
  predicate Written(data: Path, s: string, n: string, c: Content)
  {
    && n == OutputName(s)
    && c.Saved? && c.trials == AllTrials
    && c.epochs.source == data + [s, InputName(s)]
    && c.epochs.eventId == EventIds
    && c.epochs.window == EpochWindow
    && c.epochs.repeated == MergeRepeats
  }

  function OkFor(data: Path): (string, string, Content) -> bool
  {
    (s, n, c) => Written(data, s, n, c)
  }

  /** Every folder b adds strictly inside d holds its subject's output file. */
  ghost predicate FoldersFilled(a: Fs<Content>, b: Fs<Content>, d: Path)
  {
    forall q :: q in b && q !in a && d < q ==> IsFile(b, d + [q[|d|], OutputName(q[|d|])])
  }

  lemma FilledTransitive(a: Fs<Content>, b: Fs<Content>, c: Fs<Content>, d: Path)
    requires Extends(b, c) && FoldersFilled(a, b, d) && FoldersFilled(b, c, d)
    ensures FoldersFilled(a, c, d)
  {
    forall q | q in c && q !in a && d < q
      ensures IsFile(c, d + [q[|d|], OutputName(q[|d|])])
    {
      if q in b {
        assert IsFile(b, d + [q[|d|], OutputName(q[|d|])]);
      }
    }
  }

  /** Subject folder s and its recording exist under data. */
  predicate Recorded(fs: Fs<Content>, data: Path, s: string)
  {
    IsDir(fs, data + [s]) && IsFile(fs, data + [s, InputName(s)])
  }

  /** One pass of the subject loop. A missing recording skips the subject and
      changes nothing; otherwise read, cut, make the subject folder if absent, save. */
  function Subject(fs: Fs<Content>, data: Path, d: Path, s: string): (r: Result<Fs<Content>>)
    ensures !Exists(fs, data + [s, InputName(s)]) ==> r == Success(fs)
    ensures r.Success? ==> GrownUnder(fs, r.value, d, OkFor(data)) && OnlyFor(fs, r.value, d, s) && Recomputed(fs, r.value)
    ensures r.Success? ==> FoldersFilled(fs, r.value, d)
    ensures r.Success? && WellFormed(fs) ==> WellFormed(r.value)
    ensures r.Success? && Exists(fs, data + [s, InputName(s)]) ==> IsFile(r.value, d + [s, OutputName(s)])
  {
    var src := data + [s, InputName(s)];
    if !Exists(fs, src) then
      GrownUnderReflexive(fs, d, OkFor(data));
      Success(fs)
    else
      var rec :- ReadRaw(fs, src, []);
      var epochs :- Extract(rec, src);
      var made :- MakeDirs(fs, d + [s], true);
      MakeSubjectDir(fs, d, s, true, OkFor(data));
      var content := Saved(epochs, AllTrials);
      var saved :- Save(made, d + [s, OutputName(s)], content);
      assert OkFor(data)(s, OutputName(s), content);
      SaveSubjectFile(made, d, s, OutputName(s), content, OkFor(data));
      GrownUnderTransitive(fs, made, saved, d, OkFor(data));
      OnlyForTransitive(fs, made, saved, d, s);
      CutFromKept(fs, saved, src);
      Success(saved)
  }

  /** The subject loop, in listing order; an exception ends the run. */
  function Subjects(fs: Fs<Content>, data: Path, d: Path, subjects: seq<string>): (r: Result<Fs<Content>>)
    ensures r.Success? ==> GrownUnder(fs, r.value, d, OkFor(data)) && Recomputed(fs, r.value)
    ensures r.Success? ==> OnlyForListed(fs, r.value, d, subjects) && FoldersFilled(fs, r.value, d)
    ensures r.Success? && WellFormed(fs) ==> WellFormed(r.value)
    ensures r.Success? ==> forall s :: s in subjects && Exists(fs, data + [s, InputName(s)]) ==>
                                       IsFile(r.value, d + [s, OutputName(s)])
    decreases |subjects|
  {
    if |subjects| == 0 then
      GrownUnderReflexive(fs, d, OkFor(data));
      Success(fs)
    else
      var next :- Subject(fs, data, d, subjects[0]);
      var fin :- Subjects(next, data, d, subjects[1..]);
      GrownUnderTransitive(fs, next, fin, d, OkFor(data));
      RecomputedTransitive(fs, next, fin);
      OnlyForListedStep(fs, next, fin, d, subjects);
      FilledTransitive(fs, next, fin, d);
      assert forall s :: s in subjects ==> s == subjects[0] || s in subjects[1..];
      Success(fin)
  }

  /** extract_epochs(data_path, save_path_root). A missing data path leaves the
      filesystem untouched. On success, every listed subject directory whose
      recording exists (and that does not lie in the save directory itself) has its
      output file; every folder in the save directory is named by the listing and
      belongs to a subject whose folder and recording exist in the input tree; the
      save directory holds nothing but what this run wrote, and nothing outside it
      has changed. */
  function ExtractEpochs(fs: Fs<Content>, data: Path, root: Path, listing: Path -> seq<string>): (r: Result<Fs<Content>>)
    ensures !Exists(fs, data) ==> r == Success(fs)
    ensures r.Success? && Exists(fs, data) ==>
              forall s :: s in listing(data) && !(SaveDir(root) <= data + [s])
                          && IsDir(fs, data + [s]) && Exists(fs, data + [s, InputName(s)]) ==>
                            IsFile(r.value, SaveDir(root) + [s, OutputName(s)])
    ensures r.Success? && Exists(fs, data) && WellFormed(fs) ==>
              && WellFormed(r.value)
              && IsDir(r.value, SaveDir(root))
              && (forall q :: q in r.value && SaveDir(root) < q ==>
                    && q[|SaveDir(root)|] in listing(data)
                    && Recorded(fs, data, q[|SaveDir(root)|])
                    && Made(SaveDir(root), q, r.value[q], OkFor(data)))
              && (forall q :: q in r.value && SaveDir(root) < q && r.value[q].File? ==>
                    CutFrom(fs, r.value[q].content.epochs.source) == Success(r.value[q].content.epochs))
              && SameOutside(fs, r.value, SaveDir(root))
  {
    if !Exists(fs, data) then Success(fs)
    else
      var d := SaveDir(root);
      var cleared :- CreateSaveDirectory(fs, root, DirName);
      var names :- Listdir(cleared, data, listing);
      var subjects := SubjectFolders(cleared, data, names);
      var fin :- Subjects(cleared, data, d, subjects);
      RecreateThenGrow(fs, cleared, fin, d, OkFor(data));
      CutsFromInput(fs, cleared, fin, d);
      ListedAfterClearing(cleared, fin, d, subjects);
      FoldersRecorded(fs, cleared, fin, data, d);
      forall s | !(d <= data + [s])
        ensures IsDir(fs, data + [s]) ==> IsDir(cleared, data + [s])
        ensures Exists(fs, data + [s, InputName(s)]) ==> Exists(cleared, data + [s, InputName(s)])
      {
        InputsSurviveClearing(fs, cleared, data, root, s);
      }
      Success(fin)
  }

  /** After clearing d, every folder the loop filled there belongs to a subject
      whose folder and recording exist in the input tree: the output file in it was
      cut from that recording. */
  lemma FoldersRecorded(fs: Fs<Content>, cleared: Fs<Content>, fin: Fs<Content>, data: Path, d: Path)
    requires WellFormed(fs) ==> EmptyDir(cleared, d)
    requires FoldersFilled(cleared, fin, d)
    requires WellFormed(fs) ==> forall q :: q in fin && d < q ==> Made(d, q, fin[q], OkFor(data))
    requires WellFormed(fs) ==> forall q :: q in fin && d < q && fin[q].File? ==>
               fin[q].content.Saved? && CutFrom(fs, fin[q].content.epochs.source) == Success(fin[q].content.epochs)
    ensures WellFormed(fs) ==> forall q :: q in fin && d < q ==> Recorded(fs, data, q[|d|])
  {
    forall q | WellFormed(fs) && q in fin && d < q
      ensures Recorded(fs, data, q[|d|])
    {
      assert q !in cleared;
      var s := q[|d|];
      var p := d + [s, OutputName(s)];
      assert d < p && p[|d|] == s && p[|d| + 1] == OutputName(s);
      var src := data + [s, InputName(s)];
      assert Made(d, p, fin[p], OkFor(data));
      assert fin[p].content.epochs.source == src;
      assert IsFile(fs, src);
      assert src[..|src| - 1] == data + [s];
    }
  }

  /** Clearing the save directory leaves a subject folder outside it, and the
      recording inside that folder, where they were. */
  lemma InputsSurviveClearing(fs: Fs<Content>, cleared: Fs<Content>, data: Path, root: Path, s: string)
    requires CreateSaveDirectory(fs, root, DirName) == Success(cleared)
    requires !(SaveDir(root) <= data + [s])
    ensures IsDir(fs, data + [s]) ==> IsDir(cleared, data + [s])
    ensures Exists(fs, data + [s, InputName(s)]) ==> Exists(cleared, data + [s, InputName(s)])
  {
    assert InputName(s) != "BCI_III_3a" by {
      assert InputName(s)[|InputName(s)| - 1] == 'f';
    }
  }

  /** Running extract_epochs again on what a successful run left ends in the same
      state: the save directory is cleared first, which removes exactly what the
      first run wrote, and the second run then repeats the first from there. */
  lemma RunTwice(fs: Fs<Content>, data: Path, root: Path, listing: Path -> seq<string>)
    requires WellFormed(fs)
    ensures ExtractEpochs(fs, data, root, listing).Success? ==>
              ExtractEpochs(ExtractEpochs(fs, data, root, listing).value, data, root, listing) == ExtractEpochs(fs, data, root, listing)
  {
    if ExtractEpochs(fs, data, root, listing).Success? && Exists(fs, data) {
      var cleared := CreateSaveDirectory(fs, root, DirName).value;
      var fin := ExtractEpochs(fs, data, root, listing).value;
      var names := Listdir(cleared, data, listing).value;
      assert Subjects(cleared, data, SaveDir(root), SubjectFolders(cleared, data, names)) == Success(fin);
      RecreateAfterGrow(fs, cleared, fin, SaveDir(root), OkFor(data));
      assert Exists(fin, data);
    }
  }
}
