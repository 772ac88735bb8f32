/** The BCI Competition IV 2a adapter (scripts/preprocessing/bci2a.py): one
    training recording A{xx}T.gdf per subject folder, cut into left/right hand
    epochs from 1 s to 4 s after the cue. */
module Bci2a {
  import opened Outcome
  import opened FileSys
  import opened PyStr
  import opened Mne

  /** The event_id passed to mne.Epochs. */
  const EventIds: EventId := map["left_hand" := 7, "right_hand" := 8]

  const EpochWindow: Window := Window(1000, 4000)

  /** The directory __create_save_directory owns: f"{save_path_root}/BCI_IV_2a". */
  const DirName := "BCI_IV_2a"

  function SaveDir(root: Path): Path
  {
    DatasetDir(root, DirName)
  }

  /** f"A{subject[1:3]}T.gdf" */
  function InputName(subject: string): string
  {
    "A" + Slice(subject, 1, 3) + "T.gdf"
  }

  /** f"PA{subject[1:3]}T-epo.fif" */
  function OutputName(subject: string): string
  {
    "PA" + Slice(subject, 1, 3) + "T-epo.fif"
  }

  /** The two-character subject key sits between a fixed prefix and a fixed suffix
      of both names, so it can be read back: two folders share an input name, and
      an output name, exactly when they share subject[1:3]. */
  lemma NamesKeyedBySubject(s: string, t: string)
    ensures InputName(s) == InputName(t) <==> Slice(s, 1, 3) == Slice(t, 1, 3)
    ensures OutputName(s) == OutputName(t) <==> Slice(s, 1, 3) == Slice(t, 1, 3)
    ensures InputName(s) != OutputName(t)
  {
    var a, b := Slice(s, 1, 3), Slice(t, 1, 3);
    if InputName(s) == InputName(t) {
      assert a == InputName(s)[1..|InputName(s)| - 5];
    }
    if OutputName(s) == OutputName(t) {
      assert a == OutputName(s)[2..|OutputName(s)| - 9];
    }
    assert InputName(s)[0] != OutputName(t)[0];
  }

  /** __extract: left hand is event code 7, right hand 8, window (1.0 s, 4.0 s),
      default event_repeated="error"; fails when a recording lacks either code, or
      when two of its code-7/8 events share an onset sample. */
  function Extract(rec: Recording, source: Path): (r: Result<Epochs>)
    ensures r.Success? <==> HasCode(rec.events, 7) && HasCode(rec.events, 8) && !SharedOnset(KeptEvents(rec.events, EventIds))
    ensures !(HasCode(rec.events, 7) && HasCode(rec.events, 8)) ==> r == Failure(NoMatchingEvents)
    ensures HasCode(rec.events, 7) && HasCode(rec.events, 8) && r.Failure? ==> r == Failure(RepeatedEvents)
    ensures r.Success? ==> && r.value.source == source
                           && r.value.eventId == map["left_hand" := 7, "right_hand" := 8]
                           && r.value.window == Window(1000, 4000)
                           && r.value.window.tminMs < r.value.window.tmaxMs
                           && r.value.repeated == RaiseOnRepeat
                           && r.value.events == rec.events
                           && r.value.picks == PickEeg(rec)
  {
    assert EventIds.Values == {7, 8} by {
      assert EventIds["left_hand"] == 7 && EventIds["right_hand"] == 8;
    }
    MakeEpochs(source, rec, EventIds, EpochWindow, RaiseOnRepeat)
  }

  /** The epochs extract_epochs cuts from the recording at src: read with the EOG
      channels typed, then __extract. */
  function CutFrom(fs: Fs<Content>, src: Path): (r: Result<Epochs>)
    ensures r.Success? ==> IsFile(fs, src) && fs[src].content.Raw? && r.value.source == src
  {
    var rec :- ReadRaw(fs, src, BciIvEogChannels);
    Extract(rec, src)
  }

  /** Adding entries changes no cut that succeeded. */
  lemma CutFromKept(a: Fs<Content>, b: Fs<Content>, src: Path)
    requires Extends(a, b) && CutFrom(a, src).Success?
    ensures CutFrom(b, src) == CutFrom(a, src)
  {
  }

  /** Every file new in b holds all the epochs that cutting its own source in b
      gives. */
  ghost predicate Recomputed(a: Fs<Content>, b: Fs<Content>)
  {
    forall q :: q in b && q !in a && b[q].File? ==>
      && b[q].content.Saved? && b[q].content.trials == AllTrials
      && CutFrom(b, b[q].content.epochs.source) == Success(b[q].content.epochs)
  }

  lemma RecomputedTransitive(a: Fs<Content>, b: Fs<Content>, c: Fs<Content>)
    requires Extends(a, b) && Extends(b, c) && Recomputed(a, b) && Recomputed(b, c)
    ensures Recomputed(a, c)
  {
    forall q | q in c && q !in a && c[q].File? && q in b
      ensures CutFrom(c, c[q].content.epochs.source) == Success(c[q].content.epochs)
    {
      CutFromKept(b, c, b[q].content.epochs.source);
    }
  }

  /** After clearing d and a loop that only adds entries, the files inside d hold
      what cutting their sources in the input tree gives: no source lies inside d,
      since everything there is new and saved epochs are not recordings. */
  lemma CutsFromInput(fs: Fs<Content>, cleared: Fs<Content>, fin: Fs<Content>, d: Path)
    requires WellFormed(fs) ==> EmptyDir(cleared, d)
    requires Extends(cleared, fin) && Recomputed(cleared, fin) && SameOutside(fs, fin, d)
    ensures WellFormed(fs) ==> forall q :: q in fin && d < q && fin[q].File? ==>
              && fin[q].content.Saved? && fin[q].content.trials == AllTrials
              && CutFrom(fs, fin[q].content.epochs.source) == Success(fin[q].content.epochs)
  {
    forall q | WellFormed(fs) && q in fin && d < q && fin[q].File?
      ensures fin[q].content.Saved? && fin[q].content.trials == AllTrials
      ensures CutFrom(fs, fin[q].content.epochs.source) == Success(fin[q].content.epochs)
    {
      assert q !in cleared;
      SourceOutside(fs, cleared, fin, d, fin[q].content.epochs.source);
    }
  }

  /** A recording the loop could read after clearing d lies outside d, where the
      input tree has the same file. */
  lemma SourceOutside(fs: Fs<Content>, cleared: Fs<Content>, fin: Fs<Content>, d: Path, src: Path)
    requires EmptyDir(cleared, d)
    requires Extends(cleared, fin) && Recomputed(cleared, fin) && SameOutside(fs, fin, d)
    requires CutFrom(fin, src).Success?
    ensures CutFrom(fs, src) == CutFrom(fin, src)
  {
    if !(d <= src) {
      FileOutsideKept(fs, fin, d, src);
    }
  }

  /** What the adapter may leave in its save directory: in subject folder s, the
      file OutputName(s), holding all epochs cut from data/s/InputName(s) with this
      dataset's event_id and window. */
  predicate Written(data: Path, s: string, n: string, c: Content)
  {
    && n == OutputName(s)
    && c.Saved? && c.trials == AllTrials
    && c.epochs.source == data + [s, InputName(s)]
    && c.epochs.eventId == EventIds
    && c.epochs.window == EpochWindow
    && c.epochs.repeated == RaiseOnRepeat
  }

  function OkFor(data: Path): (string, string, Content) -> bool
  {
    (s, n, c) => Written(data, s, n, c)
  }

  /** One pass of the subject loop: read, cut, make the subject folder (which must
      not exist yet), save. */
  function Subject(fs: Fs<Content>, data: Path, d: Path, s: string): (r: Result<Fs<Content>>)
    ensures r.Success? ==> GrownUnder(fs, r.value, d, OkFor(data)) && OnlyFor(fs, r.value, d, s) && Recomputed(fs, r.value)
    ensures r.Success? && WellFormed(fs) ==> WellFormed(r.value)
    ensures r.Success? ==> IsFile(r.value, d + [s, OutputName(s)])
    ensures !Exists(fs, data + [s, InputName(s)]) ==> r == Failure(FileNotFound(data + [s, InputName(s)]))
  {
    var src := data + [s, InputName(s)];
    var rec :- ReadRaw(fs, src, BciIvEogChannels);
    var epochs :- Extract(rec, src);
    var made :- MakeDirs(fs, d + [s], false);
    MakeSubjectDir(fs, d, s, false, OkFor(data));
    var content := Saved(epochs, AllTrials);
    var saved :- Save(made, d + [s, OutputName(s)], content);
    assert OkFor(data)(s, OutputName(s), content);
    SaveSubjectFile(made, d, s, OutputName(s), content, OkFor(data));
    GrownUnderTransitive(fs, made, saved, d, OkFor(data));
    OnlyForTransitive(fs, made, saved, d, s);
    CutFromKept(fs, saved, src);
    Success(saved)
  }

  /** The subject loop, in listing order; the first exception ends the run. */
  function Subjects(fs: Fs<Content>, data: Path, d: Path, subjects: seq<string>): (r: Result<Fs<Content>>)
    ensures r.Success? ==> GrownUnder(fs, r.value, d, OkFor(data)) && Recomputed(fs, r.value)
    ensures r.Success? ==> OnlyForListed(fs, r.value, d, subjects)
    ensures r.Success? && WellFormed(fs) ==> WellFormed(r.value)
    ensures r.Success? ==> forall s :: s in subjects ==> IsFile(r.value, d + [s, OutputName(s)])
    decreases |subjects|
  {
    if |subjects| == 0 then
      GrownUnderReflexive(fs, d, OkFor(data));
      Success(fs)
    else
      var next :- Subject(fs, data, d, subjects[0]);
      var fin :- Subjects(next, data, d, subjects[1..]);
      GrownUnderTransitive(fs, next, fin, d, OkFor(data));
      RecomputedTransitive(fs, next, fin);
      OnlyForListedStep(fs, next, fin, d, subjects);
      assert forall s :: s in subjects ==> s == subjects[0] || s in subjects[1..];
      Success(fin)
  }

  /** extract_epochs(data_path, save_path_root). A missing data path leaves the
      filesystem untouched. Otherwise the save directory is recreated, and on
      success every listed subject has its output file, every folder in the save
      directory is named by the listing, the save directory holds nothing but what
      this run wrote, and nothing outside it has changed. */
  function ExtractEpochs(fs: Fs<Content>, data: Path, root: Path, listing: Path -> seq<string>): (r: Result<Fs<Content>>)
    ensures !Exists(fs, data) ==> r == Success(fs)
    ensures r.Success? && Exists(fs, data) ==>
              forall s :: s in listing(data) ==> IsFile(r.value, SaveDir(root) + [s, OutputName(s)])
    ensures r.Success? && Exists(fs, data) && WellFormed(fs) ==>
              && WellFormed(r.value)
              && IsDir(r.value, SaveDir(root))
              && (forall q :: q in r.value && SaveDir(root) < q ==>
                    && q[|SaveDir(root)|] in listing(data)
                    && Made(SaveDir(root), q, r.value[q], OkFor(data)))
              && (forall q :: q in r.value && SaveDir(root) < q && r.value[q].File? ==>
                    CutFrom(fs, r.value[q].content.epochs.source) == Success(r.value[q].content.epochs))
              && SameOutside(fs, r.value, SaveDir(root))
  {
    if !Exists(fs, data) then Success(fs)
    else
      var d := SaveDir(root);
      var cleared :- CreateSaveDirectory(fs, root, DirName);
      var subjects :- Listdir(cleared, data, listing);
      var fin :- Subjects(cleared, data, d, subjects);
      RecreateThenGrow(fs, cleared, fin, d, OkFor(data));
      CutsFromInput(fs, cleared, fin, d);
      ListedAfterClearing(cleared, fin, d, subjects);
      Success(fin)
  }

  /** Running extract_epochs again on what a successful run left ends in the same
      state: the save directory is cleared first, which removes exactly what the
      first run wrote, and the second run then repeats the first from there. */
  lemma RunTwice(fs: Fs<Content>, data: Path, root: Path, listing: Path -> seq<string>)
    requires WellFormed(fs)
    ensures ExtractEpochs(fs, data, root, listing).Success? ==>
              ExtractEpochs(ExtractEpochs(fs, data, root, listing).value, data, root, listing) == ExtractEpochs(fs, data, root, listing)
  {
    if ExtractEpochs(fs, data, root, listing).Success? && Exists(fs, data) {
      var cleared := CreateSaveDirectory(fs, root, DirName).value;
      var fin := ExtractEpochs(fs, data, root, listing).value;
      var names := Listdir(cleared, data, listing).value;
      assert Subjects(cleared, data, SaveDir(root), names) == Success(fin);
      RecreateAfterGrow(fs, cleared, fin, SaveDir(root), OkFor(data));
      assert Exists(fin, data);
    }
  }
}
