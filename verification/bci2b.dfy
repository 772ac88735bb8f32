/** The BCI Competition IV 2b adapter (scripts/preprocessing/bci2b.py): up to two
    training sessions *T.gdf per subject folder, each cut into left/right hand
    epochs. The event codes are chosen per recording from the table MNE reports
    for it, because they are not the same in every file. */
module Bci2b {
  import opened Outcome
  import opened FileSys
  import opened PyStr
  import opened Mne

  /** The event_id used when the recording reports 769 -> 10 and 770 -> 11. */
  const ShiftedIds: EventId := map["left_hand" := 10, "right_hand" := 11]

  /** The event_id used for every other report. */
  const FallbackIds: EventId := map["left_hand" := 4, "right_hand" := 5]

  /** The label-map choice of __extract. Python's `and` stops at the first false
      operand, so the lookup of "770" happens, and can raise KeyError, only when
      "769" is present and reported as 10. */
  function SelectEventId(reported: map<string, int>): (r: Result<EventId>)
    ensures r.Failure? <==> "769" !in reported || (reported["769"] == 10 && "770" !in reported)
    ensures r.Failure? ==> r.error == KeyError(if "769" !in reported then "769" else "770")
    ensures r.Success? ==> (r.value == map["left_hand" := 10, "right_hand" := 11] <==>
                             reported["769"] == 10 && reported["770"] == 11)
    ensures r.Success? ==> (r.value == map["left_hand" := 4, "right_hand" := 5] <==>
                             !(reported["769"] == 10 && reported["770"] == 11))
  {
    assert ShiftedIds != FallbackIds by {
      assert ShiftedIds["left_hand"] != FallbackIds["left_hand"];
    }
    if "769" !in reported then Failure(KeyError("769"))
    else if reported["769"] != 10 then Success(FallbackIds)
    else if "770" !in reported then Failure(KeyError("770"))
    else if reported["770"] == 11 then Success(ShiftedIds)
    else Success(FallbackIds)
  }

  /** The two tables the code is written for: {769: 10, 770: 11} selects the shifted
      codes and {769: 4, 770: 5} the fallback. Any other report of 769 also falls back,
      and a table without 769 raises KeyError. */
  lemma SelectEventIdExamples()
    ensures SelectEventId(map["769" := 10, "770" := 11]) == Success(map["left_hand" := 10, "right_hand" := 11])
    ensures SelectEventId(map["769" := 4, "770" := 5]) == Success(map["left_hand" := 4, "right_hand" := 5])
    ensures SelectEventId(map["769" := 10, "770" := 12]) == Success(map["left_hand" := 4, "right_hand" := 5])
    ensures SelectEventId(map["769" := 3]) == Success(map["left_hand" := 4, "right_hand" := 5])
    ensures SelectEventId(map["770" := 11]) == Failure(KeyError("769"))
  {
  }

  /** The directory __create_save_directory owns: f"{save_path_root}/BCI_IV_2b". */
  const DirName := "BCI_IV_2b"

  function SaveDir(root: Path): Path
  {
    DatasetDir(root, DirName)
  }

  predicate IsTrainFile(name: string)
  {
    EndsWith(name, "T.gdf")
  }

  /** [f for f in names if f.endswith("T.gdf")] */
  function TrainCandidates(names: seq<string>): (r: seq<string>)
    ensures forall f :: f in r <==> f in names && IsTrainFile(f)
  {
    Filter(names, IsTrainFile)
  }

  /** train_data_files[:2]: the first two training files in listing order. */
  function TrainFiles(names: seq<string>): (r: seq<string>)
    ensures |r| <= 2
    ensures |r| == if |TrainCandidates(names)| < 2 then |TrainCandidates(names)| else 2
    ensures r == TrainCandidates(names)[..|r|]
    ensures forall f :: f in r ==> f in names && IsTrainFile(f)
  {
    Slice(TrainCandidates(names), 0, 2)
  }

  /** f"PB{subject[1:3]}0{idx}T-epo.fif" for the idx-th file, counting from 1. */
  function OutputName(subject: string, idx: nat): string
  {
    "PB" + Slice(subject, 1, 3) + "0" + Decimal(idx) + "T-epo.fif"
  }

  /** The files of one subject get distinct names: idx is printed in decimal, and
      different numbers print differently. */
  lemma OutputNamesDistinct(s: string, a: nat, b: nat)
    requires a != b
    ensures OutputName(s, a) != OutputName(s, b)
  {
    var pre := "PB" + Slice(s, 1, 3) + "0";
    if OutputName(s, a) == OutputName(s, b) {
      assert |Decimal(a)| == |Decimal(b)|;
      ConcatSplit(pre + Decimal(a), "T-epo.fif", pre + Decimal(b), "T-epo.fif");
      ConcatSplit(pre, Decimal(a), pre, Decimal(b));
      DecimalInjective(a, b);
    }
  }

  /** For the one-digit indices the loop uses, two output names coincide exactly
      when subject[1:3] and the index do. */
  lemma OutputNamesKeyed(s: string, t: string, a: nat, b: nat)
    requires a < 10 && b < 10
    ensures OutputName(s, a) == OutputName(t, b) <==> Slice(s, 1, 3) == Slice(t, 1, 3) && a == b
  {
    if OutputName(s, a) == OutputName(t, b) {
      var x, y := "PB" + Slice(s, 1, 3) + "0", "PB" + Slice(t, 1, 3) + "0";
      assert |x| == |y|;
      ConcatSplit(x + Decimal(a), "T-epo.fif", y + Decimal(b), "T-epo.fif");
      ConcatSplit(x, Decimal(a), y, Decimal(b));
      ConcatSplit("PB" + Slice(s, 1, 3), "0", "PB" + Slice(t, 1, 3), "0");
      ConcatSplit("PB", Slice(s, 1, 3), "PB", Slice(t, 1, 3));
      DecimalInjective(a, b);
    }
  }

  /** __extract: the event_id chosen from the recording's reported table, MNE's
      default window (-0.2 s, 0.5 s) because none is passed, default
      event_repeated="error". It raises KeyError when the table cannot be chosen, and
      otherwise fails as mne.Epochs does: a chosen code that never occurs, or two
      selected events at one onset sample. */
  function Extract(rec: Recording, source: Path): (r: Result<Epochs>)
    ensures r.Success? <==> && SelectEventId(rec.eventIds).Success?
                            && (forall v :: v in SelectEventId(rec.eventIds).value.Values ==> HasCode(rec.events, v))
                            && !SharedOnset(KeptEvents(rec.events, SelectEventId(rec.eventIds).value))
    ensures SelectEventId(rec.eventIds).Failure? ==> r == Failure(SelectEventId(rec.eventIds).error)
    ensures SelectEventId(rec.eventIds).Success? ==>
              var ids := SelectEventId(rec.eventIds).value;
              && ((exists v :: v in ids.Values && !HasCode(rec.events, v)) ==> r == Failure(NoMatchingEvents))
              && ((forall v :: v in ids.Values ==> HasCode(rec.events, v)) && r.Failure? ==> r == Failure(RepeatedEvents))
              && (r.Success? ==> r.value.eventId == ids)
    ensures r.Success? ==> && r.value.source == source
                           && (r.value.eventId == map["left_hand" := 10, "right_hand" := 11] <==>
                                 rec.eventIds["769"] == 10 && rec.eventIds["770"] == 11)
                           && (r.value.eventId == map["left_hand" := 10, "right_hand" := 11] ||
                               r.value.eventId == map["left_hand" := 4, "right_hand" := 5])
                           && r.value.window == Window(-200, 500)
                           && r.value.repeated == RaiseOnRepeat
                           && r.value.events == rec.events
                           && r.value.picks == PickEeg(rec)
                           && forall v :: v in r.value.eventId.Values ==> HasCode(rec.events, v)
  {
    var ids :- SelectEventId(rec.eventIds);
    MakeEpochs(source, rec, ids, DefaultWindow, RaiseOnRepeat)
  }

  /** The epochs extract_epochs cuts from the recording at src: read with the EOG
      channels typed, then __extract. */
  function CutFrom(fs: Fs<Content>, src: Path): (r: Result<Epochs>)
    ensures r.Success? ==> IsFile(fs, src) && fs[src].content.Raw? && r.value.source == src
  {
    var rec :- ReadRaw(fs, src, BciIvEogChannels);
    Extract(rec, src)
  }

  /** Adding entries changes no cut that succeeded. */
  lemma CutFromKept(a: Fs<Content>, b: Fs<Content>, src: Path)
    requires Extends(a, b) && CutFrom(a, src).Success?
    ensures CutFrom(b, src) == CutFrom(a, src)
  {
  }

  /** Every file new in b holds all the epochs that cutting its own source in b
      gives. */
  ghost predicate Recomputed(a: Fs<Content>, b: Fs<Content>)
  {
    forall q :: q in b && q !in a && b[q].File? ==>
      && b[q].content.Saved? && b[q].content.trials == AllTrials
      && CutFrom(b, b[q].content.epochs.source) == Success(b[q].content.epochs)
  }

  lemma RecomputedTransitive(a: Fs<Content>, b: Fs<Content>, c: Fs<Content>)
    requires Extends(a, b) && Extends(b, c) && Recomputed(a, b) && Recomputed(b, c)
    ensures Recomputed(a, c)
  {
    forall q | q in c && q !in a && c[q].File? && q in b
      ensures CutFrom(c, c[q].content.epochs.source) == Success(c[q].content.epochs)
    {
      CutFromKept(b, c, b[q].content.epochs.source);
    }
  }

  /** After clearing d and a loop that only adds entries, the files inside d hold
      what cutting their sources in the input tree gives: no source lies inside d,
      since everything there is new and saved epochs are not recordings. */
  lemma CutsFromInput(fs: Fs<Content>, cleared: Fs<Content>, fin: Fs<Content>, d: Path)
    requires WellFormed(fs) ==> EmptyDir(cleared, d)
    requires Extends(cleared, fin) && Recomputed(cleared, fin) && SameOutside(fs, fin, d)
    ensures WellFormed(fs) ==> forall q :: q in fin && d < q && fin[q].File? ==>
              && fin[q].content.Saved? && fin[q].content.trials == AllTrials
              && CutFrom(fs, fin[q].content.epochs.source) == Success(fin[q].content.epochs)
  {
    forall q | WellFormed(fs) && q in fin && d < q && fin[q].File?
      ensures fin[q].content.Saved? && fin[q].content.trials == AllTrials
      ensures CutFrom(fs, fin[q].content.epochs.source) == Success(fin[q].content.epochs)
    {
      assert q !in cleared;
      SourceOutside(fs, cleared, fin, d, fin[q].content.epochs.source);
    }
  }

  /** A recording the loop could read after clearing d lies outside d, where the
      input tree has the same file. */
  lemma SourceOutside(fs: Fs<Content>, cleared: Fs<Content>, fin: Fs<Content>, d: Path, src: Path)
    requires EmptyDir(cleared, d)
    requires Extends(cleared, fin) && Recomputed(cleared, fin) && SameOutside(fs, fin, d)
    requires CutFrom(fin, src).Success?
    ensures CutFrom(fs, src) == CutFrom(fin, src)
  {
    if !(d <= src) {
      FileOutsideKept(fs, fin, d, src);
    }
  }

  /** What the adapter may leave in its save directory: in subject folder s, the
      file for index k (1 or 2), holding all epochs cut from the k-th selected
      training file of data/s, with one of the two event_id tables and the default
      window. */
  predicate Written(data: Path, listing: Path -> seq<string>, s: string, n: string, c: Content)
  {
    var train := TrainFiles(listing(data + [s]));
    && c.Saved? && c.trials == AllTrials
    && (|| (n == OutputName(s, 1) && 1 <= |train| && c.epochs.source == data + [s, train[0]])
        || (n == OutputName(s, 2) && 2 <= |train| && c.epochs.source == data + [s, train[1]]))
    && (c.epochs.eventId == ShiftedIds || c.epochs.eventId == FallbackIds)
    && c.epochs.window == DefaultWindow
    && c.epochs.repeated == RaiseOnRepeat
  }

  function OkFor(data: Path, listing: Path -> seq<string>): (string, string, Content) -> bool
  {
    (s, n, c) => Written(data, listing, s, n, c)
  }

  /** The save folder of subject s holds, under the name for index idx, epochs cut
      from src. */
  predicate SavedAs(fs: Fs<Content>, d: Path, s: string, idx: nat, src: Path)
  {
    && IsFile(fs, d + [s, OutputName(s, idx)])
    && fs[d + [s, OutputName(s, idx)]].content.Saved?
    && fs[d + [s, OutputName(s, idx)]].content.epochs.source == src
  }

  /** Saves the epochs of the idx-th selected training file under its numbered
      name. */
  function SaveFile(fs: Fs<Content>, data: Path, d: Path, s: string, idx: nat, epochs: Epochs,
                    listing: Path -> seq<string>): (r: Result<Fs<Content>>)
    requires 1 <= idx <= |TrainFiles(listing(data + [s]))|
    requires epochs.source == data + [s, TrainFiles(listing(data + [s]))[idx - 1]]
    requires epochs.eventId == ShiftedIds || epochs.eventId == FallbackIds
    requires epochs.window == DefaultWindow && epochs.repeated == RaiseOnRepeat
    ensures r.Success? ==> GrownUnder(fs, r.value, d, OkFor(data, listing)) && OnlyFor(fs, r.value, d, s)
    ensures r.Success? && WellFormed(fs) ==> WellFormed(r.value)
    ensures r.Success? ==> SavedAs(r.value, d, s, idx, epochs.source)
    ensures r.Success? ==> forall q :: q in r.value && q !in fs && r.value[q].File? ==> r.value[q].content == Saved(epochs, AllTrials)
  {
    var content := Saved(epochs, AllTrials);
    var saved :- Save(fs, d + [s, OutputName(s, idx)], content);
    WrittenAt(data, listing, s, idx, epochs);
    SaveSubjectFile(fs, d, s, OutputName(s, idx), content, OkFor(data, listing));
    Success(saved)
  }

  /** The epochs of the idx-th selected training file may be saved under the name
      for index idx. */
  lemma WrittenAt(data: Path, listing: Path -> seq<string>, s: string, idx: nat, epochs: Epochs)
    requires 1 <= idx <= |TrainFiles(listing(data + [s]))|
    requires epochs.source == data + [s, TrainFiles(listing(data + [s]))[idx - 1]]
    requires epochs.eventId == ShiftedIds || epochs.eventId == FallbackIds
    requires epochs.window == DefaultWindow && epochs.repeated == RaiseOnRepeat
    ensures OkFor(data, listing)(s, OutputName(s, idx), Saved(epochs, AllTrials))
  {
    assert Written(data, listing, s, OutputName(s, idx), Saved(epochs, AllTrials));
  }

  /** Reads and cuts the idx-th selected training file of subject s and saves its
      epochs under the name for index idx. */
  function TrainFile(fs: Fs<Content>, data: Path, d: Path, s: string, idx: nat, listing: Path -> seq<string>): (r: Result<Fs<Content>>)
    requires 1 <= idx <= |TrainFiles(listing(data + [s]))|
    ensures r.Success? ==> GrownUnder(fs, r.value, d, OkFor(data, listing)) && OnlyFor(fs, r.value, d, s) && Recomputed(fs, r.value)
    ensures r.Success? && WellFormed(fs) ==> WellFormed(r.value)
    ensures r.Success? ==> SavedAs(r.value, d, s, idx, data + [s, TrainFiles(listing(data + [s]))[idx - 1]])
  {
    var src := data + [s, TrainFiles(listing(data + [s]))[idx - 1]];
    var rec :- ReadRaw(fs, src, BciIvEogChannels);
    var epochs :- Extract(rec, src);
    var saved :- SaveFile(fs, data, d, s, idx, epochs, listing);
    CutFromKept(fs, saved, src);
    Success(saved)
  }

  /** The inner loop over the selected training files of subject s from the
      idx-th on; the k-th of them is saved under the name for index idx + k. */
  function Files(fs: Fs<Content>, data: Path, d: Path, s: string, files: seq<string>, idx: nat,
                 listing: Path -> seq<string>): (r: Result<Fs<Content>>)
    requires 1 <= idx <= |TrainFiles(listing(data + [s]))| + 1
    requires files == TrainFiles(listing(data + [s]))[idx - 1..]
    ensures r.Success? ==> GrownUnder(fs, r.value, d, OkFor(data, listing)) && OnlyFor(fs, r.value, d, s) && Recomputed(fs, r.value)
    ensures r.Success? && WellFormed(fs) ==> WellFormed(r.value)
    ensures r.Success? ==> forall k :: 0 <= k < |files| ==> SavedAs(r.value, d, s, idx + k, data + [s, files[k]])
    decreases |files|, 1
  {
    if |files| == 0 then
      GrownUnderReflexive(fs, d, OkFor(data, listing));
      Success(fs)
    else
      var saved :- TrainFile(fs, data, d, s, idx, listing);
      assert files[1..] == TrainFiles(listing(data + [s]))[idx..];
      var fin :- Files(saved, data, d, s, files[1..], idx + 1, listing);
      FilesStep(fs, saved, fin, data, d, s, files, idx, listing);
      Success(fin)
  }

  /** One pass of the file loop followed by the rest of it. */
  lemma FilesStep(fs: Fs<Content>, saved: Fs<Content>, fin: Fs<Content>, data: Path, d: Path, s: string,
                  files: seq<string>, idx: nat, listing: Path -> seq<string>)
    requires 1 <= idx <= |TrainFiles(listing(data + [s]))| && files == TrainFiles(listing(data + [s]))[idx - 1..]
    requires TrainFile(fs, data, d, s, idx, listing) == Success(saved)
    requires files[1..] == TrainFiles(listing(data + [s]))[idx..]
    requires Files(saved, data, d, s, files[1..], idx + 1, listing) == Success(fin)
    ensures GrownUnder(fs, fin, d, OkFor(data, listing)) && OnlyFor(fs, fin, d, s) && Recomputed(fs, fin)
    ensures WellFormed(fs) ==> WellFormed(fin)
    ensures forall k :: 0 <= k < |files| ==> SavedAs(fin, d, s, idx + k, data + [s, files[k]])
    decreases |files|, 0
  {
    GrownUnderTransitive(fs, saved, fin, d, OkFor(data, listing));
    OnlyForTransitive(fs, saved, fin, d, s);
    RecomputedTransitive(fs, saved, fin);
    NumberedStep(saved, fin, data, d, s, files, idx);
  }

  /** The output written for the first file survives the passes for the rest. */
  lemma NumberedStep(saved: Fs<Content>, fin: Fs<Content>, data: Path, d: Path, s: string, files: seq<string>, idx: nat)
    requires |files| > 0 && Extends(saved, fin)
    requires SavedAs(saved, d, s, idx, data + [s, files[0]])
    requires forall k :: 0 <= k < |files[1..]| ==> SavedAs(fin, d, s, idx + 1 + k, data + [s, files[1..][k]])
    ensures forall k :: 0 <= k < |files| ==> SavedAs(fin, d, s, idx + k, data + [s, files[k]])
  {
    forall k | 0 <= k < |files|
      ensures SavedAs(fin, d, s, idx + k, data + [s, files[k]])
    {
      if k == 0 {
        assert saved[d + [s, OutputName(s, idx)]] == fin[d + [s, OutputName(s, idx)]];
      } else {
        assert files[1..][k - 1] == files[k];
      }
    }
  }

  /** One pass of the subject loop: make the subject's save folder if absent, list
      the subject folder, process its first two training files. */
  function Subject(fs: Fs<Content>, data: Path, d: Path, s: string, listing: Path -> seq<string>): (r: Result<Fs<Content>>)
    ensures r.Success? ==> GrownUnder(fs, r.value, d, OkFor(data, listing)) && OnlyFor(fs, r.value, d, s) && Recomputed(fs, r.value)
    ensures r.Success? && WellFormed(fs) ==> WellFormed(r.value)
    ensures r.Success? ==> IsDir(r.value, d + [s])
    ensures r.Success? ==> forall k :: 0 <= k < |TrainFiles(listing(data + [s]))| ==>
                                       SavedAs(r.value, d, s, k + 1, data + [s, TrainFiles(listing(data + [s]))[k]])
  {
    var made :- MakeDirs(fs, d + [s], true);
    MakeSubjectDir(fs, d, s, true, OkFor(data, listing));
    var names :- Listdir(made, data + [s], listing);
    assert TrainFiles(names) == TrainFiles(listing(data + [s]))[0..];
    var fin :- Files(made, data, d, s, TrainFiles(names), 1, listing);
    GrownUnderTransitive(fs, made, fin, d, OkFor(data, listing));
    OnlyForTransitive(fs, made, fin, d, s);
    RecomputedTransitive(fs, made, fin);
    Success(fin)
  }

  /** The subject loop, in listing order; an exception ends the run. */
  function Subjects(fs: Fs<Content>, data: Path, d: Path, subjects: seq<string>, listing: Path -> seq<string>): (r: Result<Fs<Content>>)
    ensures r.Success? ==> GrownUnder(fs, r.value, d, OkFor(data, listing)) && Recomputed(fs, r.value)
    ensures r.Success? ==> OnlyForListed(fs, r.value, d, subjects)
    ensures r.Success? && WellFormed(fs) ==> WellFormed(r.value)
    ensures r.Success? ==> forall s, k :: s in subjects && 0 <= k < |TrainFiles(listing(data + [s]))| ==>
                                          SavedAs(r.value, d, s, k + 1, data + [s, TrainFiles(listing(data + [s]))[k]])
    ensures r.Success? ==> forall s :: s in subjects ==> IsDir(r.value, d + [s])
    decreases |subjects|
  {
    if |subjects| == 0 then
      GrownUnderReflexive(fs, d, OkFor(data, listing));
      Success(fs)
    else
      var next :- Subject(fs, data, d, subjects[0], listing);
      var fin :- Subjects(next, data, d, subjects[1..], listing);
      SubjectStep(fs, next, fin, data, d, subjects, listing);
      RecomputedTransitive(fs, next, fin);
      OnlyForListedStep(fs, next, fin, d, subjects);
      Success(fin)
  }

  /** What one subject pass established survives the passes after it. */
  lemma SubjectStep(fs: Fs<Content>, next: Fs<Content>, fin: Fs<Content>, data: Path, d: Path,
                    subjects: seq<string>, listing: Path -> seq<string>)
    requires |subjects| > 0
    requires GrownUnder(fs, next, d, OkFor(data, listing)) && GrownUnder(next, fin, d, OkFor(data, listing))
    requires IsDir(next, d + [subjects[0]])
    requires forall k :: 0 <= k < |TrainFiles(listing(data + [subjects[0]]))| ==>
                           SavedAs(next, d, subjects[0], k + 1, data + [subjects[0], TrainFiles(listing(data + [subjects[0]]))[k]])
    requires forall s, k :: s in subjects[1..] && 0 <= k < |TrainFiles(listing(data + [s]))| ==>
                              SavedAs(fin, d, s, k + 1, data + [s, TrainFiles(listing(data + [s]))[k]])
    requires forall s :: s in subjects[1..] ==> IsDir(fin, d + [s])
    ensures GrownUnder(fs, fin, d, OkFor(data, listing))
    ensures forall s, k :: s in subjects && 0 <= k < |TrainFiles(listing(data + [s]))| ==>
                             SavedAs(fin, d, s, k + 1, data + [s, TrainFiles(listing(data + [s]))[k]])
    ensures forall s :: s in subjects ==> IsDir(fin, d + [s])
  {
    GrownUnderTransitive(fs, next, fin, d, OkFor(data, listing));
    forall s, k | s in subjects && 0 <= k < |TrainFiles(listing(data + [s]))|
      ensures SavedAs(fin, d, s, k + 1, data + [s, TrainFiles(listing(data + [s]))[k]])
    {
      if s !in subjects[1..] {
        assert s == subjects[0] by {
          assert subjects == [subjects[0]] + subjects[1..];
        }
        assert SavedAs(next, d, s, k + 1, data + [s, TrainFiles(listing(data + [s]))[k]]);
        assert next[d + [s, OutputName(s, k + 1)]] == fin[d + [s, OutputName(s, k + 1)]];
      }
    }
    forall s | s in subjects
      ensures IsDir(fin, d + [s])
    {
      assert subjects == [subjects[0]] + subjects[1..];
    }
  }

  /** extract_epochs(data_path, save_path_root). A missing data path returns
      before the output root is touched. On success, every listed subject has a
      save folder holding, for k = 1, 2, the epochs of its k-th selected training
      file under the name for index k; every folder in the save directory is named
      by the listing; the save directory holds nothing but what this run wrote, and
      nothing outside it has changed. */
  function ExtractEpochs(fs: Fs<Content>, data: Path, root: Path, listing: Path -> seq<string>): (r: Result<Fs<Content>>)
    ensures !Exists(fs, data) ==> r == Success(fs)
    ensures r.Success? && Exists(fs, data) ==>
              forall s, k :: s in listing(data) && 0 <= k < |TrainFiles(listing(data + [s]))| ==>
                SavedAs(r.value, SaveDir(root), s, k + 1, data + [s, TrainFiles(listing(data + [s]))[k]])
    ensures r.Success? && Exists(fs, data) && WellFormed(fs) ==>
              && WellFormed(r.value)
              && IsDir(r.value, SaveDir(root))
              && (forall q :: q in r.value && SaveDir(root) < q ==>
                    && q[|SaveDir(root)|] in listing(data)
                    && Made(SaveDir(root), q, r.value[q], OkFor(data, listing)))
              && (forall q :: q in r.value && SaveDir(root) < q && r.value[q].File? ==>
                    CutFrom(fs, r.value[q].content.epochs.source) == Success(r.value[q].content.epochs))
              && SameOutside(fs, r.value, SaveDir(root))
  {
    if !Exists(fs, data) then Success(fs)
    else
      var d := SaveDir(root);
      var cleared :- CreateSaveDirectory(fs, root, DirName);
      var subjects :- Listdir(cleared, data, listing);
      var fin :- Subjects(cleared, data, d, subjects, listing);
      RecreateThenGrow(fs, cleared, fin, d, OkFor(data, listing));
      CutsFromInput(fs, cleared, fin, d);
      ListedAfterClearing(cleared, fin, d, subjects);
      Success(fin)
  }

  /** Running extract_epochs again on what a successful run left ends in the same
      state: the save directory is cleared first, which removes exactly what the
      first run wrote, and the second run then repeats the first from there. */
  lemma RunTwice(fs: Fs<Content>, data: Path, root: Path, listing: Path -> seq<string>)
    requires WellFormed(fs)
    ensures ExtractEpochs(fs, data, root, listing).Success? ==>
              ExtractEpochs(ExtractEpochs(fs, data, root, listing).value, data, root, listing) == ExtractEpochs(fs, data, root, listing)
  {
    if ExtractEpochs(fs, data, root, listing).Success? && Exists(fs, data) {
      var cleared := CreateSaveDirectory(fs, root, DirName).value;
      var fin := ExtractEpochs(fs, data, root, listing).value;
      var names := Listdir(cleared, data, listing).value;
      assert Subjects(cleared, data, SaveDir(root), names, listing) == Success(fin);
      RecreateAfterGrow(fs, cleared, fin, SaveDir(root), OkFor(data, listing));
      assert Exists(fin, data);
    }
  }
}
