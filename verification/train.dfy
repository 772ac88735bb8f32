/** The data-loading half of train.py: which preprocessed files the training run
    picks up, in which order, and how load_subject_data turns their event codes
    into the two class labels. The signal arrays X, the folds and the models are
    not modelled. */
module Train {
  import opened Outcome
  import opened FileSys
  import opened PyStr
  import opened Mne
  import Physionet
  import Bci2a
  import Bci2b
  import Bci3a

  /** y = [0 if label == 2 else 1 for label in y] */
  function Binarise(y: seq<int>): (r: seq<int>)
    ensures |r| == |y|
    ensures forall i :: 0 <= i < |r| ==> r[i] == 0 || r[i] == 1
    ensures forall i :: 0 <= i < |r| ==> (r[i] == 0 <==> y[i] == 2)
  {
    seq(|y|, i requires 0 <= i < |y| => if y[i] == 2 then 0 else 1)
  }

  /** The remap is element-wise: binarising the labels of each file and
      concatenating them is binarising their concatenation. */
  lemma BinariseAppend(a: seq<int>, b: seq<int>)
    ensures Binarise(a + b) == Binarise(a) + Binarise(b)
  {
    var l, r := Binarise(a + b), Binarise(a) + Binarise(b);
    assert |l| == |r|;
    forall i | 0 <= i < |l|
      ensures l[i] == r[i]
    {
      if i < |a| {
        assert (a + b)[i] == a[i];
      } else {
        assert (a + b)[i] == b[i - |a|];
      }
    }
  }

  /** With the Physionet codes (rest 1, left hand 2, right hand 3), class 0 is
      left hand and class 1 is everything else. */
  lemma PhysionetLeftHandIsClassZero(y: seq<int>)
    requires forall i :: 0 <= i < |y| ==> y[i] in Physionet.EventIds.Values
    ensures forall i :: 0 <= i < |y| ==> (Binarise(y)[i] == 0 <==> y[i] == Physionet.EventIds["left_hand"])
  {
  }

  /** f"PA{subj_folder[1:]}-3s-epo.fif", the file train.py looks for. */
  function TrainingName(folder: string): string
  {
    "PA" + From(folder, 1) + "-3s-epo.fif"
  }

  /** os.path.join(PREPROCESSED_DATA_DIR, subj_folder, <name>) */
  function TrainingFile(dir: Path, folder: string): (p: Path)
    ensures |p| == |dir| + 2 && p[..|dir|] == dir && p[|dir|] == folder
  {
    dir + [folder, TrainingName(folder)]
  }

  /** None of the four adapters writes a file under the name train.py looks for:
      their names end in R04-epo.fif, T-epo.fif or -epo.fif after a key of at most
      two characters, or start with PB. */
  lemma NoAdapterWritesTrainingFiles(f: string, s: string, run: Physionet.Run, k: nat)
    ensures TrainingName(f) != Physionet.OutputName(s, run)
    ensures TrainingName(f) != Bci2a.OutputName(s)
    ensures TrainingName(f) != Bci2b.OutputName(s, k)
    ensures TrainingName(f) != Bci3a.OutputName(s)
  {
    var n := TrainingName(f);
    assert n[|n| - 9] == 's';
    var p := Physionet.OutputName(s, run);
    if |p| == |n| {
      assert p[|p| - 9] == Physionet.RunCode(run)[1];
    }
    var a := Bci2a.OutputName(s);
    if |a| == |n| {
      assert a[|a| - 9] == 'T';
    }
    assert n[1] == 'A' && Bci2b.OutputName(s, k)[1] == 'B';
    assert |Bci3a.OutputName(s)| <= 10 < 13 <= |n|;
  }

  /** The folders under dir whose training file exists, visited in sorted order:
      `sorted(os.listdir(dir))` followed by the `os.path.exists` test. */
  function LoadedFolders(fs: Fs<Content>, dir: Path, listing: Path -> seq<string>): (r: Result<seq<string>>)
    ensures r.Success? <==> IsDir(fs, dir)
    ensures r.Success? ==> SortedStrings(r.value)
    ensures r.Success? ==> forall f :: f in r.value <==> f in listing(dir) && Exists(fs, TrainingFile(dir, f))
    ensures r.Success? ==> forall f :: multiset(r.value)[f] == if Exists(fs, TrainingFile(dir, f)) then multiset(listing(dir))[f] else 0
  {
    var names :- Listdir(fs, dir, listing);
    Success(WithTrainingFile(fs, dir, names))
  }

  /** The loop body's test, over the sorted names. */
  function WithTrainingFile(fs: Fs<Content>, dir: Path, names: seq<string>): (r: seq<string>)
    ensures SortedStrings(r)
    ensures forall f :: f in r <==> f in names && Exists(fs, TrainingFile(dir, f))
    ensures forall f :: multiset(r)[f] == if Exists(fs, TrainingFile(dir, f)) then multiset(names)[f] else 0
  {
    var present := set f | f in names && Exists(fs, TrainingFile(dir, f));
    var keep := f => f in present;
    var r := Filter(Sort(names), keep);
    SortKeepsMembers(names);
    FilterSorted(Sort(names), keep);
    forall f
      ensures multiset(r)[f] == if Exists(fs, TrainingFile(dir, f)) then multiset(names)[f] else 0
    {
      FilterCount(Sort(names), keep, f);
      assert f !in names ==> multiset(names)[f] == 0;
    }
    r
  }

  /** The visiting order is fixed by the names alone: any sorted list holding each
      name with a training file as often as the listing does is the list visited. */
  lemma {:induction false} VisitOrderDetermined(fs: Fs<Content>, dir: Path, names: seq<string>, order: seq<string>)
    requires SortedStrings(order)
    requires forall f :: multiset(order)[f] == if Exists(fs, TrainingFile(dir, f)) then multiset(names)[f] else 0
    ensures order == WithTrainingFile(fs, dir, names)
  {
    var r := WithTrainingFile(fs, dir, names);
    assert forall f :: multiset(order)[f] == multiset(r)[f];
    assert multiset(order) == multiset(r);
    SortedUnique(order, r);
  }

  /** epochs.events[:, -1] of every file, concatenated, before the remap. */
  ghost function RawLabels(fs: Fs<Content>, files: seq<Path>): seq<int>
    requires forall p :: p in files ==> IsFile(fs, p) && fs[p].content.Saved?
    decreases |files|
  {
    if |files| == 0 then []
    else
      var first := files[0];
      assert first in files;
      assert IsFile(fs, first);
      SavedLabels(fs[first].content) + RawLabels(fs, files[1..])
  }

  /** load_subject_data(file_path), labels only: mne.read_epochs, then the remap. */
  function LoadSubjectData(fs: Fs<Content>, p: Path): (r: Result<seq<int>>)
    ensures r.Success? <==> IsFile(fs, p) && fs[p].content.Saved?
    ensures r.Failure? && !Exists(fs, p) ==> r.error == FileNotFound(p)
    ensures r.Success? ==> |r.value| == |SavedLabels(fs[p].content)|
    ensures r.Success? ==> forall i :: 0 <= i < |r.value| ==>
                             (r.value[i] == 0 <==> SavedLabels(fs[p].content)[i] == 2)
  {
    if p !in fs then Failure(FileNotFound(p))
    else if fs[p].Dir? || !fs[p].content.Saved? then Failure(UnreadableEpochs(p))
    else Success(Binarise(SavedLabels(fs[p].content)))
  }

  /** The loop filling all_y: each file loaded in turn, the labels appended. */
  function Gather(fs: Fs<Content>, files: seq<Path>): (r: Result<seq<int>>)
    ensures r.Success? <==> forall p :: p in files ==> IsFile(fs, p) && fs[p].content.Saved?
    ensures r.Success? ==> r.value == Binarise(RawLabels(fs, files))
    decreases |files|
  {
    if |files| == 0 then Success([])
    else
      var y :- LoadSubjectData(fs, files[0]);
      var rest :- Gather(fs, files[1..]);
      assert forall p :: p in files ==> p == files[0] || p in files[1..];
      BinariseAppend(SavedLabels(fs[files[0]].content), RawLabels(fs, files[1..]));
      Success(y + rest)
  }

  /** all_y of train.py main: the labels of every training file found, in sorted
      folder order, remapped to {0, 1}; np.concatenate of an empty list raises. */
  function AllLabels(fs: Fs<Content>, dir: Path, listing: Path -> seq<string>): (r: Result<seq<int>>)
    ensures !IsDir(fs, dir) ==> r.Failure?
    ensures IsDir(fs, dir) && (forall f :: f in listing(dir) ==> !Exists(fs, TrainingFile(dir, f))) ==>
              r == Failure(EmptyConcatenation)
    ensures r.Success? ==> forall i :: 0 <= i < |r.value| ==> r.value[i] == 0 || r.value[i] == 1
  {
    var folders :- LoadedFolders(fs, dir, listing);
    var files := seq(|folders|, i requires 0 <= i < |folders| => TrainingFile(dir, folders[i]));
    var y :- Gather(fs, files);
    if |files| == 0 then Failure(EmptyConcatenation)
    else Success(y)
  }
}
