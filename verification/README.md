# EEG epoch extraction, modelled in Dafny

This project models the epoch-extraction layer of `eeg_transformer`. Four dataset
adapters turn raw motor-imagery recordings into labelled MNE epoch files:

- BCI Competition IV 2a (`scripts/preprocessing/bci2a.py`)
- BCI Competition IV 2b (`scripts/preprocessing/bci2b.py`)
- BCI Competition III 3a (`scripts/preprocessing/bci3a.py`)
- PhysioNet motor imagery (`scripts/preprocessing/physionet.py`)

The project also models the older stand-alone script `preprocess_BCI_IV_2a.py`, and the part of `train.py` that picks up the preprocessed files and binarises their labels.

What the adapters decide is modelled exactly:

- which directory entries are subjects, and in what order they are visited;
- how input and output file names are formed from a subject folder name (with Python slice semantics);
- which event table, time window, channel picks and repeated-event policy each adapter passes to MNE;
- how the output directory is removed and recreated;
- which errors stop a run.

MNE itself is an abstract reference, not a reimplementation:

- a raw file holds a `Recording`, with its channels, bad channels, events and the annotation-to-code table MNE reports for it;
- an `Epochs` value records the arguments it was built from.

## Layout

| file | module | contents |
|---|---|---|
| `outcome.dfy` | `Outcome` | `Result` and the Python exceptions the code can raise |
| `pystr.dfy` | `PyStr` | slicing, `startswith`/`endswith`, `str(int)`, list-comprehension filters, `str` ordering and `sorted` |
| `filesys.dfy` | `FileSys` | an abstract filesystem (`map<Path, Node>`) with `listdir`, `makedirs`, `rmtree` + `makedirs`, save-without-overwrite, the adapters' shared `__create_save_directory`, and the layout and frame predicates the adapters preserve |
| `mne.dfy` | `Mne` | recordings, `eog=`, `info["bads"]`, `pick_types`, `mne.Epochs` with `on_missing="raise"`, and the labels read back from a saved file |
| `bci2a.dfy`, `bci2b.dfy`, `bci3a.dfy`, `physionet.dfy` | one module per adapter | the adapter's constants, names, `__extract` and `extract_epochs` |
| `legacy2a.dfy` | `Legacy2a` | `preprocess_BCI_IV_2a.py`, both as written and corrected (see Findings) |
| `train.dfy` | `Train` | label binarisation, and the sorted discovery of training files |

### Modelling decisions

Paths and the filesystem:

- A path is a sequence of components, and `os.path.join` appends to it.
- The filesystem maps each path to a directory or to a file.
- What `os.listdir` returns is a parameter, `listing: Path -> seq<string>`, both the names and their order (Python does not fix the order). The model does not tie those names to the entries of the filesystem. Whether a path exists, and whether it is a directory or a file, comes from the filesystem.

Calls into MNE:

- `Epochs.save` keeps MNE's default `overwrite=False`. Saving to an existing path fails with `FileExists`.
- `mne.Epochs` keeps its default `on_missing="raise"`. If a code in `event_id` occurs in no event, it fails with `NoMatchingEvents`. This test runs first.
- `bci2b.py` passes no `tmin`/`tmax`, so it gets MNE's default window of -0.2 s to 0.5 s. Windows are kept in milliseconds.
- The adapters other than BCI III 3a pass no `event_repeated`, so they get MNE's default `"error"` (`RaiseOnRepeat`). Then two selected events at the same onset sample make `mne.Epochs` raise a RuntimeError, modelled as `RepeatedEvents`. BCI III 3a passes `"merge"`, which never raises.

Points where the model follows the code closely:

- Repeated events are not resolved by keeping the first occurrence. The code leaves `event_repeated` at MNE's default `"error"`, so a repeat stops the run.
- No per-dataset normalizer runs in this code.
- PhysioNet writes three files per subject, one for each of runs 4, 8 and 12.
- The BCI IV 2b event-table condition is evaluated with Python's short-circuit `and`. A report without `"769"` raises `KeyError("769")`. `"770"` is looked up, and can raise `KeyError("770")`, only when `"769"` is reported as 10. Otherwise the fallback table is chosen without consulting `"770"`.

`train.py` loads `PA{f[1:]}-3s-epo.fif`. `Train.NoAdapterWritesTrainingFiles` proves that none of the four adapters writes a file with such a name. So the training script consumes files produced elsewhere; nothing in this model produces them.

## Model

| member | source | states |
|---|---|---|
| PyStr.Slice | scripts/preprocessing/bci2a.py:34 | `s[i:j]` never fails: its length is the span between the clamped bounds, and element k is the element at the clamped start plus k |
| PyStr.Decimal | scripts/preprocessing/bci2b.py:47 | `str(idx)` is a non-empty string of decimal digits, with no leading zero unless idx is 0, and is one character long exactly when idx < 10 |
| PyStr.DecimalRoundTrip | scripts/preprocessing/bci2b.py:47 | reading the digits of `str(n)` back gives n |
| PyStr.DecimalInjective | scripts/preprocessing/bci2b.py:47 | two numbers print the same exactly when they are equal |
| PyStr.Filter | scripts/preprocessing/bci2b.py:38 | a list comprehension with a condition keeps exactly the members that satisfy it |
| PyStr.FilterAppend | scripts/preprocessing/bci2b.py:38 | the comprehension keeps listing order: filtering a concatenation concatenates the filtered parts |
| PyStr.LessEqTotal | train.py:37 | any two strings are comparable under Python's `str` ordering |
| PyStr.LessEqTransitive | train.py:37 | the `str` ordering is transitive |
| PyStr.LessEqAntisymmetric | train.py:37 | two strings each at most the other are equal |
| PyStr.Insert | train.py:37 | inserting into a sorted list keeps it sorted and adds exactly the one element |
| PyStr.Sort | train.py:37 | `sorted()` returns a sorted permutation of its input |
| PyStr.SortKeepsMembers | train.py:37 | `sorted()` neither adds nor loses an entry |
| PyStr.FilterSorted | train.py:37-44 | keeping only the folders with a training file leaves the sorted order intact |
| PyStr.SortedUnique | train.py:37 | two sorted lists that are permutations of each other are equal |
| PyStr.FilterCount | train.py:41-44 | the filter keeps every copy of an entry it accepts and no copy of one it rejects |
| FileSys.Listdir | scripts/preprocessing/bci2a.py:30 | `os.listdir` succeeds exactly on a directory and then returns the listing given for it; otherwise it raises FileNotFound for a missing path and NotADirectory for a file |
| FileSys.MakeDirs | scripts/preprocessing/bci2b.py:36 | `os.makedirs` succeeds exactly when no file lies on the way, the target is not a file, and the target is absent or `exist_ok` is set; it only adds directories on the way to the target and keeps the tree well formed |
| FileSys.Save | scripts/preprocessing/bci2a.py:43 | saving without overwrite succeeds exactly when the target is absent and its parent is a directory, and then adds just that file |
| FileSys.Recreate | scripts/preprocessing/bci2a.py:75-79 | `rmtree` (if present) then `makedirs` leaves an empty directory, changes nothing outside it, and fails exactly when a file is in the way |
| FileSys.RecreateIdempotent | scripts/preprocessing/bci2a.py:75-79 | clearing the save directory a second time gives the same tree |
| FileSys.RecreateThenGrow | scripts/preprocessing/bci2a.py:29-44 | after clearing and the subject loop, every entry the loop added lies strictly inside the save directory and is a subject folder or a file the loop may write, and nothing outside it has changed |
| FileSys.RecreateAfterGrow | scripts/preprocessing/bci2a.py:75-79 | clearing the save directory again after the subject loop gives back exactly the tree the first clearing left |
| FileSys.DatasetDir | scripts/preprocessing/bci2a.py:73 | each adapter's save directory (`BCI_IV_2a`, `BCI_IV_2b`, `BCI_III_3a`, `Physionet`) is its name directly under the output root |
| FileSys.CreateSaveDirectory | scripts/preprocessing/bci2a.py:71-81 | `__create_save_directory`, the same in all four adapters, fails exactly where a file is in the way; afterwards the directory is empty, nothing outside it has changed, and clearing it again changes nothing |
| Mne.MarkEog | scripts/preprocessing/bci2a.py:37 | `eog=` types exactly the named channels as EOG and changes nothing else |
| Mne.AppendBads | preprocess_BCI_IV_2a.py:77 | the new bad-channel list is the old list, unchanged, followed by the three EOG channels |
| Mne.PicksFrom | scripts/preprocessing/bci2a.py:54 | `pick_types(eeg=True, exclude="bads")` returns exactly the indices of EEG channels not marked bad, in increasing order |
| Mne.EogByTypeOrByBads | preprocess_BCI_IV_2a.py:77-80 | typing the EOG channels when reading, or appending them to the bads, picks the same channels, and none of the picked channels is one of the named EOG channels |
| Mne.ReadRaw | scripts/preprocessing/bci2a.py:37 | reading succeeds exactly on a raw recording file, and a missing file raises FileNotFound |
| Mne.MakeEpochs | scripts/preprocessing/bci2a.py:57-66 | `mne.Epochs` succeeds exactly when every code of `event_id` occurs among the events and, under `event_repeated="error"`, no two kept events share an onset sample; a missing code raises NoMatchingEvents and otherwise a repeat raises RepeatedEvents; on success it records the arguments and picks |
| Mne.KeptEvents | scripts/preprocessing/bci2a.py:57-66 | the epochs keep exactly the events whose code is a value of `event_id` |
| Mne.SavedLabels | train.py:24 | `epochs.events[:, -1]` of a saved file lists the codes of all kept events in order, or of the first one only when just the first epoch was saved |
| Bci2a.NamesKeyedBySubject | scripts/preprocessing/bci2a.py:34-42 | two subjects share an input (or output) name exactly when their `subject[1:3]` agree, and an output name is never an input name |
| Bci2a.Extract | scripts/preprocessing/bci2a.py:47-68 | cutting succeeds exactly when codes 7 and 8 both occur and no two code-7/8 events share an onset sample, and each failure names its cause; the table is left 7 / right 8, the window is 1 s to 4 s, and the picks are the EEG channels |
| Bci2a.Subject | scripts/preprocessing/bci2a.py:34-43 | a subject pass writes its output file, adds entries only in that subject's own save folder, each of them the folder itself or a file holding that subject's epochs cut as the adapter cuts them, and raises FileNotFound for a missing recording |
| Bci2a.Subjects | scripts/preprocessing/bci2a.py:32-44 | after the loop, every listed subject has its output file, everything added to the save directory lies in the folder of a listed subject, and every file added is of this adapter's form and holds what cutting its source recording gives |
| Bci2a.ExtractEpochs | scripts/preprocessing/bci2a.py:23-44 | a missing data path changes nothing; on success every listed subject has its file; everything inside the save directory lies in the folder of a name the listing of the data path returned, and is that folder or a file `PA..T-epo.fif` holding all epochs cut from that subject's `A..T.gdf` with this adapter's table, window and policy; nothing outside it has changed |
| Bci2a.RunTwice | scripts/preprocessing/bci2a.py:23-44 | running the adapter again on what a successful run left gives the same filesystem: the first run's outputs are cleared and written again |
| Bci2b.SelectEventId | scripts/preprocessing/bci2b.py:58-63 | the table is {left_hand: 10, right_hand: 11} exactly when 769 and 770 are reported as 10 and 11, and {4, 5} otherwise; KeyError is raised exactly when `"769"` is missing, or is 10 while `"770"` is missing |
| Bci2b.SelectEventIdExamples | scripts/preprocessing/bci2b.py:58-63 | the shifted report selects 10/11; the report 4/5 and near misses select the fallback; a report without 769 raises |
| Bci2b.TrainCandidates | scripts/preprocessing/bci2b.py:38 | exactly the names ending in `T.gdf` are training files |
| Bci2b.TrainFiles | scripts/preprocessing/bci2b.py:41 | `[:2]` keeps the first two training files in listing order, or all of them if there are fewer |
| Bci2b.OutputNamesDistinct | scripts/preprocessing/bci2b.py:41-47 | the two files of one subject never share a name |
| Bci2b.OutputNamesKeyed | scripts/preprocessing/bci2b.py:47 | for one-digit indices, two output names coincide exactly when `subject[1:3]` and the index do |
| Bci2b.WrittenAt | scripts/preprocessing/bci2b.py:41-48 | the epochs of the idx-th selected training file, cut with one of the two tables and the default window, may be saved under the name for index idx |
| Bci2b.Extract | scripts/preprocessing/bci2b.py:52-77 | cutting succeeds exactly when a table can be chosen from the recording's own report, both its codes occur, and no two of their events share an onset sample; the failure is the KeyError of the choice, else NoMatchingEvents, else RepeatedEvents; the epochs use the chosen table, MNE's default window and the default repeated-event policy |
| Bci2b.TrainFile | scripts/preprocessing/bci2b.py:43-48 | one pass of the file loop reads and cuts the idx-th selected training file and saves it as output idx, inside the subject's folder only, holding what cutting that file gives |
| Bci2b.Files | scripts/preprocessing/bci2b.py:41-48 | the file loop saves the k-th selected training file, from index idx on, under the name for index idx + k, only inside the subject's folder, each file holding what cutting its source recording gives |
| Bci2b.FilesStep | scripts/preprocessing/bci2b.py:41-48 | one file pass followed by the rest of the file loop leaves output idx + k holding the k-th remaining training file, for every k |
| Bci2b.Subject | scripts/preprocessing/bci2b.py:33-48 | a subject pass creates its folder if needed and saves the first and second selected training files of its listing as outputs 1 and 2, adding entries only in its own folder, each file holding what cutting its source recording gives |
| Bci2b.Subjects | scripts/preprocessing/bci2b.py:32-48 | after the loop, every listed subject has a folder whose output k holds the epochs of its k-th selected training file, everything added lies in the folder of a listed subject, and every file added holds what cutting its source recording gives |
| Bci2b.ExtractEpochs | scripts/preprocessing/bci2b.py:23-48 | a missing data path changes nothing; on success output k of every listed subject holds the epochs of its k-th selected training file; everything inside the save directory lies in the folder of a name the listing returned, and is that folder or output k for k = 1, 2 holding all epochs cut from the subject's k-th selected `T.gdf` file with one of the two tables and MNE's default window; nothing outside it has changed |
| Bci2b.RunTwice | scripts/preprocessing/bci2b.py:23-48 | running the adapter again on what a successful run left gives the same filesystem |
| Bci3a.NamesKeyedBySubject | scripts/preprocessing/bci3a.py:28-40 | two subjects share an input (or output) name exactly when their `subject[1:3]` agree, and an output name is never an input name |
| Bci3a.SubjectFolders | scripts/preprocessing/bci3a.py:25 | exactly the directory entries of the data path are subjects |
| Bci3a.Extract | scripts/preprocessing/bci3a.py:45-73 | cutting succeeds exactly when codes 3 and 4 occur, and otherwise raises NoMatchingEvents; window 0 s to 7 s; repeated events are merged, so they never stop the run |
| Bci3a.Subject | scripts/preprocessing/bci3a.py:28-41 | a subject without its recording is skipped and nothing changes; otherwise its output file is written, and entries are added only in its own save folder, each of them the folder or a file of this adapter's form holding what cutting its source recording gives |
| Bci3a.Subjects | scripts/preprocessing/bci3a.py:27-42 | after the loop, every subject whose recording exists has its output file, everything added lies in the folder of a listed subject and that folder holds its output file, and every file added holds what cutting its source recording gives |
| Bci3a.FoldersRecorded | scripts/preprocessing/bci3a.py:28-41 | after clearing, every folder the loop filled in the save directory belongs to a subject whose data folder and `{xx}.gdf` recording exist in the input tree |
| Bci3a.ExtractEpochs | scripts/preprocessing/bci3a.py:19-42 | a missing data path changes nothing; on success every subject folder with a recording has its file; everything inside the save directory lies in the folder of a name the listing returned whose data folder and recording exist in the input tree, and is that folder or a file holding all epochs cut from that recording with this adapter's table, window and policy; nothing outside it has changed |
| Bci3a.RunTwice | scripts/preprocessing/bci3a.py:19-42 | running the adapter again on what a successful run left gives the same filesystem |
| Physionet.NamesKeyedBySubjectAndRun | scripts/preprocessing/physionet.py:30-48 | two input (or output) names coincide exactly when `subject[1:4]` and the run coincide, and no output name is an input name |
| Physionet.Processed | scripts/preprocessing/physionet.py:23-28 | the loop processes every folder whose 1-based listing position is not 88, 92, 100 or 104, and nothing else |
| Physionet.ProcessedByPosition | scripts/preprocessing/physionet.py:25-28 | in a listing without repeats, a folder is processed exactly when its position is not one of the bad positions |
| Physionet.Extract | scripts/preprocessing/physionet.py:56-77 | cutting succeeds exactly when codes 1, 2 and 3 all occur and no two of their events share an onset sample, and each failure names its cause; the table is rest 1 / left 2 / right 3, and the window is 1 s to 4 s |
| Physionet.EventIdsDistinct | scripts/preprocessing/physionet.py:60 | the three classes have three distinct codes |
| Physionet.SaveRun | scripts/preprocessing/physionet.py:46-52 | one run's epochs are saved under that run's name, in the subject's folder, and the file added holds exactly those epochs |
| Physionet.Subject | scripts/preprocessing/physionet.py:30-52 | a subject pass writes all three run files, only in its own folder, each holding what cutting its run's recording gives; a missing run-4 file raises FileNotFound |
| Physionet.Visit | scripts/preprocessing/physionet.py:25-52 | a folder at a bad position leaves the filesystem as it was; any other gets its three run files, only in its own folder |
| Physionet.Subjects | scripts/preprocessing/physionet.py:25-53 | after the loop, every folder at a non-bad position has its three files, every folder written belongs to a processed position, and every file added holds what cutting its source recording gives |
| Physionet.ExtractEpochs | scripts/preprocessing/physionet.py:15-53 | a missing data path changes nothing; on success every folder at a non-bad position has its three files, everything inside the save directory belongs to a processed folder and is its folder or a run file holding all epochs cut from that run's recording with this adapter's table and window, and nothing outside it has changed |
| Physionet.RunTwice | scripts/preprocessing/physionet.py:15-53 | running the adapter again on what a successful run left gives the same filesystem |
| Physionet.BadPositionLeavesNoTrace | scripts/preprocessing/physionet.py:23-28 | in a listing without repeats, a successful run gives the folder at a bad position no save folder |
| Legacy2a.SubjectFolders | preprocess_BCI_IV_2a.py:27 | exactly the entries whose name starts with `S` are subjects |
| Legacy2a.TrainAndTestNeverCollide | preprocess_BCI_IV_2a.py:33-34 | the training and evaluation inputs never coincide, nor do the two outputs |
| Legacy2a.OutputsKeyedBySubject | preprocess_BCI_IV_2a.py:58-63 | two folders write to the same output exactly when their `subject[1:3]` agree |
| Legacy2a.OutputsAreNotInputs | preprocess_BCI_IV_2a.py:33-63 | no output name is an input name |
| Legacy2a.PreprocessAsWritten | preprocess_BCI_IV_2a.py:69-86 | the bads become the old list followed by the three EOG channels; the table is exactly {769: 1, 770: 2}, the window 1 s to 4 s, and the picks exclude the EOG channels; cutting succeeds exactly when codes 1 and 2 occur and no two of their events share an onset sample, failing with NoMatchingEvents or RepeatedEvents |
| Legacy2a.Load | preprocess_BCI_IV_2a.py:37-50 | an existing file is read; a missing one leaves the local variable holding what it held before |
| Legacy2a.ProcessAsWritten | preprocess_BCI_IV_2a.py:53-65 | a never-assigned local fails the iteration; otherwise both recordings get the EOG bads appended again, and both first-epoch files are written from them |
| Legacy2a.SaveFirstEpochs | preprocess_BCI_IV_2a.py:57-65 | the two saves write exactly the subject's two names, each holding the first epoch only |
| Legacy2a.SubjectAsWritten | preprocess_BCI_IV_2a.py:32-65 | when the training file is missing, the recording from the previous iteration is used again and its bads grow once more |
| Legacy2a.LoopAsWritten | preprocess_BCI_IV_2a.py:32-65 | the loop only adds files directly inside the save directory |
| Legacy2a.ReadDatasetAsWritten | preprocess_BCI_IV_2a.py:26-65 | the script fails unless the data path is a directory, and it only adds files directly inside the save directory |
| Legacy2a.FirstSubjectMissingFileRaises | preprocess_BCI_IV_2a.py:37-53 | a first subject without its training file stops the run |
| Legacy2a.ProcessSucceeds | preprocess_BCI_IV_2a.py:53-65 | an iteration whose two recordings `mne.Epochs` accepts (codes 1 and 2 present, no shared onset), and whose outputs do not exist yet, gets through preprocessing and both saves, and the recordings it carries on keep their events |
| Legacy2a.StaleRecordingReused | preprocess_BCI_IV_2a.py:37-54 | with a readable folder s followed by a folder t with another key and no recordings, the run succeeds, and t's training output holds epochs cut from s's training recording, whose bads now list the EOG channels twice |
| Legacy2a.OnlyFirstEpochSaved | preprocess_BCI_IV_2a.py:59-64 | with two or more kept trials, the file saved as written reads back one label, not the labels of the epochs |
| Legacy2a.FixedCodesMissTheCues | preprocess_BCI_IV_2a.py:72-75 | when the recording reports codes other than 1 and 2 for cues 769 and 770, no kept event is a cue |
| Legacy2a.CueEvents | preprocess_BCI_IV_2a.py:72-75 | every cue of the reported left and right codes is kept, renumbered 1 or 2, and nothing else is kept |
| Legacy2a.Preprocess | preprocess_BCI_IV_2a.py:69-86 | the corrected step keeps only renumbered cue events, every left-hand cue, and every right-hand cue whose code differs from the left-hand one (table {769: 1, 770: 2}, 1 s to 4 s, EEG picks without the EOG channels); for a recording reporting both cues it succeeds exactly when the renumbered cues pass `mne.Epochs`, and it yields nothing for one that does not report both |
| Legacy2a.CuesSelected | preprocess_BCI_IV_2a.py:72-75 | every event kept by the corrected step is a cue of the code reported for its class |
| Legacy2a.Session | preprocess_BCI_IV_2a.py:33-64 | the corrected session step skips a missing file instead of reusing another subject's recording, and writes only a file naming its own subject and session |
| Legacy2a.SessionSavesEveryLabel | preprocess_BCI_IV_2a.py:59-64 | the file the corrected session writes reads back the label of every kept trial, in order |
| Legacy2a.Subject | preprocess_BCI_IV_2a.py:32-65 | a subject whose training session reports both cues gets its training file, and only files of its own are added |
| Legacy2a.Subjects | preprocess_BCI_IV_2a.py:32-65 | every file the corrected loop adds holds the epochs of the folder and session it is named after, and every subject whose training session reports both cues gets its training file |
| Legacy2a.ReadDataset | preprocess_BCI_IV_2a.py:26-65 | the corrected script adds only files named after the subject and session their epochs come from, and writes the training file of every subject that reports both cues |
| Train.Binarise | train.py:26 | the remapped labels are all 0 or 1, the list keeps its length and order, and a label is 0 exactly when it was 2 |
| Train.BinariseAppend | train.py:26 | binarising per file and concatenating equals binarising the concatenation |
| Train.PhysionetLeftHandIsClassZero | train.py:26 | with the PhysioNet codes, class 0 is left hand and class 1 is rest or right hand |
| Train.TrainingFile | train.py:43 | the file looked for lies in the folder's own directory under the data directory |
| Train.NoAdapterWritesTrainingFiles | train.py:43 | no name written by the four adapters is `PA{f[1:]}-3s-epo.fif` |
| Train.LoadedFolders | train.py:37-44 | the folders loaded are the listed ones whose training file exists, each as often as it is listed, in sorted order; listing fails unless the directory exists |
| Train.WithTrainingFile | train.py:41-44 | the `os.path.exists` test over the sorted names keeps each name with a training file as often as it is listed, drops the rest, and leaves the result sorted |
| Train.VisitOrderDetermined | train.py:37-44 | those two facts fix the folder order: any sorted list with the same names, counted with multiplicity, is the list visited |
| Train.LoadSubjectData | train.py:14-27 | loading succeeds exactly on a saved epochs file, and label i is 0 exactly when the saved code i is 2 |
| Train.Gather | train.py:41-47 | the collected labels are the binarised concatenation of every file's codes, and loading fails exactly when some file is not a saved epochs file |
| Train.AllLabels | train.py:37-50 | all labels are 0 or 1; with no training file, `np.concatenate` of an empty list raises |

## Left out

- Signal samples, sampling rates, `get_data`, and how MNE slices windows: a Recording carries channels, bad channels, events and the reported code table only. Floating point is out of scope.
- `events_from_annotations`: the events and the code table are part of the Recording rather than computed from annotations.
- Mne.KeptEvents: does not drop epochs whose window leaves the recording, and does not merge same-sample events under `event_repeated="merge"` (BCI III 3a). Under `"error"`, Mne.MakeEpochs refuses such events.
- `proj=True`, `baseline=None` and `preload=True` are constant arguments with no effect on what is decided here.
- Logging, printing, `download.py`, `preprocess.py` (the command-line driver), `plot_BCI_2a.py`, the models, the dataset wrapper, and the KFold/DataLoader/training half of `train.py`: outside the extraction layer, or floating-point numerics.
- `main` of `preprocess_BCI_IV_2a.py`: a hard-coded Windows-style root and a `makedirs` of the save directory. The model takes both directories as parameters.
- `utils.PREPROCESSED_DATA_DIR`: a parameter of `Train.AllLabels`.
- The per-dataset normalizer: it does not exist in this code.
- Failures drop the partially written filesystem. A Python exception leaves behind whatever was saved before it. The model returns only the error.
- FileSys.Listdir: what `os.listdir` returns, both its names and their order, is an input rather than read off the filesystem. So the contracts of the subject loops and of Train.LoadedFolders hold for any listing, including one naming entries that do not exist.
- Legacy2a.ReadDataset: the completeness statement covers the training session. The evaluation session obeys the same Session contract, but the loop-level statement is not repeated for it.
- Legacy2a.ReadDatasetAsWritten: states the layout and the failure on a non-directory. Its defects are stated by the lemmas listed under Findings rather than by its own contract.
- Train.AllLabels: states the range of the labels and the empty case. The exact label sequence is stated by Train.Gather.
- The signal arrays `X` and their concatenation in `train.py` are not modelled. They fail on an empty list exactly as the labels do.
- MNE's warning for epoch file names that do not end in `-epo.fif` (the older script's `PA..T.fif`) is a warning, not an error, and is not modelled.

## Findings

| source | as written | input that shows it | evidently intended | confidence | as-written member | corrected member |
|---|---|---|---|---|---|---|
| preprocess_BCI_IV_2a.py:37-54 | a missing input file leaves `raw_train`/`raw_test` holding the previous subject's recording, which is preprocessed and saved again under the current subject's name (its bads appended a second time); for the first subject the local is unbound and the run stops | folders `S01` (both sessions present) then `S02` (empty): `PA02T.fif` holds epochs cut from `S01/A01T.gdf` | skip the missing session | high, not executed | Legacy2a.StaleRecordingReused | Legacy2a.ReadDataset |
| preprocess_BCI_IV_2a.py:59-64 | `train_data[0].save(...)` saves only the first epoch of the set | a recording with two left-hand cues: the file reads back one label | save the whole epoch set, as the four adapters do | high, not executed | Legacy2a.OnlyFirstEpochSaved | Legacy2a.SessionSavesEveryLabel |
| preprocess_BCI_IV_2a.py:72-75 | the table `{'769': 1, '770': 2}` selects events by code 1 and 2, but `events_from_annotations` numbers a training file's descriptions itself | a training file reporting 1023→1, 1072→2, 769→7, 770→8 (the numbering `bci2a.py` relies on for the same dataset): the epochs hold rejected-trial and eye-movement events labelled as hands | select the events of the codes reported for 769 and 770, keeping labels 1 and 2 | medium, not executed | Legacy2a.FixedCodesMissTheCues | Legacy2a.CuesSelected |
