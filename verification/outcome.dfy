/** The Python exceptions the modelled scripts can raise, and a failure-compatible
    result type so that a raised exception becomes a value the model can reason about. */
module Outcome {

  /** A raised exception. Paths are kept as component sequences, as in FileSys. */
  datatype Error =
    | FileNotFound(path: seq<string>)        // FileNotFoundError (os, shutil, the MNE readers)
    | FileExists(path: seq<string>)          // FileExistsError (os.makedirs, Epochs.save without overwrite)
    | NotADirectory(path: seq<string>)       // NotADirectoryError (os.listdir, shutil.rmtree, os.makedirs)
    | UnreadableRecording(path: seq<string>) // the reader finds no raw recording at an existing path
    | UnreadableEpochs(path: seq<string>)    // mne.read_epochs finds no saved epochs at an existing path
    | KeyError(key: string)                  // a missing key in a dict lookup
    | UnboundLocal(name: string)             // a local variable read before any assignment
    | NoMatchingEvents                       // mne.Epochs with on_missing="raise" and an event id absent from the events
    | RepeatedEvents                         // mne.Epochs with event_repeated="error" and two kept events at one sample
    | EmptyConcatenation                     // numpy.concatenate of an empty list

  /** Success carries the value; Failure the exception that ended the call. */
  datatype Result<+T> = Success(value: T) | Failure(error: Error) {

    predicate IsFailure() {
      Failure?
    }

    function PropagateFailure<U>(): Result<U>
      requires Failure?
    {
      Failure(error)
    }

    function Extract(): T
      requires Success?
    {
      value
    }
  }
}
