/** An abstract reference for the parts of MNE-Python the adapters call. The
    readers, events_from_annotations and the slicing inside mne.Epochs are not
    modelled: a raw file holds a Recording with the event table MNE reports for
    it, and an Epochs value records the arguments the adapter passed, which is
    everything the adapter decides. */
module Mne {
  import opened Outcome
  import opened FileSys

  /** One row of the events array: onset sample and integer event code. */
  datatype Event = Event(sample: nat, code: int)

  datatype ChannelKind = Eeg | Eog | Stim | Misc

  datatype Channel = Channel(name: string, kind: ChannelKind)

  /** A raw recording as MNE reads it: channel list, info["bads"], and what
      events_from_annotations returns for it (events, and the annotation
      description to event code table). */
  datatype Recording = Recording(channels: seq<Channel>, bads: seq<string>, events: seq<Event>, eventIds: map<string, int>)

  /** tmin and tmax of mne.Epochs, in milliseconds relative to the event onset. */
  datatype Window = Window(tminMs: int, tmaxMs: int)

  /** The event_repeated argument of mne.Epochs. */
  datatype Repeated = RaiseOnRepeat | MergeRepeats

  /** The event_id argument of mne.Epochs: class name to event code. */
  type EventId = map<string, int>

  /** An mne.Epochs object, described by the call that made it: the recording file
      it was cut from, the events, event_id, window and channel picks passed, and
      the event_repeated policy. baseline=None and preload=True throughout. */
  datatype Epochs = Epochs(source: Path, events: seq<Event>, eventId: EventId, window: Window, picks: seq<nat>, repeated: Repeated)

  /** Which trials of an Epochs object a saved file holds. */
  datatype Trials = AllTrials | FirstTrial

  /** What a file holds: a raw recording, or saved epochs. */
  datatype Content = Raw(rec: Recording) | Saved(epochs: Epochs, trials: Trials)

  /** mne.Epochs with tmin and tmax not given: (-0.2 s, 0.5 s). */
  const DefaultWindow: Window := Window(-200, 500)

  /** The ocular channels of the BCI Competition IV recordings. */
  const BciIvEogChannels: seq<string> := ["EOG-left", "EOG-central", "EOG-right"]

  /** The eog= argument of read_raw_gdf: the named channels get the EOG type. */
  function MarkEog(rec: Recording, names: seq<string>): (r: Recording)
    ensures |r.channels| == |rec.channels|
    ensures forall i :: 0 <= i < |r.channels| ==> r.channels[i].name == rec.channels[i].name
    ensures forall i :: 0 <= i < |r.channels| && rec.channels[i].name in names ==> r.channels[i].kind == Eog
    ensures forall i :: 0 <= i < |r.channels| && rec.channels[i].name !in names ==> r.channels[i].kind == rec.channels[i].kind
    ensures r.bads == rec.bads && r.events == rec.events && r.eventIds == rec.eventIds
  {
    rec.(channels := seq(|rec.channels|, i requires 0 <= i < |rec.channels| =>
      var c := rec.channels[i];
      if c.name in names then c.(kind := Eog) else c))
  }

  /** info["bads"] += names */
  function AppendBads(rec: Recording, names: seq<string>): (r: Recording)
    ensures |r.bads| == |rec.bads| + |names|
    ensures r.bads[..|rec.bads|] == rec.bads && r.bads[|rec.bads|..] == names
    ensures r.channels == rec.channels && r.events == rec.events && r.eventIds == rec.eventIds
  {
    rec.(bads := rec.bads + names)
  }

  /** pick_types(eeg=True, eog=False, stim=False, exclude="bads") keeps channel c. */
  predicate Picked(c: Channel, bads: seq<string>)
  {
    c.kind == Eeg && c.name !in bads
  }

  function PicksFrom(channels: seq<Channel>, bads: seq<string>, k: nat): (r: seq<nat>)
    requires k <= |channels|
    ensures forall i :: i in r <==> k <= i < |channels| && Picked(channels[i], bads)
    ensures forall a, b :: 0 <= a < b < |r| ==> r[a] < r[b]
    ensures forall a :: 0 <= a < |r| ==> k <= r[a]
    decreases |channels| - k
  {
    if k == |channels| then []
    else if Picked(channels[k], bads) then [k] + PicksFrom(channels, bads, k + 1)
    else PicksFrom(channels, bads, k + 1)
  }

  /** The channel indices pick_types returns, in channel order. */
  function PickEeg(rec: Recording): seq<nat>
  {
    PicksFrom(rec.channels, rec.bads, 0)
  }

  /** Two channel lists that agree, index by index, on which channels are kept give
      the same picks. */
  lemma {:induction false} PicksAgree(c1: seq<Channel>, b1: seq<string>, c2: seq<Channel>, b2: seq<string>, k: nat)
    requires |c1| == |c2| && k <= |c1|
    requires forall i :: k <= i < |c1| ==> (Picked(c1[i], b1) <==> Picked(c2[i], b2))
    ensures PicksFrom(c1, b1, k) == PicksFrom(c2, b2, k)
    decreases |c1| - k
  {
    if k < |c1| {
      PicksAgree(c1, b1, c2, b2, k + 1);
    }
  }

  /** The two ways the scripts keep the ocular channels out of the picks, typing
      them as EOG when reading or appending them to info["bads"], pick the same
      channels. */
  lemma EogByTypeOrByBads(rec: Recording, names: seq<string>)
    ensures PickEeg(MarkEog(rec, names)) == PickEeg(AppendBads(rec, names))
    ensures forall i :: i in PickEeg(AppendBads(rec, names)) ==> rec.channels[i].name !in names
  {
    PicksAgree(MarkEog(rec, names).channels, rec.bads, rec.channels, rec.bads + names, 0);
  }

  /** The read_raw_* call on path p, with eog naming the channels to type as EOG. */
  function ReadRaw(fs: Fs<Content>, p: Path, eog: seq<string>): (r: Result<Recording>)
    ensures r.Success? <==> IsFile(fs, p) && fs[p].content.Raw?
    ensures r.Success? ==> r.value == MarkEog(fs[p].content.rec, eog)
    ensures !Exists(fs, p) ==> r == Failure(FileNotFound(p))
  {
    if p !in fs then Failure(FileNotFound(p))
    else if fs[p].Dir? || !fs[p].content.Raw? then Failure(UnreadableRecording(p))
    else Success(MarkEog(fs[p].content.rec, eog))
  }

  /** Some event carries the given code. */
  predicate HasCode(events: seq<Event>, code: int)
  {
    exists i :: 0 <= i < |events| && events[i].code == code
  }

  /** Two of the events fall on the same onset sample. */
  predicate SharedOnset(events: seq<Event>)
  {
    exists i, j :: 0 <= i < j < |events| && events[i].sample == events[j].sample
  }

  /** mne.Epochs(raw, events, event_id, tmin, tmax, picks, event_repeated) with the
      default on_missing="raise". Every code of event_id must occur somewhere in
      events; that is checked first. The events whose code is in event_id are then
      kept, and under event_repeated="error" two kept events at the same sample
      raise a RuntimeError. */
  function MakeEpochs(source: Path, rec: Recording, eventId: EventId, window: Window, repeated: Repeated): (r: Result<Epochs>)
    ensures r.Success? <==> && (forall v :: v in eventId.Values ==> HasCode(rec.events, v))
                            && !(repeated == RaiseOnRepeat && SharedOnset(KeptEvents(rec.events, eventId)))
    ensures (exists v :: v in eventId.Values && !HasCode(rec.events, v)) ==> r == Failure(NoMatchingEvents)
    ensures r.Failure? && (forall v :: v in eventId.Values ==> HasCode(rec.events, v)) ==> r == Failure(RepeatedEvents)
    ensures r.Success? ==> r.value == Epochs(source, rec.events, eventId, window, PickEeg(rec), repeated)
  {
    if exists v :: v in eventId.Values && !HasCode(rec.events, v) then Failure(NoMatchingEvents)
    else if repeated == RaiseOnRepeat && SharedOnset(KeptEvents(rec.events, eventId)) then Failure(RepeatedEvents)
    else Success(Epochs(source, rec.events, eventId, window, PickEeg(rec), repeated))
  }

  /** The events an Epochs object keeps: those whose code is a value of event_id.
      Dropping windows that leave the recording is not modelled, nor is the
      combining of same-sample events under event_repeated="merge"; under "error"
      MakeEpochs refuses such events. */
  function KeptEvents(events: seq<Event>, eventId: EventId): (r: seq<Event>)
    ensures forall e :: e in r <==> e in events && e.code in eventId.Values
    ensures |r| <= |events|
  {
    if |events| == 0 then []
    else
      var rest := KeptEvents(events[1..], eventId);
      assert events == [events[0]] + events[1..];
      if events[0].code in eventId.Values then [events[0]] + rest else rest
  }

  /** epochs.events[:, -1] of what mne.read_epochs returns for a saved file. */
  function SavedLabels(c: Content): (r: seq<int>)
    requires c.Saved?
    ensures var kept := KeptEvents(c.epochs.events, c.epochs.eventId);
            c.trials == AllTrials ==> |r| == |kept| && forall i :: 0 <= i < |r| ==> r[i] == kept[i].code
    ensures var kept := KeptEvents(c.epochs.events, c.epochs.eventId);
            c.trials == FirstTrial ==> |r| == (if |kept| == 0 then 0 else 1) && (|r| == 1 ==> r[0] == kept[0].code)
  {
    var kept := KeptEvents(c.epochs.events, c.epochs.eventId);
    var trials := if c.trials == FirstTrial && |kept| > 1 then kept[..1] else kept;
    seq(|trials|, i requires 0 <= i < |trials| => trials[i].code)
  }
}
