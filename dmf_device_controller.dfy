/** The channel-state handlers of DmfDeviceController
    (microdrop/gui/dmf_device_controller.py). The application object the
    handlers reach through get_app() is represented by the fields of
    Controller: the protocol's steps with this plugin's options, the index of
    the current step, the device's electrode-to-channel table, the view's
    electrode colours and a log of what is sent to the shell and the plugins. */
module DmfDeviceController {
  import opened Wrappers
  import opened Colors
  import opened ChannelState
  import ChannelText

  /** DmfDeviceOptions: this plugin's data for one protocol step. */
  class DeviceOptions {
    var stateOfChannels: array<int>

    /** `DmfDeviceOptions()`: zeros for channels 0..max_channel(). */
    constructor (maxChannel: int)
      requires maxChannel >= -1
      ensures fresh(stateOfChannels)
      ensures stateOfChannels[..] == Zeros(maxChannel + 1)
    {
      stateOfChannels := new int[maxChannel + 1](_ => 0);
    }
  }

  /** The toggle loop of lines 188-192, in place on the state array. It stops
      at the first channel outside the array (numpy's IndexError) and reports
      whether it got through all of them. */
  method ToggleChannels(state: array<int>, channels: seq<int>) returns (done: bool)
    modifies state
    ensures done == AllInRange(channels, state.Length)
    ensures state[..] == Toggled(old(state[..]), channels)
  {
    var i := 0;
    while i < |channels|
      invariant 0 <= i <= |channels|
      invariant AllInRange(channels[..i], state.Length)
      invariant Toggled(old(state[..]), channels) == Toggled(state[..], channels[i..])
    {
      var channel := channels[i];
      if !InRange(channel, state.Length) {
        assert !AllInRange(channels, state.Length);
        return false;
      }
      var j := Slot(channel, state.Length);
      assert channels[i..][1..] == channels[i + 1..];
      if state[j] > 0 {
        state[j] := 0;
      } else {
        state[j] := 1;
      }
      assert channels[..i + 1] == channels[..i] + [channel];
      i := i + 1;
    }
    assert channels[..i] == channels;
    return true;
  }

  /** Translates a pointer position in widget pixels into device coordinates
      (lines 170-171), given the view's scale and offset. */
  function TranslateCoords(x: real, y: real, scale: real, offset: (real, real)): (p: (real, real))
    requires scale != 0.0
  {
    (x / scale - offset.0, y / scale - offset.1)
  }

  /** Where a device point lands in widget pixels under the same view. */
  function WidgetCoords(u: real, v: real, scale: real, offset: (real, real)): (p: (real, real)) {
    ((u + offset.0) * scale, (v + offset.1) * scale)
  }

  /** translate_coords undoes the view's placement, and exactly that: the two
      maps are inverse to each other in both directions. */
  lemma TranslateCoordsInverse(x: real, y: real, u: real, v: real, scale: real, offset: (real, real))
    requires scale != 0.0
    ensures TranslateCoords(x, y, scale, offset) == (u, v) <==> WidgetCoords(u, v, scale, offset) == (x, y)
  {
    if TranslateCoords(x, y, scale, offset) == (u, v) {
      assert (x / scale) * scale == x && (y / scale) * scale == y;
      calc {
        (u + offset.0) * scale;
        == { assert u + offset.0 == x / scale; }
        (x / scale) * scale;
        == x;
      }
      calc {
        (v + offset.1) * scale;
        == { assert v + offset.1 == y / scale; }
        (y / scale) * scale;
        == y;
      }
      assert WidgetCoords(u, v, scale, offset).0 == x && WidgetCoords(u, v, scale, offset).1 == y;
    }
    if WidgetCoords(u, v, scale, offset) == (x, y) {
      assert ((u + offset.0) * scale) / scale == u + offset.0;
      assert ((v + offset.1) * scale) / scale == v + offset.1;
      calc {
        x / scale;
        == ((u + offset.0) * scale) / scale;
        == u + offset.0;
      }
      calc {
        y / scale;
        == ((v + offset.1) * scale) / scale;
        == v + offset.1;
      }
      assert x / scale - offset.0 == u && y / scale - offset.1 == v;
    }
  }

  class Controller {
    /** This plugin's options in every protocol step (`step.get_data(name)`). */
    var steps: seq<Option<DeviceOptions>>
    /** `app.protocol.current_step_number`. */
    var currentStep: nat
    /** `app.dmf_device.electrodes`: each electrode id with its channel list. */
    var electrodes: map<int, seq<int>>
    /** `view.electrode_color`. */
    var electrodeColor: map<int, Rgb>
    /** The id of the electrode last clicked. */
    var lastElectrodeClicked: Option<int>
    /** What the handlers sent to the shell and the plugins, oldest first. */
    var events: seq<Event>

    /** The state array of every step, None where the step has no options. */
    ghost var states: seq<Option<seq<int>>>
    /** The options objects and arrays the steps hold. */
    ghost var Repr: set<object>

    ghost predicate Valid()
      reads this, Repr
    {
      && currentStep < |steps|
      && |states| == |steps|
      && (forall i :: 0 <= i < |steps| && steps[i].Some? ==> steps[i].value in Repr)
      && (forall i :: 0 <= i < |steps| && steps[i].Some? ==> steps[i].value.stateOfChannels in Repr)
      && (forall i :: 0 <= i < |steps| ==> (states[i].Some? <==> steps[i].Some?))
      && (forall i :: 0 <= i < |steps| && steps[i].Some? ==> states[i].value == steps[i].value.stateOfChannels[..])
      && (forall i, j :: 0 <= i < j < |steps| && steps[i].Some? && steps[j].Some? ==>
            steps[i].value != steps[j].value && steps[i].value.stateOfChannels != steps[j].value.stateOfChannels)
      && (lastElectrodeClicked.Some? ==> lastElectrodeClicked.value in electrodes)
    }

    /** A protocol of `stepCount` steps, none with options yet, and a device
        with the given electrodes; nothing has been clicked. */
    constructor (stepCount: nat, current: nat, electrodes: map<int, seq<int>>)
      requires current < stepCount
      ensures Valid() && fresh(Repr)
      ensures states == seq(stepCount, _ => None) && currentStep == current
      ensures this.electrodes == electrodes && electrodeColor == map[]
      ensures lastElectrodeClicked == None && events == []
    {
      steps := seq(stepCount, _ => None);
      currentStep := current;
      this.electrodes := electrodes;
      electrodeColor := map[];
      lastElectrodeClicked := None;
      events := [];
      states := seq(stepCount, _ => None);
      Repr := {};
    }

    /** get_step_options (lines 145-156): the current step's options, created
        (zeros for channels 0..max_channel()) and stored when it has none.
        `maxChannel` is what the device's max_channel() answers. */
    method GetStepOptions(maxChannel: int) returns (options: DeviceOptions)
      requires Valid() && maxChannel >= -1
      modifies this
      ensures Valid() && fresh(Repr - old(Repr))
      ensures currentStep == old(currentStep) && electrodes == old(electrodes)
      ensures steps[currentStep] == Some(options) && options in Repr && options.stateOfChannels in Repr
      ensures old(steps[currentStep]).Some? ==> steps == old(steps) && Repr == old(Repr)
      ensures old(steps[currentStep]).None? ==> fresh(options) && steps == old(steps)[currentStep := Some(options)]
      ensures states == old(states)[currentStep := Some(OptionsState(old(states[currentStep]), maxChannel))]
      ensures electrodeColor == old(electrodeColor) && lastElectrodeClicked == old(lastElectrodeClicked)
      ensures events == old(events)
    {
      if steps[currentStep].Some? {
        options := steps[currentStep].value;
        assert states[currentStep := Some(OptionsState(states[currentStep], maxChannel))] == states;
      } else {
        options := new DeviceOptions(maxChannel);
        steps := steps[currentStep := Some(options)];
        states := states[currentStep := Some(options.stateOfChannels[..])];
        Repr := Repr + {options, options.stateOfChannels};
      }
    }

    /** on_electrode_click (lines 181-199) for the electrode `id`: button 1
        toggles its channels in the current step and notifies the plugins;
        with no channels it only logs an error; button 3 opens the popup. Any
        button makes it the last electrode clicked. */
    method OnElectrodeClick(id: int, button: int, maxChannel: int)
      requires Valid() && id in electrodes && maxChannel >= -1
      modifies this, Repr
      ensures Valid() && fresh(Repr - old(Repr))
      ensures currentStep == old(currentStep) && electrodes == old(electrodes) && electrodeColor == old(electrodeColor)
      ensures lastElectrodeClicked == Some(id)
      ensures var before := OptionsState(old(states[currentStep]), maxChannel);
        && states == old(states)[currentStep := Some(ClickedState(button, before, electrodes[id]))]
        && events == old(events) + ClickEvents(button, electrodes[id], |before|, currentStep)
    {
      var options := GetStepOptions(maxChannel);
      SelectElectrode(id);
      if button == 1 {
        var channels := electrodes[id];
        if |channels| > 0 {
          var done := ToggleCurrent(channels);
          if done {
            Log(StepOptionsChanged(currentStep));
          }
        } else {
          Log(LoggedError(NoChannelMessage));
        }
      } else if button == 3 {
        Log(PopupShown);
      }
    }

    /** `self.last_electrode_clicked = electrode`. */
    method SelectElectrode(id: int)
      requires Valid() && id in electrodes
      modifies this
      ensures Valid() && Repr == old(Repr) && steps == old(steps) && states == old(states)
      ensures lastElectrodeClicked == Some(id) && events == old(events)
      ensures currentStep == old(currentStep) && electrodes == old(electrodes) && electrodeColor == old(electrodeColor)
    {
      lastElectrodeClicked := Some(id);
    }

    /** `self.view.electrode_color[id] = c`. */
    method SetColor(id: int, c: Rgb)
      requires Valid()
      modifies this
      ensures Valid() && Repr == old(Repr) && steps == old(steps) && states == old(states)
      ensures electrodeColor == old(electrodeColor)[id := c] && events == old(events)
      ensures currentStep == old(currentStep) && electrodes == old(electrodes)
      ensures lastElectrodeClicked == old(lastElectrodeClicked)
    {
      electrodeColor := electrodeColor[id := c];
    }

    /** `self.last_electrode_clicked.channels = channels` (line 320). */
    method AssignChannels(channels: seq<int>)
      requires Valid() && lastElectrodeClicked.Some?
      modifies this
      ensures Valid() && Repr == old(Repr) && steps == old(steps) && states == old(states)
      ensures lastElectrodeClicked == old(lastElectrodeClicked)
      ensures electrodes == old(electrodes)[lastElectrodeClicked.value := channels] && events == old(events)
      ensures currentStep == old(currentStep) && electrodeColor == old(electrodeColor)
    {
      electrodes := electrodes[lastElectrodeClicked.value := channels];
    }

    /** Sends `e` to the shell or the plugins; nothing else changes. */
    method Log(e: Event)
      requires Valid()
      modifies this
      ensures Valid() && Repr == old(Repr) && steps == old(steps) && states == old(states)
      ensures events == old(events) + [e]
      ensures currentStep == old(currentStep) && electrodes == old(electrodes) && electrodeColor == old(electrodeColor)
      ensures lastElectrodeClicked == old(lastElectrodeClicked)
    {
      events := events + [e];
    }

    /** Lines 188-192 on the current step's options: its channels are toggled
        in place in the step's array; nothing else of the protocol changes. */
    method ToggleCurrent(channels: seq<int>) returns (done: bool)
      requires Valid() && steps[currentStep].Some?
      modifies this, steps[currentStep].value.stateOfChannels
      ensures Valid() && Repr == old(Repr) && steps == old(steps)
      ensures done == AllInRange(channels, |old(states[currentStep]).value|)
      ensures states == old(states)[currentStep := Some(Toggled(old(states[currentStep]).value, channels))]
      ensures currentStep == old(currentStep) && electrodes == old(electrodes) && electrodeColor == old(electrodeColor)
      ensures lastElectrodeClicked == old(lastElectrodeClicked) && events == old(events)
    {
      var state := steps[currentStep].value.stateOfChannels;
      done := ToggleChannels(state, channels);
      states := states[currentStep := Some(state[..])];
    }

    /** _update (lines 366-387) with the electrodes visited in `order`, the
        dictionary's iteration order: each electrode gets the colour of its
        classification in the current step, a mixed one is logged, and the
        view is redrawn once the pass gets through. */
    method Update(order: seq<int>, maxChannel: int)
      requires Valid() && maxChannel >= -1
      requires forall k :: 0 <= k < |order| ==> order[k] in electrodes
      requires forall id :: id in electrodes ==> id in order
      requires forall k, l :: 0 <= k < l < |order| ==> order[k] != order[l]
      modifies this
      ensures Valid() && fresh(Repr - old(Repr))
      ensures currentStep == old(currentStep) && electrodes == old(electrodes)
      ensures lastElectrodeClicked == old(lastElectrodeClicked)
      ensures states == old(states)[currentStep := Some(OptionsState(old(states[currentStep]), maxChannel))]
      ensures var p := Recolor(old(electrodeColor), old(events), electrodes, states[currentStep].value, order);
        electrodeColor == p.colors && events == p.log + (if p.finished then [ViewRedrawn] else [])
      ensures var state := states[currentStep].value;
        (forall id :: id in electrodes ==> AllInRange(electrodes[id], |state|)) ==>
          forall id :: id in electrodes ==> SameAt(electrodeColor, Paint(old(electrodeColor), id, Classify(state, electrodes[id])), id)
    {
      var options := GetStepOptions(maxChannel);
      var state := options.stateOfChannels;
      RecolorSpec(electrodeColor, events, electrodes, state[..], order);
      var finished := RecolorAll(order, state);
      if finished {
        Log(ViewRedrawn);
      }
    }

    /** The loop of lines 369-386 over the electrodes in `order`, against the
        state array of the current step; it stops at the first electrode with
        a channel outside the array (numpy's IndexError). */
    method RecolorAll(order: seq<int>, state: array<int>) returns (finished: bool)
      requires Valid()
      requires forall k :: 0 <= k < |order| ==> order[k] in electrodes
      modifies this
      ensures Valid() && Repr == old(Repr) && steps == old(steps) && states == old(states)
      ensures currentStep == old(currentStep) && electrodes == old(electrodes)
      ensures lastElectrodeClicked == old(lastElectrodeClicked)
      ensures var p := Recolor(old(electrodeColor), old(events), electrodes, state[..], order);
        electrodeColor == p.colors && events == p.log && finished == p.finished
    {
      var i := 0;
      while i < |order|
        invariant 0 <= i <= |order|
        invariant currentStep == old(currentStep) && electrodes == old(electrodes)
        invariant lastElectrodeClicked == old(lastElectrodeClicked)
        invariant steps == old(steps) && states == old(states) && Repr == old(Repr) && Valid()
        invariant Recolor(electrodeColor, events, electrodes, state[..], order[i..])
                  == Recolor(old(electrodeColor), old(events), electrodes, state[..], order)
      {
        var id := order[i];
        assert order[i..][0] == id && order[i..][1..] == order[i + 1..];
        if !AllInRange(electrodes[id], state.Length) {
          return false;
        }
        PaintElectrode(id, state);
        i := i + 1;
      }
      return true;
    }

    /** The body of the loop of lines 369-386 for one electrode whose
        channels all index the state array: the colour of its classification,
        or a logged error when its channels disagree. */
    method PaintElectrode(id: int, state: array<int>)
      requires Valid() && id in electrodes && AllInRange(electrodes[id], state.Length)
      modifies this
      ensures Valid() && Repr == old(Repr) && steps == old(steps) && states == old(states)
      ensures currentStep == old(currentStep) && electrodes == old(electrodes)
      ensures var shade := Classify(state[..], electrodes[id]);
        && electrodeColor == Paint(old(electrodeColor), id, shade)
        && events == if shade == Mixed then old(events) + [LoggedError(NotSupportedMessage)] else old(events)
      ensures lastElectrodeClicked == old(lastElectrodeClicked)
    {
      var channels := electrodes[id];
      if |channels| > 0 {
        var shades := Gather(state[..], channels);
        if CountEqual(shades, shades[0]) == |shades| {
          if shades[0] > 0 {
            SetColor(id, White);
          } else {
            SetColor(id, Blue);
          }
        } else {
          Log(LoggedError(NotSupportedMessage));
        }
      } else {
        SetColor(id, Red);
      }
    }

    /** The zero-pad loop of lines 314-319: every step's array becomes
        `np.concatenate([state, np.zeros(m - len(state) + 1)])`, a new array.
        A step without options (AttributeError) or with an array longer than
        m + 1 (numpy refuses a negative count) stops the loop there, with the
        steps before it already padded. */
    method PadSteps(m: int) returns (done: bool)
      requires Valid()
      modifies this, Repr
      ensures Valid() && fresh(Repr - old(Repr))
      ensures var i := FirstUnpaddable(old(states), m);
        states == PaddedPrefix(old(states), m, i) && done == (i == |old(states)|)
      ensures steps == old(steps) && currentStep == old(currentStep) && electrodes == old(electrodes)
      ensures electrodeColor == old(electrodeColor) && lastElectrodeClicked == old(lastElectrodeClicked)
      ensures events == old(events)
    {
      var i := 0;
      while i < |steps|
        invariant 0 <= i <= |steps| && i <= FirstUnpaddable(old(states), m)
        invariant Valid() && fresh(Repr - old(Repr))
        invariant states == PaddedPrefix(old(states), m, i)
        invariant steps == old(steps) && currentStep == old(currentStep) && electrodes == old(electrodes)
        invariant electrodeColor == old(electrodeColor) && lastElectrodeClicked == old(lastElectrodeClicked)
        invariant events == old(events)
      {
        var options := steps[i];
        if options.None? {
          return false;
        }
        if m - options.value.stateOfChannels.Length + 1 < 0 {
          return false;
        }
        assert states[i] == old(states)[i];
        PadStep(i, m);
        assert states == PaddedPrefix(old(states), m, i + 1);
        i := i + 1;
      }
      return true;
    }

    /** One round of the loop of lines 314-319: step i's options get a new
        array, its old one followed by `m - len(state) + 1` zeros. */
    method PadStep(i: nat, m: int)
      requires Valid() && i < |steps| && Paddable(states[i], m)
      modifies this, steps[i].value
      ensures Valid() && fresh(Repr - old(Repr))
      ensures states == old(states)[i := Some(Pad(old(states)[i].value, m))]
      ensures steps == old(steps) && currentStep == old(currentStep) && electrodes == old(electrodes)
      ensures electrodeColor == old(electrodeColor) && lastElectrodeClicked == old(lastElectrodeClicked)
      ensures events == old(events)
    {
      var options := steps[i].value;
      var state := options.stateOfChannels;
      var longer := state[..] + Zeros(m - state.Length + 1);
      var padded := new int[|longer|](k requires 0 <= k < |longer| => longer[k]);
      assert padded[..] == longer;
      options.stateOfChannels := padded;
      Repr := Repr + {padded};
      states := states[i := Some(padded[..])];
    }

    /** Lines 314-320 when the answer names a channel beyond the probed step's
        array: every step is zero-padded up to the largest channel and, if
        that gets through all steps, the list is assigned. */
    method PadAndAssign(channels: seq<int>) returns (invalid: bool)
      requires Valid() && lastElectrodeClicked.Some? && |channels| > 0
      modifies this, Repr
      ensures Valid() && fresh(Repr - old(Repr))
      ensures lastElectrodeClicked == old(lastElectrodeClicked)
      ensures var m := Max(channels);
        var i := FirstUnpaddable(old(states), m);
        && states == PaddedPrefix(old(states), m, i)
        && invalid == (i < |old(states)|)
      ensures electrodes == if invalid then old(electrodes) else old(electrodes)[lastElectrodeClicked.value := channels]
      ensures currentStep == old(currentStep) && electrodeColor == old(electrodeColor) && events == old(events)
    {
      var done := PadSteps(Max(channels));
      invalid := !done;
      if done {
        AssignChannels(channels);
      }
    }

    /** on_edit_electrode_channels (lines 295-323) once the dialog has
        answered `text` for the last electrode clicked: a non-empty answer is
        applied, any exception shows "Invalid channel.", and the plugins are
        notified in every case. */
    method EditElectrodeChannels(text: string)
      requires Valid() && lastElectrodeClicked.Some?
      modifies this, Repr
      ensures Valid() && fresh(Repr - old(Repr))
      ensures lastElectrodeClicked == old(lastElectrodeClicked)
      ensures var id := lastElectrodeClicked.value;
        var r := EditOutcome(text, old(electrodes[id]), old(states));
        && states == r.states
        && electrodes == (if r.newChannels.Some? then old(electrodes)[id := r.newChannels.value] else old(electrodes))
        && events == old(events) + (if r.invalid then [ErrorShown(InvalidChannelMessage)] else []) + [StepOptionsChanged(currentStep)]
      ensures currentStep == old(currentStep) && electrodeColor == old(electrodeColor)
    {
      if text != "" {
        var invalid := ApplyAnswer(text);
        if invalid {
          Log(ErrorShown(InvalidChannelMessage));
        }
      }
      Log(StepOptionsChanged(currentStep));
    }

    /** The `try` block of lines 304-320 for a non-empty answer: the answer
        is split at commas and converted, the step line 311 picks is read,
        every step is zero-padded when a channel lies beyond that step's
        array, and the list is assigned. `invalid` reports an exception. */
    method ApplyAnswer(text: string) returns (invalid: bool)
      requires Valid() && lastElectrodeClicked.Some? && text != ""
      modifies this, Repr
      ensures Valid() && fresh(Repr - old(Repr))
      ensures lastElectrodeClicked == old(lastElectrodeClicked)
      ensures var id := lastElectrodeClicked.value;
        var r := EditOutcome(text, old(electrodes[id]), old(states));
        && states == r.states
        && electrodes == (if r.newChannels.Some? then old(electrodes)[id := r.newChannels.value] else old(electrodes))
        && invalid == r.invalid
      ensures currentStep == old(currentStep) && electrodeColor == old(electrodeColor) && events == old(events)
    {
      var id := lastElectrodeClicked.value;
      var oldChannels := electrodes[id];
      ghost var before := states;
      ghost var r := EditOutcome(text, oldChannels, before);
      var tokens := ChannelText.Split(text, ',');
      var parsed: Option<seq<int>>;
      if |tokens[0]| > 0 {
        parsed := ChannelText.ParseChannels(tokens);
      } else {
        parsed := Some([]);
      }
      assert parsed == ParsedChannels(tokens);
      var probe := ProbeIndex(tokens, oldChannels);
      ghost var probed := ProbedState(tokens, oldChannels, before);
      if parsed.None? || probe.None? || !InRange(probe.value, |steps|) || steps[Slot(probe.value, |steps|)].None? {
        assert parsed.None? || probed.None?;
        assert r == EditResult(before, None, true);
        return true;
      }
      var channels := parsed.value;
      var state := steps[Slot(probe.value, |steps|)].value.stateOfChannels;
      assert probed == before[Slot(probe.value, |before|)] && |probed.value| == state.Length;
      if |channels| > 0 && Max(channels) >= state.Length {
        ghost var m := Max(channels);
        ghost var i := FirstUnpaddable(before, m);
        assert r == EditResult(PaddedPrefix(before, m, i), if i == |before| then Some(channels) else None, i < |before|);
        invalid := PadAndAssign(channels);
      } else {
        assert r == EditResult(before, Some(channels), false);
        AssignChannels(channels);
        invalid := false;
      }
    }
  }
}
