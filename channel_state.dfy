/** What the handlers of microdrop/gui/dmf_device_controller.py do to channel
    states, electrode colours and the per-step state arrays, stated on values.
    The class in DmfDeviceController runs these steps in place and is proved
    against the functions here. */
module ChannelState {
  import opened Wrappers
  import opened Colors
  import ChannelText

  // ---------------------------------------------------------------------
  // Notifications the handlers send out
  // ---------------------------------------------------------------------

  /** What a handler hands to the application shell and the plugin bus. */
  datatype Event =
    | StepOptionsChanged(step: nat)  // emit_signal('on_step_options_changed', [name, step])
    | LoggedError(message: string)   // logger.error(message)
    | ErrorShown(message: string)    // main_window_controller.error(message)
    | PopupShown                     // the right-click popup menu
    | ViewRedrawn                    // view.update()

  const NoChannelMessage := "no channel assigned to electrode."
  const NotSupportedMessage := "not supported yet"
  const InvalidChannelMessage := "Invalid channel."

  // ---------------------------------------------------------------------
  // numpy indexing of a state array by a channel number
  // ---------------------------------------------------------------------

  /** `state[k]` is defined for an array of length n (negative k counts from the end). */
  predicate InRange(k: int, n: nat) {
    -(n as int) <= k < n
  }

  /** The element `state[k]` stands for. */
  function Slot(k: int, n: nat): (j: nat)
    requires InRange(k, n)
    ensures j < n
  {
    if k < 0 then k + n else k
  }

  predicate AllInRange(channels: seq<int>, n: nat) {
    forall k :: 0 <= k < |channels| ==> InRange(channels[k], n)
  }

  /** A non-negative channel number indexes its own element. */
  lemma SlotOfNonNegative(k: int, n: nat)
    requires 0 <= k < n
    ensures Slot(k, n) == k
  {
  }

  /** `np.zeros(n)` / `np.zeros(n, int)`: n zeros. */
  function Zeros(n: nat): (z: seq<int>)
    ensures |z| == n && forall k :: 0 <= k < n ==> z[k] == 0
  {
    seq(n, _ => 0)
  }

  // ---------------------------------------------------------------------
  // Left-click toggle (lines 185-193)
  // ---------------------------------------------------------------------

  /** One channel's new state: on (> 0) becomes 0, anything else becomes 1. */
  function Flip(v: int): int {
    if v > 0 then 0 else 1
  }

  /** The state array after the loop at lines 188-192 has run over `channels`
      in order. An out-of-range channel raises IndexError, so the loop stops
      there and the channels before it stay toggled. */
  function Toggled(state: seq<int>, channels: seq<int>): (r: seq<int>)
    ensures |r| == |state|
    decreases |channels|
  {
    if |channels| == 0 || !InRange(channels[0], |state|) then state
    else
      var j := Slot(channels[0], |state|);
      Toggled(state[j := Flip(state[j])], channels[1..])
  }

  /** An out-of-range channel ends the loop: the state is that of toggling
      the channels before it, and the ones after it are never reached. */
  lemma {:induction false} ToggledStops(state: seq<int>, channels: seq<int>, j: nat)
    requires j < |channels| && !InRange(channels[j], |state|)
    requires forall k :: 0 <= k < j ==> InRange(channels[k], |state|)
    ensures Toggled(state, channels) == Toggled(state, channels[..j])
    decreases j
  {
    if j > 0 {
      var n := |state|;
      var next := state[Slot(channels[0], n) := Flip(state[Slot(channels[0], n)])];
      var rest := channels[1..];
      assert forall k :: 0 <= k < |rest| ==> rest[k] == channels[k + 1];
      ToggledStops(next, rest, j - 1);
      assert channels[..j][1..] == rest[..j - 1];
    }
  }

  /** The click on channels [0, 99, 1] of a three-channel array toggles
      channel 0, raises IndexError at 99 and never reaches channel 1. */
  lemma ToggledStopsExample()
    ensures Toggled([0, 0, 0], [0, 99, 1]) == [1, 0, 0]
  {
    ToggledStops([0, 0, 0], [0, 99, 1], 1);
    assert [0, 99, 1][..1] == [0];
    assert [0][1..] == [];
  }

  /** No element outside the channels' slots changes, in range or not. */
  lemma {:induction false} ToggledLeavesOthers(state: seq<int>, channels: seq<int>, p: nat)
    requires p < |state|
    requires forall k :: 0 <= k < |channels| && InRange(channels[k], |state|) ==> Slot(channels[k], |state|) != p
    ensures Toggled(state, channels)[p] == state[p]
    decreases |channels|
  {
    if |channels| > 0 && InRange(channels[0], |state|) {
      var j := Slot(channels[0], |state|);
      assert forall k :: 1 <= k < |channels| ==> channels[1..][k - 1] == channels[k];
      ToggledLeavesOthers(state[j := Flip(state[j])], channels[1..], p);
    }
  }

  /** Channels are addressed without repetition: distinct list entries name
      distinct elements. */
  predicate DistinctSlots(channels: seq<int>, n: nat)
    requires AllInRange(channels, n)
  {
    forall k, l :: 0 <= k < l < |channels| ==> Slot(channels[k], n) != Slot(channels[l], n)
  }

  /** With all channels in range and none repeated, each listed channel is
      flipped once. */
  lemma {:induction false} ToggledFlipsListed(state: seq<int>, channels: seq<int>)
    requires AllInRange(channels, |state|) && DistinctSlots(channels, |state|)
    ensures forall k :: 0 <= k < |channels| ==>
      Toggled(state, channels)[Slot(channels[k], |state|)] == Flip(state[Slot(channels[k], |state|)])
    decreases |channels|
  {
    if |channels| > 0 {
      var n := |state|;
      var j := Slot(channels[0], n);
      var next := state[j := Flip(state[j])];
      var rest := channels[1..];
      assert forall k :: 1 <= k < |channels| ==> rest[k - 1] == channels[k];
      ToggledFlipsListed(next, rest);
      ToggledLeavesOthers(next, rest, j);
    }
  }

  /** A left click changes nothing but the clicked electrode's channels: each
      listed channel is flipped, every other element keeps its value. */
  lemma ToggleSpec(state: seq<int>, channels: seq<int>)
    requires AllInRange(channels, |state|) && DistinctSlots(channels, |state|)
    ensures |Toggled(state, channels)| == |state|
    ensures forall p :: 0 <= p < |state| ==>
      Toggled(state, channels)[p] ==
        if exists k :: 0 <= k < |channels| && Slot(channels[k], |state|) == p then Flip(state[p]) else state[p]
  {
    ToggledFlipsListed(state, channels);
    forall p | 0 <= p < |state|
      ensures Toggled(state, channels)[p] ==
        if exists k :: 0 <= k < |channels| && Slot(channels[k], |state|) == p then Flip(state[p]) else state[p]
    {
      if !exists k :: 0 <= k < |channels| && Slot(channels[k], |state|) == p {
        ToggledLeavesOthers(state, channels, p);
      }
    }
  }

  /** `v` after n clicks of its channel. */
  function FlipTimes(v: int, n: nat): int
    decreases n
  {
    if n == 0 then v else Flip(FlipTimes(v, n - 1))
  }

  /** How many entries of `channels` address element p. */
  function Occurrences(channels: seq<int>, p: nat, n: nat): (c: nat)
    requires AllInRange(channels, n)
    ensures c <= |channels|
    decreases |channels|
  {
    if |channels| == 0 then 0
    else (if Slot(channels[0], n) == p then 1 else 0) + Occurrences(channels[1..], p, n)
  }

  lemma {:induction false} FlipTimesFlip(v: int, n: nat)
    ensures FlipTimes(Flip(v), n) == FlipTimes(v, n + 1)
    decreases n
  {
    if n > 0 {
      FlipTimesFlip(v, n - 1);
    }
  }

  /** One click flips each element once per channel entry addressing it, so a
      channel listed twice (the edit accepts "3,3") is flipped twice. */
  lemma {:induction false} ToggledFlipsPerOccurrence(state: seq<int>, channels: seq<int>, p: nat)
    requires AllInRange(channels, |state|) && p < |state|
    ensures Toggled(state, channels)[p] == FlipTimes(state[p], Occurrences(channels, p, |state|))
    decreases |channels|
  {
    if |channels| > 0 {
      var n := |state|;
      var j := Slot(channels[0], n);
      var next := state[j := Flip(state[j])];
      var rest := channels[1..];
      assert forall k :: 0 <= k < |rest| ==> rest[k] == channels[k + 1];
      ToggledFlipsPerOccurrence(next, rest, p);
      if j == p {
        FlipTimesFlip(state[p], Occurrences(rest, p, n));
      }
    }
  }

  /** With an even number of entries for a 0/1 channel, a click leaves it
      where it was. */
  lemma {:induction false} FlipTimesEven(v: int, m: nat)
    requires v == 0 || v == 1
    ensures FlipTimes(v, 2 * m) == v
    decreases m
  {
    if m > 0 {
      FlipTimesEven(v, m - 1);
      assert FlipTimes(v, 2 * m) == Flip(Flip(FlipTimes(v, 2 * (m - 1))));
    }
  }

  /** Flips add up: a flips and then b flips are a + b flips. */
  lemma {:induction false} FlipTimesAdd(v: int, a: nat, b: nat)
    ensures FlipTimes(FlipTimes(v, a), b) == FlipTimes(v, a + b)
    decreases b
  {
    if b > 0 {
      FlipTimesAdd(v, a, b - 1);
    }
  }

  /** A positive even number of flips normalises: an on value (> 0) ends at
      1, anything else at 0. */
  lemma {:induction false} FlipTimesEvenPositive(v: int, m: nat)
    requires m >= 1
    ensures FlipTimes(v, 2 * m) == if v > 0 then 1 else 0
    decreases m
  {
    assert FlipTimes(v, 2 * m) == Flip(Flip(FlipTimes(v, 2 * (m - 1))));
    if m > 1 {
      FlipTimesEvenPositive(v, m - 1);
    }
  }

  /** An element some entry addresses is addressed at least once. */
  lemma {:induction false} OccurrencesListed(channels: seq<int>, p: nat, n: nat, k: nat)
    requires AllInRange(channels, n) && k < |channels| && Slot(channels[k], n) == p
    ensures Occurrences(channels, p, n) >= 1
    decreases |channels|
  {
    if k > 0 {
      assert channels[1..][k - 1] == channels[k];
      OccurrencesListed(channels[1..], p, n, k - 1);
    }
  }

  /** An element no entry addresses is addressed zero times. */
  lemma {:induction false} OccurrencesUnlisted(channels: seq<int>, p: nat, n: nat)
    requires AllInRange(channels, n)
    requires forall k :: 0 <= k < |channels| ==> Slot(channels[k], n) != p
    ensures Occurrences(channels, p, n) == 0
    decreases |channels|
  {
    if |channels| > 0 {
      assert forall k :: 0 <= k < |channels| - 1 ==> channels[1..][k] == channels[k + 1];
      OccurrencesUnlisted(channels[1..], p, n);
    }
  }

  /** Two clicks normalise rather than restore: every listed channel ends at 1
      if it was on (> 0) and at 0 otherwise, so a 2 goes to 0 and then 1. This
      holds also when the list repeats a channel. */
  lemma ToggledTwice(state: seq<int>, channels: seq<int>)
    requires AllInRange(channels, |state|)
    ensures forall p :: 0 <= p < |state| ==>
      Toggled(Toggled(state, channels), channels)[p] ==
        if exists k :: 0 <= k < |channels| && Slot(channels[k], |state|) == p then (if state[p] > 0 then 1 else 0) else state[p]
  {
    var n := |state|;
    var once := Toggled(state, channels);
    forall p | 0 <= p < n
      ensures Toggled(once, channels)[p] ==
        if exists k :: 0 <= k < |channels| && Slot(channels[k], n) == p then (if state[p] > 0 then 1 else 0) else state[p]
    {
      var c := Occurrences(channels, p, n);
      ToggledFlipsPerOccurrence(state, channels, p);
      ToggledFlipsPerOccurrence(once, channels, p);
      FlipTimesAdd(state[p], c, c);
      assert Toggled(once, channels)[p] == FlipTimes(state[p], 2 * c);
      if exists k :: 0 <= k < |channels| && Slot(channels[k], n) == p {
        var k :| 0 <= k < |channels| && Slot(channels[k], n) == p;
        OccurrencesListed(channels, p, n, k);
        FlipTimesEvenPositive(state[p], c);
      } else {
        OccurrencesUnlisted(channels, p, n);
      }
    }
  }

  /** On a state of 0s and 1s two clicks give the state back, repeated
      channels included. */
  lemma ToggledTwiceRestoresBinary(state: seq<int>, channels: seq<int>)
    requires AllInRange(channels, |state|)
    requires forall p :: 0 <= p < |state| ==> state[p] == 0 || state[p] == 1
    ensures Toggled(Toggled(state, channels), channels) == state
  {
    ToggledTwice(state, channels);
  }

  /** The events one call of on_electrode_click sends (lines 185-198), with n
      the length of the current step's state array. */
  function ClickEvents(button: int, channels: seq<int>, n: nat, step: nat): seq<Event> {
    if button == 1 then
      if |channels| == 0 then [LoggedError(NoChannelMessage)]
      else if AllInRange(channels, n) then [StepOptionsChanged(step)]
      else []
    else if button == 3 then [PopupShown]
    else []
  }

  /** The state a click leaves behind (lines 185-192): only button 1 toggles. */
  function ClickedState(button: int, state: seq<int>, channels: seq<int>): seq<int> {
    if button == 1 then Toggled(state, channels) else state
  }

  /** Only a button-1 click on an electrode with channels, all in range,
      notifies the plugins; then it toggles. Without channels, or with any
      other button, the state is left alone. */
  lemma ClickSpec(button: int, state: seq<int>, channels: seq<int>, step: nat)
    ensures StepOptionsChanged(step) in ClickEvents(button, channels, |state|, step) <==>
      button == 1 && |channels| > 0 && AllInRange(channels, |state|)
    ensures button != 1 || |channels| == 0 ==> ClickedState(button, state, channels) == state
    ensures |ClickedState(button, state, channels)| == |state|
  {
  }

  // ---------------------------------------------------------------------
  // Colour classification (lines 370-386)
  // ---------------------------------------------------------------------

  /** How `_update` sees one electrode. */
  datatype Shade = Unassigned | AllOn | AllOff | Mixed

  /** `state_of_all_channels[channels]` (numpy fancy indexing). */
  function Gather(state: seq<int>, channels: seq<int>): (states: seq<int>)
    requires AllInRange(channels, |state|)
    ensures |states| == |channels|
  {
    seq(|channels|, k requires 0 <= k < |channels| => state[Slot(channels[k], |state|)])
  }

  /** `len(np.nonzero(states == v)[0])`: how many entries equal v. */
  function CountEqual(states: seq<int>, v: int): (n: nat)
    ensures n <= |states|
    decreases |states|
  {
    if |states| == 0 then 0 else (if states[0] == v then 1 else 0) + CountEqual(states[1..], v)
  }

  /** The count reaches the length exactly when every entry equals v. */
  lemma {:induction false} CountEqualAll(states: seq<int>, v: int)
    ensures CountEqual(states, v) == |states| <==> forall k :: 0 <= k < |states| ==> states[k] == v
    decreases |states|
  {
    if |states| > 0 {
      CountEqualAll(states[1..], v);
      assert forall k :: 1 <= k < |states| ==> states[1..][k - 1] == states[k];
      if states[0] != v {
        assert CountEqual(states[1..], v) <= |states| - 1;
      }
    }
  }

  /** The classification of lines 372-386. */
  function Classify(state: seq<int>, channels: seq<int>): Shade
    requires AllInRange(channels, |state|)
  {
    if |channels| == 0 then Unassigned
    else
      var states := Gather(state, channels);
      if CountEqual(states, states[0]) == |states| then
        if states[0] > 0 then AllOn else AllOff
      else Mixed
  }

  /** The classification judges equality with the first channel's state, not
      on/off: all on needs every state equal and positive, so states 1 and 2
      count as mixed. */
  lemma ClassifySpec(state: seq<int>, channels: seq<int>)
    requires AllInRange(channels, |state|)
    ensures var n := |state|;
      && (Classify(state, channels) == Unassigned <==> |channels| == 0)
      && (Classify(state, channels) == AllOn <==>
            |channels| > 0 && state[Slot(channels[0], n)] > 0 &&
            forall k :: 0 <= k < |channels| ==> state[Slot(channels[k], n)] == state[Slot(channels[0], n)])
      && (Classify(state, channels) == AllOff <==>
            |channels| > 0 && state[Slot(channels[0], n)] <= 0 &&
            forall k :: 0 <= k < |channels| ==> state[Slot(channels[k], n)] == state[Slot(channels[0], n)])
      && (Classify(state, channels) == Mixed <==>
            exists k :: 0 <= k < |channels| && state[Slot(channels[k], n)] != state[Slot(channels[0], n)])
  {
    if |channels| > 0 {
      var states := Gather(state, channels);
      assert forall k :: 0 <= k < |channels| ==> states[k] == state[Slot(channels[k], |state|)];
      CountEqualAll(states, states[0]);
    }
  }

  /** The colour `_update` writes for a shade; a mixed electrode keeps whatever
      colour it had, present or not. */
  function Paint(colors: map<int, Rgb>, id: int, shade: Shade): (r: map<int, Rgb>) {
    match shade
    case Unassigned => colors[id := Red]
    case AllOn => colors[id := White]
    case AllOff => colors[id := Blue]
    case Mixed => colors
  }

  /** Two colour tables agree on one electrode. */
  predicate SameAt(a: map<int, Rgb>, b: map<int, Rgb>, id: int) {
    (id in a <==> id in b) && (id in a ==> a[id] == b[id])
  }

  /** The result of the loop at lines 370-386. */
  datatype Pass = Pass(colors: map<int, Rgb>, log: seq<Event>, finished: bool)

  /** The loop of `_update` over the electrodes in dictionary order, from
      colour table `colors` and event log `log`: each electrode is painted
      after its classification; a mixed one logs "not supported yet"; an
      electrode with a channel outside the state array raises IndexError and
      ends the pass there (`finished` is false). */
  function Recolor(colors: map<int, Rgb>, log: seq<Event>, electrodes: map<int, seq<int>>,
                   state: seq<int>, order: seq<int>): Pass
    requires forall k :: 0 <= k < |order| ==> order[k] in electrodes
    decreases |order|
  {
    if |order| == 0 then Pass(colors, log, true)
    else
      var channels := electrodes[order[0]];
      if !AllInRange(channels, |state|) then Pass(colors, log, false)
      else
        var shade := Classify(state, channels);
        Recolor(Paint(colors, order[0], shade),
                if shade == Mixed then log + [LoggedError(NotSupportedMessage)] else log,
                electrodes, state, order[1..])
  }

  /** The pass finishes exactly when every electrode's channels are in range;
      then every electrode visited carries the colour of its own
      classification, whatever the visiting order, and every other entry of
      the table is untouched. */
  lemma RecolorSpec(colors: map<int, Rgb>, log: seq<Event>, electrodes: map<int, seq<int>>,
                    state: seq<int>, order: seq<int>)
    requires forall k :: 0 <= k < |order| ==> order[k] in electrodes
    ensures var p := Recolor(colors, log, electrodes, state, order);
      && (p.finished <==> forall k :: 0 <= k < |order| ==> AllInRange(electrodes[order[k]], |state|))
      && (p.finished ==> forall id :: id in order ==>
            SameAt(p.colors, Paint(colors, id, Classify(state, electrodes[id])), id))
      && (p.finished ==> forall id :: id !in order ==> SameAt(p.colors, colors, id))
  {
    RecolorFinishes(colors, log, electrodes, state, order);
    if Recolor(colors, log, electrodes, state, order).finished {
      RecolorColors(colors, log, electrodes, state, order);
    }
  }

  lemma {:induction false} RecolorFinishes(colors: map<int, Rgb>, log: seq<Event>, electrodes: map<int, seq<int>>,
                                           state: seq<int>, order: seq<int>)
    requires forall k :: 0 <= k < |order| ==> order[k] in electrodes
    ensures Recolor(colors, log, electrodes, state, order).finished <==>
      forall k :: 0 <= k < |order| ==> AllInRange(electrodes[order[k]], |state|)
    decreases |order|
  {
    if |order| > 0 {
      var channels := electrodes[order[0]];
      var rest := order[1..];
      assert forall k :: 1 <= k < |order| ==> rest[k - 1] == order[k];
      if AllInRange(channels, |state|) {
        var shade := Classify(state, channels);
        var log' := if shade == Mixed then log + [LoggedError(NotSupportedMessage)] else log;
        RecolorFinishes(Paint(colors, order[0], shade), log', electrodes, state, rest);
      }
    }
  }

  lemma {:induction false} RecolorColors(colors: map<int, Rgb>, log: seq<Event>, electrodes: map<int, seq<int>>,
                                         state: seq<int>, order: seq<int>)
    requires forall k :: 0 <= k < |order| ==> order[k] in electrodes
    requires forall k :: 0 <= k < |order| ==> AllInRange(electrodes[order[k]], |state|)
    ensures var p := Recolor(colors, log, electrodes, state, order);
      && (forall id :: id in order ==> SameAt(p.colors, Paint(colors, id, Classify(state, electrodes[id])), id))
      && (forall id :: id !in order ==> SameAt(p.colors, colors, id))
  {
    RecolorVisited(colors, log, electrodes, state, order);
    RecolorUntouched(colors, log, electrodes, state, order);
    var p := Recolor(colors, log, electrodes, state, order);
    forall id | id in order
      ensures SameAt(p.colors, Paint(colors, id, Classify(state, electrodes[id])), id)
    {
      var k :| 0 <= k < |order| && order[k] == id;
    }
  }

  /** An electrode the pass does not visit keeps its entry. */
  lemma {:induction false} RecolorUntouched(colors: map<int, Rgb>, log: seq<Event>, electrodes: map<int, seq<int>>,
                                            state: seq<int>, order: seq<int>)
    requires forall k :: 0 <= k < |order| ==> order[k] in electrodes
    requires forall k :: 0 <= k < |order| ==> AllInRange(electrodes[order[k]], |state|)
    ensures forall id :: id !in order ==> SameAt(Recolor(colors, log, electrodes, state, order).colors, colors, id)
    decreases |order|
  {
    if |order| > 0 {
      var rest := order[1..];
      var shade := Classify(state, electrodes[order[0]]);
      var painted := Paint(colors, order[0], shade);
      var log' := if shade == Mixed then log + [LoggedError(NotSupportedMessage)] else log;
      assert forall k :: 0 <= k < |rest| ==> rest[k] == order[k + 1];
      RecolorUntouched(painted, log', electrodes, state, rest);
      assert Recolor(colors, log, electrodes, state, order) == Recolor(painted, log', electrodes, state, rest);
      forall id | id !in order
        ensures SameAt(Recolor(painted, log', electrodes, state, rest).colors, colors, id)
      {
        assert id != order[0] && id !in rest;
      }
    }
  }

  /** Every electrode the pass visits carries the colour of its own
      classification, also when it is visited twice. */
  lemma {:induction false} RecolorVisited(colors: map<int, Rgb>, log: seq<Event>, electrodes: map<int, seq<int>>,
                                          state: seq<int>, order: seq<int>)
    requires forall k :: 0 <= k < |order| ==> order[k] in electrodes
    requires forall k :: 0 <= k < |order| ==> AllInRange(electrodes[order[k]], |state|)
    ensures var p := Recolor(colors, log, electrodes, state, order);
      forall k :: 0 <= k < |order| ==>
        SameAt(p.colors, Paint(colors, order[k], Classify(state, electrodes[order[k]])), order[k])
    decreases |order|
  {
    if |order| > 0 {
      var rest := order[1..];
      var shade := Classify(state, electrodes[order[0]]);
      var painted := Paint(colors, order[0], shade);
      var log' := if shade == Mixed then log + [LoggedError(NotSupportedMessage)] else log;
      assert forall k :: 0 <= k < |rest| ==> rest[k] == order[k + 1];
      RecolorVisited(painted, log', electrodes, state, rest);
      RecolorUntouched(painted, log', electrodes, state, rest);
      var p := Recolor(painted, log', electrodes, state, rest);
      assert Recolor(colors, log, electrodes, state, order) == p;
      forall k | 0 <= k < |order|
        ensures SameAt(p.colors, Paint(colors, order[k], Classify(state, electrodes[order[k]])), order[k])
      {
        if k > 0 {
          assert rest[k - 1] == order[k];
        } else if order[0] in rest {
          var j :| 0 <= j < |rest| && rest[j] == order[0];
          assert SameAt(p.colors, Paint(painted, order[0], shade), order[0]);
        }
      }
    }
  }

  /** An electrode with a channel outside the array ends the pass: the
      colours and the log are those of the electrodes before it, each of which
      carries the colour of its own classification. */
  lemma RecolorStops(colors: map<int, Rgb>, log: seq<Event>, electrodes: map<int, seq<int>>,
                          state: seq<int>, order: seq<int>, j: nat)
    requires forall k :: 0 <= k < |order| ==> order[k] in electrodes
    requires j < |order| && !AllInRange(electrodes[order[j]], |state|)
    requires forall k :: 0 <= k < j ==> AllInRange(electrodes[order[k]], |state|)
    ensures var p := Recolor(colors, log, electrodes, state, order);
      var q := Recolor(colors, log, electrodes, state, order[..j]);
      && !p.finished && q.finished
      && p.colors == q.colors && p.log == q.log
    ensures forall k :: 0 <= k < j ==>
      SameAt(Recolor(colors, log, electrodes, state, order).colors,
             Paint(colors, order[k], Classify(state, electrodes[order[k]])), order[k])
  {
    var prefix := order[..j];
    assert forall k :: 0 <= k < |prefix| ==> prefix[k] == order[k];
    RecolorStopsPrefix(colors, log, electrodes, state, order, j);
    RecolorVisited(colors, log, electrodes, state, prefix);
  }

  lemma {:induction false} RecolorStopsPrefix(colors: map<int, Rgb>, log: seq<Event>, electrodes: map<int, seq<int>>,
                                              state: seq<int>, order: seq<int>, j: nat)
    requires forall k :: 0 <= k < |order| ==> order[k] in electrodes
    requires j < |order| && !AllInRange(electrodes[order[j]], |state|)
    requires forall k :: 0 <= k < j ==> AllInRange(electrodes[order[k]], |state|)
    ensures var p := Recolor(colors, log, electrodes, state, order);
      var q := Recolor(colors, log, electrodes, state, order[..j]);
      && !p.finished && q.finished
      && p.colors == q.colors && p.log == q.log
    decreases j
  {
    if j > 0 {
      var shade := Classify(state, electrodes[order[0]]);
      var painted := Paint(colors, order[0], shade);
      var log' := if shade == Mixed then log + [LoggedError(NotSupportedMessage)] else log;
      var rest := order[1..];
      assert forall k :: 0 <= k < |rest| ==> rest[k] == order[k + 1];
      RecolorStopsPrefix(painted, log', electrodes, state, rest, j - 1);
      assert order[..j][1..] == rest[..j - 1];
    }
  }

  /** How many of the electrodes in `order` are mixed. */
  function MixedCount(electrodes: map<int, seq<int>>, state: seq<int>, order: seq<int>): (n: nat)
    requires forall k :: 0 <= k < |order| ==> order[k] in electrodes
    requires forall k :: 0 <= k < |order| ==> AllInRange(electrodes[order[k]], |state|)
    ensures n <= |order|
    decreases |order|
  {
    if |order| == 0 then 0
    else
      (if Classify(state, electrodes[order[0]]) == Mixed then 1 else 0) + MixedCount(electrodes, state, order[1..])
  }

  /** Each mixed electrode visited adds one "not supported yet"; nothing else
      is logged. */
  lemma {:induction false} RecolorLogs(colors: map<int, Rgb>, log: seq<Event>, electrodes: map<int, seq<int>>,
                                       state: seq<int>, order: seq<int>)
    requires forall k :: 0 <= k < |order| ==> order[k] in electrodes
    ensures var p := Recolor(colors, log, electrodes, state, order);
      |p.log| >= |log| && p.log[..|log|] == log &&
      forall k :: |log| <= k < |p.log| ==> p.log[k] == LoggedError(NotSupportedMessage)
    ensures (forall k :: 0 <= k < |order| ==> AllInRange(electrodes[order[k]], |state|)) ==>
      |Recolor(colors, log, electrodes, state, order).log| == |log| + MixedCount(electrodes, state, order)
    decreases |order|
  {
    if |order| > 0 {
      var channels := electrodes[order[0]];
      if AllInRange(channels, |state|) {
        var shade := Classify(state, channels);
        var log' := if shade == Mixed then log + [LoggedError(NotSupportedMessage)] else log;
        var rest := order[1..];
        assert forall k :: 0 <= k < |rest| ==> rest[k] == order[k + 1];
        RecolorLogs(Paint(colors, order[0], shade), log', electrodes, state, rest);
        assert log'[..|log|] == log;
      }
    }
  }

  // ---------------------------------------------------------------------
  // Per-step options (lines 47-53, 145-156)
  // ---------------------------------------------------------------------

  /** The state get_step_options hands back: the step's own if it has options,
      otherwise that of fresh options, zeros for channels 0..max_channel(). */
  function OptionsState(existing: Option<seq<int>>, maxChannel: int): (r: seq<int>)
    requires maxChannel >= -1
    ensures existing.Some? ==> r == existing.value
    ensures existing.None? ==> |r| == maxChannel + 1 && forall k :: 0 <= k < |r| ==> r[k] == 0
  {
    if existing.Some? then existing.value else Zeros(maxChannel + 1)
  }

  // ---------------------------------------------------------------------
  // Channel-list edit (lines 303-323)
  // ---------------------------------------------------------------------

  /** Python's `max(channels)`. */
  function Max(s: seq<int>): (m: int)
    requires |s| > 0
    ensures m in s && forall k :: 0 <= k < |s| ==> s[k] <= m
    decreases |s|
  {
    if |s| == 1 then s[0]
    else
      var rest := Max(s[1..]);
      if s[0] >= rest then s[0] else rest
  }

  /** `np.concatenate([s, np.zeros(m - len(s) + 1)])`. */
  function Pad(s: seq<int>, m: int): (r: seq<int>)
    requires |s| <= m + 1
    ensures |r| == m + 1 && r[..|s|] == s
    ensures forall k :: |s| <= k < m + 1 ==> r[k] == 0
  {
    s + Zeros(m + 1 - |s|)
  }

  /** A step the zero-pad loop gets past: it has options (else AttributeError)
      whose array is no longer than m + 1 (else numpy refuses a negative count). */
  predicate Paddable(step: Option<seq<int>>, m: int) {
    step.Some? && |step.value| <= m + 1
  }

  /** The step at which the zero-pad loop of lines 314-319 raises, or the
      number of steps when it runs to the end. */
  function FirstUnpaddable(states: seq<Option<seq<int>>>, m: int): (i: nat)
    ensures i <= |states|
    ensures forall k :: 0 <= k < i ==> Paddable(states[k], m)
    ensures i < |states| ==> !Paddable(states[i], m)
    decreases |states|
  {
    if |states| == 0 || !Paddable(states[0], m) then 0
    else 1 + FirstUnpaddable(states[1..], m)
  }

  /** The steps after the padding loop has handled steps 0..i-1. */
  function PaddedPrefix(states: seq<Option<seq<int>>>, m: int, i: nat): (r: seq<Option<seq<int>>>)
    requires i <= |states|
    requires forall k :: 0 <= k < i ==> Paddable(states[k], m)
    ensures |r| == |states|
  {
    seq(|states|, k requires 0 <= k < |states| && (k < i ==> Paddable(states[k], m)) =>
      if k < i then Some(Pad(states[k].value, m)) else states[k])
  }

  /** What the dialog's answer does: the steps' state arrays afterwards, the
      channel list assigned to the electrode (None: the list is left as it
      was) and whether "Invalid channel." is shown. */
  datatype EditResult = EditResult(states: seq<Option<seq<int>>>, newChannels: Option<seq<int>>, invalid: bool)

  /** The step number line 311 reads the state of: the `i` the code has at
      hand there. After converting a non-empty first piece it is the last loop
      index; otherwise it is the `i` the list comprehension of line 297 leaks
      under Python 2 (the electrode's last old channel), unbound (NameError)
      when the electrode had no channels. */
  function ProbeIndex(tokens: seq<string>, oldChannels: seq<int>): Option<int>
    requires |tokens| >= 1
  {
    if |tokens[0]| > 0 then Some(|tokens| - 1)
    else if |oldChannels| > 0 then Some(oldChannels[|oldChannels| - 1])
    else None
  }

  /** The state array line 311 reads: that of step `i` (a Python list index,
      so negative values count from the end), or None when the line raises
      (`i` unbound, IndexError, or a step without options). */
  function ProbedState(tokens: seq<string>, oldChannels: seq<int>, states: seq<Option<seq<int>>>): Option<seq<int>>
    requires |tokens| >= 1
  {
    var probe := ProbeIndex(tokens, oldChannels);
    if probe.None? || !InRange(probe.value, |states|) || states[Slot(probe.value, |states|)].None? then None
    else states[Slot(probe.value, |states|)]
  }

  /** The channels a non-empty answer converts to (lines 304-310). */
  function ParsedChannels(tokens: seq<string>): Option<seq<int>>
    requires |tokens| >= 1
  {
    if |tokens[0]| > 0 then ChannelText.ConvertTokens(tokens) else Some([])
  }

  /** Lines 303-322 as written, for the answer `text`, the electrode's old
      channels and the steps' state arrays (None: the step has no options). */
  function EditOutcome(text: string, oldChannels: seq<int>, states: seq<Option<seq<int>>>): EditResult {
    if text == "" then EditResult(states, None, false)
    else
      var tokens := ChannelText.Split(text, ',');
      var parsed := ParsedChannels(tokens);
      var probed := ProbedState(tokens, oldChannels, states);
      if parsed.None? || probed.None? then EditResult(states, None, true)
      else
        var channels := parsed.value;
        if |channels| > 0 && Max(channels) >= |probed.value| then
          var m := Max(channels);
          var i := FirstUnpaddable(states, m);
          if i == |states| then EditResult(PaddedPrefix(states, m, i), Some(channels), false)
          else EditResult(PaddedPrefix(states, m, i), None, true)
        else EditResult(states, Some(channels), false)
  }

  /** An answer with a piece `int()` refuses (a non-empty first piece) shows
      "Invalid channel." and changes neither the electrode nor any step. */
  lemma EditRejectsNonInteger(text: string, oldChannels: seq<int>, states: seq<Option<seq<int>>>, k: nat)
    requires text != ""
    requires |ChannelText.Split(text, ',')[0]| > 0
    requires k < |ChannelText.Split(text, ',')| && ChannelText.ParseInt(ChannelText.Split(text, ',')[k]).None?
    ensures EditOutcome(text, oldChannels, states) == EditResult(states, None, true)
  {
    ChannelText.ConvertTokensSpec(ChannelText.Split(text, ','));
  }

  /** The answer "a,b" is refused and changes nothing. */
  lemma EditRejectsLetters(oldChannels: seq<int>, states: seq<Option<seq<int>>>)
    ensures EditOutcome("a,b", oldChannels, states) == EditResult(states, None, true)
  {
    var tokens := ChannelText.Split("a,b", ',');
    assert ChannelText.Split("b", ',') == ["b"] by {
      ChannelText.SplitNoSeparator("b", ',');
    }
    assert tokens == ["a", "b"] by {
      ChannelText.SplitAtSeparator("a", ',', "b");
      assert "a" + [','] + "b" == "a,b";
    }
    assert ChannelText.ParseInt("a").None?;
    EditRejectsNonInteger("a,b", oldChannels, states, 0);
  }

  /** An answer whose first piece is empty (",", ",3", ",a") converts
      nothing and never touches a step: it clears the electrode's channel
      list exactly when line 311 finds a step to read, and otherwise shows
      "Invalid channel."; the latter always happens when the electrode had no
      channels. */
  lemma EditEmptyFirstPiece(text: string, oldChannels: seq<int>, states: seq<Option<seq<int>>>)
    requires text != "" && ChannelText.Split(text, ',')[0] == ""
    ensures EditOutcome(text, oldChannels, states) ==
      if ProbedState(ChannelText.Split(text, ','), oldChannels, states).Some? then EditResult(states, Some([]), false)
      else EditResult(states, None, true)
    ensures |oldChannels| == 0 ==> EditOutcome(text, oldChannels, states) == EditResult(states, None, true)
  {
  }

  /** The answer ",a" skips the conversion (its first piece is empty), so
      "a" is never refused: whenever the electrode's last old channel names a
      step of the protocol that has options, line 311 reads that step and the
      list is cleared without an error. */
  lemma EditCommaLetterClears(oldChannels: seq<int>, states: seq<Option<seq<int>>>)
    requires |oldChannels| > 0 && InRange(oldChannels[|oldChannels| - 1], |states|)
    requires states[Slot(oldChannels[|oldChannels| - 1], |states|)].Some?
    ensures EditOutcome(",a", oldChannels, states) == EditResult(states, Some([]), false)
  {
    assert ChannelText.Split(",a", ',') == ["", "a"] by {
      ChannelText.SplitNoSeparator("a", ',');
      ChannelText.SplitAtSeparator("", ',', "a");
      assert "" + [','] + "a" == ",a";
    }
    EditEmptyFirstPiece(",a", oldChannels, states);
  }

  /** A successful edit assigns the converted list. When a channel lies
      beyond the array line 311 read (line 312), every step's array is
      zero-padded to max(channels) + 1 with its old entries kept in front;
      otherwise no step changes. */
  lemma EditAssignedSpec(text: string, oldChannels: seq<int>, states: seq<Option<seq<int>>>)
    requires EditOutcome(text, oldChannels, states).newChannels.Some?
    ensures text != "" && ProbedState(ChannelText.Split(text, ','), oldChannels, states).Some?
    ensures var r := EditOutcome(text, oldChannels, states);
      && !r.invalid
      && r.newChannels == ParsedChannels(ChannelText.Split(text, ','))
    ensures var r := EditOutcome(text, oldChannels, states);
      var channels := r.newChannels.value;
      var probed := ProbedState(ChannelText.Split(text, ','), oldChannels, states).value;
      |channels| > 0 && Max(channels) >= |probed| ==>
        forall k :: 0 <= k < |states| ==>
          states[k].Some? && r.states[k].Some? &&
          |r.states[k].value| == Max(channels) + 1 &&
          r.states[k].value[..|states[k].value|] == states[k].value &&
          forall p :: |states[k].value| <= p < |r.states[k].value| ==> r.states[k].value[p] == 0
    ensures var r := EditOutcome(text, oldChannels, states);
      var channels := r.newChannels.value;
      var probed := ProbedState(ChannelText.Split(text, ','), oldChannels, states).value;
      !(|channels| > 0 && Max(channels) >= |probed|) ==> r.states == states
  {
  }

  /** When the padding loop raises part way, the steps before the failing one
      stay padded to max(channels) + 1, the rest are untouched, and the
      electrode keeps its list; any earlier exception changes no step. */
  lemma EditPartialPadding(text: string, oldChannels: seq<int>, states: seq<Option<seq<int>>>)
    requires EditOutcome(text, oldChannels, states).invalid
    ensures EditOutcome(text, oldChannels, states).newChannels.None?
    ensures var r := EditOutcome(text, oldChannels, states);
      var parsed := ParsedChannels(ChannelText.Split(text, ','));
      r.states == states ||
        (parsed.Some? && |parsed.value| > 0 &&
         var m := Max(parsed.value);
         FirstUnpaddable(states, m) < |states| && r.states == PaddedPrefix(states, m, FirstUnpaddable(states, m)))
  {
  }

  // ---------------------------------------------------------------------
  // The probe at line 311, and the step it evidently meant
  // ---------------------------------------------------------------------

  /** Every step has options and all arrays have one length: the shape the
      protocol has when all its steps were created and padded together. */
  predicate Uniform(states: seq<Option<seq<int>>>) {
    && (forall k :: 0 <= k < |states| ==> states[k].Some?)
    && (forall k :: 0 <= k < |states| ==> |states[k].value| == |states[0].value|)
  }

  /** The edit with line 311 reading the current step's state, and an empty
      first piece meaning "no channels". */
  function EditOutcomeIntended(text: string, states: seq<Option<seq<int>>>, current: nat): EditResult
    requires current < |states|
  {
    if text == "" then EditResult(states, None, false)
    else
      var tokens := ChannelText.Split(text, ',');
      var parsed := ParsedChannels(tokens);
      if parsed.None? || states[current].None? then EditResult(states, None, true)
      else
        var channels := parsed.value;
        if |channels| > 0 && Max(channels) >= |states[current].value| then
          var m := Max(channels);
          var i := FirstUnpaddable(states, m);
          if i == |states| then EditResult(PaddedPrefix(states, m, i), Some(channels), false)
          else EditResult(PaddedPrefix(states, m, i), None, true)
        else EditResult(states, Some(channels), false)
  }

  /** As intended, every list of integers is accepted on a uniform protocol,
      and afterwards every step's array has an element for every non-negative
      channel of the list. */
  lemma IntendedEditAccepts(text: string, states: seq<Option<seq<int>>>, current: nat)
    requires current < |states| && Uniform(states)
    requires text != "" && ParsedChannels(ChannelText.Split(text, ',')).Some?
    ensures var r := EditOutcomeIntended(text, states, current);
      && r.newChannels == ParsedChannels(ChannelText.Split(text, ','))
      && !r.invalid
      && forall k, c :: 0 <= k < |states| && c in r.newChannels.value && c >= 0 ==> c < |r.states[k].value|
  {
    var channels := ParsedChannels(ChannelText.Split(text, ',')).value;
    if |channels| > 0 && Max(channels) >= |states[current].value| {
      var m := Max(channels);
      assert forall k :: 0 <= k < |states| ==> Paddable(states[k], m);
      assert FirstUnpaddable(states, m) == |states|;
    }
  }

  /** As written, the answer "3,4" on a one-step protocol is refused: line 311
      asks for step 1, which does not exist, although the same answer is
      accepted as intended. */
  lemma EditProbesTokenCount()
    ensures EditOutcome("3,4", [], [Some([0, 0, 0, 0, 0])]) == EditResult([Some([0, 0, 0, 0, 0])], None, true)
    ensures EditOutcomeIntended("3,4", [Some([0, 0, 0, 0, 0])], 0).newChannels == Some([3, 4])
  {
    ThreeFourConverts();
    assert ProbeIndex(["3", "4"], []) == Some(1);
    assert Max([3, 4]) == 4;
  }

  /** As written, the probe can also let an index-unsafe list through: on a
      protocol whose step 1 is longer than the current step 0, "3,7" reads
      step 1, pads nothing and is assigned; the next click on the electrode
      toggles channel 3 of step 0 and raises IndexError at channel 7. */
  lemma EditSkipsPaddingThenClickStops()
    ensures EditOutcome("3,7", [], [Some(Zeros(5)), Some(Zeros(8))]) ==
      EditResult([Some(Zeros(5)), Some(Zeros(8))], Some([3, 7]), false)
    ensures !AllInRange([3, 7], 5)
    ensures Toggled(Zeros(5), [3, 7]) == Zeros(5)[3 := 1]
  {
    ThreeSevenConverts();
    assert ProbeIndex(["3", "7"], []) == Some(1);
    assert Max([3, 7]) == 7;
    ThreeSevenClickStops();
  }

  lemma ThreeSevenClickStops()
    ensures !AllInRange([3, 7], 5)
    ensures Toggled(Zeros(5), [3, 7]) == Zeros(5)[3 := 1]
  {
    assert !InRange([3, 7][1], 5);
    ToggledStops(Zeros(5), [3, 7], 1);
    assert [3, 7][..1] == [3];
    assert [3][1..] == [];
  }

  /** A two-digit answer "a,b" is the two pieces "a" and "b", converted
      to [a, b]. */
  lemma TwoDigitsConvert(a: nat, b: nat)
    requires a < 10 && b < 10
    ensures ChannelText.Split([ChannelText.DigitChar(a), ',', ChannelText.DigitChar(b)], ',') ==
      [[ChannelText.DigitChar(a)], [ChannelText.DigitChar(b)]]
    ensures ParsedChannels([[ChannelText.DigitChar(a)], [ChannelText.DigitChar(b)]]) == Some([a, b])
  {
    var x := [ChannelText.DigitChar(a)];
    var y := [ChannelText.DigitChar(b)];
    assert ChannelText.Split([ChannelText.DigitChar(a), ',', ChannelText.DigitChar(b)], ',') == [x, y] by {
      ChannelText.SplitNoSeparator(y, ',');
      ChannelText.SplitAtSeparator(x, ',', y);
      assert x + [','] + y == [ChannelText.DigitChar(a), ',', ChannelText.DigitChar(b)];
    }
    DigitParses(a);
    DigitParses(b);
    ChannelText.ConvertTokensSpec([x, y]);
    assert ChannelText.ConvertTokens([x, y]).value == [a, b];
  }

  /** The answer "3,7" is the two pieces "3" and "7", converted to [3, 7]. */
  lemma ThreeSevenConverts()
    ensures ChannelText.Split("3,7", ',') == ["3", "7"]
    ensures ParsedChannels(["3", "7"]) == Some([3, 7])
  {
    TwoDigitsConvert(3, 7);
    assert [ChannelText.DigitChar(3), ',', ChannelText.DigitChar(7)] == "3,7";
  }

  /** The answer "3,4" is the two pieces "3" and "4", converted to [3, 4]. */
  lemma ThreeFourConverts()
    ensures ChannelText.Split("3,4", ',') == ["3", "4"]
    ensures ParsedChannels(["3", "4"]) == Some([3, 4])
  {
    TwoDigitsConvert(3, 4);
    assert [ChannelText.DigitChar(3), ',', ChannelText.DigitChar(4)] == "3,4";
  }

  /** A single decimal digit converts to its value. */
  lemma DigitParses(n: nat)
    requires n < 10
    ensures ChannelText.ParseInt([ChannelText.DigitChar(n)]) == Some(n)
  {
    ChannelText.ParseIntOfString(n);
  }
}
