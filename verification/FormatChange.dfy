/// The engine's clock thread, its control requests and the format change
/// (src/engine/engine.cpp), as a state machine over their locked regions and
/// gated calls.
///
/// What it is for: a frame of one raster must never reach an output opened at
/// another, nor be converted into a buffer of another, whatever is planned,
/// parked, stopped, wedged or replaced meanwhile.
module FormatChange {
  import opened Basics

  /// A raster with its rate and scan, compared only for equality.
  type Format = nat

  datatype Pixels = Bgra | Uyvy

  /// `reopens` says what start() does to an output that is already running:
  /// most kinds open again at the format they are given; the screen, the shared
  /// surface and KMS return true and stay as they are
  /// (src/outputs/screen_output.cpp:22-25, shared_output.cpp:20-23,
  /// kms_output.cpp:251-254).
  datatype Output = Output(pixels: Pixels, reopens: bool, running: bool, openedAt: Format)

  /// What an output is created as.
  datatype Kind = Kind(pixels: Pixels, reopens: bool)

  /// Who is inside a slot's gate: calls into one output never overlap.
  datatype Gate = Free | ByClock | ByControl | ByReport

  /// An output behind its gate (src/outputs/output_slot.h). `generation` moves
  /// on whenever the object is replaced or destroyed.
  datatype Slot = Slot(output: Option<Output>, generation: nat, gate: Gate)

  datatype Desc = Desc(generation: nat, present: bool, pixels: Pixels)

  datatype Entry = Entry(slot: nat, desc: Desc, enabled: bool)

  datatype Target = Target(slot: nat, desc: Desc)

  /// Where the clock thread is in its loop.
  datatype Clock =
    | Checking
    | Parked
    | Reading
    | Framed(frame: Format)
    | Calling(frame: Format, targets: seq<Target>, i: nat)
    | Submitting(frame: Format, targets: seq<Target>, i: nat)

  datatype Item = Item(name: string, slot: nat, wasEnabled: bool, stopped: bool, started: bool)

  datatype GateResult = GateBusy | NoDevice | Ran(started: bool)

  /// Where the one control request holding the queue is. `inGate` says it is
  /// inside the gate of the slot it is working on.
  datatype Control =
    | Idle
    | Stopping(next: Format, previous: Format, items: seq<Item>, i: nat, inGate: bool)
    | Awaiting(next: Format, previous: Format, items: seq<Item>)
    | Swapped(next: Format, items: seq<Item>)
    | Resuming(openAt: Format, items: seq<Item>)
    | Reopening(openAt: Format, items: seq<Item>, i: nat, inGate: bool)
    | Enabling(name: string, on: bool, format: Format, wasEnabled: bool, inGate: bool)
    | EnableDone(name: string, on: bool, wasEnabled: bool, result: GateResult)
    | AddDone(name: string, output: Output)
    | Deciding(name: string, newName: string, kind: Kind, format: Format)
    | Updating(name: string, newName: string, kind: Kind, format: Format, wasEnabled: bool, inGate: bool)
    | UpdateDone(name: string, newName: string, wasEnabled: bool, ran: bool, replaced: bool, restored: bool)
    | Removing(name: string, wasEnabled: bool, inGate: bool)
    | RemoveDone(name: string, wasEnabled: bool, ran: bool)

  datatype Submission = Submission(frame: Format, pixels: Pixels, output: Output, pool: Format)

  /// `waiting` holds the format changes that have read `previous` and are not
  /// yet through the control queue; `slipped` records that a step of the run
  /// was a `Slip`.
  datatype State = State(
    format: Format, pool: Format, pauseRequested: bool, paused: bool,
    clock: Clock, control: Control, waiting: seq<(Format, Format)>,
    slots: seq<Slot>, outputs: map<string, Entry>,
    submitted: seq<Submission>, slipped: bool)

  datatype Step =
    | ClockCheck
    | ClockWake
    | ClockRead(frame: Format)
    | ClockPlan(order: seq<string>)
    | ClockEnter
    | ClockSkip
    | ClockSubmit
    | ClockEndTick
    | ReportEnter(slot: nat)
    | ReportLeave(slot: nat)
    | ReadPrevious(format: Format)
    | GiveUp(k: nat)
    | StartFormat(k: nat, refuse: bool, order: seq<string>)
    | StartEnable(name: string, on: bool)
    | StartAdd(name: string, kind: Kind, ok: bool)
    | StartUpdate(name: string, newName: string, kind: Kind)
    | UpdateAssign
    | StartRemove(name: string)
    | ControlEnter
    | ControlBusy
    | ControlRun(ok: bool, put: Option<Output>)
    | ControlParked
    | ControlTimeout
    | ControlNext

  // ------------------------------------------------------------- clock steps

  /// What the clock copies out of the output list for one tick, in `order`.
  function Plan(outputs: map<string, Entry>, order: seq<string>): (r: seq<Target>)
    requires forall n :: n in order ==> n in outputs
    ensures |r| == |order|
    ensures forall k :: 0 <= k < |order| ==> r[k] == Target(outputs[order[k]].slot, outputs[order[k]].desc)
  {
    if order == [] then []
    else [Target(outputs[order[0]].slot, outputs[order[0]].desc)] + Plan(outputs, order[1..])
  }

  /// `order` lists exactly the outputs that are enabled and present.
  ghost predicate IsPlan(outputs: map<string, Entry>, order: seq<string>) {
    && (forall n :: n in order <==> n in outputs && outputs[n].enabled && outputs[n].desc.present)
    && (forall i, j :: 0 <= i < j < |order| ==> order[i] != order[j])
  }

  function SetGate(s: State, k: nat, gate: Gate): State
    requires k < |s.slots|
  {
    s.(slots := s.slots[k := s.slots[k].(gate := gate)])
  }

  ghost function ClockStep(s: State, step: Step): Option<State> {
    match step
    case ClockCheck =>
      if !s.clock.Checking? then None
      else if s.pauseRequested then Some(s.(clock := Parked, paused := true))
      else Some(s.(clock := Reading))
    case ClockWake =>
      if !s.clock.Parked? || s.pauseRequested then None else Some(s.(clock := Reading, paused := false))
    case ClockRead(frame) =>
      if !s.clock.Reading? then None else Some(s.(clock := Framed(frame)))
    case ClockPlan(order) =>
      if !s.clock.Framed? then None
      else if s.clock.frame != s.format then Some(s.(clock := Checking))
      else if !IsPlan(s.outputs, order) then None
      else Some(s.(clock := Calling(s.clock.frame, Plan(s.outputs, order), 0)))
    case ClockEnter =>
      if !s.clock.Calling? || s.clock.i >= |s.clock.targets| then None
      else
        var k := s.clock.targets[s.clock.i].slot;
        if k >= |s.slots| || !s.slots[k].gate.Free? then None
        else Some(SetGate(s, k, ByClock).(clock := Submitting(s.clock.frame, s.clock.targets, s.clock.i)))
    case ClockSkip =>
      if !s.clock.Calling? || s.clock.i >= |s.clock.targets| then None
      else
        var k := s.clock.targets[s.clock.i].slot;
        if k >= |s.slots| || s.slots[k].gate.Free? then None
        else Some(s.(clock := Calling(s.clock.frame, s.clock.targets, s.clock.i + 1)))
    case ClockSubmit =>
      if !s.clock.Submitting? || s.clock.i >= |s.clock.targets| then None
      else
        var target := s.clock.targets[s.clock.i];
        if target.slot >= |s.slots| then None
        else
          var slot := s.slots[target.slot];
          var after := SetGate(s, target.slot, Free).(clock := Calling(s.clock.frame, s.clock.targets, s.clock.i + 1));
          if slot.output.Some? && slot.generation == target.desc.generation && slot.output.value.running then
            Some(after.(submitted := s.submitted
                          + [Submission(s.clock.frame, target.desc.pixels, slot.output.value, s.pool)]))
          else Some(after)
    case ClockEndTick =>
      if !s.clock.Calling? || s.clock.i < |s.clock.targets| then None else Some(s.(clock := Checking))
    case ReportEnter(k) =>
      if k >= |s.slots| || !s.slots[k].gate.Free? then None else Some(SetGate(s, k, ByReport))
    case ReportLeave(k) =>
      if k >= |s.slots| || !s.slots[k].gate.ByReport? then None else Some(SetGate(s, k, Free))
    case _ => None
  }

  // ----------------------------------------------------------- control steps

  function Items(outputs: map<string, Entry>, order: seq<string>): (r: seq<Item>)
    requires forall n :: n in order ==> n in outputs
    ensures |r| == |order|
    ensures forall k :: 0 <= k < |order| ==>
        r[k] == Item(order[k], outputs[order[k]].slot, outputs[order[k]].enabled, false, false)
  {
    if order == [] then []
    else [Item(order[0], outputs[order[0]].slot, outputs[order[0]].enabled, false, false)] + Items(outputs, order[1..])
  }

  function DisableAll(outputs: map<string, Entry>): map<string, Entry> {
    map n | n in outputs :: outputs[n].(enabled := false)
  }

  function SetEnabled(outputs: map<string, Entry>, name: string, on: bool): map<string, Entry> {
    if name in outputs then outputs[name := outputs[name].(enabled := on)] else outputs
  }

  /// Step 4 of a format change: feed the outputs that came back.
  function Feed(outputs: map<string, Entry>, items: seq<Item>): map<string, Entry> {
    if items == [] then outputs
    else
      var item := items[0];
      Feed(if Fed(item) then SetEnabled(outputs, item.name, true) else outputs,
           items[1..])
  }

  /// `order` lists every output once.
  ghost predicate ListsAll(outputs: map<string, Entry>, order: seq<string>) {
    && (forall n :: n in order <==> n in outputs)
    && (forall i, j :: 0 <= i < j < |order| ==> order[i] != order[j])
  }

  ghost function StartStep(s: State, step: Step): Option<State> {
    match step
    case ReadPrevious(format) =>
      if format == s.format then None else Some(s.(waiting := s.waiting + [(format, s.format)]))
    case GiveUp(k) =>
      if k >= |s.waiting| then None else Some(s.(waiting := s.waiting[..k] + s.waiting[k + 1..]))
    case StartFormat(k, refuse, order) =>
      if !s.control.Idle? || k >= |s.waiting| || !ListsAll(s.outputs, order) then None
      else
        var rest := s.(waiting := s.waiting[..k] + s.waiting[k + 1..]);
        if refuse then Some(rest)
        else Some(rest.(outputs := DisableAll(s.outputs),
                        control := Stopping(s.waiting[k].0, s.waiting[k].1, Items(s.outputs, order), 0, false)))
    case StartEnable(name, on) =>
      if !s.control.Idle? || name !in s.outputs || !s.outputs[name].desc.present then None
      else Some(s.(control := Enabling(name, on, s.format, s.outputs[name].enabled, false),
                   outputs := if on then s.outputs else SetEnabled(s.outputs, name, false)))
    case StartAdd(name, kind, ok) =>
      if !s.control.Idle? || name in s.outputs then None
      else Some(s.(control := AddDone(name, Output(kind.pixels, kind.reopens, ok, s.format))))
    case StartUpdate(name, newName, kind) =>
      if !s.control.Idle? || name !in s.outputs || (newName != name && newName in s.outputs) then None
      else Some(s.(control := Deciding(name, newName, kind, s.format)))
    case UpdateAssign =>
      if !s.control.Deciding? then None else Some(s.(control := Idle))
    case StartRemove(name) =>
      if !s.control.Idle? || name !in s.outputs then None
      else Some(s.(control := Removing(name, s.outputs[name].enabled, false),
                   outputs := SetEnabled(s.outputs, name, false)))
    case _ => None
  }

  /// The slot whose gate the control request wants next, if it wants one.
  function Wanted(s: State): Option<nat> {
    match s.control
    case Stopping(_, _, items, i, _) => if i < |items| then Some(items[i].slot) else None
    case Reopening(_, items, i, _) =>
      if i < |items| && items[i].wasEnabled && items[i].stopped then Some(items[i].slot) else None
    case Enabling(name, _, _, _, _) => if name in s.outputs then Some(s.outputs[name].slot) else None
    case Updating(name, _, _, _, _, _) => if name in s.outputs then Some(s.outputs[name].slot) else None
    case Removing(name, _, _) => if name in s.outputs then Some(s.outputs[name].slot) else None
    case _ => None
  }

  predicate InGate(c: Control) {
    (c.Stopping? || c.Reopening? || c.Enabling? || c.Updating? || c.Removing?) && c.inGate
  }

  /// start() on an output that does not reopen while it runs changes nothing.
  predicate StaysOpen(o: Output) { o.running && !o.reopens }

  /// start(): the output is open at `format`, or stopped if it could not be,
  /// unless it was running and stays as it is.
  function Started(o: Output, format: Format, ok: bool): Output {
    if StaysOpen(o) then o else o.(running := ok, openedAt := if ok then format else o.openedAt)
  }

  /// What start() returns.
  predicate StartSays(o: Output, ok: bool) { StaysOpen(o) || ok }

  function Stopped(o: Output): Output { o.(running := false) }

  /// The gate could not be had in time.
  function Refused(c: Control): Control {
    match c
    case Stopping(next, previous, items, i, _) =>
      if i < |items| then Stopping(next, previous, items[i := items[i].(stopped := false)], i + 1, false) else c
    case Reopening(openAt, items, i, _) =>
      if i < |items| then Reopening(openAt, items[i := items[i].(started := false)], i + 1, false) else c
    case Enabling(name, on, _, wasEnabled, _) => EnableDone(name, on, wasEnabled, GateBusy)
    case Updating(name, newName, _, _, wasEnabled, _) => UpdateDone(name, newName, wasEnabled, false, false, false)
    case Removing(name, wasEnabled, _) => RemoveDone(name, wasEnabled, false)
    case _ => c
  }

  /// What the request does inside the gate of `slot`: the slot afterwards and
  /// where the request goes. `put` is what a failed update manages to put back.
  function Work(c: Control, slot: Slot, ok: bool, put: Option<Output>): Option<(Slot, Control)> {
    match c
    case Stopping(next, previous, items, i, _) =>
      if i >= |items| then None
      else Some((slot.(output := if slot.output.Some? then Some(Stopped(slot.output.value)) else None),
                 Stopping(next, previous, items[i := items[i].(stopped := true)], i + 1, false)))
    case Reopening(openAt, items, i, _) =>
      if i >= |items| then None
      else Some((slot.(output := if slot.output.Some? then Some(Started(slot.output.value, openAt, ok)) else None),
                 Reopening(openAt, items[i := items[i].(started := slot.output.Some? && StartSays(slot.output.value, ok))], i + 1, false)))
    case Enabling(name, on, format, wasEnabled, _) =>
      if slot.output.None? then Some((slot, EnableDone(name, on, wasEnabled, NoDevice)))
      else if on == wasEnabled && slot.output.value.running == on then
        Some((slot, EnableDone(name, on, wasEnabled, Ran(true))))
      else if on then
        Some((slot.(output := Some(Started(slot.output.value, format, ok))),
              EnableDone(name, on, wasEnabled, Ran(StartSays(slot.output.value, ok)))))
      else
        Some((slot.(output := Some(Stopped(slot.output.value))), EnableDone(name, on, wasEnabled, Ran(true))))
    case Updating(name, newName, kind, format, wasEnabled, _) =>
      var bumped := slot.(generation := slot.generation + 1);
      if ok then
        Some((bumped.(output := Some(Output(kind.pixels, kind.reopens, true, format))),
              UpdateDone(name, newName, wasEnabled, true, true, false)))
      else if put.Some? && put.value.running && !(wasEnabled && put.value.openedAt == format) then None
      else
        Some((bumped.(output := put),
              UpdateDone(name, newName, wasEnabled, true, false, put.Some? && put.value.running)))
    case Removing(name, wasEnabled, _) =>
      Some((slot.(output := None, generation := slot.generation + 1), RemoveDone(name, wasEnabled, true)))
    case _ => None
  }

  function Describe(slot: Slot): Desc {
    Desc(slot.generation, slot.output.Some?, if slot.output.Some? then slot.output.value.pixels else Bgra)
  }

  function GateStep(s: State, step: Step): Option<State> {
    var wanted := Wanted(s);
    if wanted.None? || wanted.value >= |s.slots| then None
    else
      var k := wanted.value;
      match step
      case ControlEnter =>
        if InGate(s.control) || !s.slots[k].gate.Free? then None
        else Some(SetGate(s, k, ByControl).(control := s.control.(inGate := true)))
      case ControlBusy =>
        if InGate(s.control) || s.slots[k].gate.Free? then None else Some(s.(control := Refused(s.control)))
      case ControlRun(ok, put) =>
        if !InGate(s.control) then None
        else (match Work(s.control, s.slots[k], ok, put)
              case None => None
              case Some((slot, control)) =>
                Some(s.(slots := s.slots[k := slot.(gate := Free)], control := control)))
      case _ => None
  }

  /// The parking handshake and the swap of what the clock owns.
  function SwapStep(s: State, step: Step): Option<State> {
    match (step, s.control)
    case (ControlNext, Stopping(next, previous, items, i, _)) =>
      if i < |items| then None
      else Some(s.(pauseRequested := true, control := Awaiting(next, previous, items)))
    case (ControlParked, Awaiting(next, previous, items)) =>
      if !s.paused then None else Some(s.(format := next, control := Swapped(next, items)))
    case (ControlTimeout, Awaiting(next, previous, items)) =>
      if s.paused then None
      else Some(s.(control := Resuming(previous, items)))
    case (ControlNext, Swapped(next, items)) => Some(s.(pool := next, control := Resuming(next, items)))
    case (ControlNext, Resuming(openAt, items)) =>
      Some(s.(pauseRequested := false, control := Reopening(openAt, items, 0, false)))
    case (ControlNext, Reopening(openAt, items, i, inGate)) =>
      if i >= |items| then Some(s.(outputs := Feed(s.outputs, items), control := Idle))
      else if items[i].wasEnabled && items[i].stopped then None
      else Some(s.(control := Reopening(openAt, items, i + 1, false)))
    case _ => None
  }

  /// The last locked region of the other requests.
  function FinishStep(s: State): Option<State> {
    match s.control
    case EnableDone(name, on, wasEnabled, result) =>
      var enabled := match result
                     case Ran(started) => on && started
                     case _ => wasEnabled;
      Some(s.(outputs := SetEnabled(s.outputs, name, enabled), control := Idle))
    case AddDone(name, output) =>
      var slot := Slot(Some(output), 1, Free);
      Some(s.(slots := s.slots + [slot], control := Idle,
              outputs := s.outputs[name := Entry(|s.slots|, Describe(slot), output.running)]))
    case Deciding(name, newName, kind, format) =>
      if name !in s.outputs then None
      else Some(s.(control := Updating(name, newName, kind, format, s.outputs[name].enabled, false),
                   outputs := SetEnabled(s.outputs, name, false)))
    case UpdateDone(name, newName, wasEnabled, ran, replaced, restored) =>
      if !ran then Some(s.(outputs := SetEnabled(s.outputs, name, wasEnabled), control := Idle))
      else if name !in s.outputs || s.outputs[name].slot >= |s.slots| then None
      else
        var entry := s.outputs[name];
        var desc := Describe(s.slots[entry.slot]);
        if replaced then
          Some(s.(outputs := (s.outputs - {name})[newName := Entry(entry.slot, desc, true)], control := Idle))
        else
          Some(s.(outputs := s.outputs[name := Entry(entry.slot, desc, restored)], control := Idle))
    case RemoveDone(name, wasEnabled, ran) =>
      Some(s.(outputs := if ran then s.outputs - {name} else SetEnabled(s.outputs, name, wasEnabled), control := Idle))
    case _ => None
  }

  ghost function Base(s: State, step: Step): Option<State> {
    match step
    case ClockCheck | ClockWake | ClockRead(_) | ClockPlan(_) | ClockEnter | ClockSkip | ClockSubmit
       | ClockEndTick | ReportEnter(_) | ReportLeave(_) => ClockStep(s, step)
    case ReadPrevious(_) | GiveUp(_) | StartFormat(_, _, _) | StartEnable(_, _) | StartAdd(_, _, _)
       | StartUpdate(_, _, _) | UpdateAssign | StartRemove(_) => StartStep(s, step)
    case ControlEnter | ControlBusy | ControlRun(_, _) => GateStep(s, step)
    case ControlParked | ControlTimeout => SwapStep(s, step)
    case ControlNext => if FormatPhase(s.control) then SwapStep(s, step) else FinishStep(s)
  }

  // ------------------------------------------------------------------ slips

  /// A request to enable an output that start() left as it was, open at another
  /// raster than the engine's.
  predicate FeedsLeftOpen(s: State, step: Step) {
    && step.ControlNext? && s.control.EnableDone? && s.control.on && s.control.result == Ran(true)
    && s.control.name in s.outputs && s.outputs[s.control.name].slot < |s.slots|
    && var o := s.slots[s.outputs[s.control.name].slot].output;
       o.Some? && StaysOpen(o.value) && o.value.openedAt != s.format
  }

  predicate Fed(item: Item) { item.stopped && item.wasEnabled && item.started }

  /// A format change about to feed outputs it reopened at another raster than
  /// the engine's.
  ghost predicate FeedsElsewhere(s: State, step: Step) {
    && step.ControlNext? && s.control.Reopening? && s.control.i >= |s.control.items| && s.control.openAt != s.format
    && exists k :: 0 <= k < |s.control.items| && Fed(s.control.items[k])
  }

  /// The tick under way has still to call the object in slot `k`.
  ghost predicate Planned(s: State, k: nat) {
    && (s.clock.Calling? || s.clock.Submitting?) && k < |s.slots|
    && exists j :: s.clock.i <= j < |s.clock.targets|
         && s.clock.targets[j].slot == k && s.clock.targets[j].desc.generation == s.slots[k].generation
  }

  /// A format change about to reopen at another raster an output the tick under
  /// way has still to call.
  ghost predicate ReopensPlanned(s: State, step: Step) {
    && step.ControlRun? && step.ok && InGate(s.control) && s.control.Reopening? && s.control.openAt != s.format
    && s.control.i < |s.control.items| && s.control.items[s.control.i].slot < |s.slots|
    && s.slots[s.control.items[s.control.i].slot].output.Some? && Planned(s, s.control.items[s.control.i].slot)
  }

  /// The steps that put an output in the way of frames of another raster.
  ghost predicate Slip(s: State, step: Step) {
    FeedsLeftOpen(s, step) || FeedsElsewhere(s, step) || ReopensPlanned(s, step)
  }

  ghost function Mark(s: State, step: Step): State { s.(slipped := s.slipped || Slip(s, step)) }

  ghost function Next(s: State, step: Step): Option<State> { Base(Mark(s, step), step) }

  predicate FormatPhase(c: Control) {
    c.Stopping? || c.Awaiting? || c.Swapped? || c.Resuming? || c.Reopening?
  }

  // -------------------------------------------------------------- invariant

  predicate Current(slot: Slot, format: Format) {
    slot.output.Some? && slot.output.value.running ==> slot.output.value.openedAt == format
  }

  /// A description is of an object the slot holds, or once held.
  predicate DescOk(slot: Slot, desc: Desc) {
    && desc.generation <= slot.generation
    && (desc.generation == slot.generation && slot.output.Some? ==> desc.pixels == slot.output.value.pixels)
  }

  predicate EntryOk(s: State, e: Entry) {
    e.slot < |s.slots| && DescOk(s.slots[e.slot], e.desc)
    && (e.enabled && !s.slipped ==> Current(s.slots[e.slot], s.format))
  }

  predicate TargetOk(s: State, target: Target) {
    target.slot < |s.slots| && DescOk(s.slots[target.slot], target.desc)
    && (!s.slipped && s.slots[target.slot].generation == target.desc.generation ==> Current(s.slots[target.slot], s.format))
  }

  /// Every output has a slot of its own.
  predicate SlotsApart(outputs: map<string, Entry>) {
    forall m, n :: m in outputs && n in outputs && m != n ==> outputs[m].slot != outputs[n].slot
  }

  ghost predicate OutputsOk(s: State) {
    (forall n :: n in s.outputs ==> EntryOk(s, s.outputs[n])) && SlotsApart(s.outputs)
  }

  ghost predicate ClockOk(s: State) {
    && (s.paused <==> s.clock.Parked?)
    && (s.clock.Calling? || s.clock.Submitting? ==>
          && s.clock.frame == s.format && s.pool == s.format && s.clock.i <= |s.clock.targets|
          && forall k :: s.clock.i <= k < |s.clock.targets| ==> TargetOk(s, s.clock.targets[k]))
  }

  predicate Running(slot: Slot) { slot.output.Some? && slot.output.value.running }

  predicate ItemOk(s: State, item: Item) {
    && item.name in s.outputs && s.outputs[item.name].slot == item.slot && item.slot < |s.slots|
    && (item.started ==> item.stopped && item.wasEnabled && Running(s.slots[item.slot]))
    && (item.stopped && !item.started ==> !Running(s.slots[item.slot]))
  }

  predicate OpenedAt(s: State, item: Item, openAt: Format) {
    item.started && item.slot < |s.slots| && s.slots[item.slot].output.Some? ==>
      s.slots[item.slot].output.value.openedAt == openAt
  }

  predicate NamesApart(items: seq<Item>) {
    forall i, j :: 0 <= i < j < |items| ==> items[i].name != items[j].name
  }

  /// What a format change relies on while it holds the queue: every output is
  /// off, the ones it stopped are stopped, and the ones it started are open
  /// where it opened them.
  ghost predicate FormatOk(s: State) {
    FormatPhase(s.control) ==>
      && (forall n :: n in s.outputs ==> !s.outputs[n].enabled)
      && NamesApart(s.control.items)
      && (forall k :: 0 <= k < |s.control.items| ==> ItemOk(s, s.control.items[k]))
      && (s.control.Stopping? ==> s.control.i <= |s.control.items|)
      && (!s.control.Reopening? ==> forall k :: 0 <= k < |s.control.items| ==> !s.control.items[k].started)
      && (s.control.Stopping? || s.control.Reopening? ==>
            forall k :: s.control.i <= k < |s.control.items| ==>
              !s.control.items[k].started && (s.control.Stopping? ==> !s.control.items[k].stopped))
      && (s.control.Swapped? ==> s.paused && s.format == s.control.next)
      && (s.control.Reopening? ==>
            forall k :: 0 <= k < |s.control.items| ==> OpenedAt(s, s.control.items[k], s.control.openAt))
  }

  /// What the other requests rely on: the entry is off while it is worked on,
  /// or is at the engine's raster if it goes back on.
  predicate RequestOk(s: State) {
    match s.control
    case Enabling(name, on, format, wasEnabled, _) =>
      name in s.outputs && format == s.format && s.outputs[name].slot < |s.slots|
      && (wasEnabled && !s.slipped ==> Current(s.slots[s.outputs[name].slot], s.format))
    case EnableDone(name, on, wasEnabled, result) =>
      name in s.outputs && s.outputs[name].slot < |s.slots|
      && (wasEnabled && !s.slipped ==> Current(s.slots[s.outputs[name].slot], s.format))
      && (on && result == Ran(true) && !s.slipped ==>
            var slot := s.slots[s.outputs[name].slot];
            Current(slot, s.format) || (slot.output.Some? && StaysOpen(slot.output.value)))
    case AddDone(name, output) => name !in s.outputs && (output.running ==> output.openedAt == s.format)
    case Deciding(name, newName, kind, format) =>
      name in s.outputs && format == s.format && (newName == name || newName !in s.outputs)
    case Updating(name, newName, kind, format, wasEnabled, _) =>
      name in s.outputs && format == s.format && (newName == name || newName !in s.outputs)
      && s.outputs[name].slot < |s.slots|
      && (wasEnabled && !s.slipped ==> Current(s.slots[s.outputs[name].slot], s.format))
    case UpdateDone(name, newName, wasEnabled, ran, replaced, restored) =>
      name in s.outputs && (newName == name || newName !in s.outputs) && s.outputs[name].slot < |s.slots|
      && (!s.slipped && (ran || wasEnabled) ==> Current(s.slots[s.outputs[name].slot], s.format))
    case Removing(name, wasEnabled, _) =>
      name in s.outputs && s.outputs[name].slot < |s.slots|
      && (wasEnabled && !s.slipped ==> Current(s.slots[s.outputs[name].slot], s.format))
    case RemoveDone(name, wasEnabled, ran) =>
      name in s.outputs && s.outputs[name].slot < |s.slots|
      && (!ran && wasEnabled && !s.slipped ==> Current(s.slots[s.outputs[name].slot], s.format))
    case _ => true
  }

  predicate SwapOk(s: State) {
    && (s.pauseRequested <==> s.control.Awaiting? || s.control.Swapped? || s.control.Resuming?)
    && (!s.control.Swapped? ==> s.pool == s.format)
  }

  /// Neither the pixel layout nor the conversion buffer is ever the wrong one.
  predicate LayoutSafe(sub: Submission) { sub.pixels == sub.output.pixels && sub.pool == sub.frame }

  predicate RasterSafe(sub: Submission) { sub.frame == sub.output.openedAt }

  ghost predicate LogOk(s: State) {
    && (forall k :: 0 <= k < |s.submitted| ==> LayoutSafe(s.submitted[k]))
    && (!s.slipped ==> forall k :: 0 <= k < |s.submitted| ==> RasterSafe(s.submitted[k]))
  }

  ghost predicate Inv(s: State) {
    OutputsOk(s) && ClockOk(s) && FormatOk(s) && RequestOk(s) && SwapOk(s) && LogOk(s)
  }

  /// Every output named in `outputs` gets a slot of its own at the engine's
  /// format, open and fed.
  ghost predicate Fresh(s: State) {
    && s.clock.Checking? && s.control.Idle? && !s.paused && !s.pauseRequested && !s.slipped
    && s.pool == s.format && s.submitted == []
    && OutputsOk(s)
  }

  lemma FreshHolds(s: State)
    requires Fresh(s)
    ensures Inv(s)
  {
  }

  // ---------------------------------------------------------- preservation

  /// The same object as before, or a later one.
  predicate SameOrLater(old': Slot, new': Slot) {
    && old'.generation <= new'.generation
    && (old'.generation == new'.generation ==>
          (old'.output.Some? <==> new'.output.Some?)
          && (old'.output.Some? ==> old'.output.value.pixels == new'.output.value.pixels))
  }

  /// A change inside one slot's gate that no plan and no entry can notice
  /// wrongly: open at the engine's format, or where it already was.
  predicate Benign(s: State, old': Slot, new': Slot) {
    && SameOrLater(old', new')
    && (s.slipped || Current(new', s.format)
        || (old'.output.Some? && new'.output.Some? && old'.output.value.running
            && old'.output.value.openedAt == new'.output.value.openedAt))
  }

  lemma SlotChangeKeeps(s: State, k: nat, slot: Slot)
    requires k < |s.slots| && Benign(s, s.slots[k], slot)
    ensures forall e: Entry :: EntryOk(s, e) ==> EntryOk(s.(slots := s.slots[k := slot]), e)
    ensures forall t: Target :: TargetOk(s, t) ==> TargetOk(s.(slots := s.slots[k := slot]), t)
  {
  }

  /// Only the gate of a slot changes.
  lemma SetGateKeeps(s: State, k: nat, gate: Gate)
    requires Inv(s) && k < |s.slots|
    ensures Inv(SetGate(s, k, gate))
  {
    var s' := SetGate(s, k, gate);
    SlotChangeKeeps(s, k, s'.slots[k]);
    assert OutputsOk(s');
    assert ClockOk(s');
    assert FormatOk(s') by { SetGateKeepsFormat(s, k, gate); }
    assert RequestOk(s');
  }

  lemma SetGateKeepsFormat(s: State, k: nat, gate: Gate)
    requires FormatOk(s) && k < |s.slots|
    ensures FormatOk(SetGate(s, k, gate))
  {
  }

  /// Only the clock moves, and perhaps logs a submission.
  lemma ClockMoveKeeps(s: State, clock: Clock, paused: bool, submitted: seq<Submission>)
    requires Inv(s)
    requires ClockOk(s.(clock := clock, paused := paused)) && (s.control.Swapped? ==> paused)
    requires LogOk(s.(submitted := submitted))
    ensures Inv(s.(clock := clock, paused := paused, submitted := submitted))
  {
    var s' := s.(clock := clock, paused := paused, submitted := submitted);
    assert OutputsOk(s') && FormatOk(s') && RequestOk(s');
    assert ClockOk(s') && LogOk(s');
  }

  lemma PlanKeeps(s: State, order: seq<string>)
    requires OutputsOk(s) && SwapOk(s) && s.clock.Framed? && s.clock.frame == s.format && !s.paused && !s.control.Swapped?
    requires IsPlan(s.outputs, order)
    ensures ClockOk(s.(clock := Calling(s.format, Plan(s.outputs, order), 0)))
  {
    var s' := s.(clock := Calling(s.format, Plan(s.outputs, order), 0));
    forall k | 0 <= k < |order| ensures TargetOk(s', s'.clock.targets[k]) {
      assert order[k] in order;
      assert EntryOk(s, s.outputs[order[k]]);
    }
  }

  lemma SubmitKeeps(s: State)
    requires Inv(s) && ClockStep(s, ClockSubmit).Some?
    ensures Inv(ClockStep(s, ClockSubmit).value)
  {
    var s', target := ClockStep(s, ClockSubmit).value, s.clock.targets[s.clock.i];
    assert TargetOk(s, target);
    SetGateKeeps(s, target.slot, Free);
    var free := SetGate(s, target.slot, Free);
    assert LogOk(free.(submitted := s'.submitted));
    ClockMoveKeeps(free, s'.clock, s'.paused, s'.submitted);
  }

  lemma ClockStepKeeps(s: State, step: Step)
    requires Inv(s) && ClockStep(s, step).Some?
    ensures Inv(ClockStep(s, step).value)
  {
    var s' := ClockStep(s, step).value;
    match step {
      case ClockSubmit => SubmitKeeps(s);
      case ClockEnter =>
        SetGateKeeps(s, s.clock.targets[s.clock.i].slot, ByClock);
        ClockMoveKeeps(SetGate(s, s.clock.targets[s.clock.i].slot, ByClock), s'.clock, s.paused, s.submitted);
      case ReportEnter(k) => SetGateKeeps(s, k, ByReport);
      case ReportLeave(k) => SetGateKeeps(s, k, Free);
      case ClockPlan(order) =>
        if s.clock.frame == s.format { PlanKeeps(s, order); }
        ClockMoveKeeps(s, s'.clock, s.paused, s.submitted);
      case _ => ClockMoveKeeps(s, s'.clock, s'.paused, s.submitted);
    }
  }

  // Starting a request: only the output list, the queue and the request move.

  lemma OutputsMoveKeeps(s: State, s': State)
    requires ClockOk(s) && SwapOk(s) && LogOk(s)
    requires s' == s.(outputs := s'.outputs, control := s'.control, waiting := s'.waiting)
    requires !s.control.Awaiting? && !s.control.Swapped? && !s.control.Resuming?
    requires !s'.control.Awaiting? && !s'.control.Swapped? && !s'.control.Resuming?
    ensures ClockOk(s') && SwapOk(s') && LogOk(s')
  {
    if s.clock.Calling? || s.clock.Submitting? {
      forall k | s.clock.i <= k < |s.clock.targets| ensures TargetOk(s', s.clock.targets[k]) {
        assert TargetOk(s, s.clock.targets[k]);
      }
    }
  }

  lemma StartFormatKeeps(s: State, step: Step)
    requires Inv(s) && step.StartFormat? && StartStep(s, step).Some?
    ensures Inv(StartStep(s, step).value)
  {
    var s' := StartStep(s, step).value;
    OutputsMoveKeeps(s, s');
    assert OutputsOk(s') by {
      forall n | n in s'.outputs ensures EntryOk(s', s'.outputs[n]) { assert EntryOk(s, s.outputs[n]); }
    }
    if !step.refuse {
      forall k | 0 <= k < |step.order| ensures ItemOk(s', s'.control.items[k]) {
        assert step.order[k] in step.order;
        assert EntryOk(s, s.outputs[step.order[k]]);
      }
    }
  }

  lemma StartStepKeeps(s: State, step: Step)
    requires Inv(s) && StartStep(s, step).Some?
    ensures Inv(StartStep(s, step).value)
  {
    if step.StartFormat? {
      StartFormatKeeps(s, step);
    } else if step.ReadPrevious? || step.GiveUp? {
      QueueMoveKeeps(s, StartStep(s, step).value.waiting);
    } else {
      StartOtherKeeps(s, step);
    }
  }

  lemma QueueMoveKeeps(s: State, waiting: seq<(Format, Format)>)
    requires Inv(s)
    ensures Inv(s.(waiting := waiting))
  {
    var s' := s.(waiting := waiting);
    assert OutputsOk(s') && ClockOk(s') && FormatOk(s') && RequestOk(s');
  }

  lemma StartOtherKeeps(s: State, step: Step)
    requires Inv(s) && StartStep(s, step).Some?
    requires step.StartEnable? || step.StartAdd? || step.StartUpdate? || step.UpdateAssign? || step.StartRemove?
    ensures Inv(StartStep(s, step).value)
  {
    var s' := StartStep(s, step).value;
    OutputsMoveKeeps(s, s');
    assert OutputsOk(s') by {
      forall n | n in s'.outputs ensures EntryOk(s', s'.outputs[n]) { assert EntryOk(s, s.outputs[n]); }
    }
    StartKeepsRequest(s, step);
  }

  lemma StartKeepsRequest(s: State, step: Step)
    requires OutputsOk(s) && StartStep(s, step).Some?
    requires step.StartEnable? || step.StartAdd? || step.StartUpdate? || step.UpdateAssign? || step.StartRemove?
    ensures RequestOk(StartStep(s, step).value)
  {
    if step.StartEnable? || step.StartRemove? { assert EntryOk(s, s.outputs[step.name]); }
  }

  // Inside a gate.

  lemma EnterKeeps(s: State)
    requires Inv(s) && GateStep(s, ControlEnter).Some?
    ensures Inv(GateStep(s, ControlEnter).value)
  {
    var k := Wanted(s).value;
    SetGateKeeps(s, k, ByControl);
    ControlMoveKeeps(SetGate(s, k, ByControl), s.control.(inGate := true));
  }

  /// Only the request moves.
  lemma ControlMoveKeeps(s: State, control: Control)
    requires Inv(s) && FormatOk(s.(control := control)) && RequestOk(s.(control := control)) && SwapOk(s.(control := control))
    ensures Inv(s.(control := control))
  {
    var s' := s.(control := control);
    assert OutputsOk(s') && ClockOk(s');
  }

  lemma RefusedKeeps(s: State)
    requires Inv(s) && GateStep(s, ControlBusy).Some?
    ensures Inv(GateStep(s, ControlBusy).value)
  {
    ControlMoveKeeps(s, Refused(s.control));
  }

  /// The step opens an output at another raster than the engine's.
  predicate OpensElsewhere(c: Control, slot: Slot, format: Format, ok: bool) {
    c.Reopening? && c.openAt != format && ok && slot.output.Some?
  }

  /// Any other work done inside a gate leaves every plan and every entry right.
  lemma WorkIsBenign(s: State, ok: bool, put: Option<Output>)
    requires Inv(s) && Wanted(s).Some? && Wanted(s).value < |s.slots| && Work(s.control, s.slots[Wanted(s).value], ok, put).Some?
    ensures var old', new' := s.slots[Wanted(s).value], Work(s.control, s.slots[Wanted(s).value], ok, put).value.0.(gate := Free);
            SameOrLater(old', new') && (OpensElsewhere(s.control, old', s.format, ok) || Benign(s, old', new'))
  {
    if s.control.Reopening? { assert ItemOk(s, s.control.items[s.control.i]); }
  }

  lemma WorkKeepsRequest(s: State, k: nat, slot: Slot, control: Control, ok: bool, put: Option<Output>)
    requires Inv(s) && Wanted(s) == Some(k) && k < |s.slots| && Work(s.control, s.slots[k], ok, put) == Some((slot, control))
    ensures RequestOk(s.(slots := s.slots[k := slot.(gate := Free)], control := control))
  {
  }

  /// Two outputs a format change works on have different slots.
  lemma ItemsApart(s: State, i: nat, k: nat)
    requires OutputsOk(s) && FormatOk(s) && FormatPhase(s.control) && i < |s.control.items| && k < |s.control.items| && i != k
    ensures s.control.items[i].slot != s.control.items[k].slot
  {
    assert ItemOk(s, s.control.items[i]) && ItemOk(s, s.control.items[k]);
    assert s.control.items[i].name != s.control.items[k].name;
  }

  lemma WorkKeepsItem(s: State, k: nat, slot: Slot, control: Control, ok: bool, put: Option<Output>, j: nat)
    requires OutputsOk(s) && FormatOk(s) && FormatPhase(s.control) && j < |s.control.items|
    requires Wanted(s) == Some(k) && k < |s.slots| && Work(s.control, s.slots[k], ok, put) == Some((slot, control))
    ensures var s' := s.(slots := s.slots[k := slot.(gate := Free)], control := control);
            && ItemOk(s', control.items[j])
            && (control.Reopening? ==> OpenedAt(s', control.items[j], control.openAt))
  {
    assert ItemOk(s, s.control.items[j]);
    if j != s.control.i { ItemsApart(s, j, s.control.i); }
    if s.control.Reopening? { assert OpenedAt(s, s.control.items[j], s.control.openAt); }
  }

  lemma WorkKeepsFormat(s: State, k: nat, slot: Slot, control: Control, ok: bool, put: Option<Output>)
    requires OutputsOk(s) && FormatOk(s) && Wanted(s) == Some(k) && k < |s.slots|
    requires Work(s.control, s.slots[k], ok, put) == Some((slot, control))
    ensures FormatOk(s.(slots := s.slots[k := slot.(gate := Free)], control := control))
  {
    var s' := s.(slots := s.slots[k := slot.(gate := Free)], control := control);
    if FormatPhase(s.control) {
      forall j | 0 <= j < |control.items|
        ensures ItemOk(s', control.items[j]) && (control.Reopening? ==> OpenedAt(s', control.items[j], control.openAt))
      {
        WorkKeepsItem(s, k, slot, control, ok, put, j);
      }
    }
  }

  lemma WorkKeepsOutputs(s: State, k: nat, slot: Slot, control: Control)
    requires OutputsOk(s) && FormatOk(s) && k < |s.slots| && SameOrLater(s.slots[k], slot)
    requires FormatPhase(s.control) || Benign(s, s.slots[k], slot)
    ensures OutputsOk(s.(slots := s.slots[k := slot], control := control))
  {
    var s' := s.(slots := s.slots[k := slot], control := control);
    forall n | n in s.outputs ensures EntryOk(s', s.outputs[n]) { assert EntryOk(s, s.outputs[n]); }
  }

  lemma WorkKeepsClock(s: State, k: nat, slot: Slot, control: Control)
    requires ClockOk(s) && k < |s.slots| && SameOrLater(s.slots[k], slot)
    requires Benign(s, s.slots[k], slot) || s.slipped || (!Planned(s, k) && slot.generation == s.slots[k].generation)
    ensures ClockOk(s.(slots := s.slots[k := slot], control := control))
  {
    var s' := s.(slots := s.slots[k := slot], control := control);
    if s.clock.Calling? || s.clock.Submitting? {
      forall j | s.clock.i <= j < |s.clock.targets| ensures TargetOk(s', s.clock.targets[j]) {
        assert TargetOk(s, s.clock.targets[j]);
      }
    }
  }

  lemma WorkKeeps(s: State, ok: bool, put: Option<Output>)
    requires Inv(s) && GateStep(s, ControlRun(ok, put)).Some?
    requires ReopensPlanned(s, ControlRun(ok, put)) ==> s.slipped
    ensures Inv(GateStep(s, ControlRun(ok, put)).value)
  {
    var k := Wanted(s).value;
    var (slot, control) := Work(s.control, s.slots[k], ok, put).value;
    WorkIsBenign(s, ok, put);
    WorkKeepsRequest(s, k, slot, control, ok, put);
    WorkKeepsFormat(s, k, slot, control, ok, put);
    WorkKeepsOutputs(s, k, slot.(gate := Free), control);
    WorkKeepsClock(s, k, slot.(gate := Free), control);
  }

  // The swap.

  /// The format moves only while every output is off and the clock is parked.
  lemma ParkedKeeps(s: State)
    requires Inv(s) && SwapStep(s, ControlParked).Some?
    ensures Inv(SwapStep(s, ControlParked).value)
  {
    var s' := SwapStep(s, ControlParked).value;
    assert OutputsOk(s') by {
      forall n | n in s'.outputs ensures EntryOk(s', s'.outputs[n]) { assert EntryOk(s, s.outputs[n]); }
    }
  }

  lemma TimeoutKeeps(s: State)
    requires Inv(s) && SwapStep(s, ControlTimeout).Some?
    ensures Inv(SwapStep(s, ControlTimeout).value)
  {
    var s' := SwapStep(s, ControlTimeout).value;
    assert OutputsOk(s') by {
      forall n | n in s'.outputs ensures EntryOk(s', s'.outputs[n]) { assert EntryOk(s, s.outputs[n]); }
    }
    assert ClockOk(s') by {
      if s.clock.Calling? || s.clock.Submitting? {
        forall k | s.clock.i <= k < |s.clock.targets| ensures TargetOk(s', s.clock.targets[k]) {
          assert TargetOk(s, s.clock.targets[k]);
        }
      }
    }
  }

  lemma {:induction false} FeedEntry(outputs: map<string, Entry>, items: seq<Item>, n: string)
    requires n in outputs
    ensures Feed(outputs, items).Keys == outputs.Keys
    ensures Feed(outputs, items)[n].slot == outputs[n].slot && Feed(outputs, items)[n].desc == outputs[n].desc
    ensures Feed(outputs, items)[n].enabled <==> outputs[n].enabled || exists k :: 0 <= k < |items| && items[k].name == n && Fed(items[k])
  {
    if items != [] {
      var item := items[0];
      var rest := if Fed(item) then SetEnabled(outputs, item.name, true) else outputs;
      assert rest.Keys == outputs.Keys;
      FeedEntry(rest, items[1..], n);
      if k :| 0 <= k < |items| && items[k].name == n && Fed(items[k]) {
        if k > 0 { assert items[1..][k - 1] == items[k]; }
      }
    }
  }

  lemma FeedKeeps(s: State)
    requires Inv(s) && s.control.Reopening? && s.control.i >= |s.control.items| && SwapStep(s, ControlNext).Some?
    requires FeedsElsewhere(s, ControlNext) ==> s.slipped
    ensures Inv(SwapStep(s, ControlNext).value)
  {
    var s' := SwapStep(s, ControlNext).value;
    var items := s.control.items;
    forall n | n in s'.outputs ensures EntryOk(s', s'.outputs[n]) {
      if n !in s.outputs { FeedKeys(s.outputs, items); }
      FeedEntry(s.outputs, items, n);
      assert EntryOk(s, s.outputs[n]);
      if s'.outputs[n].enabled {
        var k :| 0 <= k < |items| && items[k].name == n && Fed(items[k]);
        assert ItemOk(s, items[k]) && OpenedAt(s, items[k], s.control.openAt);
      }
    }
    FeedSlots(s.outputs, items);
    OutputsMoveKeeps(s, s');
  }

  lemma FeedSlots(outputs: map<string, Entry>, items: seq<Item>)
    requires SlotsApart(outputs)
    ensures SlotsApart(Feed(outputs, items))
  {
    FeedKeys(outputs, items);
    forall m, n | m in outputs && n in outputs && m != n ensures Feed(outputs, items)[m].slot != Feed(outputs, items)[n].slot {
      FeedEntry(outputs, items, m);
      FeedEntry(outputs, items, n);
    }
  }

  lemma {:induction false} FeedKeys(outputs: map<string, Entry>, items: seq<Item>)
    ensures Feed(outputs, items).Keys == outputs.Keys
  {
    if items != [] {
      var item := items[0];
      var rest := if Fed(item) then SetEnabled(outputs, item.name, true) else outputs;
      assert rest.Keys == outputs.Keys;
      FeedKeys(rest, items[1..]);
    }
  }

  /// The handshake and pool steps that leave format and outputs alone.
  lemma HandshakeKeeps(s: State)
    requires Inv(s) && SwapStep(s, ControlNext).Some? && HandsOver(s)
    ensures Inv(SwapStep(s, ControlNext).value)
  {
    var s' := SwapStep(s, ControlNext).value;
    assert OutputsOk(s') by {
      forall n | n in s'.outputs ensures EntryOk(s', s'.outputs[n]) { assert EntryOk(s, s.outputs[n]); }
    }
    HandshakeKeepsClock(s);
    HandshakeKeepsFormat(s);
  }

  predicate HandsOver(s: State) { s.control.Reopening? ==> s.control.i < |s.control.items| }

  lemma HandshakeKeepsClock(s: State)
    requires ClockOk(s) && FormatOk(s) && SwapStep(s, ControlNext).Some? && HandsOver(s)
    ensures ClockOk(SwapStep(s, ControlNext).value)
  {
    var s' := SwapStep(s, ControlNext).value;
    if s.clock.Calling? || s.clock.Submitting? {
      forall k | s.clock.i <= k < |s.clock.targets| ensures TargetOk(s', s.clock.targets[k]) {
        assert TargetOk(s, s.clock.targets[k]);
      }
    }
  }

  lemma HandshakeKeepsFormat(s: State)
    requires FormatOk(s) && SwapStep(s, ControlNext).Some? && HandsOver(s)
    ensures FormatOk(SwapStep(s, ControlNext).value)
  {
    var s' := SwapStep(s, ControlNext).value;
    forall k | 0 <= k < |s.control.items| && FormatPhase(s.control) ensures ItemOk(s', s.control.items[k]) {
      assert ItemOk(s, s.control.items[k]);
    }
  }

  // Finishing a request.

  lemma FinishKeeps(s: State)
    requires Inv(s) && FinishStep(s).Some?
    requires FeedsLeftOpen(s, ControlNext) ==> s.slipped
    ensures Inv(FinishStep(s).value)
  {
    var s' := FinishStep(s).value;
    if s.control.AddDone? {
      AddKeeps(s);
    } else {
      OutputsMoveKeeps(s, s');
      FinishKeepsOutputs(s);
      if s.control.Deciding? { assert EntryOk(s, s.outputs[s.control.name]); }
    }
  }

  lemma FinishKeepsOutputs(s: State)
    requires OutputsOk(s) && RequestOk(s) && FinishStep(s).Some? && !s.control.AddDone?
    requires FeedsLeftOpen(s, ControlNext) ==> s.slipped
    ensures OutputsOk(FinishStep(s).value)
  {
    var s', name := FinishStep(s).value, s.control.name;
    match s.control {
      case EnableDone(_, on, wasEnabled, result) =>
        SetEnabledKeeps(s, s', name, s'.outputs[name].enabled);
      case UpdateDone(_, newName, wasEnabled, ran, replaced, restored) =>
        if ran { UpdateKeepsOutputs(s); } else { SetEnabledKeeps(s, s', name, wasEnabled); }
      case RemoveDone(_, wasEnabled, ran) =>
        if ran { RemovedKeeps(s, s', name); } else { SetEnabledKeeps(s, s', name, wasEnabled); }
      case _ => SetEnabledKeeps(s, s', name, false);
    }
  }

  lemma UpdateKeepsOutputs(s: State)
    requires OutputsOk(s) && RequestOk(s) && FinishStep(s).Some? && s.control.UpdateDone? && s.control.ran
    ensures OutputsOk(FinishStep(s).value)
  {
    var s', name := FinishStep(s).value, s.control.name;
    if s.control.replaced {
      MovedKeeps(s, s', name, s.control.newName, s'.outputs[s.control.newName]);
    } else {
      DescribedKeeps(s, s', name, s'.outputs[name]);
    }
  }

  /// One output goes on or off.
  lemma SetEnabledKeeps(s: State, s': State, name: string, on: bool)
    requires OutputsOk(s) && name in s.outputs
    requires s' == s.(outputs := SetEnabled(s.outputs, name, on), control := s'.control)
    requires on && !s.slipped ==> s.outputs[name].slot < |s.slots| && Current(s.slots[s.outputs[name].slot], s.format)
    ensures OutputsOk(s')
  {
    forall n | n in s'.outputs ensures EntryOk(s', s'.outputs[n]) { assert EntryOk(s, s.outputs[n]); }
  }

  /// One output is renamed, described again and goes on or off.
  lemma MovedKeeps(s: State, s': State, name: string, newName: string, e: Entry)
    requires OutputsOk(s) && name in s.outputs && (newName == name || newName !in s.outputs)
    requires s' == s.(outputs := (s.outputs - {name})[newName := e], control := s'.control)
    requires e.slot == s.outputs[name].slot && EntryOk(s, e)
    ensures OutputsOk(s')
  {
    forall n | n in s'.outputs ensures EntryOk(s', s'.outputs[n]) {
      if n != newName { assert EntryOk(s, s.outputs[n]); }
    }
  }

  lemma DescribedKeeps(s: State, s': State, name: string, e: Entry)
    requires OutputsOk(s) && name in s.outputs && s' == s.(outputs := s.outputs[name := e], control := s'.control)
    requires e.slot == s.outputs[name].slot && EntryOk(s, e)
    ensures OutputsOk(s')
  {
    assert (s.outputs - {name})[name := e] == s.outputs[name := e];
    MovedKeeps(s, s', name, name, e);
  }

  lemma RemovedKeeps(s: State, s': State, name: string)
    requires OutputsOk(s)
    requires s' == s.(outputs := s.outputs - {name}, control := s'.control)
    ensures OutputsOk(s')
  {
    forall n | n in s'.outputs ensures EntryOk(s', s'.outputs[n]) { assert EntryOk(s, s.outputs[n]); }
  }

  lemma AddKeeps(s: State)
    requires Inv(s) && s.control.AddDone?
    ensures Inv(FinishStep(s).value)
  {
    var s' := FinishStep(s).value;
    forall n | n in s'.outputs ensures EntryOk(s', s'.outputs[n]) {
      if n in s.outputs { assert EntryOk(s, s.outputs[n]); }
    }
    if s.clock.Calling? || s.clock.Submitting? {
      forall k | s.clock.i <= k < |s.clock.targets| ensures TargetOk(s', s.clock.targets[k]) {
        assert TargetOk(s, s.clock.targets[k]);
      }
    }
  }

  lemma MarkKeeps(s: State, step: Step)
    requires Inv(s)
    ensures Inv(Mark(s, step))
  {
    var s' := Mark(s, step);
    assert OutputsOk(s') by {
      forall n | n in s'.outputs ensures EntryOk(s', s'.outputs[n]) { assert EntryOk(s, s.outputs[n]); }
    }
    assert ClockOk(s') by {
      if s.clock.Calling? || s.clock.Submitting? {
        forall k | s.clock.i <= k < |s.clock.targets| ensures TargetOk(s', s.clock.targets[k]) {
          assert TargetOk(s, s.clock.targets[k]);
        }
      }
    }
    assert FormatOk(s') by { MarkKeepsFormat(s, step); }
  }

  lemma MarkKeepsFormat(s: State, step: Step)
    requires FormatOk(s)
    ensures FormatOk(Mark(s, step))
  {
    var s' := Mark(s, step);
    if FormatPhase(s.control) {
      forall k | 0 <= k < |s.control.items|
        ensures ItemOk(s', s.control.items[k]) && (s.control.Reopening? ==> OpenedAt(s', s.control.items[k], s.control.openAt))
      {
        assert ItemOk(s, s.control.items[k]);
        if s.control.Reopening? { assert OpenedAt(s, s.control.items[k], s.control.openAt); }
      }
    }
  }

  lemma ControlNextKeeps(s: State)
    requires Inv(s) && Base(s, ControlNext).Some? && (Slip(s, ControlNext) ==> s.slipped)
    ensures Inv(Base(s, ControlNext).value)
  {
    if !FormatPhase(s.control) {
      FinishKeeps(s);
    } else if s.control.Reopening? && s.control.i >= |s.control.items| {
      FeedKeeps(s);
    } else {
      HandshakeKeeps(s);
    }
  }

  lemma BaseKeeps(s: State, step: Step)
    requires Inv(s) && Base(s, step).Some? && (Slip(s, step) ==> s.slipped)
    ensures Inv(Base(s, step).value)
  {
    match step {
      case ControlEnter => EnterKeeps(s);
      case ControlBusy => RefusedKeeps(s);
      case ControlRun(ok, put) => WorkKeeps(s, ok, put);
      case ControlParked => ParkedKeeps(s);
      case ControlTimeout => TimeoutKeeps(s);
      case ControlNext => ControlNextKeeps(s);
      case ClockCheck | ClockWake | ClockRead(_) | ClockPlan(_) | ClockEnter | ClockSkip | ClockSubmit
         | ClockEndTick | ReportEnter(_) | ReportLeave(_) => ClockStepKeeps(s, step);
      case ReadPrevious(_) | GiveUp(_) | StartFormat(_, _, _) | StartEnable(_, _) | StartAdd(_, _, _)
         | StartUpdate(_, _, _) | UpdateAssign | StartRemove(_) => StartStepKeeps(s, step);
    }
  }

  lemma MarkSame(s: State, step: Step)
    ensures Slip(Mark(s, step), step) <==> Slip(s, step)
  {
  }

  /// Every step of every interleaving keeps the invariant.
  lemma StepKeeps(s: State, step: Step)
    requires Inv(s) && Next(s, step).Some?
    ensures Inv(Next(s, step).value)
  {
    MarkKeeps(s, step);
    MarkSame(s, step);
    BaseKeeps(Mark(s, step), step);
  }

  // --------------------------------------------------------------- theorems

  ghost function Run(s: State, steps: seq<Step>): Option<State>
    decreases |steps|
  {
    if steps == [] then Some(s)
    else match Next(s, steps[0])
         case None => None
         case Some(s') => Run(s', steps[1..])
  }

  lemma {:induction false} RunKeeps(s: State, steps: seq<Step>)
    requires Inv(s) && Run(s, steps).Some?
    ensures Inv(Run(s, steps).value)
    decreases |steps|
  {
    if steps != [] {
      var s' := Next(s, steps[0]).value;
      assert Inv(s') by { StepKeeps(s, steps[0]); }
      RunKeeps(s', steps[1..]);
    }
  }

  /// No output is ever handed pixels of another layout than its own, nor a
  /// frame converted in a buffer of another raster: in every run.
  lemma LayoutNeverWrong(start: State, steps: seq<Step>)
    requires Fresh(start) && Run(start, steps).Some?
    ensures forall sub :: sub in Run(start, steps).value.submitted ==> sub.pixels == sub.output.pixels && sub.pool == sub.frame
  {
    FreshHolds(start);
    RunKeeps(start, steps);
    forall sub | sub in Run(start, steps).value.submitted ensures LayoutSafe(sub) {
    }
  }

  /// Every output that is fed, and every one the tick under way has still to
  /// call, is open at the engine's raster or not open at all.
  ghost predicate Right(s: State) {
    && (forall n :: n in s.outputs && s.outputs[n].enabled ==> EntryRight(s, s.outputs[n]))
    && (s.clock.Calling? || s.clock.Submitting? ==>
          forall k :: s.clock.i <= k < |s.clock.targets| ==> TargetRight(s, s.clock.targets[k]))
  }

  predicate EntryRight(s: State, e: Entry) { e.slot < |s.slots| && Current(s.slots[e.slot], s.format) }

  predicate TargetRight(s: State, target: Target) {
    target.slot < |s.slots|
    && (s.slots[target.slot].generation == target.desc.generation ==> Current(s.slots[target.slot], s.format))
  }

  /// `Right` in every state of the run.
  ghost predicate AllRight(s: State, steps: seq<Step>)
    decreases |steps|
  {
    Right(s) && (steps != [] && Next(s, steps[0]).Some? ==> AllRight(Next(s, steps[0]).value, steps[1..]))
  }

  /// No step of the run slips.
  ghost predicate Careful(s: State, steps: seq<Step>)
    decreases |steps|
  {
    steps != [] ==>
      !Slip(s, steps[0]) && (Next(s, steps[0]).Some? ==> Careful(Next(s, steps[0]).value, steps[1..]))
  }

  lemma InvIsRight(s: State)
    requires Inv(s) && !s.slipped
    ensures Right(s)
  {
    forall n | n in s.outputs && s.outputs[n].enabled ensures EntryRight(s, s.outputs[n]) {
      assert EntryOk(s, s.outputs[n]);
    }
    if s.clock.Calling? || s.clock.Submitting? {
      forall k | s.clock.i <= k < |s.clock.targets| ensures TargetRight(s, s.clock.targets[k]) {
        assert TargetOk(s, s.clock.targets[k]);
      }
    }
  }

  /// A slip leaves an output in the way of frames of another raster.
  lemma SlipIsWrong(s: State, step: Step)
    requires Inv(s) && Slip(s, step) && Base(s, step).Some?
    ensures !Right(Base(s, step).value)
  {
    if FeedsLeftOpen(s, step) {
      LeftOpenIsWrong(s);
    } else if FeedsElsewhere(s, step) {
      ElsewhereIsWrong(s);
    } else {
      ReopenedIsWrong(s, step);
    }
  }

  lemma LeftOpenIsWrong(s: State)
    requires Inv(s) && FeedsLeftOpen(s, ControlNext)
    ensures FinishStep(s).Some? && !Right(FinishStep(s).value)
  {
    var s', name := FinishStep(s).value, s.control.name;
    assert name in s'.outputs && s'.outputs[name].enabled && !EntryRight(s', s'.outputs[name]);
  }

  lemma ElsewhereIsWrong(s: State)
    requires Inv(s) && FeedsElsewhere(s, ControlNext) && SwapStep(s, ControlNext).Some?
    ensures !Right(SwapStep(s, ControlNext).value)
  {
    var s', items := SwapStep(s, ControlNext).value, s.control.items;
    var k :| 0 <= k < |items| && Fed(items[k]);
    assert ItemOk(s, items[k]) && OpenedAt(s, items[k], s.control.openAt);
    FeedEntry(s.outputs, items, items[k].name);
    assert s'.outputs[items[k].name].enabled && !EntryRight(s', s'.outputs[items[k].name]);
  }

  lemma ReopenedIsWrong(s: State, step: Step)
    requires Inv(s) && ReopensPlanned(s, step) && GateStep(s, step).Some?
    ensures !Right(GateStep(s, step).value)
  {
    var s', item := GateStep(s, step).value, s.control.items[s.control.i];
    assert ItemOk(s, item);
    var j :| s.clock.i <= j < |s.clock.targets| && s.clock.targets[j].slot == item.slot
             && s.clock.targets[j].desc.generation == s.slots[item.slot].generation;
    assert s'.clock == s.clock && !TargetRight(s', s.clock.targets[j]);
  }

  /// From an engine that starts right, over every run: each output that is fed
  /// or about to be called is open at the engine's raster throughout exactly
  /// when no step slips.
  lemma RasterRightIff(start: State, steps: seq<Step>)
    requires Fresh(start) && Run(start, steps).Some?
    ensures AllRight(start, steps) <==> Careful(start, steps)
  {
    FreshHolds(start);
    RightIff(start, steps);
  }

  lemma {:induction false} RightIff(s: State, steps: seq<Step>)
    requires Inv(s) && !s.slipped && Run(s, steps).Some?
    ensures AllRight(s, steps) <==> Careful(s, steps)
    ensures Careful(s, steps) ==> !Run(s, steps).value.slipped
    decreases |steps|
  {
    InvIsRight(s);
    if steps != [] {
      var s' := Next(s, steps[0]).value;
      StepKeeps(s, steps[0]);
      if Slip(s, steps[0]) {
        MarkKeeps(s, steps[0]);
        MarkSame(s, steps[0]);
        SlipIsWrong(Mark(s, steps[0]), steps[0]);
      } else {
        SlippedOnlyBySlip(s, steps[0]);
        RightIff(s', steps[1..]);
      }
    }
  }

  lemma SlippedOnlyBySlip(s: State, step: Step)
    requires Next(s, step).Some?
    ensures Next(s, step).value.slipped <==> s.slipped || Slip(s, step)
  {
  }

  /// In every such run no output is ever submitted a frame of another raster
  /// than it was opened at, and at its end every enabled output is open at the
  /// engine's.
  lemma RasterNeverWrong(start: State, steps: seq<Step>)
    requires Fresh(start) && Run(start, steps).Some? && Careful(start, steps)
    ensures var end := Run(start, steps).value;
            && (forall sub :: sub in end.submitted ==> sub.frame == sub.output.openedAt)
            && (forall n :: n in end.outputs && end.outputs[n].enabled ==> EntryRight(end, end.outputs[n]))
  {
    FreshHolds(start);
    RightIff(start, steps);
    RunKeeps(start, steps);
    var end := Run(start, steps).value;
    InvIsRight(end);
    forall sub | sub in end.submitted ensures RasterSafe(sub) {
    }
  }

  // ------------------------------------------------ enabling one output

  /// start() would leave the output of this name open at another raster.
  predicate LeftOpen(s: State, name: string)
    requires name in s.outputs && s.outputs[name].slot < |s.slots|
  {
    var o := s.slots[s.outputs[name].slot].output;
    o.Some? && o.value.running && o.value.openedAt != s.format && (s.outputs[name].enabled || !o.value.reopens)
  }

  /// `t` is working on the request to enable `name` taken off the queue in `s`.
  predicate EnablingFrom(s: State, name: string, t: State)
    requires name in s.outputs && s.outputs[name].slot < |s.slots|
  {
    var k, wasEnabled := s.outputs[name].slot, s.outputs[name].enabled;
    && t.format == s.format && name in t.outputs && t.outputs[name].slot == k && k < |t.slots|
    && (match t.control
        case Enabling(n, on, format, was, _) =>
          n == name && on && format == s.format && was == wasEnabled && t.slots[k].output == s.slots[k].output
        case EnableDone(n, on, was, result) =>
          n == name && on && was == wasEnabled
          && (result == Ran(true) ==>
                Running(t.slots[k]) && (t.slots[k].output.value.openedAt == s.format <==> !LeftOpen(s, name)))
        case _ => false)
  }

  /// The clock's own steps touch no output and no request.
  lemma ClockLeaves(s: State, step: Step)
    requires ClockStep(s, step).Some?
    ensures var s' := ClockStep(s, step).value;
            && s'.format == s.format && s'.control == s.control && s'.outputs == s.outputs && |s'.slots| == |s.slots|
            && forall k :: 0 <= k < |s.slots| ==> s'.slots[k].output == s.slots[k].output
  {
  }

  /// While a request holds the queue others only wait for it.
  lemma OthersWait(s: State, step: Step)
    requires StartStep(s, step).Some? && !s.control.Idle? && !s.control.Deciding?
    ensures StartStep(s, step).value == s.(waiting := StartStep(s, step).value.waiting)
  {
  }

  lemma EnablingStep(s: State, name: string, t: State, step: Step)
    requires name in s.outputs && s.outputs[name].slot < |s.slots|
    requires EnablingFrom(s, name, t) && Base(t, step).Some? && !step.ControlNext?
    ensures EnablingFrom(s, name, Base(t, step).value)
  {
    match step {
      case ControlEnter | ControlBusy | ControlRun(_, _) => EnablingInGate(s, name, t, step);
      case ControlParked | ControlTimeout =>
      case ClockCheck | ClockWake | ClockRead(_) | ClockPlan(_) | ClockEnter | ClockSkip | ClockSubmit
         | ClockEndTick | ReportEnter(_) | ReportLeave(_) => ClockLeaves(t, step);
      case ReadPrevious(_) | GiveUp(_) | StartFormat(_, _, _) | StartEnable(_, _) | StartAdd(_, _, _)
         | StartUpdate(_, _, _) | UpdateAssign | StartRemove(_) => OthersWait(t, step);
    }
  }

  lemma EnablingInGate(s: State, name: string, t: State, step: Step)
    requires name in s.outputs && s.outputs[name].slot < |s.slots|
    requires EnablingFrom(s, name, t) && GateStep(t, step).Some?
    ensures EnablingFrom(s, name, GateStep(t, step).value)
  {
  }

  lemma {:induction false} EnablingRun(s: State, name: string, t: State, steps: seq<Step>)
    requires name in s.outputs && s.outputs[name].slot < |s.slots|
    requires EnablingFrom(s, name, t) && Run(t, steps).Some? && ControlNext !in steps
    ensures EnablingFrom(s, name, Run(t, steps).value)
    decreases |steps|
  {
    if steps != [] {
      assert steps[0] in steps;
      EnablingStep(s, name, Mark(t, steps[0]), steps[0]);
      EnablingRun(s, name, Next(t, steps[0]).value, steps[1..]);
    }
  }

  /// A request to enable an output that succeeds, whatever the clock does
  /// meanwhile: the output is fed, and is open at the engine's raster exactly
  /// unless, when the request was taken off the queue, it was running at another
  /// raster and start() was not called or would leave it so.
  lemma EnableRightIff(s: State, name: string, steps: seq<Step>)
    requires Inv(s) && s.control.Idle? && Next(s, StartEnable(name, true)).Some? && ControlNext !in steps
    requires Run(Next(s, StartEnable(name, true)).value, steps).Some?
    requires var t := Run(Next(s, StartEnable(name, true)).value, steps).value;
             t.control.EnableDone? && t.control.result == Ran(true)
    ensures name in s.outputs && s.outputs[name].slot < |s.slots|
    ensures var t := Run(Next(s, StartEnable(name, true)).value, steps).value;
            && Next(t, ControlNext).Some?
            && var end := Next(t, ControlNext).value;
               && name in end.outputs && end.outputs[name].enabled
               && (EntryRight(end, end.outputs[name]) <==> !LeftOpen(s, name))
  {
    assert EntryOk(s, s.outputs[name]);
    EnablingRun(s, name, Next(s, StartEnable(name, true)).value, steps);
    EnableFeeds(s, name, Run(Next(s, StartEnable(name, true)).value, steps).value);
  }

  lemma EnableFeeds(s: State, name: string, t: State)
    requires name in s.outputs && s.outputs[name].slot < |s.slots| && EnablingFrom(s, name, t)
    requires t.control.EnableDone? && t.control.result == Ran(true)
    ensures Next(t, ControlNext).Some?
    ensures var end := Next(t, ControlNext).value;
            && name in end.outputs && end.outputs[name].enabled
            && (EntryRight(end, end.outputs[name]) <==> !LeftOpen(s, name))
  {
  }

  // --------------------------------------------------- one format change

  /// The run never leaves the format change it is in.
  ghost predicate OneChange(s: State, steps: seq<Step>)
    decreases |steps|
  {
    FormatPhase(s.control)
    && (steps != [] ==> Next(s, steps[0]).Some? && OneChange(Next(s, steps[0]).value, steps[1..]))
  }

  /// Where a change from `was` to `next`, falling back to `previous`, stands;
  /// `parked` says the clock has parked for it.
  predicate ChangeAt(t: State, was: Format, next: Format, previous: Format, parked: bool) {
    && t.format == (if parked then next else was)
    && (match t.control
        case Stopping(n, p, _, _, _) => n == next && p == previous && !parked
        case Awaiting(n, p, _) => n == next && p == previous && !parked
        case Swapped(n, _) => n == next && parked
        case Resuming(openAt, _) => openAt == (if parked then next else previous)
        case Reopening(openAt, _, _, _) => openAt == (if parked then next else previous)
        case _ => true)
  }

  lemma ChangeInGate(t: State, step: Step, was: Format, next: Format, previous: Format, parked: bool)
    requires ChangeAt(t, was, next, previous, parked) && FormatPhase(t.control) && GateStep(t, step).Some?
    ensures ChangeAt(GateStep(t, step).value, was, next, previous, parked)
  {
  }

  lemma ChangeInSwap(t: State, step: Step, was: Format, next: Format, previous: Format, parked: bool)
    requires ChangeAt(t, was, next, previous, parked) && SwapStep(t, step).Some?
    ensures ChangeAt(SwapStep(t, step).value, was, next, previous, parked || step.ControlParked?)
  {
  }

  lemma ChangeStep(t: State, step: Step, was: Format, next: Format, previous: Format, parked: bool)
    requires ChangeAt(t, was, next, previous, parked) && FormatPhase(t.control)
    requires Base(t, step).Some?
    ensures ChangeAt(Base(t, step).value, was, next, previous, parked || step.ControlParked?)
  {
    match step {
      case ControlEnter | ControlBusy | ControlRun(_, _) => ChangeInGate(t, step, was, next, previous, parked);
      case ControlNext | ControlParked | ControlTimeout => ChangeInSwap(t, step, was, next, previous, parked);
      case ClockCheck | ClockWake | ClockRead(_) | ClockPlan(_) | ClockEnter | ClockSkip | ClockSubmit
         | ClockEndTick | ReportEnter(_) | ReportLeave(_) => ClockLeaves(t, step);
      case ReadPrevious(_) | GiveUp(_) | StartFormat(_, _, _) | StartEnable(_, _) | StartAdd(_, _, _)
         | StartUpdate(_, _, _) | UpdateAssign | StartRemove(_) => OthersWait(t, step);
    }
  }

  lemma {:induction false} ChangeRun(t: State, steps: seq<Step>, was: Format, next: Format, previous: Format, parked: bool)
    requires ChangeAt(t, was, next, previous, parked) && OneChange(t, steps)
    ensures Run(t, steps).Some? && FormatPhase(Run(t, steps).value.control)
    ensures ChangeAt(Run(t, steps).value, was, next, previous, parked || ControlParked in steps)
    decreases |steps|
  {
    if steps != [] {
      ChangeStep(Mark(t, steps[0]), steps[0], was, next, previous, parked);
      ChangeRun(Next(t, steps[0]).value, steps[1..], was, next, previous, parked || steps[0].ControlParked?);
      assert ControlParked in steps <==> steps[0].ControlParked? || ControlParked in steps[1..];
    }
  }

  /// A whole format change, from the queue to the step that feeds its outputs
  /// again, whatever the clock, the gates and the drivers do meanwhile: each
  /// output it feeds is open, and at the engine's raster exactly when the clock
  /// parked for the swap or the `previous` it carried was the engine's raster
  /// when it was taken off the queue.
  lemma FormatRightIff(s: State, k: nat, order: seq<string>, steps: seq<Step>)
    requires Inv(s) && k < |s.waiting| && Next(s, StartFormat(k, false, order)).Some?
    requires OneChange(Next(s, StartFormat(k, false, order)).value, steps)
    requires var t := Run(Next(s, StartFormat(k, false, order)).value, steps);
             t.Some? && t.value.control.Reopening? && t.value.control.i >= |t.value.control.items|
    ensures var t := Run(Next(s, StartFormat(k, false, order)).value, steps).value;
            && Next(t, ControlNext).Some?
            && var end := Next(t, ControlNext).value;
               && end.format == (if ControlParked in steps then s.waiting[k].0 else s.format)
               && forall n :: n in end.outputs && end.outputs[n].enabled ==>
                    && end.outputs[n].slot < |end.slots| && Running(end.slots[end.outputs[n].slot])
                    && (EntryRight(end, end.outputs[n]) <==> ControlParked in steps || s.waiting[k].1 == s.format)
  {
    var s1 := Next(s, StartFormat(k, false, order)).value;
    StepKeeps(s, StartFormat(k, false, order));
    RunKeeps(s1, steps);
    ChangeRun(s1, steps, s.format, s.waiting[k].0, s.waiting[k].1, false);
    FeedsOpen(Run(s1, steps).value);
  }

  /// What a change feeds is open where the change opened it.
  lemma FeedsOpen(s: State)
    requires Inv(s) && s.control.Reopening? && s.control.i >= |s.control.items|
    ensures Next(s, ControlNext).Some?
    ensures var end := Next(s, ControlNext).value;
            && end.format == s.format
            && forall n :: n in end.outputs && end.outputs[n].enabled ==>
                 && end.outputs[n].slot < |end.slots| && Running(end.slots[end.outputs[n].slot])
                 && (EntryRight(end, end.outputs[n]) <==> s.control.openAt == s.format)
  {
    var end := Next(s, ControlNext).value;
    FeedKeys(s.outputs, s.control.items);
    forall n | n in end.outputs && end.outputs[n].enabled
      ensures end.outputs[n].slot < |end.slots| && Running(end.slots[end.outputs[n].slot])
      ensures EntryRight(end, end.outputs[n]) <==> s.control.openAt == s.format
    {
      FedIsOpen(s, n);
    }
  }

  lemma FedIsOpen(s: State, n: string)
    requires Inv(s) && s.control.Reopening? && n in s.outputs && Feed(s.outputs, s.control.items).Keys == s.outputs.Keys
    requires Feed(s.outputs, s.control.items)[n].enabled
    ensures var slot := Feed(s.outputs, s.control.items)[n].slot;
            slot < |s.slots| && Running(s.slots[slot]) && s.slots[slot].output.value.openedAt == s.control.openAt
  {
    var items := s.control.items;
    FeedEntry(s.outputs, items, n);
    var k :| 0 <= k < |items| && items[k].name == n && Fed(items[k]);
    assert ItemOk(s, items[k]) && OpenedAt(s, items[k], s.control.openAt);
  }
}
