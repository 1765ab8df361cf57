/** The application dispatch loop: events are mapped to actions, actions are
    queued on the application's own channel, and each loop iteration drains
    that channel, applying every action and drawing once per applied `Quit`. */
module AppLoop {

  import opened Options
  import opened Actions
  import opened Events

  /** Key policy: `Esc` quits, whatever the modifiers and the key kind;
      every other key is ignored. */
  function HandleKeyEvent(key: KeyEvent): (r: Option<Action>)
    ensures r.Some? <==> key.code == Esc
    ensures r.Some? ==> r.value == Action.Quit
  {
    match key.code
    case Esc => Some(Action.Quit)
    case _ => None
  }

  /** Event policy: timer events become the action of the same name, key
      events follow the key policy, everything else is ignored. */
  function HandleEvent(event: Event): (r: Option<Action>)
    ensures r == Some(Action.Tick) <==> event == Event.Tick
    ensures r == Some(Action.Render) <==> event == Event.Render
    ensures r == Some(Action.Quit) <==> event.Key? && event.key.code == Esc
    ensures r.None? <==> !(event.Tick? || event.Render? || (event.Key? && event.key.code == Esc))
  {
    match event
    case Tick => Some(Action.Tick)
    case Render => Some(Action.Render)
    case Key(key) => HandleKeyEvent(key)
    case _ => None
  }

  /** Lifecycle, focus, paste, mouse and resize events produce no action.
      In particular the terminal source's `Quit` event is not the `Quit`
      action. */
  lemma UnmappedEventsAreIgnored()
    ensures HandleEvent(Event.Init) == None && HandleEvent(Event.Quit) == None
    ensures HandleEvent(Event.Error) == None && HandleEvent(Event.Closed) == None
    ensures HandleEvent(Event.FocusGained) == None && HandleEvent(Event.FocusLost) == None
    ensures forall text :: HandleEvent(Event.Paste(text)) == None
    ensures forall m :: HandleEvent(Event.Mouse(m)) == None
    ensures forall w, h :: HandleEvent(Event.Resize(w, h)) == None
  {
  }

  /** The key policy looks only at the key code. */
  lemma KeyPolicyIgnoresModifiers(a: KeyEvent, b: KeyEvent)
    requires a.code == b.code
    ensures HandleEvent(Event.Key(a)) == HandleEvent(Event.Key(b))
  {
  }

  /** A polled input that ends the loop: an `Esc` key event. */
  predicate IsEscape(input: Option<Event>)
  {
    input.Some? && input.value.Key? && input.value.key.code == Esc
  }

  /** The actions one received event puts on the channel. */
  function Enqueued(input: Option<Event>): (s: seq<Action>)
    ensures |s| <= 1
    ensures Action.Quit in s <==> IsEscape(input)
    ensures input.None? ==> s == []
  {
    if input.Some? then ToSeq(HandleEvent(input.value)) else []
  }

  /** Position of the first `Esc` key event among the polled inputs. */
  function FirstEscape(inputs: seq<Option<Event>>): (r: Option<nat>)
    ensures r.Some? ==> r.value < |inputs| && IsEscape(inputs[r.value])
    ensures r.Some? ==> forall j :: 0 <= j < r.value ==> !IsEscape(inputs[j])
    ensures r.None? ==> forall j :: 0 <= j < |inputs| ==> !IsEscape(inputs[j])
  {
    if inputs == [] then None
    else if IsEscape(inputs[0]) then Some(0)
    else
      match FirstEscape(inputs[1..])
      case None => None
      case Some(i) => Some(i + 1)
  }

  class App {
    /** Set by the `Quit` action and never cleared. */
    var shouldQuit: bool
    /** The application's action channel; only this object sends to and
        receives from it, so it is a FIFO queue. */
    var channel: seq<Action>

    /** No action is in flight: true between loop iterations. */
    ghost predicate Idle()
      reads this
    {
      channel == []
    }

    constructor ()
      ensures !shouldQuit && Idle()
    {
      shouldQuit := false;
      channel := [];
    }

    /** Sending end of the channel. */
    method Send(action: Action)
      modifies this
      ensures channel == old(channel) + [action]
      ensures shouldQuit == old(shouldQuit)
    {
      channel := channel + [action];
    }

    /** Sends the action an optional result holds, if any: the
        `.map(|action| tx.send(action))` that follows mapping an event and
        applying an action. */
    method Forward(result: Option<Action>)
      modifies this
      ensures channel == old(channel) + ToSeq(result)
      ensures shouldQuit == old(shouldQuit)
    {
      match result {
        case Some(action) => Send(action);
        case None =>
      }
    }

    /** Receiving end of the channel: the oldest action, or `None` when the
        channel is empty. */
    method TryRecv() returns (r: Option<Action>)
      modifies this
      ensures old(channel) == [] ==> r.None? && channel == []
      ensures old(channel) != [] ==> r == Some(old(channel)[0]) && channel == old(channel)[1..]
      ensures shouldQuit == old(shouldQuit)
    {
      if channel == [] {
        r := None;
      } else {
        r := Some(channel[0]);
        channel := channel[1..];
      }
    }

    /** Per-tick bookkeeping; the application has none. */
    method Tick()
      modifies this
      ensures unchanged(this)
    {
    }

    /** Applies one action. Only `Quit` changes state, and no action has a
        follow-up. */
    method HandleAction(action: Action) returns (followUp: Option<Action>)
      modifies this
      ensures followUp == None
      ensures shouldQuit == (old(shouldQuit) || action == Action.Quit)
      ensures channel == old(channel)
    {
      match action {
        case Tick => Tick();
        case Quit => shouldQuit := true;
        case Render =>
      }
      followUp := None;
    }

    /** Handles one received action: applies it, forwards its follow-up and
        draws once if it is `Quit`. Returns the number of draws. */
    method Apply(action: Action) returns (drawn: nat)
      modifies this
      ensures channel == old(channel)
      ensures shouldQuit == (old(shouldQuit) || action == Action.Quit)
      ensures drawn == (if action == Action.Quit then 1 else 0)
    {
      var followUp := HandleAction(action);
      Forward(followUp);
      drawn := 0;
      if action == Action.Quit {
        drawn := 1;
      }
    }

    /** Drains the channel: receives actions oldest first, applies each,
        forwards its follow-up and draws once per applied `Quit`. Returns the
        number of draws; `applied` lists the actions in the order applied. */
    method Drain() returns (draws: nat, ghost applied: seq<Action>)
      modifies this
      ensures applied == old(channel) && channel == []
      ensures draws == CountQuit(applied)
      ensures shouldQuit == (old(shouldQuit) || Action.Quit in applied)
    {
      draws, applied := 0, [];
      ghost var pending := channel;
      var next := TryRecv();
      while next.Some?
        invariant pending == applied + ToSeq(next) + channel
        invariant next.None? ==> channel == []
        invariant draws == CountQuit(applied)
        invariant shouldQuit == (old(shouldQuit) || Action.Quit in applied)
        decreases |channel| + |ToSeq(next)|
      {
        var action := next.value;
        assert pending == (applied + [action]) + channel;
        var drawn := Apply(action);
        draws := draws + drawn;
        assert (applied + [action])[..|applied|] == applied;
        applied := applied + [action];
        next := TryRecv();
      }
    }

    /** One iteration of the run loop on the event `input` returned by the
        terminal source (`None` when it had none). Returns the number of
        draws made; `applied` lists the actions applied. */
    method Step(input: Option<Event>) returns (draws: nat, ghost applied: seq<Action>)
      modifies this
      ensures input.None? ==> channel == old(channel) && shouldQuit == old(shouldQuit) && draws == 0 && applied == []
      ensures input.Some? ==> applied == old(channel) + Enqueued(input) && channel == []
      ensures draws == CountQuit(applied)
      ensures shouldQuit == (old(shouldQuit) || CountQuit(applied) > 0)
      ensures input.Some? ==> draws == CountQuit(old(channel)) + (if IsEscape(input) then 1 else 0)
      ensures old(channel) == [] ==> |applied| <= 1 && channel == []
      ensures old(channel) == [] ==> shouldQuit == (old(shouldQuit) || IsEscape(input))
      ensures old(channel) == [] ==> draws == (if IsEscape(input) then 1 else 0)
    {
      draws, applied := 0, [];
      if input.Some? {
        Forward(HandleEvent(input.value));
        draws, applied := Drain();
        CountQuitAppend(old(channel), Enqueued(input));
      }
    }

    /** One iteration started between iterations, when no action is in
        flight: it draws once and sets `shouldQuit` exactly when the input is
        an `Esc` key event, and leaves the channel empty. */
    method StepIdle(input: Option<Event>) returns (draws: nat)
      requires Idle()
      modifies this
      ensures Idle()
      ensures draws == (if IsEscape(input) then 1 else 0)
      ensures shouldQuit == (old(shouldQuit) || IsEscape(input))
    {
      ghost var applied: seq<Action>;
      draws, applied := Step(input);
    }

    /** The run loop over the successive results of polling the terminal
        source. Each iteration is one `Step`; the loop breaks after the first
        iteration that leaves `shouldQuit` set. `stop` is the index of that
        iteration, or `None` when the inputs run out first. */
    method Run(inputs: seq<Option<Event>>) returns (stop: Option<nat>, draws: nat)
      requires Idle()
      modifies this
      ensures Idle()
      ensures stop == (if inputs == [] then None else if old(shouldQuit) then Some(0) else FirstEscape(inputs))
      ensures shouldQuit == (old(shouldQuit) || stop.Some?)
      ensures draws == (if stop.Some? && IsEscape(inputs[stop.value]) then 1 else 0)
    {
      stop, draws := None, 0;
      var i := 0;
      while i < |inputs|
        invariant i <= |inputs|
        invariant Idle()
        invariant i > 0 ==> !old(shouldQuit)
        invariant shouldQuit == old(shouldQuit)
        invariant forall j :: 0 <= j < i ==> !IsEscape(inputs[j])
        invariant draws == 0 && stop.None?
      {
        var drawn := StepIdle(inputs[i]);
        draws := draws + drawn;
        if shouldQuit {
          stop := Some(i);
          break;
        }
        i := i + 1;
      }
    }
  }

  /** A fresh application fed a tick, an empty poll, then `Esc`: the loop
      stops after the third iteration, having drawn once, and never looks at
      the input that follows. */
  method EscapeScenario() returns (stop: Option<nat>, draws: nat, quit: bool)
    ensures stop == Some(2) && draws == 1 && quit
  {
    var app := new App();
    var esc := KeyEvent(Esc, 0, Press);
    var inputs := [Some(Event.Tick), None, Some(Event.Key(esc)), Some(Event.Render)];
    assert !IsEscape(inputs[0]) && !IsEscape(inputs[1]) && IsEscape(inputs[2]);
    stop, draws := app.Run(inputs);
    quit := app.shouldQuit;
  }
}
