/**
 * The composition state machine of the current client
 * (crates/client/src/engine/composition.rs).
 *
 * `handle_key` is split as the source splits it: `Decide` is the decision
 * table, `TextService.HandleAction` executes the resulting actions in order.
 * The conversion engine and the host's edit range are collaborators outside
 * the model; every request sent to them is appended to one log of `Call`s,
 * in the order it is made. The engine's reply (a suggestion string) is an
 * oracle: a function of the engine requests made so far.
 */
module Composition {
  import opened UserActions
  import opened InputModes
  import FullWidth
  import RustStr

  datatype CompositionState = None | Composing | Previewing | Selecting

  /** The actions `handle_action` executes. */
  datatype ClientAction =
    | StartComposition
    | EndComposition
    | AppendText(text: string)
    | RemoveText
    | MoveCursor(offset: int)
    | SetIMEMode(mode: InputMode)

  /** `Ok(false)` from the decision table is `NotHandled`. */
  datatype Decision = NotHandled | Handled(transition: CompositionState, actions: seq<ClientAction>)

  datatype EngineCall = EngineAppend(text: string) | EngineRemove | EngineClear

  datatype HostCall =
    | HostStartComposition
    | HostEndComposition
    | HostSetText(text: string)
    | HostSetInputMode(mode: InputMode)

  datatype Call = Engine(engineCall: EngineCall) | Host(hostCall: HostCall)

  /** The engine requests among all calls, in order. */
  function EngineCalls(calls: seq<Call>): (r: seq<EngineCall>)
    ensures |r| <= |calls|
    ensures forall i :: 0 <= i < |r| ==> Engine(r[i]) in calls
    ensures (forall i :: 0 <= i < |calls| ==> calls[i].Host?) ==> r == []
  {
    if calls == [] then []
    else (if calls[0].Engine? then [calls[0].engineCall] else []) + EngineCalls(calls[1..])
  }

  /** The engine requests of two stretches of calls are those of the first, then those of the second. */
  lemma {:induction false} EngineCallsConcat(a: seq<Call>, b: seq<Call>)
    ensures EngineCalls(a + b) == EngineCalls(a) + EngineCalls(b)
    decreases |a|
  {
    if a == [] {
      assert a + b == b;
    } else {
      assert (a + b)[0] == a[0];
      assert (a + b)[1..] == a[1..] + b;
      EngineCallsConcat(a[1..], b);
    }
  }

  /** The composition fields together with the mode and the calls made so far. */
  datatype Session = Session(
    spelling: string,
    suggestion: string,
    state: CompositionState,
    mode: InputMode,
    calls: seq<Call>)

  /** The text a character or digit key appends (`char.to_string()`, `number.to_string()`). */
  function KeyText(action: UserAction): string
    requires action.Input? || action.Number?
  {
    if action.Input? then [action.c] else RustStr.Decimal(action.n)
  }

  /** The decision table of `handle_key`. */
  function Decide(state: CompositionState, mode: InputMode, spelling: string, action: UserAction): (d: Decision)
    ensures d.Handled? ==> d.transition == None || d.transition == Composing
    ensures d.Handled? ==> state == None || state == Composing
    ensures d.Handled? && StartComposition in d.actions ==>
              state == None && mode == Kana && d.transition == Composing &&
              (action.Input? || action.Number?) && d.actions == [StartComposition, AppendText(KeyText(action))]
  {
    match state
    case None =>
      if (action.Input? || action.Number?) && mode == Kana then
        Handled(Composing, [StartComposition, AppendText(KeyText(action))])
      else if action.ToggleInputMode? then
        Handled(None, [SetIMEMode(Toggled(mode))])
      else NotHandled
    case Composing =>
      (match action
      case Input(_) => Handled(Composing, [AppendText(KeyText(action))])
      case Number(_) => Handled(Composing, [AppendText(KeyText(action))])
      case Backspace =>
        if RustStr.ByteLen(spelling) == 1 then Handled(None, [RemoveText, EndComposition])
        else Handled(Composing, [RemoveText])
      case Enter => Handled(None, [EndComposition])
      case Escape => Handled(None, [RemoveText, EndComposition])
      case Navigation(Right) => Handled(Composing, [MoveCursor(1)])
      case Navigation(Left) => Handled(Composing, [MoveCursor(-1)])
      case Navigation(_) => Handled(Composing, [])
      case ToggleInputMode => Handled(None, [SetIMEMode(Latin)])
      case _ => NotHandled)
    case _ => NotHandled
  }

  /** `AppendText` normalises its text only in Kana mode, without full-width letters. */
  function Normalise(text: string, mode: InputMode): (r: string)
    ensures |r| == |text|
    ensures mode == Latin ==> r == text
    ensures mode == Kana ==> forall i :: 0 <= i < |text| ==> r[i] == FullWidth.FullChar(text[i], false)
  {
    match mode
    case Kana => FullWidth.ToFullwidth(text, false)
    case Latin => text
  }

  /**
   * One iteration of the `handle_action` loop. `readMode` is the mode read
   * when the batch started. On an empty suggestion `RemoveText` runs the
   * nested `handle_action([EndComposition], None)`: its host and engine calls
   * happen, but the fields it stores are overwritten when the outer batch stores
   * its own, so only its calls survive.
   */
  function Step(s: Session, a: ClientAction, readMode: InputMode, respond: seq<EngineCall> -> string): (r: Session)
    ensures s.calls <= r.calls
    ensures a.SetIMEMode? ==> r.mode == a.mode
    ensures !a.SetIMEMode? ==> r.mode == s.mode
    ensures a.MoveCursor? ==> r == s
  {
    match a
    case StartComposition =>
      s.(calls := s.calls + [Host(HostStartComposition)])
    case EndComposition =>
      s.(spelling := [], suggestion := [], calls := s.calls + [Host(HostEndComposition), Engine(EngineClear)])
    case AppendText(t) =>
      var text := Normalise(t, readMode);
      var calls := s.calls + [Engine(EngineAppend(text))];
      var reply := respond(EngineCalls(calls));
      s.(spelling := s.spelling + text, suggestion := reply, calls := calls + [Host(HostSetText(reply))])
    case RemoveText =>
      var calls := s.calls + [Engine(EngineRemove)];
      var reply := respond(EngineCalls(calls));
      var shown := calls + [Host(HostSetText(reply))];
      if reply == [] then
        s.(spelling := RustStr.Pop(s.spelling), suggestion := reply, state := None,
           calls := shown + [Host(HostEndComposition), Engine(EngineClear)])
      else
        s.(spelling := RustStr.Pop(s.spelling), suggestion := reply, calls := shown)
    case MoveCursor(_) => s
    case SetIMEMode(m) =>
      s.(spelling := [], suggestion := [], mode := m,
         calls := s.calls + [Host(HostSetInputMode(m)), Engine(EngineClear)])
  }

  /** The whole `handle_action` loop; `s.state` holds the transition being carried. */
  function Run(s: Session, actions: seq<ClientAction>, readMode: InputMode, respond: seq<EngineCall> -> string): Session
    decreases |actions|
  {
    if actions == [] then s else Run(Step(s, actions[0], readMode, respond), actions[1..], readMode, respond)
  }

  lemma {:induction false} RunSnoc(s: Session, actions: seq<ClientAction>, a: ClientAction,
                                   readMode: InputMode, respond: seq<EngineCall> -> string)
    ensures Run(s, actions + [a], readMode, respond) == Step(Run(s, actions, readMode, respond), a, readMode, respond)
    decreases |actions|
  {
    if actions == [] {
      assert [a][1..] == [];
    } else {
      assert (actions + [a])[1..] == actions[1..] + [a];
      RunSnoc(Step(s, actions[0], readMode, respond), actions[1..], a, readMode, respond);
    }
  }

  /** One key press: the guard on the context and Ctrl, the decision, then the batch. */
  function OnKey(s: Session, contextGiven: bool, ctrlPressed: bool, action: UserAction,
                 respond: seq<EngineCall> -> string): (bool, Session)
  {
    if !contextGiven || ctrlPressed then (false, s)
    else
      match Decide(s.state, s.mode, s.spelling, action)
      case NotHandled => (false, s)
      case Handled(transition, actions) => (true, Run(s.(state := transition), actions, s.mode, respond))
  }

  /** The text service's composition fields and the calls it has made. */
  class TextService {
    var spelling: string
    var suggestion: string
    var state: CompositionState
    var mode: InputMode
    var hasContext: bool
    var calls: seq<Call>
    const respond: seq<EngineCall> -> string

    function Snapshot(): Session
      reads this
    {
      Session(spelling, suggestion, state, mode, calls)
    }

    constructor (respond: seq<EngineCall> -> string)
      ensures Snapshot() == Session([], [], None, DefaultMode, [])
      ensures !hasContext && this.respond == respond
    {
      spelling, suggestion, state, mode := [], [], None, DefaultMode;
      hasContext, calls := false, [];
      this.respond := respond;
    }

    /** `handle_action`: run the batch, then store spelling, suggestion and state once. */
    method HandleAction(actions: seq<ClientAction>, transition: CompositionState)
      modifies this
      ensures Snapshot() == Run(old(Snapshot()).(state := transition), actions, old(mode), respond)
      ensures hasContext == old(hasContext)
      decreases if RemoveText in actions then 1 else 0
    {
      var readMode := mode;
      var spell := spelling;
      var suggestion' := suggestion;
      var transition' := transition;
      ghost var start := Snapshot().(state := transition);
      var i := 0;
      while i < |actions|
        invariant 0 <= i <= |actions|
        invariant Run(start, actions[..i], readMode, respond) == Session(spell, suggestion', transition', mode, calls)
        invariant hasContext == old(hasContext)
      {
        var a := actions[i];
        RunSnoc(start, actions[..i], a, readMode, respond);
        assert actions[..i + 1] == actions[..i] + [a];
        match a {
          case StartComposition =>
            calls := calls + [Host(HostStartComposition)];
          case EndComposition =>
            calls := calls + [Host(HostEndComposition)];
            spell := [];
            suggestion' := [];
            calls := calls + [Engine(EngineClear)];
          case AppendText(t) =>
            var text := Normalise(t, readMode);
            spell := spell + text;
            calls := calls + [Engine(EngineAppend(text))];
            suggestion' := respond(EngineCalls(calls));
            calls := calls + [Host(HostSetText(suggestion'))];
          case RemoveText =>
            spell := RustStr.Pop(spell);
            calls := calls + [Engine(EngineRemove)];
            suggestion' := respond(EngineCalls(calls));
            calls := calls + [Host(HostSetText(suggestion'))];
            if suggestion' == [] {
              transition' := None;
              HandleAction([EndComposition], None);
            }
          case MoveCursor(_) =>
          case SetIMEMode(m) =>
            calls := calls + [Host(HostSetInputMode(m))];
            mode := m;
            spell := [];
            suggestion' := [];
            calls := calls + [Engine(EngineClear)];
        }
        i := i + 1;
      }
      assert actions[..i] == actions;
      spelling, suggestion, state := spell, suggestion', transition';
    }

    /** `handle_key`, with the key already classified. */
    method HandleKey(contextGiven: bool, ctrlPressed: bool, action: UserAction) returns (handled: bool)
      modifies this
      ensures (handled, Snapshot()) == OnKey(old(Snapshot()), contextGiven, ctrlPressed, action, respond)
      ensures hasContext == (old(hasContext) || contextGiven)
    {
      if !contextGiven {
        return false;
      }
      hasContext := true;
      if ctrlPressed {
        return false;
      }
      var decision := Decide(state, mode, spelling, action);
      match decision {
        case NotHandled =>
          return false;
        case Handled(transition, actions) =>
          HandleAction(actions, transition);
          return true;
      }
    }

    /** `OnCompositionTerminated`: the host ended the composition (a click outside it). */
    method OnCompositionTerminated()
      modifies this
      ensures Snapshot() == old(Snapshot()).(spelling := [], suggestion := [], state := None,
                                            calls := old(calls) + [Host(HostEndComposition), Engine(EngineClear)])
      ensures hasContext == old(hasContext)
    {
      HandleAction([EndComposition], None);
    }
  }
}
