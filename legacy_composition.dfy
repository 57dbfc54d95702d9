/**
 * The composition state machine of the earlier client (src/engine/composition.rs):
 * no input mode, no conversion engine; the host range shows the spelling itself.
 */
module LegacyComposition {
  import opened UserActions
  import RustStr
  import C = Composition

  /** The earlier action set: `MoveCursor` is declared but never produced. */
  datatype ClientAction =
    | StartComposition
    | EndComposition
    | AppendText(text: string)
    | RemoveText
    | MoveCursor(offset: int)

  datatype Decision = NotHandled | Handled(transition: C.CompositionState, actions: seq<ClientAction>)

  datatype Session = Session(spelling: string, state: C.CompositionState, calls: seq<C.HostCall>)

  /** The decision table: every character or digit key starts a composition. */
  function Decide(state: C.CompositionState, spelling: string, action: UserAction): (d: Decision)
    ensures d.Handled? ==> (d.transition == C.None || d.transition == C.Composing)
    ensures d.Handled? ==> forall i :: 0 <= i < |d.actions| ==> !d.actions[i].MoveCursor?
    ensures d.Handled? && state == C.None ==>
              (action.Input? || action.Number?) && d.transition == C.Composing &&
              d.actions == [StartComposition, AppendText(C.KeyText(action))]
  {
    match state
    case None =>
      if action.Input? || action.Number? then
        Handled(C.Composing, [StartComposition, AppendText(C.KeyText(action))])
      else NotHandled
    case Composing =>
      (match action
       case Input(_) => Handled(C.Composing, [AppendText(C.KeyText(action))])
       case Number(_) => Handled(C.Composing, [AppendText(C.KeyText(action))])
       case Backspace =>
         if RustStr.ByteLen(spelling) == 1 then Handled(C.None, [RemoveText, EndComposition])
         else Handled(C.Composing, [RemoveText])
       case Enter => Handled(C.None, [EndComposition])
       case Escape => Handled(C.None, [RemoveText, EndComposition])
       case _ => NotHandled)
    case _ => NotHandled
  }

  /** One iteration of the action loop; after each change the host is shown the spelling. */
  function Step(s: Session, a: ClientAction): (r: Session)
    ensures r.state == s.state
    ensures a.MoveCursor? ==> r == s
    ensures !a.MoveCursor? ==> |r.calls| == |s.calls| + 1 && s.calls <= r.calls
    ensures a.AppendText? || a.RemoveText? ==> r.calls[|s.calls|] == C.HostSetText(r.spelling)
  {
    match a
    case StartComposition => s.(calls := s.calls + [C.HostStartComposition])
    case EndComposition => s.(spelling := [], calls := s.calls + [C.HostEndComposition])
    case AppendText(t) => s.(spelling := s.spelling + t, calls := s.calls + [C.HostSetText(s.spelling + t)])
    case RemoveText =>
      var spell := RustStr.Pop(s.spelling);
      s.(spelling := spell, calls := s.calls + [C.HostSetText(spell)])
    case MoveCursor(_) => s
  }

  function Run(s: Session, actions: seq<ClientAction>): Session
    decreases |actions|
  {
    if actions == [] then s else Run(Step(s, actions[0]), actions[1..])
  }

  lemma {:induction false} RunSnoc(s: Session, actions: seq<ClientAction>, a: ClientAction)
    ensures Run(s, actions + [a]) == Step(Run(s, actions), a)
    decreases |actions|
  {
    if actions == [] {
      assert [a][1..] == [];
    } else {
      assert (actions + [a])[1..] == actions[1..] + [a];
      RunSnoc(Step(s, actions[0]), actions[1..], a);
    }
  }

  /** A key press: the batch, one more `set_text` of the final spelling, then the store. */
  function OnKey(s: Session, contextGiven: bool, action: UserAction): (bool, Session)
  {
    if !contextGiven then (false, s)
    else
      match Decide(s.state, s.spelling, action)
      case NotHandled => (false, s)
      case Handled(transition, actions) =>
        var r := Run(s, actions);
        (true, r.(state := transition, calls := r.calls + [C.HostSetText(r.spelling)]))
  }

  class TextService {
    var spelling: string
    var state: C.CompositionState
    var hasContext: bool
    var calls: seq<C.HostCall>

    function Snapshot(): Session
      reads this
    {
      Session(spelling, state, calls)
    }

    constructor ()
      ensures Snapshot() == Session([], C.None, []) && !hasContext
    {
      spelling, state, hasContext, calls := [], C.None, false, [];
    }

    /** `handle_key`, with the key already classified. */
    method HandleKey(contextGiven: bool, action: UserAction) returns (handled: bool)
      modifies this
      ensures (handled, Snapshot()) == OnKey(old(Snapshot()), contextGiven, action)
      ensures hasContext == (old(hasContext) || contextGiven)
    {
      if !contextGiven {
        return false;
      }
      hasContext := true;
      var decision := Decide(state, spelling, action);
      if decision.NotHandled? {
        return false;
      }
      var actions := decision.actions;
      var spell := spelling;
      ghost var start := Snapshot();
      var i := 0;
      while i < |actions|
        invariant 0 <= i <= |actions|
        invariant Run(start, actions[..i]) == Session(spell, state, calls)
        invariant state == old(state) && hasContext
      {
        var a := actions[i];
        RunSnoc(start, actions[..i], a);
        assert actions[..i + 1] == actions[..i] + [a];
        match a {
          case StartComposition =>
            calls := calls + [C.HostStartComposition];
          case EndComposition =>
            calls := calls + [C.HostEndComposition];
            spell := [];
          case AppendText(text) =>
            spell := spell + text;
            calls := calls + [C.HostSetText(spell)];
          case RemoveText =>
            spell := RustStr.Pop(spell);
            calls := calls + [C.HostSetText(spell)];
          case MoveCursor(_) =>
        }
        i := i + 1;
      }
      assert actions[..i] == actions;
      calls := calls + [C.HostSetText(spell)];
      spelling, state := spell, decision.transition;
      return true;
    }

    /** `OnCompositionTerminated` does nothing in this revision. */
    method OnCompositionTerminated()
      ensures Snapshot() == old(Snapshot())
    {
    }
  }

  /** After every handled key the host was last shown exactly the stored spelling. */
  lemma {:induction false} HostShowsSpelling(s: Session, action: UserAction)
    ensures var (handled, r) := OnKey(s, true, action);
            handled ==> |r.calls| > |s.calls| && r.calls[|r.calls| - 1] == C.HostSetText(r.spelling)
    ensures var (handled, r) := OnKey(s, true, action);
            handled ==> r.state == C.None || r.state == C.Composing
    ensures var (handled, r) := OnKey(s, true, action);
            !handled ==> r == s
  {
    match Decide(s.state, s.spelling, action)
    case NotHandled =>
    case Handled(_, actions) =>
      RunExtendsCalls(s, actions);
  }

  lemma {:induction false} RunExtendsCalls(s: Session, actions: seq<ClientAction>)
    ensures s.calls <= Run(s, actions).calls
    decreases |actions|
  {
    if actions != [] {
      RunExtendsCalls(Step(s, actions[0]), actions[1..]);
    }
  }

  /** The outcome of a handled key whose batch is `actions`. */
  lemma OnKeyHandled(s: Session, action: UserAction, transition: C.CompositionState, actions: seq<ClientAction>)
    requires Decide(s.state, s.spelling, action) == Handled(transition, actions)
    ensures OnKey(s, true, action) ==
              (true, Run(s, actions).(state := transition, calls := Run(s, actions).calls + [C.HostSetText(Run(s, actions).spelling)]))
  {
  }

  /** While composing, a character key followed by Backspace gives back the spelling. */
  lemma {:induction false} InputThenBackspace(s: Session, c: char)
    requires s.state == C.Composing
    ensures var (h1, s1) := OnKey(s, true, Input(c));
            var (h2, s2) := OnKey(s1, true, Backspace);
            h1 && h2 && s1.state == C.Composing && s1.spelling == s.spelling + [c] && s2.spelling == s.spelling
  {
    var spell1 := s.spelling + [c];
    assert C.KeyText(Input(c)) == [c];
    assert [AppendText([c])][1..] == [];
    assert Run(s, [AppendText([c])]).spelling == spell1;
    OnKeyHandled(s, Input(c), C.Composing, [AppendText([c])]);
    var s1 := OnKey(s, true, Input(c)).1;
    assert s1.spelling == spell1 && s1.state == C.Composing;
    RustStr.PushPop(s.spelling, c);
    if RustStr.ByteLen(spell1) == 1 {
      RustStr.ByteLenOne(spell1);
      assert s.spelling == [];
      var acts := [RemoveText, EndComposition];
      assert acts[1..] == [EndComposition];
      assert [EndComposition][1..] == [];
      assert Run(s1, acts).spelling == [];
      OnKeyHandled(s1, Backspace, C.None, acts);
    } else {
      assert [RemoveText][1..] == [];
      assert Run(s1, [RemoveText]).spelling == s.spelling;
      OnKeyHandled(s1, Backspace, C.Composing, [RemoveText]);
    }
  }

  /**
   * The one-character test counts bytes: a composition opened with a
   * non-ASCII character is not closed by Backspace; it stays open and empty.
   */
  lemma {:induction false} NonAsciiBackspaceKeepsComposing(s: Session, c: char)
    requires s.state == C.None && s.spelling == [] && (c as int) >= 0x80
    ensures var (_, s1) := OnKey(s, true, Input(c));
            var (h2, s2) := OnKey(s1, true, Backspace);
            h2 && s2.spelling == [] && s2.state == C.Composing
  {
    var acts := [StartComposition, AppendText([c])];
    assert C.KeyText(Input(c)) == [c];
    assert acts[1..] == [AppendText([c])];
    assert [AppendText([c])][1..] == [];
    var started := Step(s, StartComposition);
    assert Run(s, acts) == Run(started, [AppendText([c])]);
    assert Run(started, [AppendText([c])]) == Step(started, AppendText([c]));
    assert started.spelling + [c] == [c];
    assert Run(s, acts).spelling == [c];
    OnKeyHandled(s, Input(c), C.Composing, acts);
    var s1 := OnKey(s, true, Input(c)).1;
    assert s1.spelling == [c] && s1.state == C.Composing;
    RustStr.ByteLenOne(s1.spelling);
    assert [RemoveText][1..] == [];
    assert Run(s1, [RemoveText]).spelling == [];
    OnKeyHandled(s1, Backspace, C.Composing, [RemoveText]);
  }

  /** Backspace removes one character, and ends the composition when the spelling is one byte long. */
  lemma BackspaceDecision(spelling: string)
    ensures RustStr.ByteLen(spelling) == 1 ==>
              Decide(C.Composing, spelling, Backspace) == Handled(C.None, [RemoveText, EndComposition])
    ensures RustStr.ByteLen(spelling) != 1 ==>
              Decide(C.Composing, spelling, Backspace) == Handled(C.Composing, [RemoveText])
  {
  }

  /** With no composition, every character or digit key opens one with its text. */
  lemma IdleInputStarts(spelling: string, action: UserAction)
    requires action.Input? || action.Number?
    ensures Decide(C.None, spelling, action) == Handled(C.Composing, [StartComposition, AppendText(C.KeyText(action))])
  {
  }

  /** While composing, a character or digit key appends its text and keeps composing. */
  lemma ComposingAppends(spelling: string, action: UserAction)
    requires action.Input? || action.Number?
    ensures Decide(C.Composing, spelling, action) == Handled(C.Composing, [AppendText(C.KeyText(action))])
  {
  }

  /** Enter ends the host range and the composition; the host is then shown the empty spelling. */
  lemma EnterCommits(s: Session)
    requires s.state == C.Composing
    ensures OnKey(s, true, Enter) ==
              (true, Session([], C.None, s.calls + [C.HostEndComposition, C.HostSetText([])]))
  {
    assert [EndComposition][1..] == [];
    assert Run(s, [EndComposition]) == Step(s, EndComposition);
    OnKeyHandled(s, Enter, C.None, [EndComposition]);
    assert s.calls + [C.HostEndComposition] + [C.HostSetText([])] == s.calls + [C.HostEndComposition, C.HostSetText([])];
  }

  /**
   * Escape removes the last character (showing what is left), ends the host
   * range and the composition, and shows the empty spelling.
   */
  lemma {:induction false} EscapeCancels(s: Session)
    requires s.state == C.Composing
    ensures OnKey(s, true, Escape) ==
              (true, Session([], C.None, s.calls + [C.HostSetText(RustStr.Pop(s.spelling)),
                                                    C.HostEndComposition, C.HostSetText([])]))
  {
    var acts := [RemoveText, EndComposition];
    assert acts[1..] == [EndComposition];
    assert [EndComposition][1..] == [];
    var s1 := Step(s, RemoveText);
    assert Run(s, acts) == Run(s1, [EndComposition]) == Step(s1, EndComposition);
    assert s1.calls + [C.HostEndComposition] == s.calls + [C.HostSetText(RustStr.Pop(s.spelling)), C.HostEndComposition];
    OnKeyHandled(s, Escape, C.None, acts);
    var shown := s.calls + [C.HostSetText(RustStr.Pop(s.spelling))];
    assert shown + [C.HostEndComposition] + [C.HostSetText([])]
        == s.calls + [C.HostSetText(RustStr.Pop(s.spelling)), C.HostEndComposition, C.HostSetText([])];
  }

  /** Previewing and Selecting never take a key. */
  lemma OtherStatesIgnoreKeys(s: Session, contextGiven: bool, action: UserAction)
    requires s.state == C.Previewing || s.state == C.Selecting
    ensures OnKey(s, contextGiven, action) == (false, s)
  {
  }
}
