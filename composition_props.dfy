/** Properties of the composition state machine in module Composition. */
module CompositionProperties {
  import opened Composition
  import opened UserActions
  import opened InputModes
  import FullWidth
  import RustStr

  /** A batch either keeps the transition it was given or ends the composition. */
  lemma {:induction false} RunKeepsOrEndsState(s: Session, actions: seq<ClientAction>, readMode: InputMode,
                                               respond: seq<EngineCall> -> string)
    ensures var r := Run(s, actions, readMode, respond); r.state == s.state || r.state == None
    decreases |actions|
  {
    if actions != [] {
      var next := Step(s, actions[0], readMode, respond);
      RunKeepsOrEndsState(next, actions[1..], readMode, respond);
    }
  }

  /**
   * `RemoveText` ends the composition exactly when the engine's reply to the
   * removal is empty: the empty reply is shown, the host range is ended and
   * the engine cleared. Otherwise the carried state is kept.
   */
  lemma RemoveTextEmptyReply(s: Session, readMode: InputMode, respond: seq<EngineCall> -> string)
    ensures var reply := respond(EngineCalls(s.calls + [Engine(EngineRemove)]));
            reply == [] ==>
              Run(s, [RemoveText], readMode, respond) ==
                s.(spelling := RustStr.Pop(s.spelling), suggestion := [], state := None,
                   calls := s.calls + [Engine(EngineRemove), Host(HostSetText([])), Host(HostEndComposition), Engine(EngineClear)])
    ensures var reply := respond(EngineCalls(s.calls + [Engine(EngineRemove)]));
            reply != [] ==>
              Run(s, [RemoveText], readMode, respond) ==
                s.(spelling := RustStr.Pop(s.spelling), suggestion := reply,
                   calls := s.calls + [Engine(EngineRemove), Host(HostSetText(reply))])
  {
    assert [RemoveText][1..] == [];
  }

  /** Step `k` of a batch is a `RemoveText` to which the engine replied with nothing. */
  predicate EmptyReplyAt(s: Session, actions: seq<ClientAction>, k: nat, readMode: InputMode,
                         respond: seq<EngineCall> -> string)
    requires k < |actions|
  {
    actions[k] == RemoveText &&
    respond(EngineCalls(Run(s, actions[..k], readMode, respond).calls + [Engine(EngineRemove)])) == []
  }

  /** Only `RemoveText` touches the carried state, and only to set it to None. */
  lemma StepState(s: Session, a: ClientAction, readMode: InputMode, respond: seq<EngineCall> -> string)
    ensures a != RemoveText ==> Step(s, a, readMode, respond).state == s.state
    ensures a == RemoveText ==>
              (Step(s, a, readMode, respond).state == None
               <==> s.state == None || respond(EngineCalls(s.calls + [Engine(EngineRemove)])) == [])
    ensures a == RemoveText && Step(s, a, readMode, respond).state != None ==>
              Step(s, a, readMode, respond).state == s.state
  {
  }

  /**
   * A batch ends in None exactly when it started in None or one of its
   * `RemoveText` steps got an empty reply from the engine.
   */
  lemma {:induction false} RunEndsIffEmptyRemove(s: Session, actions: seq<ClientAction>, readMode: InputMode,
                                                 respond: seq<EngineCall> -> string)
    ensures Run(s, actions, readMode, respond).state == None <==>
              s.state == None || exists k: nat :: k < |actions| && EmptyReplyAt(s, actions, k, readMode, respond)
    decreases |actions|
  {
    if actions == [] {
    } else {
      var n := |actions| - 1;
      var init, a := actions[..n], actions[n];
      assert actions == init + [a];
      RunSnoc(s, init, a, readMode, respond);
      RunEndsIffEmptyRemove(s, init, readMode, respond);
      var mid := Run(s, init, readMode, respond);
      StepState(mid, a, readMode, respond);
      forall k: nat | k < n
        ensures EmptyReplyAt(s, actions, k, readMode, respond) == EmptyReplyAt(s, init, k, readMode, respond)
      {
        assert actions[..k] == init[..k];
      }
      assert actions[..n] == init;
      if Run(s, actions, readMode, respond).state == None && s.state != None {
        if mid.state == None {
          var k: nat :| k < n && EmptyReplyAt(s, init, k, readMode, respond);
          assert EmptyReplyAt(s, actions, k, readMode, respond);
        } else {
          assert EmptyReplyAt(s, actions, n, readMode, respond);
        }
      }
      if s.state != None && exists k: nat :: k < |actions| && EmptyReplyAt(s, actions, k, readMode, respond) {
        var k: nat :| k < |actions| && EmptyReplyAt(s, actions, k, readMode, respond);
        if k < n {
          assert EmptyReplyAt(s, init, k, readMode, respond);
        }
      }
    }
  }

  /** Calls to the host and the engine are only ever appended: a batch never takes one back. */
  lemma {:induction false} RunExtendsCalls(s: Session, actions: seq<ClientAction>, readMode: InputMode,
                                           respond: seq<EngineCall> -> string)
    ensures s.calls <= Run(s, actions, readMode, respond).calls
    decreases |actions|
  {
    if actions != [] {
      var next := Step(s, actions[0], readMode, respond);
      RunExtendsCalls(next, actions[1..], readMode, respond);
    }
  }

  /** A batch without `SetIMEMode` leaves the mode alone. */
  lemma {:induction false} RunKeepsMode(s: Session, actions: seq<ClientAction>, readMode: InputMode,
                                        respond: seq<EngineCall> -> string)
    requires forall i :: 0 <= i < |actions| ==> !actions[i].SetIMEMode?
    ensures Run(s, actions, readMode, respond).mode == s.mode
    decreases |actions|
  {
    if actions != [] {
      var next := Step(s, actions[0], readMode, respond);
      RunKeepsMode(next, actions[1..], readMode, respond);
    }
  }

  /** Without a context, or with Ctrl held, a key is passed on and nothing changes. */
  lemma KeyPassedOn(s: Session, contextGiven: bool, ctrlPressed: bool, action: UserAction,
                    respond: seq<EngineCall> -> string)
    requires !contextGiven || ctrlPressed
    ensures OnKey(s, contextGiven, ctrlPressed, action, respond) == (false, s)
  {
  }

  /** The preview and candidate-selection states are never entered, and once left, never come back. */
  lemma {:induction false} OnKeyStates(s: Session, contextGiven: bool, ctrlPressed: bool, action: UserAction,
                                       respond: seq<EngineCall> -> string)
    ensures var (handled, r) := OnKey(s, contextGiven, ctrlPressed, action, respond);
            handled ==> r.state == None || r.state == Composing
    ensures var (handled, r) := OnKey(s, contextGiven, ctrlPressed, action, respond);
            !handled ==> r == s
    ensures var (handled, r) := OnKey(s, contextGiven, ctrlPressed, action, respond);
            handled ==> s.state == None || s.state == Composing
  {
    if contextGiven && !ctrlPressed {
      var d := Decide(s.state, s.mode, s.spelling, action);
      if d.Handled? {
        RunKeepsOrEndsState(s.(state := d.transition), d.actions, s.mode, respond);
      }
    }
  }

  /**
   * In Kana mode with no composition, a character or digit key opens a
   * composition: the host range is started, the full-width text goes to the
   * engine, and the engine's reply is shown.
   */
  lemma {:induction false} IdleKanaInputStarts(s: Session, action: UserAction, respond: seq<EngineCall> -> string)
    requires s.state == None && s.mode == Kana && (action.Input? || action.Number?)
    ensures var text := Normalise(KeyText(action), Kana);
            var sent := s.calls + [Host(HostStartComposition), Engine(EngineAppend(text))];
            var reply := respond(EngineCalls(sent));
            OnKey(s, true, false, action, respond) ==
              (true, s.(state := Composing, spelling := s.spelling + text, suggestion := reply,
                        calls := sent + [Host(HostSetText(reply))]))
  {
    var t := KeyText(action);
    var acts := [StartComposition, AppendText(t)];
    var s0 := s.(state := Composing);
    var s1 := Step(s0, StartComposition, Kana, respond);
    assert Run(s0, acts, Kana, respond) == Run(s1, acts[1..], Kana, respond);
    assert acts[1..] == [AppendText(t)];
    var s2 := Step(s1, AppendText(t), Kana, respond);
    assert Run(s1, [AppendText(t)], Kana, respond) == Run(s2, [], Kana, respond);
    assert s1.calls + [Engine(EngineAppend(Normalise(t, Kana)))]
        == s.calls + [Host(HostStartComposition), Engine(EngineAppend(Normalise(t, Kana)))];
  }

  /** For a character key the opening text is the character's full-width form. */
  lemma IdleKanaCharSample(c: char)
    ensures Normalise(KeyText(Input(c)), Kana) == [FullWidth.FullChar(c, false)]
  {
    assert KeyText(Input(c)) == [c];
  }

  /** In Latin mode with no composition, character and digit keys go to the application. */
  lemma IdleLatinPassesKeys(s: Session, action: UserAction, respond: seq<EngineCall> -> string)
    requires s.state == None && s.mode == Latin && (action.Input? || action.Number?)
    ensures OnKey(s, true, false, action, respond) == (false, s)
  {
  }

  /** With no composition, the mode key toggles the mode and clears the composition fields. */
  lemma IdleToggleSwitchesMode(s: Session, respond: seq<EngineCall> -> string)
    requires s.state == None
    ensures OnKey(s, true, false, ToggleInputMode, respond) ==
              (true, s.(spelling := [], suggestion := [], mode := Toggled(s.mode),
                        calls := s.calls + [Host(HostSetInputMode(Toggled(s.mode))), Engine(EngineClear)]))
  {
    var acts := [SetIMEMode(Toggled(s.mode))];
    assert Decide(s.state, s.mode, s.spelling, ToggleInputMode) == Handled(None, acts);
    assert s.(state := None) == s;
    assert acts[1..] == [];
    assert Run(s, acts, s.mode, respond) == Step(s, acts[0], s.mode, respond);
  }

  /** While composing, the mode key always falls back to Latin and ends the composition state. */
  lemma ComposingToggleGoesLatin(s: Session, respond: seq<EngineCall> -> string)
    requires s.state == Composing
    ensures OnKey(s, true, false, ToggleInputMode, respond) ==
              (true, s.(spelling := [], suggestion := [], state := None, mode := Latin,
                        calls := s.calls + [Host(HostSetInputMode(Latin)), Engine(EngineClear)]))
  {
    assert [SetIMEMode(Latin)][1..] == [];
  }

  /** Enter commits: the host range is ended, the engine is cleared, the composition is empty. */
  lemma EnterCommits(s: Session, respond: seq<EngineCall> -> string)
    requires s.state == Composing
    ensures OnKey(s, true, false, Enter, respond) ==
              (true, s.(spelling := [], suggestion := [], state := None,
                        calls := s.calls + [Host(HostEndComposition), Engine(EngineClear)]))
  {
    assert [EndComposition][1..] == [];
  }

  /** Escape cancels: whatever the engine says, the composition ends empty. */
  lemma {:induction false} EscapeCancels(s: Session, respond: seq<EngineCall> -> string)
    requires s.state == Composing
    ensures var (handled, r) := OnKey(s, true, false, Escape, respond);
            handled && r.spelling == [] && r.suggestion == [] && r.state == None && r.mode == s.mode
    ensures var (_, r) := OnKey(s, true, false, Escape, respond);
            |r.calls| >= |s.calls| + 4 && r.calls[|r.calls| - 2..] == [Host(HostEndComposition), Engine(EngineClear)]
  {
    var acts := [RemoveText, EndComposition];
    var s1 := Step(s, RemoveText, s.mode, respond);
    assert acts[1..] == [EndComposition];
    assert [EndComposition][1..] == [];
    assert Run(s, acts, s.mode, respond) == Step(s1, EndComposition, s.mode, respond);
  }

  /** Arrow keys while composing are swallowed without touching the composition. */
  lemma NavigationSwallowed(s: Session, direction: Navigation, respond: seq<EngineCall> -> string)
    requires s.state == Composing
    ensures OnKey(s, true, false, Navigation(direction), respond) == (true, s)
  {
    assert [MoveCursor(1)][1..] == [];
    assert [MoveCursor(-1)][1..] == [];
  }

  /** Appending one character and removing one restores the spelling. */
  lemma {:induction false} AppendThenRemove(s: Session, t: string, readMode: InputMode,
                                            respond: seq<EngineCall> -> string)
    requires |t| == 1
    ensures Run(s, [AppendText(t), RemoveText], readMode, respond).spelling == s.spelling
  {
    var s1 := Step(s, AppendText(t), readMode, respond);
    var text := Normalise(t, readMode);
    assert text == [text[0]];
    assert [AppendText(t), RemoveText][1..] == [RemoveText];
    assert [RemoveText][1..] == [];
    RustStr.PushPop(s.spelling, text[0]);
  }

  /**
   * While composing, a character key followed by Backspace gives back the
   * spelling the composition had, in either mode and whatever the engine replies.
   */
  lemma {:induction false} InputThenBackspace(s: Session, c: char, respond: seq<EngineCall> -> string)
    requires s.state == Composing
    ensures var (h1, s1) := OnKey(s, true, false, Input(c), respond);
            var (h2, s2) := OnKey(s1, true, false, Backspace, respond);
            h1 && h2 && s1.state == Composing && s2.spelling == s.spelling
  {
    var text := Normalise([c], s.mode);
    assert text == [text[0]];
    assert [AppendText([c])][1..] == [];
    var s1 := Step(s, AppendText([c]), s.mode, respond);
    assert KeyText(Input(c)) == [c];
    assert Decide(s.state, s.mode, s.spelling, Input(c)) == Handled(Composing, [AppendText([c])]);
    assert s.(state := Composing) == s;
    assert Run(s, [AppendText([c])], s.mode, respond) == s1;
    assert s1.spelling == s.spelling + [text[0]];
    RustStr.PushPop(s.spelling, text[0]);
    assert [RemoveText][1..] == [];
    assert [RemoveText, EndComposition][1..] == [EndComposition];
    assert [EndComposition][1..] == [];
    if RustStr.ByteLen(s1.spelling) == 1 {
      RustStr.ByteLenOne(s1.spelling);
      assert s.spelling == [];
    }
  }

  /**
   * Backspace while composing removes one character; when the spelling is a
   * single byte long it also ends the composition.
   */
  lemma BackspaceDecision(mode: InputMode, spelling: string)
    ensures RustStr.ByteLen(spelling) == 1 ==>
              Decide(Composing, mode, spelling, Backspace) == Handled(None, [RemoveText, EndComposition])
    ensures RustStr.ByteLen(spelling) != 1 ==>
              Decide(Composing, mode, spelling, Backspace) == Handled(Composing, [RemoveText])
  {
  }

  /**
   * Backspace on a spelling that is not one byte long asks the engine to
   * remove a character; an empty reply ends the composition (the outer
   * batch still stores the shortened spelling), any other reply is shown
   * and the composition stays open.
   */
  lemma {:induction false} BackspaceEmptyReplyEnds(s: Session, respond: seq<EngineCall> -> string)
    requires s.state == Composing && RustStr.ByteLen(s.spelling) != 1
    ensures var reply := respond(EngineCalls(s.calls + [Engine(EngineRemove)]));
            reply == [] ==>
              OnKey(s, true, false, Backspace, respond) ==
                (true, s.(spelling := RustStr.Pop(s.spelling), suggestion := [], state := None,
                          calls := s.calls + [Engine(EngineRemove), Host(HostSetText([])), Host(HostEndComposition), Engine(EngineClear)]))
    ensures var reply := respond(EngineCalls(s.calls + [Engine(EngineRemove)]));
            reply != [] ==>
              OnKey(s, true, false, Backspace, respond) ==
                (true, s.(spelling := RustStr.Pop(s.spelling), suggestion := reply,
                          calls := s.calls + [Engine(EngineRemove), Host(HostSetText(reply))]))
  {
    BackspaceDecision(s.mode, s.spelling);
    assert s.(state := Composing) == s;
    RemoveTextEmptyReply(s, s.mode, respond);
  }

  /** While composing, a character or digit key appends its text and keeps composing, in either mode. */
  lemma ComposingAppends(mode: InputMode, spelling: string, action: UserAction)
    requires action.Input? || action.Number?
    ensures Decide(Composing, mode, spelling, action) == Handled(Composing, [AppendText(KeyText(action))])
  {
  }

  /** A composition being previewed or selected from never takes a key. */
  lemma OtherStatesIgnoreKeys(s: Session, contextGiven: bool, ctrlPressed: bool, action: UserAction,
                              respond: seq<EngineCall> -> string)
    requires s.state == Previewing || s.state == Selecting
    ensures OnKey(s, contextGiven, ctrlPressed, action, respond) == (false, s)
  {
  }

  /** While composing, keys the table does not list go to the application. */
  lemma UnlistedKeysPassWhileComposing(s: Session, action: UserAction, respond: seq<EngineCall> -> string)
    requires s.state == Composing && (action.Space? || action.Tab? || action.Unknown? || action.Function?)
    ensures OnKey(s, true, false, action, respond) == (false, s)
  {
  }
}
