// What the key filter makes of a key: drags, chords, bindings and lone modifiers.
module Dispatching {
  import opened Common
  import opened Keyboard

  // A press that nothing holds back.
  ghost predicate Fresh(s: Filter, key: Key, context: Context) {
    key.pressed && key.code !in s.suppressed && !context.selecting && !context.interacting
  }

  // During a drag no key reaches the client: Escape cancels it, else Return
  // commits it; while a region is being selected keys do nothing.
  lemma DragKeys(s: Filter, key: Key, context: Context)
    requires key.pressed && key.code !in s.suppressed && (context.selecting || context.interacting)
    ensures var verdict := Filtered(s, key, context).1;
            && verdict.Intercept?
            && (verdict.action == Some(FinishInteraction(false)) <==> !context.selecting && 0xff1b in key.syms)
            && (verdict.action == Some(FinishInteraction(true))
                <==> !context.selecting && 0xff1b !in key.syms && 0xff0d in key.syms)
            && (verdict.action.Some? ==> verdict.action.value.FinishInteraction?)
  {
  }

  // Ctrl and Alt with Backspace quit; with a function key, or its switch keysym,
  // they switch to the terminal of its number.
  lemma ChordsDo(s: Filter, key: Key, context: Context, n: nat)
    requires Fresh(s, key, context) && key.mods.ctrl && key.mods.alt && 1 <= n <= 12
    ensures 0xff08 in key.syms ==> Filtered(s, key, context).1 == Intercept(Some(Dispatch(Quit)))
    ensures 0xff08 !in key.syms && context.tty
            && (key.modified == 0x1008FE00 + n
                || (key.syms == [0xffbd + n] && !(0x1008FE01 <= key.modified <= 0x1008FE0C)))
            ==> Filtered(s, key, context).1 == Intercept(Some(Vt(n)))
  {
  }

  // With Ctrl and Alt and nothing else, the combinations kept from shortcuts are
  // exactly those that the filter takes for itself on a terminal, keysym for keysym.
  lemma ReservedIsTaken(s: Filter, sym: nat, code: nat, context: Context)
    requires code !in s.suppressed && !context.selecting && !context.interacting
    requires context.tty && context.inhibited && !(0x1008FE01 <= sym <= 0x1008FE0C)
    ensures var chord := Mods(true, true, false, false);
            ReservedChord(Combination(chord, Keysym(sym)))
            <==> Filtered(s, Key(code, true, [sym], sym, chord), context).1 != Forward
  {
    assert [sym][1..] == [] && FirstFunctionKey([]).None?;
    assert FirstFunctionKey([sym]).Some? <==> KEY_F1 <= sym <= KEY_F12;
  }

  // A fresh press that is no chord dispatches what the first configured binding
  // that answers says; only without one the first global one; a lone modifier
  // waits for its release, and with no binding the client gets the key.
  lemma BindingsInOrder(s: Filter, key: Key, context: Context, b: Keybind)
    requires Fresh(s, key, context) && !context.inhibited && SessionChord(key, context.tty).None?
    ensures FirstOf(context.configured, key, b) ==>
              Filtered(s, key, context).1
              == Intercept(if b.keys.key.Modifier? then None else Some(Dispatch(b.dispatch)))
    ensures NoneOf(context.configured, key) && FirstOf(context.globals, key, b) && b.keys.key.Keysym? ==>
              Filtered(s, key, context).1 == Intercept(Some(Dispatch(b.dispatch)))
    ensures NoneOf(context.configured, key) && NoneOf(context.globals, key) ==>
              Filtered(s, key, context).1 == Forward
  {
    if FirstOf(context.configured, key, b) {
      FirstFound(context.configured, key, b);
    }
    if FirstOf(context.globals, key, b) {
      FirstFound(context.globals, key, b);
    }
  }

  ghost predicate NoneOf(bindings: seq<Keybind>, key: Key) {
    forall b :: b in bindings ==> !Answers(b, key.syms, key.mods)
  }

  // The first listed binding that answers a key.
  ghost predicate FirstOf(bindings: seq<Keybind>, key: Key, b: Keybind) {
    exists k :: 0 <= k < |bindings| && bindings[k] == b && Answers(b, key.syms, key.mods)
                && forall j :: 0 <= j < k ==> !Answers(bindings[j], key.syms, key.mods)
  }

  lemma FirstFound(bindings: seq<Keybind>, key: Key, b: Keybind)
    requires FirstOf(bindings, key, b)
    ensures FindBinding(bindings, key.syms, key.mods) == Some(b)
  {
    var found := FindBinding(bindings, key.syms, key.mods);
    assert found.Some?;
    var k :| 0 <= k < |bindings| && bindings[k] == b && Answers(b, key.syms, key.mods)
      && forall j :: 0 <= j < k ==> !Answers(bindings[j], key.syms, key.mods);
    var i :| 0 <= i < |bindings| && bindings[i] == found.value && Answers(found.value, key.syms, key.mods)
      && forall j :: 0 <= j < i ==> !Answers(bindings[j], key.syms, key.mods);
    assert !(i < k) && !(k < i);
  }

  // ------------------------------------------------------------------
  // Lone modifiers

  // Events that make a held modifier part of a combination.
  ghost predicate Joins(s: Filter, event: Event) {
    event.PendingDropped? || (event.KeyEvent? && Fresh(s, event.key, event.context))
  }

  // Nothing after the first n events of a trace made the held modifier part of a combination.
  ghost predicate Alone(trace: seq<Event>, n: nat) {
    forall i :: n <= i < |trace| ==> !Joins(State(trace[..i]), trace[i])
  }

  // A fresh press of a key that is bound as a lone modifier, without a live shortcut.
  ghost predicate Arms(s: Filter, event: Event, dispatch: Dispatch) {
    && event.KeyEvent? && Fresh(s, event.key, event.context) && !event.context.inhibited
    && SessionChord(event.key, event.context.tty).None? && event.key.code !in s.active
    && exists b :: FirstOf(event.context.configured, event.key, b) && b.keys.key.Modifier? && b.dispatch == dispatch
  }

  lemma ArmsPending(s: Filter, event: Event, dispatch: Dispatch)
    requires Arms(s, event, dispatch)
    ensures var t, code := After(s, event), event.key.code;
            t.pending == Some((code, dispatch)) && code in t.suppressed && code !in t.active
  {
    var b :| FirstOf(event.context.configured, event.key, b) && b.keys.key.Modifier? && b.dispatch == dispatch;
    FirstFound(event.context.configured, event.key, b);
  }

  // Whether the modifier is still pending shows whether it stayed alone.
  lemma {:induction false} PendingWhileAlone(trace: seq<Event>, n: nat, code: nat, dispatch: Dispatch)
    requires n <= |trace|
    requires var s := State(trace[..n]);
             s.pending == Some((code, dispatch)) && code in s.suppressed && code !in s.active
    requires forall i :: n <= i < |trace| ==> !trace[i].FocusLost? && (trace[i].KeyEvent? ==> trace[i].key.code != code)
    ensures var s := State(trace);
            && code in s.suppressed && code !in s.active
            && (if Alone(trace, n) then s.pending == Some((code, dispatch))
                else s.pending.Some? ==> s.pending.value.0 != code)
  {
    if n < |trace| {
      var front, last := trace[..|trace| - 1], trace[|trace| - 1];
      assert forall i :: 0 <= i <= |front| ==> front[..i] == trace[..i];
      PendingWhileAlone(front, n, code, dispatch);
      assert Alone(trace, n) <==> Alone(front, n) && !Joins(State(front), last) by { AloneOn(trace, n); }
      OtherEvent(State(front), last, code);
    } else {
      assert trace[..n] == trace;
    }
  }

  lemma AloneOn(trace: seq<Event>, n: nat)
    requires n < |trace|
    ensures var front := trace[..|trace| - 1];
            Alone(trace, n) <==> Alone(front, n) && !Joins(State(front), trace[|trace| - 1])
  {
    var front := trace[..|trace| - 1];
    forall i | n <= i < |front| ensures front[..i] == trace[..i] {
    }
    if Alone(front, n) && !Joins(State(front), trace[|trace| - 1]) {
      forall i | n <= i < |trace| ensures !Joins(State(trace[..i]), trace[i]) {
        if i < |front| {
          assert front[i] == trace[i];
        }
      }
    }
    if Alone(trace, n) {
      forall i | n <= i < |front| ensures !Joins(State(front[..i]), front[i]) {
        assert !Joins(State(trace[..i]), trace[i]);
      }
      assert trace[..|front|] == front;
    }
  }

  // Events on other keys leave a held key's suppression alone, and its pending
  // dispatch unless they join it.
  lemma OtherEvent(s: Filter, event: Event, code: nat)
    requires !event.FocusLost? && (event.KeyEvent? ==> event.key.code != code)
    ensures var t := After(s, event);
            && (code in s.suppressed ==> code in t.suppressed) && (code !in s.active ==> code !in t.active)
            && (s.pending.Some? && s.pending.value.0 == code ==>
                  if Joins(s, event) then t.pending.Some? ==> t.pending.value.0 != code else t.pending == s.pending)
            && ((s.pending.Some? ==> s.pending.value.0 != code) ==> (t.pending.Some? ==> t.pending.value.0 != code))
  {
  }

  // A key bound as a lone modifier dispatches on its release, exactly when no
  // other fresh press and no pointer button came in between and shortcuts are not
  // inhibited by then.
  lemma LoneModifierDispatches(trace: seq<Event>, n: nat, release: Event, dispatch: Dispatch)
    requires 0 < n <= |trace| && Arms(State(trace[..n - 1]), trace[n - 1], dispatch)
    requires IsRelease(release, trace[n - 1].key.code)
    requires forall i :: n <= i < |trace| ==>
               !trace[i].FocusLost? && (trace[i].KeyEvent? ==> trace[i].key.code != trace[n - 1].key.code)
    ensures Outcome(trace + [release])
            == Intercept(if Alone(trace, n) && !release.context.inhibited then Some(Dispatch(dispatch)) else None)
  {
    var code := trace[n - 1].key.code;
    assert trace[..n][..n - 1] == trace[..n - 1];
    ArmsPending(State(trace[..n - 1]), trace[n - 1], dispatch);
    PendingWhileAlone(trace, n, code, dispatch);
    assert (trace + [release])[..|trace|] == trace;
  }
}
